/**
  The index of the chart cache: manifests stored under the full names of references, listed by parsing the
  names again. The blobs behind a manifest are opaque: `loads` says whether the chart can be read from them.
*/
module ChartCache {
  import opened Wrappers
  import opened Reference

  type Manifest = string

  datatype Summary = Summary(name: string, repo: string, tag: string, found: bool, manifest: Option<Manifest>)

  /** The name is the full name of a reference the parser can produce. */
  ghost predicate Listable(name: string, url: UrlCheck) {
    exists r :: WellFormed(r, url) && r.FullName() == name
  }

  /** Parsing a listable name gives the reference that is looked up under that same name. */
  lemma ListableIff(name: string, url: UrlCheck)
    ensures Listable(name, url) <==>
            ParseReference(name, url).Ok? && ParseReference(name, url).value.FullName() == name
  {
    if Listable(name, url) {
      var r :| WellFormed(r, url) && r.FullName() == name;
      ParseIff(name, r, url);
    }
    if ParseReference(name, url).Ok? {
      ParseIff(name, ParseReference(name, url).value, url);
    }
  }

  /** rr summarises the names in done, each once, with the manifest stored under it. */
  ghost predicate Summarises(index: map<string, Manifest>, loads: Manifest -> bool, done: set<string>, rr: seq<Summary>) {
    && done <= index.Keys
    && (forall i :: 0 <= i < |rr| ==> rr[i].name in done && rr[i].found && rr[i].manifest == Some(index[rr[i].name]))
    && (forall i :: 0 <= i < |rr| ==> Reference(rr[i].tag, rr[i].repo).FullName() == rr[i].name)
    && (forall i, j :: 0 <= i < j < |rr| ==> rr[i].name != rr[j].name)
    && (forall name :: name in done ==> loads(index[name]) && exists i :: 0 <= i < |rr| && rr[i].name == name)
  }

  lemma SummarisesOneMore(index: map<string, Manifest>, loads: Manifest -> bool, done: set<string>, rr: seq<Summary>, r: Summary)
    requires Summarises(index, loads, done, rr)
    requires r.name in index && r.name !in done && loads(index[r.name]) && r.found && r.manifest == Some(index[r.name])
    requires Reference(r.tag, r.repo).FullName() == r.name
    ensures Summarises(index, loads, done + {r.name}, rr + [r])
  {
    var rr' := rr + [r];
    forall name | name in done + {r.name} ensures exists i :: 0 <= i < |rr'| && rr'[i].name == name {
      if name in done {
        var i :| 0 <= i < |rr| && rr[i].name == name;
        assert rr'[i].name == name;
      } else {
        assert rr'[|rr|].name == name;
      }
    }
  }

  class Cache {
    const url: UrlCheck
    const loads: Manifest -> bool
    var index: map<string, Manifest>

    constructor (url: UrlCheck, loads: Manifest -> bool)
      ensures Valid() && index == map[] && this.url == url && this.loads == loads
    {
      this.url, this.loads, index := url, loads, map[];
    }

    ghost predicate Valid()
      reads this
    {
      forall name :: name in index ==> Listable(name, url)
    }

    /** Any reference can be added; one that came from the parser keeps the index listable. */
    method AddManifest(ref: Reference, manifest: Manifest)
      modifies this
      ensures index == old(index)[ref.FullName() := manifest]
      ensures old(Valid()) && WellFormed(ref, url) ==> Valid()
    {
      index := index[ref.FullName() := manifest];
    }

    method FetchReference(ref: Reference) returns (r: Summary, ok: bool)
      ensures r.name == ref.FullName() && r.repo == ref.repo && r.tag == ref.tag
      ensures r.found <==> ref.FullName() in index
      ensures ok <==> (r.found ==> loads(index[r.name]))
      ensures r.found && ok ==> r.manifest == Some(index[r.name])
    {
      r, ok := Summary(ref.FullName(), ref.repo, ref.tag, false, None), true;
      var todo := index.Keys;
      while todo != {}
        invariant todo <= index.Keys && ok
        invariant r == if r.name in index && r.name !in todo then Summary(ref.FullName(), ref.repo, ref.tag, true, Some(index[r.name]))
                       else Summary(ref.FullName(), ref.repo, ref.tag, false, None)
        invariant r.found ==> loads(index[r.name])
        decreases todo
      {
        var name :| name in todo;
        todo := todo - {name};
        if name == r.name {
          r := r.(found := true);
          if !loads(index[name]) { return r, false; }
          r := r.(manifest := Some(index[name]));
        }
      }
    }

    /** Only a reference that exists and can be read is deleted. */
    method DeleteReference(ref: Reference) returns (r: Summary, ok: bool)
      modifies this
      ensures r.name == ref.FullName() && (r.found <==> ref.FullName() in old(index))
      ensures ok <==> (r.found ==> loads(old(index)[r.name]))
      ensures index == if ok then old(index) - {ref.FullName()} else old(index)
      ensures old(Valid()) ==> Valid()
    {
      r, ok := FetchReference(ref);
      if ok && r.found {
        index := index - {r.name};
      }
    }

    /**
      On a listable index, listing fails only for a chart that cannot be read, and otherwise summarises every
      name; what it returns before failing summarises the names it got to.
    */
    method ListReferences() returns (rr: seq<Summary>, ok: bool)
      ensures Valid() ==> (ok <==> forall name :: name in index ==> loads(index[name]))
      ensures Valid() ==> exists done :: Summarises(index, loads, done, rr) && (ok ==> done == index.Keys)
    {
      rr, ok := [], true;
      var todo := index.Keys;
      while todo != {}
        invariant todo <= index.Keys && ok
        invariant Valid() ==> Summarises(index, loads, index.Keys - todo, rr)
        decreases todo
      {
        var name :| name in todo;
        ghost var done := index.Keys - todo;
        ListableIff(name, url);
        if name != "" {
          match ParseReference(name, url)
          case Err(_) => return rr, false;
          case Ok(ref) =>
            var r, fetched := FetchReference(ref);
            if !fetched { return rr, false; }
            if Valid() { SummarisesOneMore(index, loads, done, rr, r); }
            rr := rr + [r];
        }
        todo := todo - {name};
        assert index.Keys - todo == done + {name};
      }
      assert index.Keys - todo == index.Keys;
    }
  }

  /** NewCache: the root directory must be set. */
  method NewCache(rootDir: string, url: UrlCheck, loads: Manifest -> bool) returns (r: Result<Cache>)
    ensures r.Ok? <==> rootDir != ""
    ensures r.Ok? ==> fresh(r.value) && r.value.Valid() && r.value.index == map[] && r.value.url == url && r.value.loads == loads
  {
    if rootDir == "" { return Err("must set cache root dir on initialization"); }
    var cache := new Cache(url, loads);
    return Ok(cache);
  }
}
