/**
  The combined lister: one list and one resource version out of many, and the distribution of that version
  to the underlying listers when the watch starts.
*/
module ResourceVersions {
  import opened Wrappers
  import opened Strings

  /** What one underlying lister returns: its items and its resource version. */
  datatype Listing<+T> = Listing(items: seq<T>, version: string)

  function Concat<T>(ls: seq<Listing<T>>): seq<T> {
    if ls == [] then [] else Concat(ls[..|ls| - 1]) + ls[|ls| - 1].items
  }

  function Versions<T>(ls: seq<Listing<T>>): (vs: seq<string>)
    ensures |vs| == |ls| && forall i :: 0 <= i < |ls| ==> vs[i] == ls[i].version
  {
    seq(|ls|, i requires 0 <= i < |ls| => ls[i].version)
  }

  /** The lists the listers give, when none of them fails. */
  function Values<T>(answers: seq<Result<Listing<T>>>): (ls: seq<Listing<T>>)
    requires forall i :: 0 <= i < |answers| ==> answers[i].Ok?
    ensures |ls| == |answers| && forall i :: 0 <= i < |ls| ==> ls[i] == answers[i].value
  {
    seq(|answers|, i requires 0 <= i < |answers| => answers[i].value)
  }

  /** The first failing lister fails the list; otherwise items and versions are combined in lister order. */
  method List<T>(answers: seq<Result<Listing<T>>>) returns (r: Result<Listing<T>>)
    ensures r.Ok? <==> forall i :: 0 <= i < |answers| ==> answers[i].Ok?
    ensures r.Ok? ==> r.value == Listing(Concat(Values(answers)), Join(Versions(Values(answers)), '/'))
    ensures r.Err? ==> exists i :: 0 <= i < |answers| && answers[i] == Err(r.error) && forall k :: 0 <= k < i ==> answers[k].Ok?
  {
    var items, versions := [], [];
    for i := 0 to |answers|
      invariant forall k :: 0 <= k < i ==> answers[k].Ok?
      invariant items == Concat(Values(answers[..i]))
      invariant versions == Versions(Values(answers[..i]))
    {
      match answers[i]
      case Err(e) => return Err(e);
      case Ok(l) =>
        assert Values(answers[..i + 1])[..i] == Values(answers[..i]);
        items := items + l.items;
        versions := versions + [l.version];
    }
    assert answers[..|answers|] == answers;
    r := Ok(Listing(items, Join(versions, '/')));
  }

  /** The versions Watch hands to its n listers, the i'th to the i'th. */
  function Distribute(n: nat, version: string): Result<seq<string>> {
    if version == "" then Ok(seq(n, i => ""))
    else
      var rvs := Split(version, '/');
      if |rvs| != n then Err("resource version does not match the number of listers") else Ok(rvs)
  }

  function Total<T>(ls: seq<Listing<T>>): nat {
    if ls == [] then 0 else Total(ls[..|ls| - 1]) + |ls[|ls| - 1].items|
  }

  /** The items of lister i stand after those of the listers before it, in their own order. */
  lemma {:induction false} ConcatAt<T>(ls: seq<Listing<T>>, i: nat)
    requires i < |ls|
    ensures var at := Total(ls[..i]);
            at + |ls[i].items| <= |Concat(ls)| == Total(ls) && Concat(ls)[at..at + |ls[i].items|] == ls[i].items
  {
    var n, at := |ls| - 1, Total(ls[..i]);
    var all := Concat(ls[..n]);
    ConcatLength(ls[..n]);
    if i < n {
      ConcatAt(ls[..n], i);
      assert ls[..n][..i] == ls[..i];
      assert (all + ls[n].items)[at..at + |ls[i].items|] == all[at..at + |ls[i].items|];
    } else {
      assert (all + ls[n].items)[|all|..|all| + |ls[n].items|] == ls[n].items;
    }
  }

  lemma {:induction false} ConcatLength<T>(ls: seq<Listing<T>>)
    ensures |Concat(ls)| == Total(ls)
  {
    if ls != [] { ConcatLength(ls[..|ls| - 1]); }
  }

  /**
    Every version a caller may pass: an empty one reaches each lister empty, any other is cut at its slashes,
    and refused exactly if that does not give one part for each lister.
  */
  lemma DistributeIff(n: nat, version: string, rvs: seq<string>)
    ensures Distribute(n, version) == Ok(rvs) <==>
            |rvs| == n && if version == "" then forall i :: 0 <= i < n ==> rvs[i] == ""
                          else Join(rvs, '/') == version && forall v :: v in rvs ==> '/' !in v
    ensures Distribute(n, version).Ok? <==> version == "" || Count(version, '/') + 1 == n
  {
    if version == "" {
      assert |rvs| == n && (forall i :: 0 <= i < n ==> rvs[i] == "") ==> rvs == seq(n, i => "");
    } else {
      SplitParts(version, '/');
      if Join(rvs, '/') == version && forall v :: v in rvs ==> '/' !in v {
        SplitJoin(rvs, '/');
      }
    }
  }

  lemma {:induction false} CountOfJoin(vs: seq<string>, d: char)
    ensures |vs| > 0 ==> Count(Join(vs, d), d) >= |vs| - 1
    ensures |vs| > 0 ==> (Count(Join(vs, d), d) == |vs| - 1 <==> forall v :: v in vs ==> d !in v)
  {
    if |vs| == 1 {
      CountZero(vs[0], d);
    } else if |vs| > 1 {
      var rest := Join(vs[1..], d);
      CountOfJoin(vs[1..], d);
      CountConcat(vs[0] + [d], rest, d);
      CountConcat(vs[0], [d], d);
      CountZero(vs[0], d);
      assert Count([d], d) == 1 + Count([d][1..], d);
      assert vs == [vs[0]] + vs[1..];
    }
  }

  lemma EmptyJoin(vs: seq<string>, d: char)
    requires Join(vs, d) == ""
    ensures vs == [] || vs == [""]
  {
  }

  lemma DistributeNothing(vs: seq<string>)
    requires Join(vs, '/') == ""
    ensures Distribute(|vs|, "") == Ok(vs)
    ensures forall v :: v in vs ==> '/' !in v
  {
    EmptyJoin(vs, '/');
    assert vs == seq(|vs|, i => "");
  }

  lemma DistributeSomething(vs: seq<string>)
    requires Join(vs, '/') != ""
    ensures var rvs := Split(Join(vs, '/'), '/');
            if forall v :: v in vs ==> '/' !in v then rvs == vs else |rvs| != |vs|
  {
    CountOfJoin(vs, '/');
    SplitParts(Join(vs, '/'), '/');
    if forall v :: v in vs ==> '/' !in v { SplitJoin(vs, '/'); }
  }

  /**
    Distribution inverts the combination for any number of listers, and never misassigns: each lister gets
    its own version back, unless some version contains the separator, and then Watch refuses.
  */
  lemma DistributeInverts(vs: seq<string>)
    ensures Distribute(|vs|, Join(vs, '/')) == Ok(vs) <==> forall v :: v in vs ==> '/' !in v
    ensures Distribute(|vs|, Join(vs, '/')).Ok? ==> Distribute(|vs|, Join(vs, '/')) == Ok(vs)
  {
    if Join(vs, '/') == "" {
      DistributeNothing(vs);
    } else {
      DistributeSomething(vs);
    }
  }
}
