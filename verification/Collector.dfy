/**
  The pod collector itself: cached identifiers are shared objects changed in place, and the map that holds
  them is replaced when a report fails. Every method is proved against the functions of ReportModel.
*/
module Collector {
  import opened ReportModel

  class ResourceIdentifier {
    var uid: string
    var cid: string
    var md5: string
    var curr: bool
    var name: string

    constructor (uid: string, md5: string, name: string)
      ensures View() == Entry(uid, "", md5, true, name)
    {
      this.uid, cid, this.md5, curr, this.name := uid, "", md5, true, name;
    }

    function View(): Entry
      reads this
    {
      Entry(uid, cid, md5, curr, name)
    }
  }

  /** Recording one more Cid of the answer. */
  lemma RecordCidsStep(c: Cache, cids: map<string, string>, todo: set<string>, key: string)
    requires key in todo && key in cids
    ensures RecordCids(c, cids - (todo - {key})) == RecordCids(RecordCids(c, cids - todo), map[key := cids[key]])
  {
  }

  /** What the sweep of c has gathered when the keys in todo are left. */
  ghost predicate Gathered(c: Cache, todo: set<string>, tombs: seq<Message>) {
    && (forall i :: 0 <= i < |tombs| ==> tombs[i] in Vanished(c) && Target(tombs[i]) !in todo)
    && (forall m :: m in Vanished(c) ==> m in tombs || Target(m) in todo)
    && (forall i, j :: 0 <= i < j < |tombs| ==> tombs[i] != tombs[j])
  }

  /** The cache c when its sweep has the keys in todo left. */
  ghost function PartlySwept(c: Cache, todo: set<string>): Cache {
    map u | u in c && (u in todo || c[u].curr) :: if u in todo then c[u] else c[u].(curr := false)
  }

  /** The tombstone the sweep of c makes of the entry at k, if any. */
  function Notice(c: Cache, k: string): seq<Message>
    requires k in c
  {
    if !c[k].curr && c[k].cid != "" then [Tombstone(c[k].uid, c[k].cid)] else []
  }

  lemma GatherNone(c: Cache)
    requires forall u :: u in c ==> c[u].uid == u
    ensures Gathered(c, c.Keys, [])
  {
  }

  lemma GatherOne(c: Cache, todo: set<string>, tombs: seq<Message>, k: string)
    requires Gathered(c, todo, tombs) && k in todo && k in c
    requires forall u :: u in c ==> c[u].uid == u
    ensures Gathered(c, todo - {k}, tombs + Notice(c, k))
  {
  }

  lemma PartlySweptStep(c: Cache, todo: set<string>, k: string)
    requires k in todo && k in c
    ensures var p := PartlySwept(c, todo);
            && k in p && p[k] == c[k]
            && PartlySwept(c, todo - {k}) == if c[k].curr then p[k := c[k].(curr := false)] else p - {k}
  {
  }

  lemma PartlySweptAll(c: Cache)
    ensures PartlySwept(c, {}) == Swept(c) && PartlySwept(c, c.Keys) == c
  {
  }

  lemma GatheredAll(c: Cache, tombs: seq<Message>)
    requires Gathered(c, {}, tombs)
    ensures SweepBatch(c, tombs)
  {
  }

  /** What the environment shows and answers in one round; lost reports may leave the server in any state. */
  datatype Play = Play(listing: seq<Resource>, services: seq<Service>, reply: Reply, tombReply: Reply,
                       lostTo: Server, tombsLostTo: Server)

  ghost predicate PlayedBy(rd: Round, p: Play) {
    rd == Round(p.listing, p.services, p.reply, p.lostTo, rd.tombs, p.tombReply, p.tombsLostTo)
  }

  lemma RunExtends(h: Digest, states: seq<System>, rounds: seq<Round>, rd: Round)
    requires Run(h, states, rounds) && Playable(h, states[|rounds|], rd)
    ensures Run(h, states + [Next(h, states[|rounds|], rd)], rounds + [rd])
  {
    var states', rounds' := states + [Next(h, states[|rounds|], rd)], rounds + [rd];
    forall i | 0 <= i < |rounds'|
      ensures Playable(h, states'[i], rounds'[i]) && states'[i + 1] == Next(h, states'[i], rounds'[i])
    {
      assert states'[i] == states[i] && (i < |rounds| ==> rounds'[i] == rounds[i] && states'[i + 1] == states[i + 1]);
    }
  }

  class PodCollector {
    const h: Digest
    var identifiers: map<string, ResourceIdentifier>

    constructor (h: Digest)
      ensures Valid() && View() == map[] && this.h == h
    {
      this.h, identifiers := h, map[];
    }

    /** Each key is the uid of its entry; hence no two keys share an entry object. */
    ghost predicate Valid()
      reads this, identifiers.Values
    {
      forall u :: u in identifiers ==> identifiers[u].uid == u
    }

    ghost function View(): Cache
      reads this, identifiers.Values
    {
      map u | u in identifiers :: identifiers[u].View()
    }

    lemma NoSharedEntries(u: string, v: string)
      requires Valid() && u in identifiers && v in identifiers && u != v
      ensures identifiers[u] != identifiers[v]
    {
    }

    /** Changing one entry object in place changes the cache at its key and nowhere else. */
    twostate lemma OneEntryChanged(k: string)
      requires old(Valid()) && identifiers == old(identifiers) && k in identifiers && identifiers[k].uid == k
      requires forall u :: u in identifiers && u != k ==> unchanged(identifiers[u])
      ensures Valid() && View() == old(View())[k := identifiers[k].View()]
    {
    }

    /** handlePodIncrement for a cached uid. */
    method HandleKnown(r: Resource) returns (m: Message)
      requires Valid() && r.uid in identifiers
      modifies identifiers[r.uid]
      ensures Valid() && View() == Increment(h, old(View()), r).0 && m == Increment(h, old(View()), r).1
    {
      var sum := h(r);
      var v := identifiers[r.uid];
      m := Full(r, "");
      if v.md5 == sum && v.cid != "" {
        m := Stub(v.uid, v.cid, "");
      } else {
        v.md5 := sum;
      }
      v.curr := true;
      OneEntryChanged(r.uid);
    }

    /** handlePodIncrement for a uid that is not cached. */
    method HandleNew(r: Resource) returns (m: Message)
      requires Valid() && r.uid !in identifiers
      modifies this
      ensures Valid() && fresh(identifiers.Values - old(identifiers.Values))
      ensures View() == Increment(h, old(View()), r).0 && m == Increment(h, old(View()), r).1
    {
      m := Full(r, "");
      var v := new ResourceIdentifier(r.uid, h(r), r.name);
      identifiers := identifiers[r.uid := v];
    }

    /** handlePodIncrement */
    method HandleIncrement(r: Resource) returns (m: Message)
      requires Valid()
      modifies this, identifiers.Values
      ensures Valid() && fresh(identifiers.Values - old(identifiers.Values))
      ensures View() == Increment(h, old(View()), r).0 && m == Increment(h, old(View()), r).1
    {
      if r.uid in identifiers {
        m := HandleKnown(r);
      } else {
        m := HandleNew(r);
      }
    }

    /** The loop of getPodInfo that links one reported item to services. */
    static method AddLinks(services: seq<Service>, item: Message) returns (m: Message)
      requires !item.Tombstone?
      ensures m == Linked(services, item)
    {
      m := item;
      for i := 0 to |services|
        invariant !m.Tombstone? && m == Linked(services[..i], item)
      {
        assert services[..i + 1][..i] == services[..i];
        if Selects(services[i], m) {
          m := WithLink(m, services[i].uid);
        }
      }
      assert services[..|services|] == services;
    }

    /** getPodInfo */
    method GetPodInfo(services: seq<Service>, listing: seq<Resource>) returns (batch: seq<Message>)
      requires Valid()
      modifies this, identifiers.Values
      ensures Valid() && fresh(identifiers.Values - old(identifiers.Values))
      ensures View() == Collect(h, services, old(View()), listing).0
      ensures batch == Collect(h, services, old(View()), listing).1
    {
      batch := [];
      for i := 0 to |listing|
        invariant Valid() && fresh(identifiers.Values - old(identifiers.Values))
        invariant View() == Collect(h, services, old(View()), listing[..i]).0
        invariant batch == Collect(h, services, old(View()), listing[..i]).1
      {
        assert listing[..i + 1][..i] == listing[..i];
        var m := HandleIncrement(listing[i]);
        m := AddLinks(services, m);
        batch := batch + [m];
      }
      assert listing[..|listing|] == listing;
    }

    /** resetIdentifierCache */
    method ResetIdentifierCache()
      modifies this
      ensures Valid() && identifiers == map[]
    {
      identifiers := map[];
    }

    /** Stores one Cid of an answer, if the uid is cached. */
    method RecordCid(key: string, cid: string)
      requires Valid()
      modifies identifiers.Values
      ensures Valid() && View() == RecordCids(old(View()), map[key := cid])
    {
      if key in identifiers {
        identifiers[key].cid := cid;
        OneEntryChanged(key);
      }
    }

    /** reportK8sMetric for existing resources, given the answer the server gives if it is asked. */
    method ReportExisting(batch: seq<Message>, reply: Reply)
      requires Valid()
      modifies this, identifiers.Values
      ensures Valid() && identifiers.Values <= old(identifiers.Values)
      ensures View() == AfterReport(old(View()), batch, reply)
    {
      if |batch| == 0 { return; }
      ghost var c := View();
      match reply
      case Failed => ResetIdentifierCache();
      case NotAMap => ResetIdentifierCache();
      case Answer(cids) =>
        var todo := cids.Keys;
        while todo != {}
          invariant todo <= cids.Keys && Valid() && identifiers == old(identifiers)
          invariant View() == RecordCids(c, cids - todo)
          decreases todo
        {
          var key :| key in todo;
          RecordCidsStep(c, cids, todo, key);
          RecordCid(key, cids[key]);
          todo := todo - {key};
        }
        assert cids - todo == cids;
    }

    /** One step of the walk over the cache: unmark the entry, or drop it and say whether to report that. */
    method SweepOne(k: string) returns (gone: seq<Message>)
      requires Valid() && k in identifiers
      modifies this, identifiers[k]
      ensures Valid() && forall u :: u in identifiers ==> u in old(identifiers) && identifiers[u] == old(identifiers)[u]
      ensures var c := old(View());
              && View() == (if c[k].curr then c[k := c[k].(curr := false)] else c - {k})
              && gone == Notice(c, k)
    {
      var v := identifiers[k];
      gone := [];
      if v.curr {
        v.curr := false;
        OneEntryChanged(k);
      } else {
        if v.cid != "" {
          gone := [Tombstone(v.uid, v.cid)];
        }
        identifiers := identifiers - {k};
      }
    }

    /** The sweep of reportNotExistResource: clears the marks, drops what was not marked. */
    method Sweep() returns (tombs: seq<Message>)
      requires Valid()
      modifies this, identifiers.Values
      ensures Valid() && identifiers.Values <= old(identifiers.Values)
      ensures View() == Swept(old(View()))
      ensures SweepBatch(old(View()), tombs)
    {
      ghost var c := View();
      GatherNone(c);
      PartlySweptAll(c);
      tombs := [];
      var todo := identifiers.Keys;
      while todo != {}
        invariant todo <= c.Keys && Valid()
        invariant forall u :: u in identifiers ==> u in old(identifiers) && identifiers[u] == old(identifiers)[u]
        invariant View() == PartlySwept(c, todo)
        invariant Gathered(c, todo, tombs)
        decreases todo
      {
        var k :| k in todo;
        GatherOne(c, todo, tombs, k);
        PartlySweptStep(c, todo, k);
        var gone := SweepOne(k);
        tombs := tombs + gone;
        todo := todo - {k};
      }
      GatheredAll(c, tombs);
    }

    /** reportNotExistResource, given the answer the server gives if it is asked. */
    method ReportNotExist(reply: Reply) returns (tombs: seq<Message>)
      requires Valid()
      modifies this, identifiers.Values
      ensures Valid() && identifiers.Values <= old(identifiers.Values)
      ensures SweepBatch(old(View()), tombs)
      ensures View() == AfterTombstones(Swept(old(View())), tombs, reply)
    {
      tombs := Sweep();
      if |tombs| != 0 && reply.Failed? {
        ResetIdentifierCache();
      }
    }

    /**
      Report: one round of the protocol. The ghost arguments are the server and what a lost report would
      turn it into; the messages and the cache do not depend on them.
    */
    method Report(listing: seq<Resource>, services: seq<Service>, reply: Reply, tombReply: Reply,
                  ghost server: Server, ghost lostTo: Server, ghost tombsLostTo: Server)
      returns (batch: seq<Message>, tombs: seq<Message>)
      requires Valid()
      modifies this, identifiers.Values
      ensures Valid() && fresh(identifiers.Values - old(identifiers.Values))
      ensures var sys := System(old(View()), server);
              var rd := Round(listing, services, reply, lostTo, tombs, tombReply, tombsLostTo);
              && Playable(h, sys, rd)
              && batch == Sent(h, sys, rd)
              && View() == Next(h, sys, rd).cache
    {
      batch := GetPodInfo(services, listing);
      ReportExisting(batch, reply);
      tombs := ReportNotExist(tombReply);
    }

    /**
      Any sequence of rounds, one after the other, is a run of the protocol: what the theorems say of runs
      they say of the collector.
    */
    method Serve(plays: seq<Play>, ghost server: Server) returns (ghost states: seq<System>, ghost rounds: seq<Round>)
      requires Valid() && identifiers == map[]
      modifies this, identifiers.Values
      ensures Run(h, states, rounds) && |rounds| == |plays|
      ensures states[0].server == server && View() == states[|plays|].cache
      ensures forall i :: 0 <= i < |plays| ==> PlayedBy(rounds[i], plays[i])
    {
      states, rounds := [System(map[], server)], [];
      for n := 0 to |plays|
        invariant Valid() && fresh(identifiers.Values)
        invariant |rounds| == n && Run(h, states, rounds)
        invariant states[0].server == server && View() == states[n].cache
        invariant forall i :: 0 <= i < n ==> PlayedBy(rounds[i], plays[i])
      {
        var p := plays[n];
        var batch, tombs := Report(p.listing, p.services, p.reply, p.tombReply, states[n].server, p.lostTo, p.tombsLostTo);
        ghost var rd := Round(p.listing, p.services, p.reply, p.lostTo, tombs, p.tombReply, p.tombsLostTo);
        RunExtends(h, states, rounds, rd);
        states, rounds := states + [Next(h, states[n], rd)], rounds + [rd];
      }
    }
  }
}
