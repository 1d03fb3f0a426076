/** Which Cid the stubs and tombstones of a run carry, and what follows for the run from its history alone. */
module ReportCids {
  import opened ReportModel
  import opened ReportProtocol

  /** Collecting changes no Cid: new entries have none, and a stub carries the one cached before the round. */
  predicate KeepsCids(c: Cache, listing: seq<Resource>, c': Cache, batch: seq<Message>) {
    && |batch| == |listing|
    && (forall u :: u in c' ==> c'[u].cid == if u in c then c[u].cid else "")
    && (forall k :: 0 <= k < |listing| && batch[k].Stub? ==> listing[k].uid in c && batch[k].cid == c[listing[k].uid].cid)
  }

  lemma KeepsCidsStep(h: Digest, services: seq<Service>, c: Cache, listing: seq<Resource>, c1: Cache, batch: seq<Message>, r: Resource)
    requires KeepsCids(c, listing, c1, batch) && c.Keys <= c1.Keys
    ensures KeepsCids(c, listing + [r], Increment(h, c1, r).0, batch + [Linked(services, Increment(h, c1, r).1)])
  {
  }

  lemma {:induction false} CollectCids(h: Digest, services: seq<Service>, c: Cache, listing: seq<Resource>)
    ensures var (c', batch) := Collect(h, services, c, listing); KeepsCids(c, listing, c', batch)
  {
    if listing != [] {
      var init, r := listing[..|listing| - 1], listing[|listing| - 1];
      var (c1, batch) := Collect(h, services, c, init);
      CollectCids(h, services, c, init);
      assert c.Keys <= c1.Keys by { CollectMarks(h, services, c, init); }
      KeepsCidsStep(h, services, c, init, c1, batch, r);
      assert listing == init + [r];
    }
  }

  /** The Cid of u before round i: the last one an answer gave since u was last unlisted or the cache was lost. */
  function LastCid(rounds: seq<Round>, i: nat, u: string): string
    requires i <= |rounds|
  {
    if i == 0 || !RoundOk(rounds[i - 1]) || u !in Uids(rounds[i - 1].listing) then ""
    else NamedIn(rounds[i - 1], u, LastCid(rounds, i - 1, u))
  }

  function NamedIn(rd: Round, u: string, otherwise: string): string {
    if rd.listing != [] && rd.reply.Answer? && u in rd.reply.cids then rd.reply.cids[u] else otherwise
  }

  lemma CidsAfterReport(h: Digest, sys: System, rd: Round, u: string)
    requires u in Middle(h, sys, rd).cache
    ensures Middle(h, sys, rd).cache[u].cid == NamedIn(rd, u, if u in sys.cache then sys.cache[u].cid else "")
  {
    CollectCids(h, rd.services, sys.cache, rd.listing);
  }

  /** On every run a cached uid carries the Cid of the last answer that named it. */
  lemma {:induction false} CachedCid(h: Digest, states: seq<System>, rounds: seq<Round>, i: nat, u: string)
    requires Run(h, states, rounds) && i <= |rounds|
    ensures LastCid(rounds, i, u) == if u in states[i].cache then states[i].cache[u].cid else ""
  {
    if i > 0 {
      RunKeepsInv(h, states, rounds, i);
      if u in states[i].cache {
        CachedCid(h, states, rounds, i - 1, u);
        CidsAfterReport(h, states[i - 1], rounds[i - 1], u);
      }
    }
  }

  lemma TombstoneCid(c: Cache, tombs: seq<Message>, m: Message)
    requires Keyed(c) && SweepBatch(c, tombs) && m in tombs
    ensures m.Tombstone? && m.uid in c && m.cid == c[m.uid].cid
  {
    assert m in (set t | t in tombs) && m in Vanished(c);
  }

  /** So every stub of a run names its resource by that Cid. */
  lemma StubCids(h: Digest, states: seq<System>, rounds: seq<Round>, i: nat, k: nat)
    requires Run(h, states, rounds) && i < |rounds| && k < |rounds[i].listing|
    requires Sent(h, states[i], rounds[i])[k].Stub?
    ensures Sent(h, states[i], rounds[i])[k].cid == LastCid(rounds, i, rounds[i].listing[k].uid)
  {
    CollectCids(h, rounds[i].services, states[i].cache, rounds[i].listing);
    CachedCid(h, states, rounds, i, rounds[i].listing[k].uid);
  }

  /**
    Stubs are exact: resource k of round i is sent short just when an answer named it, no failure or absence
    came in between, and the server holds its present digest by the time the message arrives.
  */
  lemma StubsByHistory(h: Digest, states: seq<System>, rounds: seq<Round>, i: nat, k: nat)
    requires Run(h, states, rounds) && i < |rounds| && k < |rounds[i].listing|
    ensures var r := rounds[i].listing[k];
            var batch := Sent(h, states[i], rounds[i]);
            var before := Apply(h, states[i].server, batch[..k]);
            batch[k].Stub? <==> LastCid(rounds, i, r.uid) != "" && r.uid in before && before[r.uid].digest == h(r)
  {
    var sys, rd := states[i], rounds[i];
    var batch := Sent(h, sys, rd);
    var (c1, b1) := Collect(h, rd.services, sys.cache, rd.listing[..k]);
    RunKeepsInv(h, states, rounds, i);
    CachedCid(h, states, rounds, i, rd.listing[k].uid);
    CollectAt(h, rd.services, sys.cache, rd.listing, k);
    assert batch[..k] == batch[..k + 1][..k] == b1;
    assert batch[k] == batch[..k + 1][k];
    CollectAgrees(h, rd.services, sys.cache, sys.server, rd.listing[..k]);
    CollectCids(h, rd.services, sys.cache, rd.listing[..k]);
    CollectMarks(h, rd.services, sys.cache, rd.listing[..k]);
  }

  /** And every tombstone, unless the answer of its own round named the resource once more. */
  lemma TombstoneCids(h: Digest, states: seq<System>, rounds: seq<Round>, i: nat, m: Message)
    requires Run(h, states, rounds) && i < |rounds| && m in rounds[i].tombs
    ensures m.Tombstone? && m.cid == NamedIn(rounds[i], m.uid, LastCid(rounds, i, m.uid))
  {
    RunKeepsInv(h, states, rounds, i);
    MiddleKeeps(h, states[i], rounds[i]);
    TombstoneCid(Middle(h, states[i], rounds[i]).cache, rounds[i].tombs, m);
    CachedCid(h, states, rounds, i, m.uid);
    CidsAfterReport(h, states[i], rounds[i], m.uid);
  }

  // ----- tombstones and agreement, from the history alone

  /** The previous round listed u and kept its cache, and u carries a Cid once this round's answer is in. */
  predicate Known(rounds: seq<Round>, i: nat, u: string)
    requires i < |rounds|
  {
    && i > 0 && RoundOk(rounds[i - 1]) && u in Uids(rounds[i - 1].listing)
    && NamedIn(rounds[i], u, LastCid(rounds, i, u)) != ""
  }

  lemma KnownIsCached(h: Digest, states: seq<System>, rounds: seq<Round>, i: nat, u: string)
    requires Run(h, states, rounds) && i < |rounds| && ReportOk(rounds[i]) && u !in Uids(rounds[i].listing)
    ensures Known(rounds, i, u) <==>
            u in Middle(h, states[i], rounds[i]).cache && Middle(h, states[i], rounds[i]).cache[u].cid != ""
  {
    RunKeepsInv(h, states, rounds, i);
    MiddleKeeps(h, states[i], rounds[i]);
    CachedCid(h, states, rounds, i, u);
    if u in states[i].cache { CidsAfterReport(h, states[i], rounds[i], u); }
  }

  /**
    Tombstones are exact: one is sent for u in round i just when the previous round listed u and kept its
    cache, this round does not list u and its report got through, and the answers gave u a Cid.
  */
  lemma TombstonesByHistory(h: Digest, states: seq<System>, rounds: seq<Round>, i: nat, u: string)
    requires Run(h, states, rounds) && i < |rounds|
    ensures (exists m :: m in rounds[i].tombs && Target(m) == u) <==>
            u !in Uids(rounds[i].listing) && ReportOk(rounds[i]) && Known(rounds, i, u)
  {
    TombstonesExact(h, states, rounds, i, u);
    if u !in Uids(rounds[i].listing) && ReportOk(rounds[i]) { KnownIsCached(h, states, rounds, i, u); }
  }

  /**
    Exactly when a round without failure leaves the server with what full reporting would: the agent knows
    every uid that the server holds beyond the listing.
  */
  lemma ExactByHistory(h: Digest, states: seq<System>, rounds: seq<Round>, i: nat)
    requires Run(h, states, rounds) && i < |rounds| && RoundOk(rounds[i])
    ensures Digests(states[i + 1].server) == FullReport(h, rounds[i].listing) <==>
            forall u :: u in states[i].server && u !in Uids(rounds[i].listing) ==> Known(rounds, i, u)
  {
    RunKeepsInv(h, states, rounds, i);
    RoundExactIff(h, states[i], rounds[i]);
    forall u | u !in Uids(rounds[i].listing)
      ensures Known(rounds, i, u) <==>
              u in Middle(h, states[i], rounds[i]).cache && Middle(h, states[i], rounds[i]).cache[u].cid != ""
    {
      KnownIsCached(h, states, rounds, i, u);
    }
  }
}
