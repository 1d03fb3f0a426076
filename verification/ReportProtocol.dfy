/**
  What every run of the incremental report keeps. Agreement between the agent and the server is stated
  on digests; a failed report may leave the server in any state.
*/
module ReportProtocol {
  import opened ReportModel

  // ----- invariants

  /** The server holds every cached uid, under the cached digest. */
  predicate Agree(c: Cache, s: Server) {
    forall u :: u in c ==> u in s && s[u].digest == c[u].md5
  }

  predicate Keyed(c: Cache) {
    forall u :: u in c ==> c[u].uid == u
  }

  /** Between rounds nothing is marked as seen. */
  predicate Settled(c: Cache) {
    forall u :: u in c ==> !c[u].curr
  }

  predicate Inv(sys: System) {
    Agree(sys.cache, sys.server) && Keyed(sys.cache) && Settled(sys.cache)
  }

  // ----- collection against the server

  lemma {:induction false} CollectPrefix(h: Digest, services: seq<Service>, c: Cache, listing: seq<Resource>, n: nat)
    requires n <= |listing|
    ensures Collect(h, services, c, listing).1[..n] == Collect(h, services, c, listing[..n]).1
  {
    if n < |listing| {
      CollectPrefix(h, services, c, listing[..|listing| - 1], n);
      assert listing[..|listing| - 1][..n] == listing[..n];
    } else {
      assert listing[..n] == listing;
    }
  }

  /** One increment: its message keeps the agreement, and a stub is sent only for the digest the server holds. */
  lemma IncrementAgrees(h: Digest, services: seq<Service>, c: Cache, s: Server, r: Resource)
    requires Agree(c, s) && Keyed(c)
    ensures var (c', m) := Increment(h, c, r);
            && Agree(c', Apply1(h, s, Linked(services, m))) && Keyed(c')
            && Target(m) == r.uid
            && (m.Full? ==> m.resource == r)
            && (m.Stub? ==> r.uid in s && s[r.uid].digest == h(r) && m.cid != "")
  {
  }

  lemma ApplyLast(h: Digest, s: Server, batch: seq<Message>, m: Message)
    ensures Apply(h, s, batch + [m]) == Apply1(h, Apply(h, s, batch), m)
  {
  }

  /** Sending the batch keeps the agreement, message by message. */
  lemma {:induction false} CollectAgrees(h: Digest, services: seq<Service>, c: Cache, s: Server, listing: seq<Resource>)
    requires Agree(c, s) && Keyed(c)
    ensures var (c', batch) := Collect(h, services, c, listing);
            Agree(c', Apply(h, s, batch)) && Keyed(c')
  {
    if listing != [] {
      var init := listing[..|listing| - 1];
      CollectAgrees(h, services, c, s, init);
      var (c1, batch) := Collect(h, services, c, init);
      var m := Increment(h, c1, listing[|listing| - 1]).1;
      ApplyLast(h, s, batch, Linked(services, m));
      IncrementAgrees(h, services, c1, Apply(h, s, batch), listing[|listing| - 1]);
    }
  }

  lemma CollectAt(h: Digest, services: seq<Service>, c: Cache, listing: seq<Resource>, j: nat)
    requires j < |listing|
    ensures var (c1, b1) := Collect(h, services, c, listing[..j]);
            Collect(h, services, c, listing).1[..j + 1] == b1 + [Linked(services, Increment(h, c1, listing[j]).1)]
  {
    CollectPrefix(h, services, c, listing, j + 1);
    assert listing[..j + 1][..j] == listing[..j];
  }

  /**
    Stub soundness for one collection: a stub stands for a resource whose current digest the server
    holds once it has applied the part of the batch before the stub.
  */
  lemma CollectStubSound(h: Digest, services: seq<Service>, c: Cache, s: Server, listing: seq<Resource>, i: nat)
    requires Agree(c, s) && Keyed(c) && i < |listing|
    ensures var batch := Collect(h, services, c, listing).1;
            var before := Apply(h, s, batch[..i]);
            && Target(batch[i]) == listing[i].uid
            && (batch[i].Full? ==> batch[i].resource == listing[i])
            && (batch[i].Stub? ==> listing[i].uid in before && before[listing[i].uid].digest == h(listing[i]) && batch[i].cid != "")
  {
    var batch := Collect(h, services, c, listing).1;
    var (c1, b1) := Collect(h, services, c, listing[..i]);
    CollectAt(h, services, c, listing, i);
    assert batch[..i] == batch[..i + 1][..i] == b1;
    assert batch[i] == batch[..i + 1][i];
    CollectAgrees(h, services, c, s, listing[..i]);
    IncrementAgrees(h, services, c1, Apply(h, s, b1), listing[i]);
  }

  lemma UidsLast(listing: seq<Resource>)
    requires listing != []
    ensures Uids(listing) == Uids(listing[..|listing| - 1]) + {listing[|listing| - 1].uid}
  {
    assert listing == listing[..|listing| - 1] + [listing[|listing| - 1]];
  }

  lemma {:induction false} FullReportKeys(h: Digest, listing: seq<Resource>)
    ensures FullReport(h, listing).Keys == Uids(listing)
  {
    if listing != [] {
      FullReportKeys(h, listing[..|listing| - 1]);
      UidsLast(listing);
    }
  }

  /** s' is s brought to the digests of full, with the other uids left alone. */
  predicate Reported(full: map<string, string>, s: Server, s': Server) {
    && s'.Keys == s.Keys + full.Keys
    && (forall u :: u in full ==> s'[u].digest == full[u])
    && (forall u :: u in s && u !in full ==> s'[u] == s[u])
  }

  lemma ReportedStep(h: Digest, full: map<string, string>, s: Server, s1: Server, m: Message, r: Resource)
    requires Reported(full, s, s1) && !m.Tombstone?
    requires m.Full? ==> m.resource == r
    requires m.Stub? ==> m.uid == r.uid && r.uid in s1 && s1[r.uid].digest == h(r)
    ensures Reported(full[r.uid := h(r)], s, Apply1(h, s1, m))
  {
  }

  /** The batch moves the server to the listing on the listed uids and leaves the others alone. */
  lemma {:induction false} CollectReports(h: Digest, services: seq<Service>, c: Cache, s: Server, listing: seq<Resource>)
    requires Agree(c, s) && Keyed(c)
    ensures Reported(FullReport(h, listing), s, Apply(h, s, Collect(h, services, c, listing).1))
  {
    if listing != [] {
      var n := |listing| - 1;
      CollectReports(h, services, c, s, listing[..n]);
      CollectAgrees(h, services, c, s, listing[..n]);
      var (c1, batch) := Collect(h, services, c, listing[..n]);
      var m := Increment(h, c1, listing[n]).1;
      ApplyLast(h, s, batch, Linked(services, m));
      IncrementAgrees(h, services, c1, Apply(h, s, batch), listing[n]);
      ReportedStep(h, FullReport(h, listing[..n]), s, Apply(h, s, batch), Linked(services, m), listing[n]);
    }
  }

  /** c' is c with the given uids present and marked, and the others untouched. */
  predicate Marked(c: Cache, us: set<string>, c': Cache) {
    && c'.Keys == c.Keys + us
    && (forall u :: u in us ==> c'[u].curr)
    && (forall u :: u in c && u !in us ==> c'[u] == c[u])
  }

  lemma MarkedStep(h: Digest, c: Cache, us: set<string>, c1: Cache, r: Resource)
    requires Marked(c, us, c1)
    ensures Marked(c, us + {r.uid}, Increment(h, c1, r).0)
  {
  }

  lemma {:induction false} CollectMarks(h: Digest, services: seq<Service>, c: Cache, listing: seq<Resource>)
    ensures Marked(c, Uids(listing), Collect(h, services, c, listing).0)
  {
    if listing != [] {
      var init, r := listing[..|listing| - 1], listing[|listing| - 1];
      CollectMarks(h, services, c, init);
      MarkedStep(h, c, Uids(init), Collect(h, services, c, init).0, r);
      UidsLast(listing);
    }
  }

  // ----- the sweep against the server

  lemma {:induction false} ApplyTombstones(h: Digest, s: Server, tombs: seq<Message>)
    requires forall m :: m in tombs ==> m.Tombstone?
    ensures Apply(h, s, tombs) == s - (set m | m in tombs :: m.uid)
  {
    if tombs != [] {
      var n := |tombs| - 1;
      ApplyTombstones(h, s, tombs[..n]);
      assert tombs == tombs[..n] + [tombs[n]];
      assert (set m | m in tombs :: m.uid) == (set m | m in tombs[..n] :: m.uid) + {tombs[n].uid};
    }
  }

  function Gone(c: Cache): set<string> {
    set u | u in c && !c[u].curr && c[u].cid != ""
  }

  lemma SweepRemoves(h: Digest, s: Server, c: Cache, tombs: seq<Message>)
    requires Keyed(c) && SweepBatch(c, tombs)
    ensures forall m :: m in tombs ==> m.Tombstone?
    ensures forall u :: (exists m :: m in tombs && m.uid == u) <==> u in Gone(c)
    ensures Apply(h, s, tombs) == s - Gone(c)
  {
    assert forall m :: m in tombs <==> m in Vanished(c);
    forall u | u in Gone(c) ensures exists m :: m in tombs && m.uid == u {
      assert Tombstone(u, c[u].cid) in Vanished(c);
    }
    ApplyTombstones(h, s, tombs);
    assert (set m | m in tombs :: m.uid) == Gone(c);
  }

  // ----- one round

  /** The cache just before the sweep: marked where listed, in agreement with the server, empty after a failure. */
  predicate ReadyToSweep(c0: Cache, rd: Round, c: Cache, s: Server) {
    && Agree(c, s) && Keyed(c)
    && (forall u :: u in c ==> (c[u].curr <==> u in Uids(rd.listing)))
    && c.Keys == if ReportOk(rd) then c0.Keys + Uids(rd.listing) else {}
  }

  lemma AnswerKeeps(c0: Cache, rd: Round, c: Cache, batch: seq<Message>, s: Server)
    requires Settled(c0) && Marked(c0, Uids(rd.listing), c) && Agree(c, s) && Keyed(c) && |batch| == |rd.listing|
    ensures ReportOk(rd) ==> ReadyToSweep(c0, rd, AfterReport(c, batch, rd.reply), s)
  {
  }

  lemma MiddleKeeps(h: Digest, sys: System, rd: Round)
    requires Inv(sys)
    ensures ReadyToSweep(sys.cache, rd, Middle(h, sys, rd).cache, Middle(h, sys, rd).server)
  {
    var (c, batch) := Collect(h, rd.services, sys.cache, rd.listing);
    CollectAgrees(h, rd.services, sys.cache, sys.server, rd.listing);
    CollectMarks(h, rd.services, sys.cache, rd.listing);
    AnswerKeeps(sys.cache, rd, c, batch, Apply(h, sys.server, batch));
  }

  lemma SweepKeeps(c0: Cache, rd: Round, c: Cache, s: Server)
    requires ReadyToSweep(c0, rd, c, s)
    ensures Keyed(Swept(c)) && Settled(Swept(c)) && Agree(Swept(c), s) && Agree(Swept(c), s - Gone(c))
    ensures Swept(c).Keys == if ReportOk(rd) then Uids(rd.listing) else {}
  {
  }

  /** Every round keeps the invariant, whatever the environment does. */
  lemma RoundKeepsInv(h: Digest, sys: System, rd: Round)
    requires Inv(sys) && Playable(h, sys, rd)
    ensures Inv(Next(h, sys, rd))
    ensures Next(h, sys, rd).cache.Keys == if RoundOk(rd) then Uids(rd.listing) else {}
  {
    var mid := Middle(h, sys, rd);
    MiddleKeeps(h, sys, rd);
    SweepKeeps(sys.cache, rd, mid.cache, mid.server);
    SweepRemoves(h, mid.server, mid.cache, rd.tombs);
  }

  /** A tombstone goes out for exactly the cached, unlisted uids that carry a Cid when the sweep runs. */
  lemma TombstonesOfRound(h: Digest, sys: System, rd: Round, u: string)
    requires Inv(sys) && Playable(h, sys, rd)
    ensures (exists m :: m in rd.tombs && Target(m) == u) <==>
            && u in sys.cache && u !in Uids(rd.listing) && ReportOk(rd)
            && u in Middle(h, sys, rd).cache && Middle(h, sys, rd).cache[u].cid != ""
  {
    var mid := Middle(h, sys, rd);
    MiddleKeeps(h, sys, rd);
    SweepRemoves(h, mid.server, mid.cache, rd.tombs);
    if m :| m in rd.tombs && Target(m) == u { assert m.uid == u; }
    if u in Gone(mid.cache) {
      var m :| m in rd.tombs && m.uid == u;
      assert Target(m) == u;
    }
  }

  /** A report of existing resources that gets through resynchronises every listed resource. */
  lemma ReportResynchronises(h: Digest, sys: System, rd: Round)
    requires Inv(sys) && ReportOk(rd)
    ensures var mid := Middle(h, sys, rd);
            && Uids(rd.listing) <= mid.server.Keys
            && forall u :: u in Uids(rd.listing) ==> u in FullReport(h, rd.listing) && mid.server[u].digest == FullReport(h, rd.listing)[u]
  {
    MiddleReports(h, sys, rd);
  }

  /** The uids the server holds, the listing does not show and the sweep cannot remove. */
  function Orphans(h: Digest, sys: System, rd: Round): set<string> {
    set u | u in sys.server && u !in Uids(rd.listing) &&
            !(u in Middle(h, sys, rd).cache && Middle(h, sys, rd).cache[u].cid != "")
  }

  lemma RoundServerIsDifference(h: Digest, sys: System, rd: Round)
    requires Inv(sys) && Playable(h, sys, rd) && RoundOk(rd)
    ensures Next(h, sys, rd).server == Middle(h, sys, rd).server - Gone(Middle(h, sys, rd).cache)
  {
    var mid := Middle(h, sys, rd);
    MiddleKeeps(h, sys, rd);
    SweepRemoves(h, mid.server, mid.cache, rd.tombs);
  }

  lemma GoneIsUnlisted(h: Digest, sys: System, rd: Round, u: string)
    requires Inv(sys)
    ensures u in Gone(Middle(h, sys, rd).cache) <==>
            u in Middle(h, sys, rd).cache && u !in Uids(rd.listing) && Middle(h, sys, rd).cache[u].cid != ""
  {
    MiddleKeeps(h, sys, rd);
  }

  /** A report that gets through moves the server to the listing. */
  lemma MiddleReports(h: Digest, sys: System, rd: Round)
    requires Inv(sys) && ReportOk(rd)
    ensures Reported(FullReport(h, rd.listing), sys.server, Middle(h, sys, rd).server)
    ensures FullReport(h, rd.listing).Keys == Uids(rd.listing)
  {
    CollectReports(h, rd.services, sys.cache, sys.server, rd.listing);
    FullReportKeys(h, rd.listing);
  }

  /** The server holds what full reporting would leave, and the orphans as they were. */
  predicate FullAndOrphans(full: map<string, string>, orphans: set<string>, s: Server, s': Server) {
    && orphans <= s.Keys && orphans !! full.Keys
    && s'.Keys == full.Keys + orphans
    && (forall u :: u in full ==> s'[u].digest == full[u])
    && (forall u :: u in orphans ==> s'[u] == s[u])
  }

  lemma ReportedMinusGone(full: map<string, string>, s: Server, s1: Server, gone: set<string>)
    requires Reported(full, s, s1) && gone !! full.Keys
    ensures FullAndOrphans(full, s.Keys - full.Keys - gone, s, s1 - gone)
  {
  }

  /** After a round without failure the server holds the listing and the orphans, and nothing else. */
  lemma RoundServer(h: Digest, sys: System, rd: Round)
    requires Inv(sys) && Playable(h, sys, rd) && RoundOk(rd)
    ensures FullAndOrphans(FullReport(h, rd.listing), Orphans(h, sys, rd), sys.server, Next(h, sys, rd).server)
    ensures FullReport(h, rd.listing).Keys == Uids(rd.listing)
  {
    var mid := Middle(h, sys, rd);
    RoundServerIsDifference(h, sys, rd);
    MiddleReports(h, sys, rd);
    forall u { GoneIsUnlisted(h, sys, rd, u); }
    ReportedMinusGone(FullReport(h, rd.listing), sys.server, mid.server, Gone(mid.cache));
    assert Orphans(h, sys, rd) == sys.server.Keys - Uids(rd.listing) - Gone(mid.cache);
  }

  /**
    Exactly when a round without failure leaves the server with what full reporting would: every uid the
    server holds beyond the listing has to be cached and to carry a Cid.
  */
  lemma RoundExactIff(h: Digest, sys: System, rd: Round)
    requires Inv(sys) && Playable(h, sys, rd) && RoundOk(rd)
    ensures Digests(Next(h, sys, rd).server) == FullReport(h, rd.listing) <==>
            forall u :: u in sys.server && u !in Uids(rd.listing) ==>
              u in Middle(h, sys, rd).cache && Middle(h, sys, rd).cache[u].cid != ""
  {
    RoundServer(h, sys, rd);
    ExactWithoutOrphans(FullReport(h, rd.listing), Orphans(h, sys, rd), sys.server, Next(h, sys, rd).server);
  }

  lemma ExactWithoutOrphans(full: map<string, string>, orphans: set<string>, s: Server, s': Server)
    requires FullAndOrphans(full, orphans, s, s')
    ensures Digests(s') == full <==> orphans == {}
  {
    assert Digests(s').Keys == s'.Keys;
  }

  // ----- whole runs

  lemma {:induction false} RunKeepsInv(h: Digest, states: seq<System>, rounds: seq<Round>, i: nat)
    requires Run(h, states, rounds) && i <= |rounds|
    ensures Inv(states[i])
    ensures i > 0 ==> states[i].cache.Keys == if RoundOk(rounds[i - 1]) then Uids(rounds[i - 1].listing) else {}
  {
    if i > 0 {
      RunKeepsInv(h, states, rounds, i - 1);
      RoundKeepsInv(h, states[i - 1], rounds[i - 1]);
    }
  }

  /** Stub soundness on every run. */
  lemma StubSound(h: Digest, states: seq<System>, rounds: seq<Round>, i: nat, k: nat)
    requires Run(h, states, rounds) && i < |rounds| && k < |rounds[i].listing|
    requires Sent(h, states[i], rounds[i])[k].Stub?
    ensures var r := rounds[i].listing[k];
            var before := Apply(h, states[i].server, Sent(h, states[i], rounds[i])[..k]);
            r.uid in before && before[r.uid].digest == h(r)
  {
    RunKeepsInv(h, states, rounds, i);
    CollectStubSound(h, rounds[i].services, states[i].cache, states[i].server, rounds[i].listing, k);
  }

  /**
    Self-stabilisation on every run: whatever failed before, a report of existing resources that gets
    through brings every listed resource up to date.
  */
  lemma Resynchronises(h: Digest, states: seq<System>, rounds: seq<Round>, i: nat)
    requires Run(h, states, rounds) && i < |rounds| && ReportOk(rounds[i])
    ensures var held := Middle(h, states[i], rounds[i]).server;
            && Uids(rounds[i].listing) <= held.Keys
            && forall u :: u in Uids(rounds[i].listing) ==>
                 u in FullReport(h, rounds[i].listing) && held[u].digest == FullReport(h, rounds[i].listing)[u]
  {
    RunKeepsInv(h, states, rounds, i);
    ReportResynchronises(h, states[i], rounds[i]);
  }

  /**
    Tombstones are exact: one is sent for u in round i just when the previous round listed u and kept its
    cache, this round does not list u and its report got through, and u carries a Cid.
  */
  lemma TombstonesExact(h: Digest, states: seq<System>, rounds: seq<Round>, i: nat, u: string)
    requires Run(h, states, rounds) && i < |rounds|
    ensures (exists m :: m in rounds[i].tombs && Target(m) == u) <==>
            && i > 0 && RoundOk(rounds[i - 1]) && u in Uids(rounds[i - 1].listing)
            && u !in Uids(rounds[i].listing) && ReportOk(rounds[i])
            && u in Middle(h, states[i], rounds[i]).cache && Middle(h, states[i], rounds[i]).cache[u].cid != ""
    ensures forall p, q :: 0 <= p < q < |rounds[i].tombs| ==> Target(rounds[i].tombs[p]) != Target(rounds[i].tombs[q])
  {
    RunKeepsInv(h, states, rounds, i);
    TombstonesOfRound(h, states[i], rounds[i], u);
    var mid := Middle(h, states[i], rounds[i]);
    MiddleKeeps(h, states[i], rounds[i]);
    forall p, q | 0 <= p < q < |rounds[i].tombs|
      ensures Target(rounds[i].tombs[p]) != Target(rounds[i].tombs[q])
    {
      assert rounds[i].tombs[p] in Vanished(mid.cache) && rounds[i].tombs[q] in Vanished(mid.cache);
    }
  }

  /** Between two tombstones for the same uid the uid was listed again. */
  lemma TombstonesOnce(h: Digest, states: seq<System>, rounds: seq<Round>, i: nat, j: nat, u: string)
    requires Run(h, states, rounds) && i < j < |rounds|
    requires exists m :: m in rounds[i].tombs && Target(m) == u
    requires exists m :: m in rounds[j].tombs && Target(m) == u
    ensures exists k :: i < k < j && u in Uids(rounds[k].listing)
  {
    TombstonesExact(h, states, rounds, i, u);
    TombstonesExact(h, states, rounds, j, u);
    assert u in Uids(rounds[j - 1].listing);
  }

  /** The answer names every listed uid, and no Cid it gives is empty. */
  predicate Acknowledges(rd: Round) {
    rd.listing != [] ==>
      && rd.reply.Answer?
      && Uids(rd.listing) <= rd.reply.cids.Keys
      && forall u :: u in rd.reply.cids ==> rd.reply.cids[u] != ""
  }

  predicate Acknowledged(c: Cache) {
    forall u :: u in c ==> c[u].cid != ""
  }

  lemma AcknowledgedRound(h: Digest, sys: System, rd: Round)
    requires Inv(sys) && Playable(h, sys, rd) && RoundOk(rd) && Acknowledges(rd)
    requires Acknowledged(sys.cache)
    ensures Acknowledged(Middle(h, sys, rd).cache) && Acknowledged(Next(h, sys, rd).cache)
  {
    CollectMarks(h, rd.services, sys.cache, rd.listing);
    if rd.listing == [] { assert Uids(rd.listing) == {}; }
  }

  /** A successful, acknowledged round that starts with nothing unknown on the server ends in full agreement. */
  lemma AcknowledgedExact(h: Digest, sys: System, rd: Round)
    requires Inv(sys) && Playable(h, sys, rd) && RoundOk(rd) && Acknowledges(rd) && Acknowledged(sys.cache)
    requires sys.server.Keys <= sys.cache.Keys + Uids(rd.listing)
    ensures Digests(Next(h, sys, rd).server) == FullReport(h, rd.listing)
    ensures Next(h, sys, rd).server.Keys == Uids(rd.listing)
  {
    AcknowledgedRound(h, sys, rd);
    MiddleKeeps(h, sys, rd);
    RoundExactIff(h, sys, rd);
    FullReportKeys(h, rd.listing);
    assert Digests(Next(h, sys, rd).server).Keys == Next(h, sys, rd).server.Keys;
  }

  /**
    Delta reporting refines full reporting: on a run whose reports succeed and are acknowledged, and whose
    server starts with nothing beyond the first listing, the server holds after each round exactly the
    digests that full reporting would leave there.
  */
  lemma {:induction false} DeltaRefinesFull(h: Digest, states: seq<System>, rounds: seq<Round>, i: nat)
    requires Run(h, states, rounds) && 0 < i <= |rounds|
    requires forall k :: 0 <= k < i ==> RoundOk(rounds[k]) && Acknowledges(rounds[k])
    requires states[0].server.Keys <= Uids(rounds[0].listing)
    ensures Digests(states[i].server) == FullReport(h, rounds[i - 1].listing)
    ensures states[i].server.Keys == Uids(rounds[i - 1].listing) && Acknowledged(states[i].cache)
  {
    RunKeepsInv(h, states, rounds, i - 1);
    if i > 1 { DeltaRefinesFull(h, states, rounds, i - 1); }
    AcknowledgedRound(h, states[i - 1], rounds[i - 1]);
    AcknowledgedExact(h, states[i - 1], rounds[i - 1]);
  }
}
