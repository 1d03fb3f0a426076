/**
  Two consequences of the report protocol: where the service link held by the server comes from and when it
  is stale, and which resources a failed report leaves behind.
*/
module ReportLinks {
  import opened Wrappers
  import opened ReportModel
  import opened ReportProtocol

  // ----- links

  /** Running the selectors forward, each overwriting the last, finds the last service that matches. */
  lemma {:induction false} LinkOfFull(services: seq<Service>, r: Resource)
    ensures Linked(services, Full(r, "")) == Full(r, ServiceFor(services, r))
  {
    if services != [] { LinkOfFull(services[..|services| - 1], r); }
  }

  /** The pod lies in the namespace of the service and carries every pair of its selector as a label. */
  predicate Serves(s: Service, r: Resource) {
    s.selector.Some? && s.namespace == r.namespace && s.selector.value.Items <= r.labels.Items
  }

  lemma PairsIncluded(a: map<string, string>, b: map<string, string>)
    ensures a.Items <= b.Items <==> forall k :: k in a ==> k in b && b[k] == a[k]
  {
    if a.Items <= b.Items {
      forall k | k in a ensures k in b && b[k] == a[k] {
        assert (k, a[k]) in a.Items;
      }
    }
  }

  /** A stub is matched like a pod without namespace and labels. */
  lemma SelectsIff(s: Service, r: Resource, uid: string, cid: string, link: string)
    ensures Selects(s, Full(r, link)) <==> Serves(s, r)
    ensures Selects(s, Stub(uid, cid, link)) <==> Serves(s, r.(namespace := "", labels := map[]))
  {
    if s.selector.Some? {
      PairsIncluded(s.selector.value, r.labels);
      PairsIncluded(s.selector.value, map[]);
    }
  }

  /** Service i is the last listed one that serves the pod; -1 if none does. */
  predicate LastServing(services: seq<Service>, r: Resource, i: int) {
    && -1 <= i < |services| && (i >= 0 ==> Serves(services[i], r))
    && forall k :: i < k < |services| ==> !Serves(services[k], r)
  }

  lemma {:induction false} ServiceForIsLast(services: seq<Service>, r: Resource, i: int)
    requires LastServing(services, r, i)
    ensures ServiceFor(services, r) == if i >= 0 then services[i].uid else ""
  {
    if services != [] {
      var n := |services| - 1;
      SelectsIff(services[n], r, "", "", "");
      if i < n { ServiceForIsLast(services[..n], r, i); }
    }
  }

  /** Services live in named namespaces. */
  predicate Named(services: seq<Service>) {
    forall s :: s in services ==> s.namespace != ""
  }

  /** Then a stub, which has no namespace, is linked to nothing. */
  lemma {:induction false} StubHasNoLink(services: seq<Service>, uid: string, cid: string)
    requires Named(services)
    ensures Linked(services, Stub(uid, cid, "")) == Stub(uid, cid, "")
  {
    if services != [] {
      assert services[|services| - 1] in services;
      StubHasNoLink(services[..|services| - 1], uid, cid);
    }
  }

  /** Message j is the last full one for u in the batch and decides what the server then holds; -1 is none. */
  ghost predicate Decides(h: Digest, services: seq<Service>, c: Cache, s: Server,
                          listing: seq<Resource>, batch: seq<Message>, s': Server, u: string, j: int)
  {
    && |batch| == |listing| && -1 <= j < |listing|
    && (forall k :: j < k < |listing| && listing[k].uid == u ==> !batch[k].Full?)
    && (j >= 0 ==> listing[j].uid == u && batch[j].Full? && u in s' && s'[u] == Held(h(listing[j]), ServiceFor(services, listing[j])))
    && (j < 0 ==> (u in s' <==> u in s) && (u in s ==> s'[u] == s[u]) && (u in Uids(listing) ==> u in c))
  }

  lemma DecidesStep(h: Digest, services: seq<Service>, c: Cache, s: Server,
                    listing: seq<Resource>, r: Resource, batch: seq<Message>, m: Message, s1: Server, u: string, j: int)
    requires Decides(h, services, c, s, listing, batch, s1, u, j)
    requires m == Full(r, ServiceFor(services, r)) || (m.Stub? && m.link == "" && (r.uid in c || r.uid in Uids(listing)))
    ensures Decides(h, services, c, s, listing + [r], batch + [m], Apply1(h, s1, m), u,
                    if r.uid == u && m.Full? then |listing| else j)
  {
  }

  lemma CollectLast(h: Digest, services: seq<Service>, c: Cache, s: Server, listing: seq<Resource>, r: Resource)
    requires Named(services)
    ensures var (c1, batch) := Collect(h, services, c, listing);
            var m := Linked(services, Increment(h, c1, r).1);
            && Collect(h, services, c, listing + [r]).1 == batch + [m]
            && Apply(h, s, batch + [m]) == Apply1(h, Apply(h, s, batch), m)
            && (m == Full(r, ServiceFor(services, r)) || (m.Stub? && m.link == "" && (r.uid in c || r.uid in Uids(listing))))
  {
    var (c1, batch) := Collect(h, services, c, listing);
    LinkOfFull(services, r);
    if r.uid in c1 { StubHasNoLink(services, c1[r.uid].uid, c1[r.uid].cid); }
    CollectMarks(h, services, c, listing);
    assert (listing + [r])[..|listing|] == listing;
    ApplyLast(h, s, batch, Linked(services, Increment(h, c1, r).1));
  }

  lemma DecidesLast(h: Digest, services: seq<Service>, c: Cache, s: Server, listing: seq<Resource>, r: Resource, u: string, j: int)
    returns (j': int)
    requires Named(services)
    requires var batch := Collect(h, services, c, listing).1;
             Decides(h, services, c, s, listing, batch, Apply(h, s, batch), u, j)
    ensures var batch' := Collect(h, services, c, listing + [r]).1;
            Decides(h, services, c, s, listing + [r], batch', Apply(h, s, batch'), u, j')
  {
    var (c1, batch) := Collect(h, services, c, listing);
    var m := Linked(services, Increment(h, c1, r).1);
    CollectLast(h, services, c, s, listing, r);
    DecidesStep(h, services, c, s, listing, r, batch, m, Apply(h, s, batch), u, j);
    j' := if r.uid == u && m.Full? then |listing| else j;
  }

  lemma {:induction false} LastFullOfBatch(h: Digest, services: seq<Service>, c: Cache, s: Server, listing: seq<Resource>, u: string)
    returns (j: int)
    requires Named(services)
    ensures var batch := Collect(h, services, c, listing).1;
            Decides(h, services, c, s, listing, batch, Apply(h, s, batch), u, j)
  {
    if listing == [] {
      j := -1;
    } else {
      var init, r := listing[..|listing| - 1], listing[|listing| - 1];
      assert listing == init + [r];
      j := LastFullOfBatch(h, services, c, s, init, u);
      j := DecidesLast(h, services, c, s, init, r, u, j);
    }
  }

  /** Round k of the run sent its j'th listed resource, which is u, in full. */
  ghost predicate FullAt(h: Digest, states: seq<System>, rounds: seq<Round>, k: nat, j: nat, u: string)
    requires |states| == |rounds| + 1
  {
    k < |rounds| && j < |rounds[k].listing| && rounds[k].listing[j].uid == u && Sent(h, states[k], rounds[k])[j].Full?
  }

  /** The full message (k, j) for u is the last one sent before round i. */
  ghost predicate LastFull(h: Digest, states: seq<System>, rounds: seq<Round>, i: nat, k: nat, j: nat, u: string)
    requires |states| == |rounds| + 1
  {
    && k < i && FullAt(h, states, rounds, k, j, u)
    && forall k', j' :: ((k < k' < i && 0 <= j') || (k' == k && j < j')) ==> !FullAt(h, states, rounds, k', j', u)
  }

  lemma LastFullHere(h: Digest, states: seq<System>, rounds: seq<Round>, i: nat, j: nat, u: string)
    requires |states| == |rounds| + 1
    requires FullAt(h, states, rounds, i, j, u)
    requires forall q :: j < q ==> !FullAt(h, states, rounds, i, q, u)
    ensures LastFull(h, states, rounds, i + 1, i, j, u)
  {
  }

  lemma LastFullExtends(h: Digest, states: seq<System>, rounds: seq<Round>, i: nat, k: nat, j: nat, u: string)
    requires |states| == |rounds| + 1
    requires LastFull(h, states, rounds, i, k, j, u)
    requires forall q: nat :: !FullAt(h, states, rounds, i, q, u)
    ensures LastFull(h, states, rounds, i + 1, k, j, u)
  {
  }

  /** A round without failure leaves at a listed uid what its last full message carried, or what was there. */
  lemma HeldAfterRound(h: Digest, sys: System, rd: Round, u: string) returns (j: int)
    requires Inv(sys) && Playable(h, sys, rd) && RoundOk(rd) && u in Uids(rd.listing) && Named(rd.services)
    ensures Decides(h, rd.services, sys.cache, sys.server, rd.listing, Sent(h, sys, rd), Next(h, sys, rd).server, u, j)
  {
    j := LastFullOfBatch(h, rd.services, sys.cache, sys.server, rd.listing, u);
    RoundServerIsDifference(h, sys, rd);
    GoneIsUnlisted(h, sys, rd, u);
  }

  /**
    On every run, what the server holds for a cached uid, link included, is what its last full message
    carried: the payload and the services of that round, not of any later one.
  */
  lemma {:induction false} HeldIsLastFull(h: Digest, states: seq<System>, rounds: seq<Round>, i: nat, u: string)
    returns (k: nat, j: nat)
    requires Run(h, states, rounds) && i <= |rounds| && u in states[i].cache
    requires forall q :: 0 <= q < i ==> Named(rounds[q].services)
    ensures LastFull(h, states, rounds, i, k, j, u)
    ensures u in states[i].server
    ensures states[i].server[u] == Held(h(rounds[k].listing[j]), ServiceFor(rounds[k].services, rounds[k].listing[j]))
  {
    RunKeepsInv(h, states, rounds, i - 1);
    RunKeepsInv(h, states, rounds, i);
    var p := i - 1;
    var last := HeldAfterRound(h, states[p], rounds[p], u);
    assert forall q :: last < q ==> !FullAt(h, states, rounds, p, q, u);
    if last >= 0 {
      k, j := p, last;
      LastFullHere(h, states, rounds, p, j, u);
    } else {
      k, j := HeldIsLastFull(h, states, rounds, p, u);
      LastFullExtends(h, states, rounds, p, k, j, u);
    }
  }

  lemma {:induction false} ApplyElsewhere(h: Digest, s: Server, batch: seq<Message>, j: nat, u: string)
    requires j <= |batch|
    requires forall k :: j <= k < |batch| ==> Target(batch[k]) != u
    ensures var (s1, s2) := (Apply(h, s, batch[..j]), Apply(h, s, batch));
            (u in s1 <==> u in s2) && (u in s1 ==> s1[u] == s2[u])
  {
    if j == |batch| {
      assert batch[..j] == batch;
    } else {
      ApplyElsewhere(h, s, batch[..|batch| - 1], j, u);
      assert batch[..|batch| - 1][..j] == batch[..j];
    }
  }

  lemma IncrementLink(h: Digest, services: seq<Service>, c: Cache, s: Server, r: Resource)
    requires Agree(c, s) && Keyed(c) && Named(services)
    ensures var s' := Apply1(h, s, Linked(services, Increment(h, c, r).1));
            && r.uid in s'
            && (s'[r.uid].link == ServiceFor(services, r) <==>
                (r.uid in c && c[r.uid].md5 == h(r) && c[r.uid].cid != "" ==> s[r.uid].link == ServiceFor(services, r)))
  {
    LinkOfFull(services, r);
    if r.uid in c { StubHasNoLink(services, c[r.uid].uid, c[r.uid].cid); }
  }

  /**
    Exactly when a report leaves the server with the current link of a listed pod: unless the pod is about
    to be sent as a stub, or the link held so far happens to be the current one. `j` is the last occurrence
    of the uid in the listing, `c1` and `s1` are the two sides just before it.
  */
  lemma LinkFreshIff(h: Digest, sys: System, rd: Round, j: nat)
    requires Inv(sys) && rd.reply.Answer? && j < |rd.listing| && Named(rd.services)
    requires forall k :: j < k < |rd.listing| ==> rd.listing[k].uid != rd.listing[j].uid
    ensures var r := rd.listing[j];
            var (c1, b1) := Collect(h, rd.services, sys.cache, rd.listing[..j]);
            var s1 := Apply(h, sys.server, b1);
            var held := Middle(h, sys, rd).server;
            && r.uid in held
            && (held[r.uid].link == ServiceFor(rd.services, r) <==>
                (r.uid in c1 && c1[r.uid].md5 == h(r) && c1[r.uid].cid != "" ==>
                 r.uid in s1 && s1[r.uid].link == ServiceFor(rd.services, r)))
  {
    var r := rd.listing[j];
    var batch := Sent(h, sys, rd);
    var (c1, b1) := Collect(h, rd.services, sys.cache, rd.listing[..j]);
    forall k | j < k < |batch| ensures Target(batch[k]) != r.uid {
      CollectStubSound(h, rd.services, sys.cache, sys.server, rd.listing, k);
    }
    ApplyElsewhere(h, sys.server, batch, j + 1, r.uid);
    CollectAt(h, rd.services, sys.cache, rd.listing, j);
    ApplyLast(h, sys.server, b1, Linked(rd.services, Increment(h, c1, r).1));
    CollectAgrees(h, rd.services, sys.cache, sys.server, rd.listing[..j]);
    IncrementLink(h, rd.services, c1, Apply(h, sys.server, b1), r);
  }

  lemma CollectOne(h: Digest, services: seq<Service>, c: Cache, r: Resource)
    ensures Collect(h, services, c, [r]).0 == Increment(h, c, r).0
    ensures Collect(h, services, c, [r]).1 == [Linked(services, Increment(h, c, r).1)]
  {
  }

  lemma ApplyOne(h: Digest, s: Server, m: Message)
    ensures Apply(h, s, [m]) == Apply1(h, s, m)
  {
  }

  /** A link can be stale: the service appears after the pod was sent in full, and the pod does not change. */
  lemma LinkMayBeStale(h: Digest) returns (states: seq<System>, rounds: seq<Round>)
    ensures Run(h, states, rounds) && |rounds| == 2 && RoundOk(rounds[1]) && |rounds[1].listing| == 1
    ensures var r := rounds[1].listing[0];
            r.uid in states[2].server && states[2].server[r.uid].link != ServiceFor(rounds[1].services, r)
  {
    var pod := Resource("p", "pod", "ns", map[], "");
    var service := Service("s", "ns", Some(map[]));
    var ack := Answer(map["p" := "1"]);
    var rd0 := Round([pod], [], ack, map[], [], ack, map[]);
    var rd1 := Round([pod], [service], ack, map[], [], ack, map[]);
    var s0 := System(map[], map[]);
    CollectOne(h, [], map[], pod);
    ApplyOne(h, map[], Full(pod, ""));
    var mid0 := Middle(h, s0, rd0);
    assert mid0 == System(map["p" := Entry("p", "1", h(pod), true, "pod")], map["p" := Held(h(pod), "")]);
    var s1 := Next(h, s0, rd0);
    assert s1 == System(map["p" := Entry("p", "1", h(pod), false, "pod")], map["p" := Held(h(pod), "")]);
    CollectOne(h, [service], s1.cache, pod);
    StubHasNoLink([service], "p", "1");
    ApplyOne(h, s1.server, Stub("p", "1", ""));
    assert Middle(h, s1, rd1) == mid0;
    states, rounds := [s0, s1, Next(h, s1, rd1)], [rd0, rd1];
    assert ServiceFor([service], pod) == "s";
  }

  // ----- what a failure leaves behind

  /** A uid the server holds and the cache does not know stays there until it is listed again or a report fails. */
  lemma {:induction false} OrphanStays(h: Digest, states: seq<System>, rounds: seq<Round>, i: nat, j: nat, u: string)
    requires Run(h, states, rounds) && i <= j <= |rounds|
    requires u in states[i].server && u !in states[i].cache
    requires forall k :: i <= k < j ==> RoundOk(rounds[k]) && u !in Uids(rounds[k].listing)
    ensures u in states[j].server && u !in states[j].cache && states[j].server[u] == states[i].server[u]
  {
    if i < j {
      OrphanStays(h, states, rounds, i, j - 1, u);
      RunKeepsInv(h, states, rounds, j - 1);
      RunKeepsInv(h, states, rounds, j);
      MiddleKeeps(h, states[j - 1], rounds[j - 1]);
      RoundServer(h, states[j - 1], rounds[j - 1]);
    }
  }

  /**
    So agreement of the uid sets is not restored by later successful rounds: the server takes a report whose
    answer is lost, the pod vanishes, and no tombstone is ever sent for it.
  */
  lemma LostAnswerLeavesOrphan(h: Digest) returns (states: seq<System>, rounds: seq<Round>)
    ensures Run(h, states, rounds) && |rounds| == 2
    ensures RoundOk(rounds[1]) && Acknowledges(rounds[1])
    ensures states[2].server.Keys != Uids(rounds[1].listing)
  {
    var pod := Resource("p", "pod", "ns", map[], "");
    var rd0 := Round([pod], [], Failed, map["p" := Held(h(pod), "")], [], Failed, map[]);
    var rd1 := Round([], [], Failed, map[], [], Failed, map[]);
    var s0 := System(map[], map[]);
    var s1 := Next(h, s0, rd0);
    var s2 := Next(h, s1, rd1);
    states, rounds := [s0, s1, s2], [rd0, rd1];
    assert "p" in s2.server && "p" !in Uids(rd1.listing);
  }
}
