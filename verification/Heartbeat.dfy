/**
  Heartbeat supervision: a bounded list of the last results, rescanned newest first by every check, against
  an automaton that sees the whole history. A result is true for a successful heartbeat.
*/
module Heartbeat {
  import opened Wrappers

  // ----- the automaton over the whole history

  /** Stops at f consecutive failures, starts again at s consecutive successes. */
  datatype Automaton = Automaton(stopped: bool, fails: nat, succs: nat)

  function Online(h: seq<bool>, f: nat, s: nat): Automaton {
    if h == [] then Automaton(false, 0, 0)
    else
      var a := Online(h[..|h| - 1], f, s);
      if h[|h| - 1] then Automaton(a.stopped && a.succs + 1 < s, 0, a.succs + 1)
      else Automaton(a.stopped || a.fails + 1 >= f, a.fails + 1, 0)
  }

  // ----- the window and its scan

  /** The last cap results. */
  function Window<T>(h: seq<T>, cap: nat): seq<T> {
    if |h| <= cap then h else h[|h| - cap..]
  }

  /** Walks w from its newest end; the counters are the run just walked. The verdict is the kind of run found. */
  function Scan(w: seq<bool>, fails: nat, succs: nat, f: nat, s: nat): Option<bool> {
    if w == [] then None
    else
      var last := w[|w| - 1];
      var fails' := if last then 0 else fails + 1;
      var succs' := if last then succs + 1 else 0;
      if fails' == f then Some(false)
      else if succs' == s then Some(true)
      else Scan(w[..|w| - 1], fails', succs', f, s)
  }

  function Verdict(w: seq<bool>, f: nat, s: nat): Option<bool> {
    Scan(w, 0, 0, f, s)
  }

  function Decide(stopped: bool, verdict: Option<bool>): bool {
    if verdict.None? then stopped else !verdict.value
  }

  // ----- runs that decide

  function Needed(b: bool, f: nat, s: nat): nat {
    if b then s else f
  }

  ghost predicate AllSame(h: seq<bool>, lo: int, hi: int, b: bool) {
    0 <= lo <= hi <= |h| && forall i :: lo <= i < hi ==> h[i] == b
  }

  /** A run of b that is long enough ends just before j. */
  ghost predicate Decisive(h: seq<bool>, j: int, b: bool, f: nat, s: nat) {
    AllSame(h, j - Needed(b, f, s), j, b)
  }

  ghost predicate Latest(h: seq<bool>, j: int, b: bool, f: nat, s: nat) {
    && Decisive(h, j, b, f, s)
    && forall j', b' :: j < j' ==> !Decisive(h, j', b', f, s)
  }

  ghost predicate Undecided(h: seq<bool>, f: nat, s: nat) {
    forall j, b :: !Decisive(h, j, b, f, s)
  }

  lemma {:induction false} LatestExists(h: seq<bool>, j: int, b: bool, f: nat, s: nat) returns (j': int, b': bool)
    requires Decisive(h, j, b, f, s)
    ensures Latest(h, j', b', f, s)
    decreases |h| - j
  {
    if k, c :| j < k && Decisive(h, k, c, f, s) {
      j', b' := LatestExists(h, k, c, f, s);
    } else {
      j', b' := j, b;
    }
  }

  lemma DecisiveOfPrefix(prev: seq<bool>, more: seq<bool>, j: int, b: bool, f: nat, s: nat)
    requires j <= |prev|
    ensures Decisive(prev, j, b, f, s) <==> Decisive(prev + more, j, b, f, s)
  {
    assert forall i :: 0 <= i < |prev| ==> prev[i] == (prev + more)[i];
    if Decisive(prev + more, j, b, f, s) {
      forall i | j - Needed(b, f, s) <= i < j ensures prev[i] == b {
        assert (prev + more)[i] == b;
      }
    }
  }

  // ----- the automaton follows the latest deciding run

  lemma {:induction false} OnlineCounts(h: seq<bool>, f: nat, s: nat)
    ensures var a := Online(h, f, s);
            && AllSame(h, |h| - a.fails, |h|, false) && !AllSame(h, |h| - a.fails - 1, |h|, false)
            && AllSame(h, |h| - a.succs, |h|, true) && !AllSame(h, |h| - a.succs - 1, |h|, true)
  {
    if h != [] {
      var init, a := h[..|h| - 1], Online(h, f, s);
      OnlineCounts(init, f, s);
      if h[|h| - 1] {
        assert AllSame(h, |h| - a.succs - 1, |h|, true) ==> AllSame(init, |init| - a.succs, |init|, true);
      } else {
        assert AllSame(h, |h| - a.fails - 1, |h|, false) ==> AllSame(init, |init| - a.fails, |init|, false);
      }
    }
  }

  lemma {:induction false} OnlineFollowsLatest(h: seq<bool>, f: nat, s: nat)
    requires f >= 1 && s >= 1
    ensures forall j, b :: Latest(h, j, b, f, s) ==> Online(h, f, s).stopped == !b
    ensures Undecided(h, f, s) ==> !Online(h, f, s).stopped
  {
    if h != [] {
      var init := h[..|h| - 1];
      OnlineFollowsLatest(init, f, s);
      OnlineCounts(h, f, s);
      var n, b := |h|, h[|h| - 1];
      assert h == init + [b];
      if Decisive(h, n, b, f, s) {
        assert Online(h, f, s).stopped == !b;
        assert forall j, c :: Latest(h, j, c, f, s) ==> j == n && c == b;
      } else {
        forall j, c ensures Decisive(h, j, c, f, s) <==> Decisive(init, j, c, f, s) {
          if j < n { DecisiveOfPrefix(init, [b], j, c, f, s); }
        }
        assert Online(h, f, s).stopped == Online(init, f, s).stopped;
        assert forall j, c :: Latest(h, j, c, f, s) ==> Latest(init, j, c, f, s);
      }
    }
  }

  // ----- the scan finds the latest deciding run of its window

  /** The counters of the scan when it has walked down to n: the exact run that starts there. */
  ghost predicate RunFrom(w: seq<bool>, n: int, len: nat, b: bool) {
    AllSame(w, n, n + len, b) && !AllSame(w, n, n + len + 1, b)
  }

  /** No deciding run starts at n or later. */
  ghost predicate NoneFrom(w: seq<bool>, n: int, f: nat, s: nat) {
    forall j, b :: Decisive(w, j, b, f, s) ==> j - Needed(b, f, s) < n
  }

  /** The verdict is the kind of the latest deciding run; None says there is none. */
  ghost predicate Finds(w: seq<bool>, verdict: Option<bool>, f: nat, s: nat) {
    match verdict
    case None => Undecided(w, f, s)
    case Some(b) => exists j :: Latest(w, j, b, f, s)
  }

  lemma NoneFromOneEarlier(w: seq<bool>, n: nat, len: nat, b: bool, f: nat, s: nat)
    requires n < |w| && b == w[n] && NoneFrom(w, n + 1, f, s)
    requires RunFrom(w, n, len, b) && len < Needed(b, f, s)
    requires f >= 1 && s >= 1
    ensures NoneFrom(w, n, f, s)
  {
  }

  lemma LatestStartsHere(w: seq<bool>, n: nat, b: bool, f: nat, s: nat)
    requires f >= 1 && s >= 1 && NoneFrom(w, n + 1, f, s)
    requires AllSame(w, n, n + Needed(b, f, s), b)
    ensures Latest(w, n + Needed(b, f, s), b, f, s)
  {
    forall j, c | Decisive(w, j, c, f, s) ensures j <= n + Needed(b, f, s) {
      assert n < j ==> w[n] == c == b;
    }
  }

  lemma {:induction false} ScanFindsLatest(w: seq<bool>, n: nat, fails: nat, succs: nat, f: nat, s: nat)
    requires f >= 1 && s >= 1 && n <= |w|
    requires RunFrom(w, n, fails, false) && RunFrom(w, n, succs, true) && fails < f && succs < s
    requires NoneFrom(w, n, f, s)
    ensures Finds(w, Scan(w[..n], fails, succs, f, s), f, s)
  {
    if n == 0 {
      assert Undecided(w, f, s);
    } else {
      var m, b := n - 1, w[n - 1];
      var fails', succs' := if b then 0 else fails + 1, if b then succs + 1 else 0;
      var len := Needed(b, fails', succs');
      assert w[..n][..m] == w[..m];
      assert AllSame(w, m, m + len, b);
      if len == Needed(b, f, s) {
        var j := m + Needed(b, f, s);
        LatestStartsHere(w, m, b, f, s);
        assert Latest(w, j, b, f, s);
        assert Scan(w[..n], fails, succs, f, s) == Some(b);
      } else {
        assert AllSame(w, m, m + len + 1, b) ==> AllSame(w, n, n + len, b);
        assert RunFrom(w, m, len, b) && RunFrom(w, m, 0, !b);
        NoneFromOneEarlier(w, m, len, b, f, s);
        assert Scan(w[..n], fails, succs, f, s) == Scan(w[..m], fails', succs', f, s);
        ScanFindsLatest(w, m, fails', succs', f, s);
      }
    }
  }

  lemma VerdictIsLatest(w: seq<bool>, f: nat, s: nat)
    requires f >= 1 && s >= 1
    ensures Finds(w, Verdict(w, f, s), f, s)
  {
    assert w[..|w|] == w;
    ScanFindsLatest(w, |w|, 0, 0, f, s);
  }

  // ----- sampling a window agrees with the automaton

  function Max(a: int, b: int): int {
    if a < b then b else a
  }

  lemma WindowDecisive(h: seq<bool>, cap: nat, j: int, b: bool, f: nat, s: nat)
    ensures var off := |h| - |Window(h, cap)|;
            Decisive(Window(h, cap), j, b, f, s) <==> j - Needed(b, f, s) >= 0 && Decisive(h, j + off, b, f, s)
  {
  }

  /** A run found in the window is the latest of the whole history. */
  lemma LatestOfWindow(h: seq<bool>, cap: nat, j: int, b: bool, f: nat, s: nat)
    requires f >= 1 && s >= 1 && Latest(Window(h, cap), j, b, f, s)
    ensures Latest(h, j + |h| - |Window(h, cap)|, b, f, s)
  {
    var off := |h| - |Window(h, cap)|;
    WindowDecisive(h, cap, j, b, f, s);
    assert h[j + off - 1] == b;
    forall j', b' | Decisive(h, j', b', f, s) ensures j' <= j + off {
      WindowDecisive(h, cap, j' - off, b', f, s);
    }
  }

  /** If nothing after prev completes a deciding run, the automaton stays where it was. */
  lemma OnlineUnmoved(prev: seq<bool>, more: seq<bool>, f: nat, s: nat)
    requires f >= 1 && s >= 1
    requires forall j, b :: Decisive(prev + more, j, b, f, s) ==> j <= |prev|
    ensures Online(prev + more, f, s).stopped == Online(prev, f, s).stopped
  {
    OnlineFollowsLatest(prev, f, s);
    OnlineFollowsLatest(prev + more, f, s);
    forall j, b | j <= |prev| ensures Decisive(prev, j, b, f, s) <==> Decisive(prev + more, j, b, f, s) {
      DecisiveOfPrefix(prev, more, j, b, f, s);
    }
    if j, b :| Decisive(prev, j, b, f, s) {
      var j', b' := LatestExists(prev, j, b, f, s);
      assert Latest(prev + more, j', b', f, s);
    } else {
      assert Undecided(prev, f, s) && Undecided(prev + more, f, s);
    }
  }

  /**
    One check: if the state was right at the previous check and at most k results arrived since, a window of
    at least k + max(f, s) - 1 results is enough to make it right again.
  */
  lemma SampleAgrees(prev: seq<bool>, more: seq<bool>, k: nat, cap: nat, f: nat, s: nat)
    requires f >= 1 && s >= 1 && |more| <= k && cap >= k + Max(f, s) - 1
    ensures Decide(Online(prev, f, s).stopped, Verdict(Window(prev + more, cap), f, s)) == Online(prev + more, f, s).stopped
  {
    var h := prev + more;
    VerdictIsLatest(Window(h, cap), f, s);
    match Verdict(Window(h, cap), f, s)
    case Some(b) =>
      var j :| Latest(Window(h, cap), j, b, f, s);
      LatestOfWindow(h, cap, j, b, f, s);
      OnlineFollowsLatest(h, f, s);
    case None =>
      forall j, b | Decisive(h, j, b, f, s) ensures j <= |prev| {
        WindowDecisive(h, cap, j - (|h| - |Window(h, cap)|), b, f, s);
      }
      OnlineUnmoved(prev, more, f, s);
  }

  // ----- the bound is exact

  /** n results that alternate, the first one being b. */
  function Alternating(n: nat, b: bool): (r: seq<bool>)
    ensures |r| == n
  {
    seq(n, i => if i % 2 == 0 then b else !b)
  }

  /** Failures followed by alternating results: only the failures can decide. */
  lemma FailuresThenAlternating(w: seq<bool>, len: nat, f: nat, s: nat)
    requires f >= s >= 2 && len <= |w|
    requires forall i :: 0 <= i < len ==> !w[i]
    requires forall i :: len <= i < |w| ==> w[i] == ((i - len) % 2 == 0)
    ensures forall j, b :: Decisive(w, j, b, f, s) ==> !b && f <= j <= len
  {
    assert len < |w| ==> w[len];
    forall j, b | Decisive(w, j, b, f, s) ensures !b && f <= j <= len {
      var p := j - Needed(b, f, s);
      assert w[p] == b && w[p + 1] == b;
      assert p + 1 < len;
    }
  }

  /** The window misses one of the f failures, so its scan finds nothing. */
  lemma TooSmallWindow(h: seq<bool>, tail: seq<bool>, cap: nat, f: nat, s: nat)
    requires f >= s >= 2
    requires tail == Alternating(Max(0, cap - f + 1), true) && h == seq(f, i => false) + tail
    ensures Verdict(Window(h, cap), f, s) == None
  {
    var w := Window(h, cap);
    var off := |h| - |w|;
    assert off >= 1;
    assert forall i :: 0 <= i < |w| ==> w[i] == h[i + off];
    FailuresThenAlternating(w, Max(0, f - off), f, s);
    VerdictIsLatest(w, f, s);
  }

  lemma TooSmallHistory(prev: seq<bool>, more: seq<bool>, f: nat, s: nat)
    requires f >= s >= 2
    requires prev == seq(f - 1, i => false) && |more| >= 1 && more == [false] + Alternating(|more| - 1, true)
    ensures !Online(prev, f, s).stopped && Online(prev + more, f, s).stopped
  {
    FailuresThenAlternating(prev, f - 1, f, s);
    OnlineFollowsLatest(prev, f, s);
    FailuresThenAlternating(prev + more, f, f, s);
    OnlineFollowsLatest(prev + more, f, s);
    assert Latest(prev + more, f, false, f, s);
  }

  /**
    One result less and the state can be wrong: f failures whose last one falls between two checks, then
    results without a run, which push the first failure out of the window.
  */
  lemma WindowTooSmall(k: nat, cap: nat, f: nat, s: nat) returns (prev: seq<bool>, more: seq<bool>)
    requires f >= s >= 2 && k >= 1 && cap < k + f - 1
    ensures |prev| == f - 1 && |more| <= k
    ensures Decide(Online(prev, f, s).stopped, Verdict(Window(prev + more, cap), f, s)) != Online(prev + more, f, s).stopped
  {
    var tail := Alternating(Max(0, cap - f + 1), true);
    prev, more := seq(f - 1, i => false), [false] + tail;
    assert prev + more == seq(f, i => false) + tail;
    TooSmallWindow(prev + more, tail, cap, f, s);
    TooSmallHistory(prev, more, f, s);
  }

  ghost predicate AlwaysAgrees(k: nat, cap: nat, f: nat, s: nat) {
    forall prev: seq<bool>, more: seq<bool> :: |more| <= k ==>
      Decide(Online(prev, f, s).stopped, Verdict(Window(prev + more, cap), f, s)) == Online(prev + more, f, s).stopped
  }

  /** The least window that makes every check right after at most k new results. */
  lemma WindowIff(k: nat, cap: nat, f: nat, s: nat)
    requires f >= s >= 2 && k >= 1
    ensures AlwaysAgrees(k, cap, f, s) <==> cap >= k + f - 1
  {
    if cap >= k + f - 1 {
      forall prev: seq<bool>, more: seq<bool> | |more| <= k
        ensures Decide(Online(prev, f, s).stopped, Verdict(Window(prev + more, cap), f, s)) == Online(prev + more, f, s).stopped
      {
        SampleAgrees(prev, more, k, cap, f, s);
      }
    } else {
      var prev, more := WindowTooSmall(k, cap, f, s);
    }
  }
}
