/**
  The bounded list of heartbeat results and the monitor that checks it, as they change in place, and the
  theorem about whole runs of heartbeats and checks in any order.
*/
module Monitor {
  import opened Wrappers
  import opened Heartbeat

  const HEARTBEATS_KEPT: nat := 26
  const STOP_THRESHOLD: nat := 12
  const START_THRESHOLD: nat := 3

  // ----- runs

  datatype Event = Beat(success: bool) | Check

  /** The history so far, what the list holds of it, the monitor's flag and the results since its last check. */
  datatype Supervision = Supervision(history: seq<bool>, window: seq<bool>, stopped: bool, pending: nat)

  function Step(r: Supervision, e: Event, cap: nat, f: nat, s: nat): Supervision {
    match e
    case Beat(b) => Supervision(r.history + [b], Window(r.window + [b], cap), r.stopped, r.pending + 1)
    case Check => r.(stopped := Decide(r.stopped, Verdict(r.window, f, s)), pending := 0)
  }

  function Exec(events: seq<Event>, cap: nat, f: nat, s: nat): Supervision {
    if events == [] then Supervision([], [], false, 0)
    else Step(Exec(events[..|events| - 1], cap, f, s), events[|events| - 1], cap, f, s)
  }

  /** At most k results arrive before each check. */
  ghost predicate Spaced(events: seq<Event>, k: nat, cap: nat, f: nat, s: nat) {
    events != [] ==>
      && Spaced(events[..|events| - 1], k, cap, f, s)
      && (events[|events| - 1].Check? ==> Exec(events[..|events| - 1], cap, f, s).pending <= k)
  }

  /** The flag is the state the automaton had at the last check. */
  ghost predicate Follows(r: Supervision, cap: nat, f: nat, s: nat) {
    && r.pending <= |r.history|
    && r.window == Window(r.history, cap)
    && r.stopped == Online(r.history[..|r.history| - r.pending], f, s).stopped
  }

  /** Putting a result into the list follows the history. */
  lemma StepBeat(r: Supervision, b: bool, cap: nat, f: nat, s: nat)
    requires r.window == Window(r.history, cap)
    ensures Step(r, Beat(b), cap, f, s) == Supervision(r.history + [b], Window(r.history + [b], cap), r.stopped, r.pending + 1)
  {
  }

  lemma BeatFollows(r: Supervision, b: bool, cap: nat, f: nat, s: nat)
    requires Follows(r, cap, f, s)
    ensures Follows(Step(r, Beat(b), cap, f, s), cap, f, s)
  {
    StepBeat(r, b, cap, f, s);
    var seen := |r.history| - r.pending;
    assert (r.history + [b])[..seen] == r.history[..seen];
  }

  lemma CheckedState(h: seq<bool>, seen: nat, k: nat, cap: nat, f: nat, s: nat)
    requires f >= 1 && s >= 1 && cap >= k + Max(f, s) - 1 && seen <= |h| <= seen + k
    ensures Decide(Online(h[..seen], f, s).stopped, Verdict(Window(h, cap), f, s)) == Online(h, f, s).stopped
  {
    assert h == h[..seen] + h[seen..];
    SampleAgrees(h[..seen], h[seen..], k, cap, f, s);
  }

  lemma CheckFollows(r: Supervision, k: nat, cap: nat, f: nat, s: nat)
    requires f >= 1 && s >= 1 && cap >= k + Max(f, s) - 1 && Follows(r, cap, f, s) && r.pending <= k
    ensures Follows(Step(r, Check, cap, f, s), cap, f, s)
  {
    CheckedState(r.history, |r.history| - r.pending, k, cap, f, s);
    assert r.history[..|r.history|] == r.history;
  }

  /**
    The windowed scan equals the automaton: whatever the order of heartbeats and checks, the flag is the
    state of the automaton over the whole history as of the last check.
  */
  lemma {:induction false} RunFollows(events: seq<Event>, k: nat, cap: nat, f: nat, s: nat)
    requires f >= 1 && s >= 1 && cap >= k + Max(f, s) - 1 && Spaced(events, k, cap, f, s)
    ensures Follows(Exec(events, cap, f, s), cap, f, s)
  {
    if events != [] {
      var init, e := events[..|events| - 1], events[|events| - 1];
      RunFollows(init, k, cap, f, s);
      var r := Exec(init, cap, f, s);
      match e
      case Beat(b) => BeatFollows(r, b, cap, f, s);
      case Check => CheckFollows(r, k, cap, f, s);
    }
  }

  /** With the agent's numbers the flag is right after every check if at most 15 results come in between. */
  lemma FifteenSuffice(events: seq<Event>)
    requires events != [] && events[|events| - 1] == Check
    requires Spaced(events, 15, 26, 12, 3)
    ensures var r := Exec(events, 26, 12, 3);
            r.stopped == Online(r.history, 12, 3).stopped
  {
    RunFollows(events, 15, 26, 12, 3);
    var h := Exec(events, 26, 12, 3).history;
    assert h[..|h|] == h;
  }

  lemma ExecLast(events: seq<Event>, e: Event, k: nat, cap: nat, f: nat, s: nat)
    ensures Exec(events + [e], cap, f, s) == Step(Exec(events, cap, f, s), e, cap, f, s)
    ensures Spaced(events, k, cap, f, s) && (e.Check? ==> Exec(events, cap, f, s).pending <= k) ==> Spaced(events + [e], k, cap, f, s)
  {
    assert (events + [e])[..|events|] == events;
  }

  function AfterBeats(r: Supervision, results: seq<bool>, cap: nat): Supervision {
    Supervision(r.history + results, Window(r.history + results, cap), r.stopped, r.pending + |results|)
  }

  lemma AfterNone(r: Supervision, cap: nat)
    requires r.window == Window(r.history, cap)
    ensures AfterBeats(r, [], cap) == r
  {
    assert r.history + [] == r.history;
  }

  lemma AfterOneMore(r: Supervision, results: seq<bool>, b: bool, cap: nat, f: nat, s: nat)
    ensures Step(AfterBeats(r, results, cap), Beat(b), cap, f, s) == AfterBeats(r, results + [b], cap)
  {
    StepBeat(AfterBeats(r, results, cap), b, cap, f, s);
    assert r.history + results + [b] == r.history + (results + [b]);
  }

  /** The events keep the spacing and lead to r. */
  ghost predicate Reaches(events: seq<Event>, r: Supervision, k: nat, cap: nat, f: nat, s: nat) {
    Spaced(events, k, cap, f, s) && Exec(events, cap, f, s) == r
  }

  lemma ReachesBeat(events: seq<Event>, r: Supervision, results: seq<bool>, b: bool, k: nat, cap: nat, f: nat, s: nat)
    requires Reaches(events, AfterBeats(r, results, cap), k, cap, f, s)
    ensures Reaches(events + [Beat(b)], AfterBeats(r, results + [b], cap), k, cap, f, s)
  {
    ExecLast(events, Beat(b), k, cap, f, s);
    AfterOneMore(r, results, b, cap, f, s);
  }

  /** Events that let the results arrive, one after the other. */
  lemma Arrive(events: seq<Event>, r: Supervision, results: seq<bool>, k: nat, cap: nat, f: nat, s: nat)
    returns (all: seq<Event>)
    requires Reaches(events, r, k, cap, f, s) && r.window == Window(r.history, cap)
    ensures Reaches(all, AfterBeats(r, results, cap), k, cap, f, s)
  {
    all := events;
    AfterNone(r, cap);
    for n := 0 to |results|
      invariant Reaches(all, AfterBeats(r, results[..n], cap), k, cap, f, s)
    {
      ReachesBeat(all, r, results[..n], results[n], k, cap, f, s);
      assert results[..n + 1] == results[..n] + [results[n]];
      all := all + [Beat(results[n])];
    }
    assert results[..|results|] == results;
  }

  /**
    Fifteen is exact: if 16 results may come between two checks there is a run after which the flag is wrong.
  */
  lemma SixteenBreaks(k: nat) returns (events: seq<Event>)
    requires k >= 16
    ensures Spaced(events, k, 26, 12, 3)
    ensures events != [] && events[|events| - 1] == Check
    ensures var r := Exec(events, 26, 12, 3);
            r.stopped != Online(r.history, 12, 3).stopped
  {
    var prev, more := WindowTooSmall(k, 26, 12, 3);
    var none := Supervision([], [], false, 0);
    var first := Arrive([], none, prev, 15, 26, 12, 3);
    ExecLast(first, Check, 15, 26, 12, 3);
    FifteenSuffice(first + [Check]);
    SpacedMore(first + [Check], 15, k, 26, 12, 3);
    var second := Arrive(first + [Check], Exec(first + [Check], 26, 12, 3), more, k, 26, 12, 3);
    assert [] + prev == prev;
    ExecLast(second, Check, k, 26, 12, 3);
    events := second + [Check];
  }

  lemma {:induction false} SpacedMore(events: seq<Event>, k: nat, k': nat, cap: nat, f: nat, s: nat)
    requires Spaced(events, k, cap, f, s) && k <= k'
    ensures Spaced(events, k', cap, f, s)
  {
    if events != [] { SpacedMore(events[..|events| - 1], k, k', cap, f, s); }
  }

  // ----- the list

  class LimitedList<T> {
    const cap: int
    var list: seq<T>

    ghost predicate Valid()
      reads this
    {
      0 < cap && |list| <= cap
    }

    constructor (cap: int)
      requires cap > 0
      ensures Valid() && list == [] && this.cap == cap
    {
      this.cap, list := cap, [];
    }

    method Put(value: T)
      requires Valid()
      modifies this
      ensures Valid() && list == Window(old(list) + [value], cap)
    {
      list := list + [value];
      if |list| > cap {
        list := list[1..];
      }
    }

    /** The copy ForeachReverse makes under the lock before it walks it. */
    method Reversed() returns (copy: seq<T>)
      ensures |copy| == |list| && forall i :: 0 <= i < |copy| ==> copy[i] == list[|list| - 1 - i]
    {
      copy := [];
      for i := |list| downto 0
        invariant |copy| == |list| - i
        invariant forall j :: 0 <= j < |copy| ==> copy[j] == list[|list| - 1 - j]
      {
        copy := copy + [list[i]];
      }
    }
  }

  method NewLimitedSortList<T>(cap: int) returns (r: Result<LimitedList<T>>)
    ensures r.Ok? <==> cap > 0
    ensures r.Ok? ==> fresh(r.value) && r.value.Valid() && r.value.list == [] && r.value.cap == cap
  {
    if cap <= 0 { return Err("cap less or equal than 0"); }
    var l := new LimitedList<T>(cap);
    return Ok(l);
  }

  // ----- the monitor

  datatype Action = Action(needStop: bool, needStart: bool, needExit: bool, reason: string)

  class DefaultChecker {
    var hbAlreadyStopped: bool

    constructor ()
      ensures !hbAlreadyStopped
    {
      hbAlreadyStopped := false;
    }

    method CheckHeartBeat(beats: LimitedList<bool>) returns (action: Action)
      modifies this
      ensures var v := Verdict(beats.list, 12, 3);
              && action.needStop == (v == Some(false) && !old(hbAlreadyStopped))
              && action.needStart == (v == Some(true) && old(hbAlreadyStopped))
              && !action.needExit
              && action.reason == (if action.needStop then "stop because of heartbeat" else "")
              && hbAlreadyStopped == (old(hbAlreadyStopped) || action.needStop)
    {
      action := Action(false, false, false, "");
      var fails, succs := 0, 0;
      var walk := beats.Reversed();
      ghost var w := beats.list;
      assert w[..|w|] == w;
      for i := 0 to |walk|
        invariant hbAlreadyStopped == old(hbAlreadyStopped) && action == Action(false, false, false, "")
        invariant fails >= 0 && succs >= 0
        invariant Verdict(w, STOP_THRESHOLD, START_THRESHOLD) ==
                  Scan(w[..|w| - i], fails, succs, STOP_THRESHOLD, START_THRESHOLD)
      {
        assert w[..|w| - i][..|w| - i - 1] == w[..|w| - i - 1];
        if !walk[i] {
          fails, succs := fails + 1, 0;
        } else {
          fails, succs := 0, succs + 1;
        }
        if fails == STOP_THRESHOLD && !hbAlreadyStopped {
          hbAlreadyStopped := true;
          action := Action(true, false, false, "stop because of heartbeat");
          return;
        }
        if fails == STOP_THRESHOLD && hbAlreadyStopped { return; }
        if succs == START_THRESHOLD && hbAlreadyStopped {
          action := Action(false, true, false, "");
          return;
        }
        if succs == START_THRESHOLD && !hbAlreadyStopped { return; }
      }
    }

    /** The flag moves as the scan decides, and the action tells exactly when it moved, and which way. */
    method Check(beats: LimitedList<bool>) returns (action: Action)
      modifies this
      ensures hbAlreadyStopped == Decide(old(hbAlreadyStopped), Verdict(beats.list, 12, 3))
      ensures action.needStop == (!old(hbAlreadyStopped) && hbAlreadyStopped)
      ensures action.needStart == (old(hbAlreadyStopped) && !hbAlreadyStopped)
    {
      action := CheckHeartBeat(beats);
      if action.needStop || action.needExit { return; }
      if action.needStart {
        hbAlreadyStopped := false;
      }
    }
  }

  /** The moves of the flag: true for every stop, false for every start. */
  function Moves(events: seq<Event>, cap: nat, f: nat, s: nat): seq<bool> {
    if events == [] then []
    else
      var init := events[..|events| - 1];
      var now := Exec(events, cap, f, s).stopped;
      Moves(init, cap, f, s) + if Exec(init, cap, f, s).stopped != now then [now] else []
  }

  /** Stops and starts alternate, the first being a stop, and the last one says where the flag is. */
  predicate Alternates(moves: seq<bool>, stopped: bool) {
    && (forall i :: 0 <= i < |moves| ==> moves[i] == (i % 2 == 0))
    && stopped == (|moves| % 2 == 1)
  }

  lemma AlternatesOneMore(moves: seq<bool>, before: bool, now: bool)
    requires Alternates(moves, before)
    ensures Alternates(moves + if before != now then [now] else [], now)
  {
  }

  lemma {:induction false} MovesAlternate(events: seq<Event>, cap: nat, f: nat, s: nat)
    ensures Alternates(Moves(events, cap, f, s), Exec(events, cap, f, s).stopped)
  {
    if events != [] {
      var init := events[..|events| - 1];
      MovesAlternate(init, cap, f, s);
      AlternatesOneMore(Moves(init, cap, f, s), Exec(init, cap, f, s).stopped, Exec(events, cap, f, s).stopped);
    }
  }

  /**
    doMonitor with the agent's list and checker, under any sequence of events: the flag is what Exec says, and
    a stop or start notice is asked for exactly at each move.
  */
  method Supervise(events: seq<Event>) returns (stopped: bool, notices: seq<bool>)
    ensures stopped == Exec(events, 26, 12, 3).stopped
    ensures notices == Moves(events, 26, 12, 3)
  {
    notices := [];
    var beats := new LimitedList<bool>(HEARTBEATS_KEPT);
    var checker := new DefaultChecker();
    for i := 0 to |events|
      invariant beats.Valid() && beats.cap == HEARTBEATS_KEPT
      invariant var r := Exec(events[..i], 26, 12, 3);
                beats.list == r.window && checker.hbAlreadyStopped == r.stopped
      invariant notices == Moves(events[..i], 26, 12, 3)
    {
      assert events[..i + 1][..i] == events[..i];
      match events[i] {
        case Beat(b) =>
          beats.Put(b);
        case Check =>
          var action := checker.Check(beats);
          if action.needStop { notices := notices + [true]; }
          if action.needStart { notices := notices + [false]; }
      }
    }
    assert events[..|events|] == events;
    stopped := checker.hbAlreadyStopped;
  }
}
