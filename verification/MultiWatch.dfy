/**
  The multiplexed watch as a system of interleaved steps: one sender per underlying watcher, a closer that
  waits for all of them, a caller of Stop, and sources that produce and close when they like.
  `panicked` records a send on a closed channel, a second close or a negative wait group.
*/
module MultiWatch {

  /** A sender waits on its source, offers an event to the result channel, or has returned. */
  datatype Sender<E> = Receiving | Holding(event: E) | Exited

  /** One source and its sender: all it ever produced, what is still in its channel, what its sender gave up. */
  datatype Watcher<E> = Watcher(produced: seq<E>, pending: seq<E>, open: bool, sender: Sender<E>, dropped: seq<E>, stops: nat)

  /** `log` is what the consumer received; `stopping` is the position of a Stop call in progress, -1 if none. */
  datatype State<E> = State(ws: seq<Watcher<E>>, log: seq<(int, E)>, wg: int, stopping: int, stopped: bool,
                            closerDone: bool, closed: bool, panicked: bool)

  datatype Step<E> =
    | Produce(i: nat, e: E) | CloseSource(i: nat)
    | Receive(i: nat) | Deliver(i: nat) | Abandon(i: nat) | Leave(i: nat)
    | CloseResult
    | BeginStop | StopNext | EndStop

  ghost predicate Enabled<E(!new)>(s: State<E>, t: Step<E>) {
    match t
    case Produce(i, _) => i < |s.ws| && s.ws[i].open
    case CloseSource(i) => i < |s.ws| && s.ws[i].open
    case Receive(i) => i < |s.ws| && s.ws[i].sender.Receiving? && s.ws[i].pending != []
    case Deliver(i) => i < |s.ws| && s.ws[i].sender.Holding?
    case Abandon(i) => i < |s.ws| && s.ws[i].sender.Holding? && s.stopped
    case Leave(i) => i < |s.ws| && s.ws[i].sender.Receiving? && s.ws[i].pending == [] && !s.ws[i].open
    case CloseResult => !s.closerDone && s.wg == 0
    case BeginStop => s.stopping < 0
    case StopNext => 0 <= s.stopping < |s.ws|
    case EndStop => s.stopping == |s.ws|
  }

  function WithWatcher<E>(s: State<E>, i: nat, w: Watcher<E>): State<E>
    requires i < |s.ws|
  {
    s.(ws := s.ws[i := w])
  }

  /** The sender returns and calls Done on the wait group. */
  function Exit<E>(s: State<E>): State<E> {
    s.(wg := s.wg - 1, panicked := s.panicked || s.wg - 1 < 0)
  }

  ghost function Do<E(!new)>(s: State<E>, t: Step<E>): State<E>
    requires Enabled(s, t)
  {
    match t
    case Produce(i, e) => WithWatcher(s, i, s.ws[i].(produced := s.ws[i].produced + [e], pending := s.ws[i].pending + [e]))
    case CloseSource(i) => WithWatcher(s, i, s.ws[i].(open := false))
    case Receive(i) => WithWatcher(s, i, s.ws[i].(pending := s.ws[i].pending[1..], sender := Holding(s.ws[i].pending[0])))
    case Deliver(i) =>
      WithWatcher(s, i, s.ws[i].(sender := Receiving)).(
        log := s.log + [(i, s.ws[i].sender.event)], panicked := s.panicked || s.closed)
    case Abandon(i) => Exit(WithWatcher(s, i, s.ws[i].(sender := Exited, dropped := s.ws[i].dropped + [s.ws[i].sender.event])))
    case Leave(i) => Exit(WithWatcher(s, i, s.ws[i].(sender := Exited)))
    case CloseResult => s.(closerDone := true, closed := true, panicked := s.panicked || s.closed)
    case BeginStop => if s.stopped then s else s.(stopping := 0)
    case StopNext => WithWatcher(s, s.stopping, s.ws[s.stopping].(stops := s.ws[s.stopping].stops + 1)).(stopping := s.stopping + 1)
    case EndStop => s.(stopping := -1, stopped := true, panicked := s.panicked || s.stopped)
  }

  ghost predicate Init<E(!new)>(s: State<E>) {
    && (forall i :: 0 <= i < |s.ws| ==> s.ws[i] == Watcher([], [], true, Receiving, [], 0))
    && s.log == [] && s.wg == |s.ws| && s.stopping == -1
    && !s.stopped && !s.closerDone && !s.closed && !s.panicked
  }

  /** newMultiWatch over n watchers. */
  function Start<E>(n: nat): State<E> {
    State(seq(n, i => Watcher([], [], true, Receiving, [], 0)), [], n, -1, false, false, false, false)
  }

  ghost predicate Run<E(!new)>(states: seq<State<E>>, steps: seq<Step<E>>) {
    && |states| == |steps| + 1
    && forall k :: 0 <= k < |steps| ==> Enabled(states[k], steps[k]) && states[k + 1] == Do(states[k], steps[k])
  }

  // ----- sums over the watchers

  function Sum<T>(xs: seq<T>, f: T -> int): int {
    if xs == [] then 0 else Sum(xs[..|xs| - 1], f) + f(xs[|xs| - 1])
  }

  lemma {:induction false} SumUpdate<T>(xs: seq<T>, f: T -> int, i: nat, x: T)
    requires i < |xs|
    ensures Sum(xs[i := x], f) == Sum(xs, f) - f(xs[i]) + f(x)
  {
    var n := |xs| - 1;
    if i < n {
      SumUpdate(xs[..n], f, i, x);
      assert xs[i := x][..n] == xs[..n][i := x];
    } else {
      assert xs[i := x][..n] == xs[..n];
    }
  }

  lemma {:induction false} SumAtLeast<T>(xs: seq<T>, f: T -> int, i: nat)
    requires i < |xs| && forall x :: x in xs ==> f(x) >= 0
    ensures Sum(xs, f) >= f(xs[i])
    ensures Sum(xs[..|xs| - 1], f) >= 0
  {
    var n := |xs| - 1;
    if n > 0 {
      SumAtLeast(xs[..n], f, if i < n then i else 0);
    }
  }

  function Live<E>(w: Watcher<E>): int {
    if w.sender.Exited? then 0 else 1
  }

  /** The agent's own steps still possible for a closed source. */
  function Weight<E>(w: Watcher<E>): int {
    2 * |w.pending| + (if w.sender.Receiving? then 1 else if w.sender.Holding? then 2 else 0)
  }

  // ----- the invariant

  /** What the consumer received from watcher i, in order. */
  function Received<E>(log: seq<(int, E)>, i: int): seq<E> {
    if log == [] then []
    else
      var rest := Received(log[..|log| - 1], i);
      if log[|log| - 1].0 == i then rest + [log[|log| - 1].1] else rest
  }

  function Held<E>(w: Watcher<E>): seq<E> {
    if w.sender.Holding? then [w.sender.event] else []
  }

  ghost predicate WatcherOk<E>(w: Watcher<E>, received: seq<E>, stopped: bool) {
    && w.produced == received + Held(w) + w.dropped + w.pending
    && |w.dropped| <= 1
    && (w.dropped != [] ==> w.sender.Exited? && stopped)
    && (w.sender.Exited? && w.dropped == [] ==> !w.open && w.pending == [])
  }

  ghost predicate WatchersOk<E(!new)>(ws: seq<Watcher<E>>, log: seq<(int, E)>, stopped: bool) {
    forall i :: 0 <= i < |ws| ==> WatcherOk(ws[i], Received(log, i), stopped)
  }

  ghost predicate StopsOk<E(!new)>(ws: seq<Watcher<E>>, stopping: int, stopped: bool) {
    forall i :: 0 <= i < |ws| ==> ws[i].stops == if stopped || i < stopping then 1 else 0
  }

  ghost predicate Inv<E(!new)>(s: State<E>) {
    && WatchersOk(s.ws, s.log, s.stopped)
    && (forall k :: 0 <= k < |s.log| ==> 0 <= s.log[k].0 < |s.ws|)
    && s.wg == Sum(s.ws, Live)
    && s.closed == s.closerDone && (s.closed ==> s.wg == 0)
    && !s.panicked
    && -1 <= s.stopping <= |s.ws| && (s.stopped ==> s.stopping == -1)
    && StopsOk(s.ws, s.stopping, s.stopped)
  }

  lemma LiveSenders<E(!new)>(s: State<E>)
    requires s.wg == Sum(s.ws, Live)
    ensures forall i :: 0 <= i < |s.ws| && !s.ws[i].sender.Exited? ==> s.wg > 0
  {
    forall i | 0 <= i < |s.ws| && !s.ws[i].sender.Exited? ensures s.wg > 0 {
      SumAtLeast(s.ws, Live, i);
    }
  }

  lemma {:induction false} InitSum<E>(ws: seq<Watcher<E>>)
    requires forall i :: 0 <= i < |ws| ==> ws[i].sender.Receiving?
    ensures Sum(ws, Live) == |ws|
  {
    if ws != [] { InitSum(ws[..|ws| - 1]); }
  }

  lemma InitInv<E(!new)>(s: State<E>)
    requires Init(s)
    ensures Inv(s)
  {
    InitSum(s.ws);
  }

  lemma StartInv<E(!new)>(n: nat)
    ensures Init(Start<E>(n)) && Inv(Start<E>(n)) && |Start<E>(n).ws| == n
  {
    InitInv(Start<E>(n));
  }

  // ----- every step keeps the invariant

  lemma WatchersOkUpdate<E(!new)>(ws: seq<Watcher<E>>, log: seq<(int, E)>, stopped: bool, i: nat, w: Watcher<E>)
    requires WatchersOk(ws, log, stopped) && i < |ws| && WatcherOk(w, Received(log, i), stopped)
    ensures WatchersOk(ws[i := w], log, stopped)
  {
  }

  lemma StopsOkUpdate<E(!new)>(ws: seq<Watcher<E>>, stopping: int, stopped: bool, i: nat, w: Watcher<E>)
    requires StopsOk(ws, stopping, stopped) && i < |ws| && w.stops == ws[i].stops
    ensures StopsOk(ws[i := w], stopping, stopped)
  {
  }

  /** A change of one watcher that leaves its sender alive and its stop count alone. */
  lemma WatcherStep<E(!new)>(s: State<E>, i: nat, w: Watcher<E>)
    requires Inv(s) && i < |s.ws| && WatcherOk(w, Received(s.log, i), s.stopped)
    requires Live(w) == Live(s.ws[i]) && w.stops == s.ws[i].stops
    ensures Inv(WithWatcher(s, i, w))
  {
    SumUpdate(s.ws, Live, i, w);
    WatchersOkUpdate(s.ws, s.log, s.stopped, i, w);
    StopsOkUpdate(s.ws, s.stopping, s.stopped, i, w);
  }

  lemma ProduceOk<E>(w: Watcher<E>, received: seq<E>, stopped: bool, e: E)
    requires WatcherOk(w, received, stopped) && w.open
    ensures WatcherOk(w.(produced := w.produced + [e], pending := w.pending + [e]), received, stopped)
  {
  }

  lemma ProduceStep<E(!new)>(s: State<E>, t: Step<E>)
    requires Inv(s) && Enabled(s, t) && t.Produce?
    ensures Inv(Do(s, t))
  {
    ProduceOk(s.ws[t.i], Received(s.log, t.i), s.stopped, t.e);
    WatcherStep(s, t.i, Do(s, t).ws[t.i]);
  }

  lemma CloseSourceStep<E(!new)>(s: State<E>, t: Step<E>)
    requires Inv(s) && Enabled(s, t) && t.CloseSource?
    ensures Inv(Do(s, t))
  {
    assert WatcherOk(s.ws[t.i], Received(s.log, t.i), s.stopped);
    WatcherStep(s, t.i, Do(s, t).ws[t.i]);
  }

  lemma ReceiveOk<E>(w: Watcher<E>, received: seq<E>, stopped: bool)
    requires WatcherOk(w, received, stopped) && w.sender.Receiving? && w.pending != []
    ensures WatcherOk(w.(pending := w.pending[1..], sender := Holding(w.pending[0])), received, stopped)
  {
  }

  lemma ReceiveStep<E(!new)>(s: State<E>, t: Step<E>)
    requires Inv(s) && Enabled(s, t) && t.Receive?
    ensures Inv(Do(s, t))
  {
    ReceiveOk(s.ws[t.i], Received(s.log, t.i), s.stopped);
    WatcherStep(s, t.i, Do(s, t).ws[t.i]);
  }

  lemma DeliverWatchers<E(!new)>(s: State<E>, t: Step<E>, i: nat)
    requires Inv(s) && Enabled(s, t) && t.Deliver? && i < |s.ws|
    ensures WatcherOk(Do(s, t).ws[i], Received(Do(s, t).log, i), s.stopped)
  {
  }

  lemma DeliverStep<E(!new)>(s: State<E>, t: Step<E>)
    requires Inv(s) && Enabled(s, t) && t.Deliver?
    ensures Inv(Do(s, t))
  {
    LiveSenders(s);
    SumUpdate(s.ws, Live, t.i, Do(s, t).ws[t.i]);
    forall i | 0 <= i < |s.ws| ensures WatcherOk(Do(s, t).ws[i], Received(Do(s, t).log, i), s.stopped) {
      DeliverWatchers(s, t, i);
    }
  }

  lemma AbandonOk<E>(w: Watcher<E>, received: seq<E>)
    requires WatcherOk(w, received, true) && w.sender.Holding?
    ensures WatcherOk(w.(sender := Exited, dropped := w.dropped + [w.sender.event]), received, true)
  {
  }

  lemma AbandonStep<E(!new)>(s: State<E>, t: Step<E>)
    requires Inv(s) && Enabled(s, t) && t.Abandon?
    ensures Inv(Do(s, t))
  {
    LiveSenders(s);
    SumUpdate(s.ws, Live, t.i, Do(s, t).ws[t.i]);
    AbandonOk(s.ws[t.i], Received(s.log, t.i));
    WatchersOkUpdate(s.ws, s.log, s.stopped, t.i, Do(s, t).ws[t.i]);
    StopsOkUpdate(s.ws, s.stopping, s.stopped, t.i, Do(s, t).ws[t.i]);
  }

  lemma LeaveStep<E(!new)>(s: State<E>, t: Step<E>)
    requires Inv(s) && Enabled(s, t) && t.Leave?
    ensures Inv(Do(s, t))
  {
    LiveSenders(s);
    SumUpdate(s.ws, Live, t.i, Do(s, t).ws[t.i]);
    assert WatcherOk(s.ws[t.i], Received(s.log, t.i), s.stopped);
    WatchersOkUpdate(s.ws, s.log, s.stopped, t.i, Do(s, t).ws[t.i]);
    StopsOkUpdate(s.ws, s.stopping, s.stopped, t.i, Do(s, t).ws[t.i]);
  }

  lemma StopEdgeStep<E(!new)>(s: State<E>, t: Step<E>)
    requires Inv(s) && Enabled(s, t) && (t.BeginStop? || t.EndStop?)
    ensures Inv(Do(s, t))
  {
  }

  lemma StopNextStep<E(!new)>(s: State<E>, t: Step<E>)
    requires Inv(s) && Enabled(s, t) && t.StopNext?
    ensures Inv(Do(s, t))
  {
    SumUpdate(s.ws, Live, s.stopping, Do(s, t).ws[s.stopping]);
  }

  lemma StepKeepsInv<E(!new)>(s: State<E>, t: Step<E>)
    requires Inv(s) && Enabled(s, t)
    ensures Inv(Do(s, t))
  {
    match t
    case Produce(_, _) => ProduceStep(s, t);
    case CloseSource(_) => CloseSourceStep(s, t);
    case Receive(_) => ReceiveStep(s, t);
    case Deliver(_) => DeliverStep(s, t);
    case Abandon(_) => AbandonStep(s, t);
    case Leave(_) => LeaveStep(s, t);
    case CloseResult =>
    case BeginStop => StopEdgeStep(s, t);
    case StopNext => StopNextStep(s, t);
    case EndStop => StopEdgeStep(s, t);
  }

  lemma {:induction false} RunKeepsInv<E(!new)>(states: seq<State<E>>, steps: seq<Step<E>>, k: nat)
    requires Run(states, steps) && Inv(states[0]) && k < |states|
    ensures Inv(states[k])
  {
    if k > 0 {
      RunKeepsInv(states, steps, k - 1);
      StepKeepsInv(states[k - 1], steps[k - 1]);
    }
  }

  // ----- what the consumer sees

  /**
    In every interleaving: nothing panics; what arrives from a watcher is a prefix of what it produced, in
    order; its sender gives up at most one event, only after Stop; and Stop stops each watcher exactly once.
  */
  lemma Conservation<E(!new)>(states: seq<State<E>>, steps: seq<Step<E>>, k: nat, i: nat)
    requires Run(states, steps) && Init(states[0]) && k < |states| && i < |states[k].ws|
    ensures var s, w := states[k], states[k].ws[i];
            && !s.panicked
            && Received(s.log, i) <= w.produced
            && w.produced == Received(s.log, i) + Held(w) + w.dropped + w.pending
            && |w.dropped| <= 1 && (w.dropped != [] ==> s.stopped)
            && (s.stopped ==> w.stops == 1)
  {
    InitInv(states[0]);
    RunKeepsInv(states, steps, k);
    var s, w := states[k], states[k].ws[i];
    assert WatcherOk(w, Received(s.log, i), s.stopped);
    assert w.produced[..|Received(s.log, i)|] == Received(s.log, i);
  }

  /** If Stop was never called, a closed result channel has delivered everything. */
  lemma ClosedMeansDelivered<E(!new)>(states: seq<State<E>>, steps: seq<Step<E>>, k: nat, i: nat)
    requires Run(states, steps) && Init(states[0]) && k < |states| && i < |states[k].ws|
    requires states[k].closed && !states[k].stopped
    ensures Received(states[k].log, i) == states[k].ws[i].produced && !states[k].ws[i].open
  {
    InitInv(states[0]);
    RunKeepsInv(states, steps, k);
    LiveSenders(states[k]);
    assert WatcherOk(states[k].ws[i], Received(states[k].log, i), states[k].stopped);
  }

  // ----- Stop

  /** A step of a Stop call in progress. */
  predicate StopStep<E>(t: Step<E>) {
    t.StopNext? || t.EndStop?
  }

  function StopSteps<E>(steps: seq<Step<E>>): nat {
    if steps == [] then 0 else StopSteps(steps[..|steps| - 1]) + if StopStep(steps[|steps| - 1]) then 1 else 0
  }

  /** A Stop call has taken n of its steps: one for each watcher, and one to close the stop channel. */
  ghost predicate StopTook<E(!new)>(s: State<E>, n: int) {
    && 0 <= n <= |s.ws| + 1
    && (s.stopped <==> n == |s.ws| + 1)
    && (!s.stopped ==> s.stopping == n)
  }

  lemma StopAdvances<E(!new)>(s: State<E>, t: Step<E>, n: int)
    requires Inv(s) && Enabled(s, t) && StopTook(s, n)
    ensures StopTook(Do(s, t), n + if StopStep(t) then 1 else 0) && |Do(s, t).ws| == |s.ws|
  {
  }

  lemma {:induction false} StopProceeds<E(!new)>(states: seq<State<E>>, steps: seq<Step<E>>, k: nat)
    requires Run(states, steps) && Inv(states[0]) && 1 <= k <= |steps| && StopTook(states[1], StopSteps(steps[..1]))
    ensures StopTook(states[k], StopSteps(steps[..k])) && |states[k].ws| == |states[1].ws|
  {
    if k > 1 {
      var p := k - 1;
      StopProceeds(states, steps, p);
      RunKeepsInv(states, steps, p);
      StopAdvances(states[p], steps[p], StopSteps(steps[..p]));
      assert steps[..k][..p] == steps[..p];
    }
  }

  lemma StopBegins<E(!new)>(s: State<E>)
    requires Inv(s) && s.stopping < 0
    ensures Enabled(s, BeginStop)
    ensures if s.stopped then Do(s, BeginStop) == s else StopTook(Do(s, BeginStop), 0) && |Do(s, BeginStop).ws| == |s.ws|
  {
  }

  lemma StopTookMeans<E(!new)>(s: State<E>, n: int)
    requires Inv(s) && StopTook(s, n)
    ensures n < |s.ws| ==> Enabled(s, StopNext)
    ensures n == |s.ws| ==> Enabled(s, EndStop)
    ensures forall i :: 0 <= i < |s.ws| ==> s.ws[i].stops == if i < n then 1 else 0
  {
  }

  /**
    A Stop call on a watch not yet stopped, whatever senders, sources, the closer and other callers do in
    between: it takes a step for each watcher and one more, the next one always being possible, and the watch
    is stopped exactly from the last on, with every watcher stopped once.
  */
  lemma StopCall<E(!new)>(states: seq<State<E>>, steps: seq<Step<E>>)
    requires Run(states, steps) && Inv(states[0]) && !states[0].stopped && states[0].stopping < 0
    requires steps != [] && steps[0] == BeginStop
    ensures var n, last, taken := |states[0].ws|, states[|steps|], StopSteps(steps);
            && |last.ws| == n && taken <= n + 1
            && (last.stopped <==> taken == n + 1)
            && (taken < n ==> Enabled(last, StopNext)) && (taken == n ==> Enabled(last, EndStop))
            && (forall i :: 0 <= i < n ==> last.ws[i].stops == if i < taken then 1 else 0)
  {
    var k := |steps|;
    StopBegins(states[0]);
    assert steps[..1] == [BeginStop] && [steps[0]][..0] == [];
    assert states[0 + 1] == Do(states[0], steps[0]);
    StopProceeds(states, steps, k);
    RunKeepsInv(states, steps, k);
    assert steps[..k] == steps;
    StopTookMeans(states[k], StopSteps(steps));
  }

  /** On a stopped watch every further call does nothing, and it stays stopped. */
  lemma StopAgain<E(!new)>(s: State<E>, t: Step<E>)
    requires Inv(s) && s.stopped && Enabled(s, t)
    ensures Do(s, t).stopped && !StopStep(t) && (t == BeginStop ==> Do(s, t) == s)
  {
  }

  /** The watch with its first n watchers stopped once more. */
  function StoppedUpTo<E>(s: State<E>, n: nat): State<E> {
    s.(ws := seq(|s.ws|, i requires 0 <= i < |s.ws| => if i < n then s.ws[i].(stops := s.ws[i].stops + 1) else s.ws[i]))
  }

  lemma StopNextIs<E(!new)>(s: State<E>, n: nat)
    requires n < |s.ws|
    ensures var at := StoppedUpTo(s, n).(stopping := n);
            Enabled(at, StopNext) && Do(at, StopNext) == StoppedUpTo(s, n + 1).(stopping := n + 1)
  {
    var at := StoppedUpTo(s, n).(stopping := n);
    assert Do(at, StopNext).ws == StoppedUpTo(s, n + 1).ws;
  }

  lemma RunLonger<E(!new)>(states: seq<State<E>>, steps: seq<Step<E>>, t: Step<E>)
    requires Run(states, steps) && Enabled(states[|steps|], t)
    ensures Run(states + [Do(states[|steps|], t)], steps + [t])
  {
  }

  lemma {:induction false} StopAloneUpTo<E(!new)>(s: State<E>, n: nat) returns (states: seq<State<E>>, steps: seq<Step<E>>)
    requires Inv(s) && !s.stopped && s.stopping < 0 && n <= |s.ws|
    ensures Run(states, steps) && |steps| == n + 1 && states[0] == s && steps[0] == BeginStop
    ensures states[|steps|] == StoppedUpTo(s, n).(stopping := n)
  {
    if n == 0 {
      states, steps := [s, Do(s, BeginStop)], [BeginStop];
      assert StoppedUpTo(s, 0).ws == s.ws;
    } else {
      states, steps := StopAloneUpTo(s, n - 1);
      StopNextIs(s, n - 1);
      RunLonger(states, steps, StopNext);
      states, steps := states + [StoppedUpTo(s, n).(stopping := n)], steps + [StopNext];
    }
  }

  /** A Stop call that runs alone changes nothing else: not what was delivered, not the senders, not the wait group. */
  lemma StopAlone<E(!new)>(s: State<E>) returns (states: seq<State<E>>, steps: seq<Step<E>>)
    requires Inv(s) && !s.stopped && s.stopping < 0
    ensures Run(states, steps) && |steps| == |s.ws| + 2 && states[0] == s && steps[0] == BeginStop
    ensures states[|steps|] == StoppedUpTo(s, |s.ws|).(stopped := true)
  {
    states, steps := StopAloneUpTo(s, |s.ws|);
    RunLonger(states, steps, EndStop);
    states, steps := states + [Do(states[|steps|], EndStop)], steps + [EndStop];
  }

  // ----- shutting down

  /** A step of a sender or of the closer. */
  predicate AgentStep<E>(t: Step<E>) {
    t.Receive? || t.Deliver? || t.Abandon? || t.Leave? || t.CloseResult?
  }

  ghost predicate SourcesClosed<E(!new)>(s: State<E>) {
    forall i :: 0 <= i < |s.ws| ==> !s.ws[i].open
  }

  function Measure<E>(s: State<E>): int {
    Sum(s.ws, Weight) + (if s.closerDone then 0 else 1)
  }

  lemma MeasureNonnegative<E(!new)>(s: State<E>)
    ensures Measure(s) >= 0
  {
    if |s.ws| > 0 { SumAtLeast(s.ws, Weight, 0); }
  }

  lemma AgentStepShrinks<E(!new)>(s: State<E>, t: Step<E>)
    requires Enabled(s, t) && AgentStep(t)
    ensures Measure(Do(s, t)) < Measure(s)
    ensures SourcesClosed(s) ==> SourcesClosed(Do(s, t))
  {
    if !t.CloseResult? { SumUpdate(s.ws, Weight, t.i, Do(s, t).ws[t.i]); }
  }

  /**
    Until the result channel is closed some step is possible once the sources are closed; after Stop it is
    one that does not wait for the consumer.
  */
  lemma Progress<E(!new)>(s: State<E>) returns (t: Step<E>)
    requires Inv(s) && SourcesClosed(s) && !s.closed
    ensures Enabled(s, t) && AgentStep(t) && (s.stopped ==> !t.Deliver?)
  {
    if i :| 0 <= i < |s.ws| && !s.ws[i].sender.Exited? {
      var w := s.ws[i];
      t := if w.sender.Receiving? then (if w.pending != [] then Receive(i) else Leave(i))
           else if s.stopped then Abandon(i) else Deliver(i);
    } else {
      NoneLive(s.ws);
      t := CloseResult;
    }
  }

  lemma {:induction false} NoneLive<E>(ws: seq<Watcher<E>>)
    requires forall i :: 0 <= i < |ws| ==> ws[i].sender.Exited?
    ensures Sum(ws, Live) == 0
  {
    if ws != [] { NoneLive(ws[..|ws| - 1]); }
  }

  /** Only an event that a source produces adds work, two steps for the agent. */
  lemma OtherStepRaises<E(!new)>(s: State<E>, t: Step<E>)
    requires Enabled(s, t) && !AgentStep(t)
    ensures Measure(Do(s, t)) <= Measure(s) + if t.Produce? then 2 else 0
    ensures SourcesClosed(s) ==> SourcesClosed(Do(s, t)) && !t.Produce?
  {
    match t
    case Produce(i, _) => SumUpdate(s.ws, Weight, i, Do(s, t).ws[i]);
    case CloseSource(i) => SumUpdate(s.ws, Weight, i, Do(s, t).ws[i]);
    case StopNext => SumUpdate(s.ws, Weight, s.stopping, Do(s, t).ws[s.stopping]);
    case BeginStop =>
    case EndStop =>
  }

  function AgentSteps<E>(steps: seq<Step<E>>): nat {
    if steps == [] then 0 else AgentSteps(steps[..|steps| - 1]) + if AgentStep(steps[|steps| - 1]) then 1 else 0
  }

  function Produces<E>(steps: seq<Step<E>>): nat {
    if steps == [] then 0 else Produces(steps[..|steps| - 1]) + if steps[|steps| - 1].Produce? then 1 else 0
  }

  /**
    On every run, with sources open or closed and Stop called at any time and any number of times, the agent
    takes at most two steps for each event produced, besides those it had left at the start.
  */
  lemma {:induction false} AgentStepsBounded<E(!new)>(states: seq<State<E>>, steps: seq<Step<E>>)
    requires Run(states, steps)
    ensures AgentSteps(steps) + Measure(states[|steps|]) <= Measure(states[0]) + 2 * Produces(steps)
    ensures SourcesClosed(states[0]) ==> SourcesClosed(states[|steps|]) && Produces(steps) == 0
  {
    if steps != [] {
      var n := |steps| - 1;
      AgentStepsBounded(states[..n + 1], steps[..n]);
      if AgentStep(steps[n]) { AgentStepShrinks(states[n], steps[n]); } else { OtherStepRaises(states[n], steps[n]); }
    }
  }

  /**
    Shutdown: on any run from a state with closed sources, Stop calls included, the senders and the closer
    take at most Measure steps, and when they can take no more, after Stop not even without the consumer, the
    result channel is closed.
  */
  lemma ShutsDown<E(!new)>(states: seq<State<E>>, steps: seq<Step<E>>)
    requires Run(states, steps) && Inv(states[0]) && SourcesClosed(states[0])
    ensures AgentSteps(steps) <= Measure(states[0])
    ensures var last := states[|steps|];
            (forall t :: AgentStep(t) && Enabled(last, t) ==> last.stopped && t.Deliver?) ==> last.closed
  {
    var last := states[|steps|];
    AgentStepsBounded(states, steps);
    MeasureNonnegative(last);
    RunKeepsInv(states, steps, |steps|);
    if !last.closed {
      var t := Progress(last);
      assert AgentStep(t) && Enabled(last, t);
    }
  }
}
