/** The state reported for a pod. */
module PodState {
  import opened Wrappers
  import opened Strings

  datatype Terminated = Terminated(exitCode: int, signal: int, reason: string)

  /** A container status; a missing state is None. */
  datatype Container = Container(waiting: Option<string>, terminated: Option<Terminated>, running: bool, ready: bool)

  datatype Pod = Pod(phase: string, reason: string, initSpecs: nat, inits: seq<Container>, containers: seq<Container>, deleted: bool)

  predicate ExitedWell(c: Container) {
    c.terminated.Some? && c.terminated.value.exitCode == 0
  }

  /** The reason the i'th init container gives while it holds up the pod. */
  function InitReason(pod: Pod, i: nat): string
    requires i < |pod.inits|
  {
    var c := pod.inits[i];
    if c.terminated.Some? then
      var t := c.terminated.value;
      if t.reason != "" then "Init:" + t.reason
      else if t.signal != 0 then "Init:Signal:" + FormatInt(t.signal)
      else "Init:ExitCode:" + FormatInt(t.exitCode)
    else if c.waiting.Some? && c.waiting.value != "" && c.waiting.value != "PodInitializing" then "Init:" + c.waiting.value
    else "Init:" + FormatInt(i) + "/" + FormatInt(pod.initSpecs)
  }

  /** A container that is waiting for a reason or has terminated gives the pod its reason. */
  function ContainerReason(c: Container): Option<string> {
    if c.waiting.Some? && c.waiting.value != "" then Some(c.waiting.value)
    else if c.terminated.Some? then
      var t := c.terminated.value;
      Some(if t.reason != "" then t.reason
           else if t.signal != 0 then "Signal:" + FormatInt(t.signal)
           else "ExitCode:" + FormatInt(t.exitCode))
    else None
  }

  predicate RunsReady(c: Container) {
    ContainerReason(c).None? && c.ready && c.running
  }

  /** The reason of the first container in order that gives one. */
  function FirstReason(cs: seq<Container>, otherwise: string): string {
    if cs == [] then otherwise
    else match ContainerReason(cs[0])
      case Some(r) => r
      case None => FirstReason(cs[1..], otherwise)
  }

  lemma {:induction false} FirstReasonIs(cs: seq<Container>, otherwise: string, i: nat)
    requires i <= |cs| && (forall k :: 0 <= k < i ==> ContainerReason(cs[k]).None?) && (i < |cs| ==> ContainerReason(cs[i]).Some?)
    ensures FirstReason(cs, otherwise) == if i < |cs| then ContainerReason(cs[i]).value else otherwise
  {
    if i > 0 { FirstReasonIs(cs[1..], otherwise, i - 1); }
  }

  function FirstPending(inits: seq<Container>): nat {
    if inits == [] || !ExitedWell(inits[0]) then 0 else 1 + FirstPending(inits[1..])
  }

  lemma {:induction false} FirstPendingIs(inits: seq<Container>, i: nat)
    requires i <= |inits| && (forall k :: 0 <= k < i ==> ExitedWell(inits[k])) && (i < |inits| ==> !ExitedWell(inits[i]))
    ensures FirstPending(inits) == i
  {
    if i > 0 { FirstPendingIs(inits[1..], i - 1); }
  }

  /** The first init container that has not exited with 0 decides; else the first container that gives a reason. */
  ghost function State(pod: Pod): string {
    var status := if pod.reason != "" then pod.reason else pod.phase;
    var i := FirstPending(pod.inits);
    var reason := FirstReason(pod.containers, status);
    if pod.deleted then (if pod.reason == "NodeLost" then "Unknown" else "Terminating")
    else if i < |pod.inits| then InitReason(pod, i)
    else if reason == "Completed" && exists c :: c in pod.containers && RunsReady(c) then "Running"
    else reason
  }

  // ----- the state in terms of the status fields

  /** What a terminated container is said to have died of. */
  function Ending(t: Terminated): string {
    if t.reason == "" then
      (if t.signal == 0 then "ExitCode:" + FormatInt(t.exitCode) else "Signal:" + FormatInt(t.signal))
    else t.reason
  }

  lemma DeletedState(pod: Pod)
    requires pod.deleted
    ensures State(pod) == if pod.reason == "NodeLost" then "Unknown" else "Terminating"
  {
  }

  predicate Waits(c: Container) {
    c.waiting.Some? && c.waiting.value != ""
  }

  /** An init container that has not exited with 0, while all before it have, names the state. */
  lemma InitState(pod: Pod, i: nat)
    requires !pod.deleted && i < |pod.inits|
    requires forall k :: 0 <= k < i ==> pod.inits[k].terminated.Some? && pod.inits[k].terminated.value.exitCode == 0
    requires pod.inits[i].terminated.Some? ==> pod.inits[i].terminated.value.exitCode != 0
    ensures var c := pod.inits[i];
            State(pod) == "Init:" +
                          if c.terminated.Some? then Ending(c.terminated.value)
                          else if Waits(c) && c.waiting.value != "PodInitializing" then c.waiting.value
                          else FormatInt(i) + "/" + FormatInt(pod.initSpecs)
  {
    FirstPendingIs(pod.inits, i);
  }

  lemma ReasonIs(c: Container)
    ensures ContainerReason(c).Some? <==> Waits(c) || c.terminated.Some?
    ensures ContainerReason(c).Some? ==> ContainerReason(c).value == if Waits(c) then c.waiting.value else Ending(c.terminated.value)
  {
  }

  /**
    With the init containers done the first container that waits for a reason or has terminated names the
    state, and without one the pod does; a completed pod with a ready running container is running.
  */
  lemma ContainerState(pod: Pod, i: nat)
    requires !pod.deleted && i <= |pod.containers|
    requires forall k :: 0 <= k < |pod.inits| ==> pod.inits[k].terminated.Some? && pod.inits[k].terminated.value.exitCode == 0
    requires forall k :: 0 <= k < i ==> !Waits(pod.containers[k]) && pod.containers[k].terminated.None?
    requires i < |pod.containers| ==> Waits(pod.containers[i]) || pod.containers[i].terminated.Some?
    ensures var reason := if i == |pod.containers| then (if pod.reason == "" then pod.phase else pod.reason)
                          else if Waits(pod.containers[i]) then pod.containers[i].waiting.value
                          else Ending(pod.containers[i].terminated.value);
            var runs := exists c :: c in pod.containers && !Waits(c) && c.terminated.None? && c.ready && c.running;
            State(pod) == if reason == "Completed" && runs then "Running" else reason
  {
    FirstPendingIs(pod.inits, |pod.inits|);
    forall c ensures ContainerReason(c).Some? <==> Waits(c) || c.terminated.Some? {
      ReasonIs(c);
    }
    FirstReasonIs(pod.containers, if pod.reason == "" then pod.phase else pod.reason, i);
    if i < |pod.containers| { ReasonIs(pod.containers[i]); }
  }

  /** getPodState: the second loop runs backwards and overwrites, so the lowest index wins. */
  method GetPodState(pod: Pod) returns (reason: string)
    ensures reason == State(pod)
  {
    reason := pod.phase;
    if pod.reason != "" { reason := pod.reason; }
    ghost var status := reason;
    var initializing := false;
    ghost var at := |pod.inits|;
    for i := 0 to |pod.inits|
      invariant !initializing && reason == status && at == |pod.inits|
      invariant forall k :: 0 <= k < i ==> ExitedWell(pod.inits[k])
    {
      var c := pod.inits[i];
      if c.terminated.Some? && c.terminated.value.exitCode == 0 {
        continue;
      } else if c.terminated.Some? {
        var t := c.terminated.value;
        if |t.reason| == 0 {
          if t.signal != 0 {
            reason := "Init:Signal:" + FormatInt(t.signal);
          } else {
            reason := "Init:ExitCode:" + FormatInt(t.exitCode);
          }
        } else {
          reason := "Init:" + t.reason;
        }
        initializing := true;
      } else if c.waiting.Some? && |c.waiting.value| > 0 && c.waiting.value != "PodInitializing" {
        reason := "Init:" + c.waiting.value;
        initializing := true;
      } else {
        reason := "Init:" + FormatInt(i) + "/" + FormatInt(pod.initSpecs);
        initializing := true;
      }
      at := i;
      break;
    }
    FirstPendingIs(pod.inits, at);
    if !initializing {
      var hasRunning := false;
      var cs := pod.containers;
      for i := |cs| downto 0
        invariant reason == FirstReason(cs[i..], status)
        invariant hasRunning <==> exists k :: i <= k < |cs| && RunsReady(cs[k])
      {
        assert cs[i..][1..] == cs[i + 1..];
        var c := cs[i];
        if c.waiting.Some? && c.waiting.value != "" {
          reason := c.waiting.value;
        } else if c.terminated.Some? && c.terminated.value.reason != "" {
          reason := c.terminated.value.reason;
        } else if c.terminated.Some? && c.terminated.value.reason == "" {
          if c.terminated.value.signal != 0 {
            reason := "Signal:" + FormatInt(c.terminated.value.signal);
          } else {
            reason := "ExitCode:" + FormatInt(c.terminated.value.exitCode);
          }
        } else if c.ready && c.running {
          hasRunning := true;
        }
      }
      assert cs[0..] == cs;
      if reason == "Completed" && hasRunning {
        reason := "Running";
      }
    }
    if pod.deleted && pod.reason == "NodeLost" {
      reason := "Unknown";
    } else if pod.deleted {
      reason := "Terminating";
    }
  }
}
