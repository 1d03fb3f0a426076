/**
  The experiments an agent believes to be running: commands add and remove them, and a status poll started
  for a Java agent removes its entry again when the agent fails to attach.
*/
module Experiments {

  // ----- commands

  predicate IsPrepare(command: string) { command in {"prepare", "p"} }
  predicate IsCreate(command: string) { command in {"create", "c"} }
  predicate IsRevoke(command: string) { command in {"revoke", "r"} }
  predicate IsDestroy(command: string) { command in {"destroy", "d"} }

  predicate IsCreateOrPrepareCmd(command: string) {
    IsPrepare(command) || IsCreate(command)
  }

  predicate IsDestroyOrRevokeCmd(command: string) {
    IsRevoke(command) || IsDestroy(command)
  }

  predicate IsJavaAgentInstall(command: string, arg: string) {
    IsPrepare(command) && arg == "jvm"
  }

  function Lower(c: char): char {
    if 'A' <= c <= 'Z' then c + 32 as char else c
  }

  predicate EqualFold(s: string, t: string) {
    |s| == |t| && forall i :: 0 <= i < |s| ==> Lower(s[i]) == Lower(t[i])
  }

  // ----- the status poll

  /** One query before the deadline: it failed, or it found the record. */
  datatype Poll = QueryFailed | Record(status: string, error: string)

  /** A record that ends the polling. */
  predicate Final(p: Poll) {
    p.Record? && !EqualFold(p.status, "Created")
  }

  /** The index of the first final record, or the number of polls. */
  function FirstFinal(polls: seq<Poll>): (d: nat)
    ensures d <= |polls| && (d < |polls| ==> Final(polls[d]))
    ensures forall k :: 0 <= k < d ==> !Final(polls[k])
  {
    if polls == [] || Final(polls[0]) then 0 else 1 + FirstFinal(polls[1..])
  }

  /**
    Polls until the first final record or the deadline. Failed queries are skipped; at the deadline the
    status is what the last record said, or Unknown if there was none.
  */
  method TimingCheckStatus(polls: seq<Poll>) returns (status: string, errorMsg: string)
    ensures var d := FirstFinal(polls);
            && (d < |polls| ==> status == polls[d].status)
            && (d == |polls| ==>
                  || (status == "Unknown" && forall k :: 0 <= k < |polls| ==> polls[k].QueryFailed?)
                  || (exists j :: 0 <= j < |polls| && polls[j].Record? && status == polls[j].status
                               && forall k :: j < k < |polls| ==> polls[k].QueryFailed?))
            && errorMsg == (if d < |polls| && EqualFold(status, "Error") then polls[d].error else "")
            && (EqualFold(status, "Error") <==> d < |polls| && EqualFold(polls[d].status, "Error"))
  {
    status, errorMsg := "Unknown", "";
    ghost var d := FirstFinal(polls);
    for i := 0 to |polls|
      invariant i <= d && errorMsg == "" && !EqualFold(status, "Error")
      invariant || (status == "Unknown" && forall k :: 0 <= k < i ==> polls[k].QueryFailed?)
                || (exists j :: 0 <= j < i && polls[j].Record? && status == polls[j].status
                             && forall k :: j < k < i ==> polls[k].QueryFailed?)
    {
      if polls[i].QueryFailed? { continue; }
      status := polls[i].status;
      if EqualFold(status, "Created") { continue; }
      if EqualFold(status, "Error") {
        errorMsg := polls[i].error;
      }
      return;
    }
  }

  // ----- events and their effect

  /** A command that succeeded, with the uid in its answer; or a poll that settled. */
  datatype Event = Command(cmdline: string, command: string, arg: string, result: string) | Settled(uid: string, status: string)

  datatype State = State(running: map<string, string>, polling: multiset<string>)

  predicate Creates(e: Event, u: string) {
    e.Command? && IsCreateOrPrepareCmd(e.command) && e.result == u
  }

  predicate Removes(e: Event, u: string) {
    match e
    case Command(_, command, arg, _) => !IsCreateOrPrepareCmd(command) && IsDestroyOrRevokeCmd(command) && arg == u
    case Settled(uid, status) => uid == u && EqualFold(status, "Error")
  }

  predicate StartsPoll(e: Event, u: string) {
    e.Command? && IsJavaAgentInstall(e.command, e.arg) && e.result == u
  }

  /** Letter by letter in either case. */
  predicate Spelled(s: string, lower: string, upper: string)
    requires |lower| == |upper|
  {
    |s| == |lower| && forall i :: 0 <= i < |s| ==> s[i] == lower[i] || s[i] == upper[i]
  }

  lemma FoldError(s: string)
    ensures EqualFold(s, "Error") <==> Spelled(s, "error", "ERROR")
  {
  }

  lemma FoldCreated(s: string)
    ensures EqualFold(s, "Created") <==> Spelled(s, "created", "CREATED")
  {
  }

  /** The events by the words that cause them. */
  lemma EventWords(e: Event, u: string)
    ensures Creates(e, u) <==> e.Command? && e.command in {"create", "c", "prepare", "p"} && e.result == u
    ensures StartsPoll(e, u) <==> e.Command? && e.command in {"prepare", "p"} && e.arg == "jvm" && e.result == u
    ensures Removes(e, u) <==>
            || (e.Command? && e.command in {"destroy", "d", "revoke", "r"} && e.arg == u)
            || (e.Settled? && e.uid == u && Spelled(e.status, "error", "ERROR"))
  {
    if e.Settled? { FoldError(e.status); }
  }

  /** A poll goes on past a failed query and a record that still says Created. */
  lemma FinalWords(p: Poll)
    ensures Final(p) <==> p.Record? && !Spelled(p.status, "created", "CREATED")
  {
    if p.Record? { FoldCreated(p.status); }
  }

  /** Only a poll that was started can settle. */
  predicate Possible(s: State, e: Event) {
    e.Settled? ==> e.uid in s.polling
  }

  /** What one event does, said for every uid. */
  ghost predicate Step(s: State, e: Event, s': State) {
    && Possible(s, e)
    && (forall u :: u in s'.running <==> Creates(e, u) || (u in s.running && !Removes(e, u)))
    && (forall u :: u in s'.running ==> s'.running[u] == if Creates(e, u) then e.cmdline else s.running[u])
    && (forall u :: s'.polling[u] == s.polling[u] + (if StartsPoll(e, u) then 1 else 0) - (if e.Settled? && e.uid == u then 1 else 0))
  }

  class ChaosbladeHandler {
    var running: map<string, string>
    var polling: multiset<string>

    constructor ()
      ensures View() == State(map[], multiset{})
    {
      running, polling := map[], multiset{};
    }

    function View(): State
      reads this
    {
      State(running, polling)
    }

    method HandleCacheAndSafePoint(cmdline: string, command: string, arg: string, result: string)
      modifies this
      ensures Step(old(View()), Command(cmdline, command, arg, result), View())
    {
      if IsCreateOrPrepareCmd(command) {
        running := running[result := cmdline];
        if IsJavaAgentInstall(command, arg) {
          polling := polling + multiset{result};
        }
      } else if IsDestroyOrRevokeCmd(command) {
        if arg in running {
          running := running - {arg};
        }
      }
    }

    /** A poll for uid ends: deleteCallback is told what it settled on. */
    method CheckAndReportJavaAgentStatus(uid: string, polls: seq<Poll>) returns (status: string)
      requires uid in polling
      modifies this
      ensures Step(old(View()), Settled(uid, status), View())
      ensures var d := FirstFinal(polls);
              EqualFold(status, "Error") <==> d < |polls| && EqualFold(polls[d].status, "Error")
    {
      var errorMsg;
      status, errorMsg := TimingCheckStatus(polls);
      polling := polling - multiset{uid};
      if EqualFold(status, "Error") {
        if uid in running {
          running := running - {uid};
        }
      }
    }
  }

  // ----- whole runs

  ghost predicate Run(states: seq<State>, events: seq<Event>) {
    && |states| == |events| + 1
    && states[0] == State(map[], multiset{})
    && forall i :: 0 <= i < |events| ==> Step(states[i], events[i], states[i + 1])
  }

  /** Event i is the last to create u before n, and nothing removed u since. */
  ghost predicate LivesSince(events: seq<Event>, n: nat, u: string, i: int) {
    && 0 <= i < n <= |events| && Creates(events[i], u)
    && forall k :: i < k < n ==> !Creates(events[k], u) && !Removes(events[k], u)
  }

  /**
    On every run the entries are exactly the experiments created or prepared and neither destroyed, revoked
    nor given up since, each under the command that last created it.
  */
  lemma {:induction false} RunningExact(states: seq<State>, events: seq<Event>, n: nat, u: string)
    requires Run(states, events) && n <= |events|
    ensures u in states[n].running <==> exists i :: LivesSince(events, n, u, i)
    ensures forall i :: LivesSince(events, n, u, i) ==> u in states[n].running && states[n].running[u] == events[i].cmdline
  {
    if n > 0 {
      var m, e := n - 1, events[n - 1];
      RunningExact(states, events, m, u);
      assert Step(states[m], e, states[n]);
      if Creates(e, u) {
        assert LivesSince(events, n, u, m);
      } else if !Removes(e, u) {
        assert forall i :: LivesSince(events, n, u, i) <==> LivesSince(events, m, u, i) by { LivesOn(events, m, u); }
      }
    }
  }

  lemma LivesOn(events: seq<Event>, m: nat, u: string)
    requires m < |events| && !Creates(events[m], u) && !Removes(events[m], u)
    ensures forall i :: LivesSince(events, m + 1, u, i) <==> LivesSince(events, m, u, i)
  {
  }

  /** Every settled poll was started by a Java prepare of the same uid. */
  function Starts(events: seq<Event>, n: nat, u: string): nat
    requires n <= |events|
  {
    if n == 0 then 0 else Starts(events, n - 1, u) + if StartsPoll(events[n - 1], u) then 1 else 0
  }

  function Settlings(events: seq<Event>, n: nat, u: string): nat
    requires n <= |events|
  {
    if n == 0 then 0 else Settlings(events, n - 1, u) + if events[n - 1].Settled? && events[n - 1].uid == u then 1 else 0
  }

  lemma {:induction false} PollsBalance(states: seq<State>, events: seq<Event>, n: nat, u: string)
    requires Run(states, events) && n <= |events|
    ensures Starts(events, n, u) == Settlings(events, n, u) + states[n].polling[u]
  {
    if n > 0 {
      PollsBalance(states, events, n - 1, u);
      assert Step(states[n - 1], events[n - 1], states[n]);
    }
  }
}
