/**
 The operation protocol between the operator and one node's agent: operation records in a shared store, an agent that
 lists, claims, acts on its host and reports, and a client that polls. Events interleave freely; a restart can hit at
 any point, and so can a change of the host by anything else, such as a reboot.
 */
module AgentOperations {
  import opened Text
  import Host

  datatype OpState = Pending | Running | Success | Failed

  /** An operation ConfigMap. The version is the API server's resourceVersion. */
  datatype Record = Record(name: string, node: string, operationId: string, operation: Host.Operation,
                           state: OpState, message: string, version: nat)

  datatype Outcome = Done | Error(message: string)

  /** One execution of an operation's action in one agent lifetime. */
  datatype Run = Run(id: string, life: nat, outcome: Outcome)

  /** Where the agent is inside executeOperation. cm is its own copy of the record, as listed. */
  datatype Pc = Idle | Claimed(cm: Record) | Acted(cm: Record, outcome: Outcome)

  datatype State = State(store: map<string, Record>, queue: seq<Record>, pc: Pc, processed: set<string>, life: nat,
                         log: seq<Run>, host: Host.HostState)

  datatype Event =
    | Post(target: string, millis: nat, operation: Host.Operation)
    | List(items: seq<Record>)
    | Claim(delivered: bool)
    | Act(io: Host.Io, error: string)
    | Report(delivered: bool)
    | Restart
    | Disturb(host: Host.HostState)

  function OpId(r: Record): string {
    if r.operationId == "" then r.name else r.operationId
  }

  function OpName(node: string, millis: nat): string {
    "kubenas-agentop-" + node + "-" + Decimal(millis)
  }

  /** A store that checks versions rejects an update made from an outdated copy. */
  predicate Accepted(store: map<string, Record>, cm: Record, delivered: bool, checked: bool) {
    delivered && cm.name in store && (checked ==> store[cm.name].version == cm.version)
  }

  function Write(store: map<string, Record>, cm: Record, delivered: bool, checked: bool): map<string, Record> {
    if Accepted(store, cm, delivered, checked) then store[cm.name := cm.(version := store[cm.name].version + 1)] else store
  }

  function RunningCopy(cm: Record): Record {
    cm.(state := Running, message := "operation in progress")
  }

  function ReportedCopy(cm: Record, outcome: Outcome): Record {
    match outcome
    case Done => cm.(state := Success, message := "completed")
    case Error(m) => cm.(state := Failed, message := m)
  }

  /** The node's records, each once, as the API server holds them. */
  ghost predicate Lists(items: seq<Record>, store: map<string, Record>, node: string) {
    && (forall i | 0 <= i < |items| :: items[i].name in store && store[items[i].name] == items[i] && items[i].node == node)
    && (forall i, j | 0 <= i < j < |items| :: items[i].name != items[j].name)
    && (forall n | n in store && store[n].node == node :: store[n] in items)
  }

  ghost predicate Enabled(s: State, e: Event, node: string) {
    match e
    case Post(_, _, _) => true
    case List(items) => s.pc.Idle? && s.queue == [] && Lists(items, s.store, node)
    case Claim(_) => s.pc.Idle? && s.queue != []
    case Act(_, _) => s.pc.Claimed?
    case Report(_) => s.pc.Acted?
    case Restart => true
    case Disturb(_) => true
  }

  /** How acting on a host with these command results comes out. */
  function OutcomeOf(h: Host.HostState, operation: Host.Operation, io: Host.Io, error: string): Outcome {
    if Host.Succeeds(h, Host.Job(operation, io)) then Done else Error(error)
  }

  function Next(s: State, e: Event, checked: bool): State
    requires e.Claim? ==> s.queue != []
    requires e.Act? ==> s.pc.Claimed?
    requires e.Report? ==> s.pc.Acted?
  {
    match e
    case Post(target, millis, operation) =>
      var name := OpName(target, millis);
      if name in s.store then s
      else s.(store := s.store[name := Record(name, target, name, operation, Pending, "queued", 0)])
    case List(items) => s.(queue := items)
    case Claim(delivered) =>
      var cm := s.queue[0];
      if OpId(cm) in s.processed then s.(queue := s.queue[1..])
      else s.(store := Write(s.store, RunningCopy(cm), delivered, checked), queue := s.queue[1..], pc := Claimed(cm))
    case Act(io, error) =>
      var outcome := OutcomeOf(s.host, s.pc.cm.operation, io, error);
      s.(log := s.log + [Run(OpId(s.pc.cm), s.life, outcome)], pc := Acted(s.pc.cm, outcome),
         host := Host.After(s.host, Host.Job(s.pc.cm.operation, io)))
    case Report(delivered) =>
      s.(store := Write(s.store, ReportedCopy(s.pc.cm, s.pc.outcome), delivered, checked),
         processed := s.processed + {OpId(s.pc.cm)}, pc := Idle)
    case Restart => s.(queue := [], pc := Idle, processed := {}, life := s.life + 1)
    case Disturb(host) => s.(host := host)
  }

  /** The agent knows the operation and everything it needed on this host went well. */
  ghost predicate NeedsMet(h: Host.HostState, operation: Host.Operation, io: Host.Io) {
    !operation.Unsupported? && forall n | n in Host.Needs(h, operation, io.tableReadable) :: Host.WentWell(n, io)
  }

  /** The outcome is the error handed up exactly when something the operation needed failed, or the operation is unknown. */
  lemma {:induction false} DoneIffNeedsMet(h: Host.HostState, operation: Host.Operation, io: Host.Io, error: string)
    ensures OutcomeOf(h, operation, io, error) == if NeedsMet(h, operation, io) then Done else Error(error)
  {
    Host.SucceedsIffNeedsMet(h, Host.Job(operation, io));
  }

  /** Nothing posted, nothing processed, any host. */
  function Start(host: Host.HostState): State {
    State(map[], [], Idle, {}, 0, [], host)
  }

  ghost predicate IsRun(states: seq<State>, events: seq<Event>, node: string, checked: bool) {
    && |states| == |events| + 1 && states[0] == Start(states[0].host)
    && forall i | 0 <= i < |events| :: Enabled(states[i], events[i], node) && states[i + 1] == Next(states[i], events[i], checked)
  }

  // ---------------------------------------------------------------- the invariant

  ghost predicate Ran(log: seq<Run>, id: string) {
    exists i :: 0 <= i < |log| && log[i].id == id && log[i].outcome == Done
  }

  ghost predicate WellNamed(store: map<string, Record>) {
    forall n | n in store :: store[n].name == n && OpId(store[n]) == n
  }

  /** This copy carries a stored name; fresh means nothing has changed since it was read. */
  ghost predicate Known(store: map<string, Record>, cm: Record) {
    cm.name in store && OpId(cm) == cm.name
  }

  ghost predicate QueueFresh(s: State) {
    && (forall i | 0 <= i < |s.queue| :: Known(s.store, s.queue[i]) && s.store[s.queue[i].name] == s.queue[i])
    && (forall i, j | 0 <= i < j < |s.queue| :: s.queue[i].name != s.queue[j].name)
    && (!s.pc.Idle? ==> forall i | 0 <= i < |s.queue| :: s.queue[i].name != s.pc.cm.name)
  }

  ghost predicate PcValid(s: State) {
    match s.pc
    case Idle => true
    case Claimed(cm) => Known(s.store, cm) && OpId(cm) !in s.processed
    case Acted(cm, outcome) => Known(s.store, cm) && OpId(cm) !in s.processed && s.log != [] && s.log[|s.log| - 1] == Run(OpId(cm), s.life, outcome)
  }

  ghost predicate LogValid(s: State) {
    && (forall i | 0 <= i < |s.log| :: s.log[i].life <= s.life && s.log[i].id in s.store)
    && (forall i | 0 <= i < |s.log| && s.log[i].life == s.life ::
          s.log[i].id in s.processed || (s.pc.Acted? && s.log[i].id == OpId(s.pc.cm)))
    && (forall i, j | 0 <= i < j < |s.log| && s.log[i].life == s.log[j].life :: s.log[i].id != s.log[j].id)
  }

  ghost predicate SuccessRan(s: State) {
    forall n | n in s.store && s.store[n].state == Success :: Ran(s.log, n)
  }

  ghost predicate Inv(s: State) {
    WellNamed(s.store) && QueueFresh(s) && PcValid(s) && LogValid(s) && SuccessRan(s)
  }

  lemma RanStays(log: seq<Run>, r: Run, id: string)
    ensures Ran(log, id) ==> Ran(log + [r], id)
    ensures r.id == id && r.outcome == Done ==> Ran(log + [r], id)
  {
    if i :| 0 <= i < |log| && log[i].id == id && log[i].outcome == Done { assert (log + [r])[i] == log[i]; }
    assert (log + [r])[|log|] == r;
  }

  lemma OpNameNotEmpty(node: string, millis: nat)
    ensures OpName(node, millis) != ""
  {
    assert OpName(node, millis)[0] == 'k';
  }

  lemma {:induction false} PostKeepsInv(s: State, e: Event, checked: bool)
    requires Inv(s) && e.Post?
    ensures Inv(Next(s, e, checked))
  {
    OpNameNotEmpty(e.target, e.millis);
  }

  lemma {:induction false} ClaimKeepsQueue(s: State, e: Event, checked: bool)
    requires Inv(s) && e.Claim? && s.pc.Idle? && s.queue != []
    ensures QueueFresh(Next(s, e, checked))
  {
    var rest := s.queue[1..];
    assert Known(s.store, s.queue[0]);
    assert forall i | 0 <= i < |rest| :: rest[i] == s.queue[i + 1];
  }

  lemma {:induction false} ClaimKeepsInv(s: State, e: Event, checked: bool)
    requires Inv(s) && e.Claim? && s.pc.Idle? && s.queue != []
    ensures Inv(Next(s, e, checked))
  {
    var t := Next(s, e, checked);
    assert Known(s.store, s.queue[0]);
    ClaimKeepsQueue(s, e, checked);
    assert t.store.Keys == s.store.Keys && t.log == s.log;
  }

  lemma {:induction false} ActKeepsInv(s: State, e: Event, checked: bool)
    requires Inv(s) && e.Act? && s.pc.Claimed?
    ensures Inv(Next(s, e, checked))
  {
    var t := Next(s, e, checked);
    var r := Run(OpId(s.pc.cm), s.life, t.pc.outcome);
    forall n | n in s.store && s.store[n].state == Success
      ensures Ran(t.log, n)
    {
      RanStays(s.log, r, n);
    }
    assert forall i | 0 <= i < |s.log| :: t.log[i] == s.log[i];
    assert LogValid(t);
  }

  lemma {:induction false} ReportKeepsInv(s: State, e: Event, checked: bool)
    requires Inv(s) && e.Report? && s.pc.Acted?
    ensures Inv(Next(s, e, checked))
  {
    var t := Next(s, e, checked);
    if s.pc.outcome == Done {
      assert s.log[|s.log| - 1].id == s.pc.cm.name;
      assert Ran(s.log, s.pc.cm.name);
    }
    assert SuccessRan(t) && LogValid(t) && QueueFresh(t);
  }

  lemma {:induction false} StepKeepsInv(s: State, e: Event, node: string, checked: bool)
    requires Inv(s) && Enabled(s, e, node)
    ensures Inv(Next(s, e, checked))
  {
    match e {
      case Post(_, _, _) => PostKeepsInv(s, e, checked);
      case List(_) =>
      case Claim(_) => ClaimKeepsInv(s, e, checked);
      case Act(_, _) => ActKeepsInv(s, e, checked);
      case Report(_) => ReportKeepsInv(s, e, checked);
      case Restart =>
      case Disturb(_) =>
    }
  }

  lemma {:induction false} RunKeepsInv(states: seq<State>, events: seq<Event>, node: string, checked: bool, i: nat)
    requires IsRun(states, events, node, checked) && i < |states|
    ensures Inv(states[i])
  {
    if i > 0 {
      RunKeepsInv(states, events, node, checked, i - 1);
      StepKeepsInv(states[i - 1], events[i - 1], node, checked);
    }
  }

  // ---------------------------------------------------------------- safety over every interleaving

  /** A stored Success means the operation's action has run without error. */
  lemma {:induction false} SuccessMeansRan(states: seq<State>, events: seq<Event>, node: string, checked: bool, i: nat, name: string)
    requires IsRun(states, events, node, checked) && i < |states|
    requires name in states[i].store && states[i].store[name].state == Success
    ensures Ran(states[i].log, name)
  {
    RunKeepsInv(states, events, node, checked, i);
  }

  /** In one agent lifetime an operation runs at most once. */
  lemma {:induction false} OncePerLife(states: seq<State>, events: seq<Event>, node: string, checked: bool, i: nat, a: nat, b: nat)
    requires IsRun(states, events, node, checked) && i < |states| && a < b < |states[i].log|
    requires states[i].log[a].id == states[i].log[b].id
    ensures states[i].log[a].life != states[i].log[b].life
  {
    RunKeepsInv(states, events, node, checked, i);
  }

  lemma {:induction false} NamesStay(states: seq<State>, events: seq<Event>, node: string, checked: bool, i: nat, j: nat)
    requires IsRun(states, events, node, checked) && i <= j < |states|
    ensures states[i].store.Keys <= states[j].store.Keys
    ensures |states[i].log| <= |states[j].log| && states[i].log == states[j].log[..|states[i].log|]
    decreases j
  {
    if i < j {
      NamesStay(states, events, node, checked, i, j - 1);
      StepKeepsNames(states[j - 1], events[j - 1], node, checked);
    }
  }

  lemma {:induction false} StepKeepsNames(s: State, e: Event, node: string, checked: bool)
    requires Enabled(s, e, node)
    ensures var t := Next(s, e, checked); s.store.Keys <= t.store.Keys && s.log <= t.log
  {
  }

  ghost predicate AcceptedPost(states: seq<State>, events: seq<Event>, i: nat)
    requires |states| == |events| + 1
  {
    i < |events| && events[i].Post? && OpName(events[i].target, events[i].millis) !in states[i].store
  }

  /** Two accepted posts never share a record. */
  lemma {:induction false} PostsNeverShare(states: seq<State>, events: seq<Event>, node: string, checked: bool, i: nat, j: nat)
    requires IsRun(states, events, node, checked) && i < j && AcceptedPost(states, events, i) && AcceptedPost(states, events, j)
    ensures OpName(events[i].target, events[i].millis) != OpName(events[j].target, events[j].millis)
  {
    NamesStay(states, events, node, checked, i + 1, j);
    assert states[i + 1] == Next(states[i], events[i], checked);
  }

  // ---------------------------------------------------------------- waiting

  datatype Reading = NotFound | GetError(message: string) | Got(state: OpState, message: string)

  datatype WaitResult = Completed | OperationFailed(message: string) | ReadFailed(message: string) | TimedOut | Cancelled

  const POLLS := 24

  predicate Decisive(r: Reading) {
    r.GetError? || (r.Got? && (r.state == Success || r.state == Failed))
  }

  function Verdict(r: Reading): WaitResult
    requires Decisive(r)
  {
    match r
    case GetError(m) => ReadFailed(m)
    case Got(state, m) => if state == Success then Completed else OperationFailed(m)
  }

  /** A read error other than absence ends the wait like Success and Failed do; an absent or unfinished record does not. */
  lemma ReadingsDecide(state: OpState, m: string)
    ensures !Decisive(NotFound) && Decisive(GetError(m)) && Verdict(GetError(m)) == ReadFailed(m)
    ensures Decisive(Got(state, m)) <==> state != Pending && state != Running
    ensures Verdict(Got(Success, m)) == Completed && Verdict(Got(Failed, m)) == OperationFailed(m)
  {
  }

  /** The wait ends with the verdict of its first decisive reading, or times out when it has none. */
  ghost predicate WaitsFor(readings: seq<Reading>, r: WaitResult) {
    if exists k :: 0 <= k < |readings| && Decisive(readings[k]) then
      exists k :: 0 <= k < |readings| && Decisive(readings[k]) && r == Verdict(readings[k]) && forall j | 0 <= j < k :: !Decisive(readings[j])
    else r == TimedOut
  }

  /** n polls are neither decisive nor followed by a cancelled pause; then the wait times out, is decided, or is cancelled. */
  ghost predicate EndsAfter(readings: seq<Reading>, cancelled: seq<bool>, r: WaitResult, n: int)
    requires |cancelled| == |readings|
  {
    && 0 <= n <= |readings|
    && (forall j | 0 <= j < n :: !Decisive(readings[j]) && !cancelled[j])
    && if n == |readings| then r == TimedOut
       else if Decisive(readings[n]) then r == Verdict(readings[n])
       else cancelled[n] && r == Cancelled
  }

  /**
   waitForOperationState; readings are what its polls find, one after the other, and cancelled says whether the context
   ends during the pause after a poll.
   */
  method WaitForOperationState(readings: seq<Reading>, cancelled: seq<bool>) returns (r: WaitResult)
    requires |readings| == |cancelled| == 24
    ensures exists n :: EndsAfter(readings, cancelled, r, n)
    ensures (forall j | 0 <= j < 24 :: !cancelled[j]) ==> WaitsFor(readings, r)
  {
    for i := 0 to POLLS
      invariant forall j | 0 <= j < i :: !Decisive(readings[j]) && !cancelled[j]
    {
      if Decisive(readings[i]) {
        assert EndsAfter(readings, cancelled, Verdict(readings[i]), i);
      }
      match readings[i] {
        case NotFound =>
          if cancelled[i] {
            assert EndsAfter(readings, cancelled, Cancelled, i);
            return Cancelled;
          }
          continue;
        case GetError(m) =>
          return ReadFailed(m);
        case Got(state, m) =>
          match state {
            case Success => return Completed;
            case Failed => return OperationFailed(m);
            case _ =>
          }
      }
      if cancelled[i] {
        assert EndsAfter(readings, cancelled, Cancelled, i);
        return Cancelled;
      }
    }
    assert EndsAfter(readings, cancelled, TimedOut, POLLS);
    return TimedOut;
  }

  /** A wait that is not cancelled has the result of the polls it made, so what holds of such results holds of it. */
  lemma {:induction false} ResultOfPollsMade(readings: seq<Reading>, cancelled: seq<bool>, r: WaitResult, n: int)
    requires |cancelled| == |readings| && EndsAfter(readings, cancelled, r, n) && r != Cancelled
    ensures n < |readings| ==> WaitsFor(readings[..n + 1], r)
    ensures n == |readings| ==> WaitsFor(readings, r)
  {
    if n < |readings| {
      assert readings[..n + 1][n] == readings[n];
    }
  }

  /** What a poll of the record reads in a state. */
  function Poll(s: State, name: string): Reading {
    if name in s.store then Got(s.store[name].state, s.store[name].message) else NotFound
  }

  /** The readings of a wait whose polls happen at these points of a run. */
  function PollsAt(states: seq<State>, times: seq<nat>, name: string): seq<Reading>
    requires forall k | 0 <= k < |times| :: times[k] < |states|
  {
    seq(|times|, k requires 0 <= k < |times| => Poll(states[times[k]], name))
  }

  /** Post and wait: when the client is told the operation completed, its action ran without error after the post. */
  lemma {:induction false} CompletedMeansRanSincePost(states: seq<State>, events: seq<Event>, node: string, checked: bool,
                                                     p: nat, times: seq<nat>, r: WaitResult)
    requires IsRun(states, events, node, checked) && AcceptedPost(states, events, p)
    requires forall k | 0 <= k < |times| :: p < times[k] < |states|
    requires WaitsFor(PollsAt(states, times, OpName(events[p].target, events[p].millis)), r) && r == Completed
    ensures exists k, i :: 0 <= k < |times| && |states[p].log| <= i < |states[times[k]].log|
                           && states[times[k]].log[i].id == OpName(events[p].target, events[p].millis)
                           && states[times[k]].log[i].outcome == Done
  {
    var name := OpName(events[p].target, events[p].millis);
    var readings := PollsAt(states, times, name);
    var k :| 0 <= k < |readings| && Decisive(readings[k]) && r == Verdict(readings[k]);
    assert readings[k] == Poll(states[times[k]], name);
    var i := RanSincePost(states, events, node, checked, p, times[k]);
  }

  lemma {:induction false} RanSincePost(states: seq<State>, events: seq<Event>, node: string, checked: bool, p: nat, t: nat) returns (i: nat)
    requires IsRun(states, events, node, checked) && AcceptedPost(states, events, p) && p < t < |states|
    requires var name := OpName(events[p].target, events[p].millis);
      name in states[t].store && states[t].store[name].state == Success
    ensures |states[p].log| <= i < |states[t].log|
    ensures states[t].log[i].id == OpName(events[p].target, events[p].millis) && states[t].log[i].outcome == Done
  {
    var name := OpName(events[p].target, events[p].millis);
    SuccessMeansRan(states, events, node, checked, t, name);
    var x :| 0 <= x < |states[t].log| && states[t].log[x].id == name && states[t].log[x].outcome == Done;
    i := x;
    NamesStay(states, events, node, checked, p, t);
    RunKeepsInv(states, events, node, checked, p);
    assert forall x | 0 <= x < |states[p].log| :: states[t].log[x] == states[p].log[x];
  }

  // ---------------------------------------------------------------- completion

  /** Between i and j the agent makes no step and does not restart. */
  ghost predicate AgentRests(events: seq<Event>, i: int, j: int) {
    0 <= i <= j <= |events| && forall k | i <= k < j :: events[k].Post? || events[k].Disturb?
  }

  lemma {:induction false} OthersKeep(states: seq<State>, events: seq<Event>, node: string, checked: bool, i: nat, j: nat)
    requires IsRun(states, events, node, checked) && AgentRests(events, i, j)
    ensures states[j].pc == states[i].pc
    ensures forall n | n in states[i].store :: n in states[j].store && states[j].store[n] == states[i].store[n]
    decreases j
  {
    if i < j {
      OthersKeep(states, events, node, checked, i, j - 1);
      assert states[j] == Next(states[j - 1], events[j - 1], checked);
    }
  }

  /**
   What a claim, its action and its report leave in the store, with anything by others in between: the outcome exactly when the
   report is delivered and the store either checks no versions or missed the first write; else what the claim left.
   */
  lemma {:induction false} WhatAReportLeaves(states: seq<State>, events: seq<Event>, node: string, checked: bool, c: nat, a: nat, r: nat)
    requires IsRun(states, events, node, checked) && c < a < r < |events|
    requires events[c].Claim? && events[a].Act? && events[r].Report? && AgentRests(events, c + 1, a) && AgentRests(events, a + 1, r)
    requires OpId(states[c].queue[0]) !in states[c].processed
    ensures var cm, final := states[c].queue[0], states[r + 1].store;
      && cm.name in final
      && var record := final[cm.name];
         if events[r].delivered && (checked ==> !events[c].delivered) then
           if NeedsMet(states[a].host, cm.operation, events[a].io) then record.state == Success && record.message == "completed"
           else record.state == Failed && record.message == events[a].error
         else if events[c].delivered then record.state == Running && record.message == "operation in progress"
         else record.state == cm.state && record.message == cm.message
  {
    RunKeepsInv(states, events, node, checked, c);
    var cm := states[c].queue[0];
    assert Known(states[c].store, cm) && states[c].store[cm.name] == cm;
    assert states[c + 1] == Next(states[c], events[c], checked);
    OthersKeep(states, events, node, checked, c + 1, a);
    assert states[a + 1] == Next(states[a], events[a], checked);
    OthersKeep(states, events, node, checked, a + 1, r);
    DoneIffNeedsMet(states[a].host, cm.operation, events[a].io, events[a].error);
    assert states[r + 1] == Next(states[r], events[r], checked);
  }

  /** A store that checks versions and takes every claim holds a newer version than the claiming agent's copy. */
  ghost predicate Outdated(s: State) {
    && (forall n | n in s.store :: s.store[n].state == Pending || s.store[n].state == Running)
    && (!s.pc.Idle? ==> s.pc.cm.name in s.store && s.store[s.pc.cm.name].version > s.pc.cm.version)
  }

  lemma {:induction false} CheckedStoreKeepsOutdated(states: seq<State>, events: seq<Event>, node: string, i: nat)
    requires IsRun(states, events, node, true) && i < |states|
    requires forall k | 0 <= k < |events| && events[k].Claim? :: events[k].delivered
    ensures Outdated(states[i])
  {
    if i > 0 {
      CheckedStoreKeepsOutdated(states, events, node, i - 1);
      RunKeepsInv(states, events, node, true, i - 1);
      OutdatedStep(states[i - 1], events[i - 1], node);
    }
  }

  lemma {:induction false} OutdatedStep(s: State, e: Event, node: string)
    requires Inv(s) && Enabled(s, e, node) && Outdated(s) && (e.Claim? ==> e.delivered)
    ensures Outdated(Next(s, e, true))
  {
    if e.Claim? {
      assert Known(s.store, s.queue[0]);
    }
  }

  /**
   In a store that checks resource versions, with every first write delivered, no record is ever decided and so
   every wait times out: both updates of an execution are made from the same listed copy.
   */
  lemma {:induction false} CheckedStoreNeverDecides(states: seq<State>, events: seq<Event>, node: string, times: seq<nat>, name: string, r: WaitResult)
    requires IsRun(states, events, node, true)
    requires forall k | 0 <= k < |events| && events[k].Claim? :: events[k].delivered
    requires forall k | 0 <= k < |times| :: times[k] < |states|
    requires WaitsFor(PollsAt(states, times, name), r)
    ensures r == TimedOut
  {
    forall k | 0 <= k < |times|
      ensures !Decisive(PollsAt(states, times, name)[k])
    {
      CheckedStoreKeepsOutdated(states, events, node, times[k]);
    }
  }

  lemma {:induction false} ProcessedStep(s: State, e: Event, node: string, checked: bool, name: string)
    requires Inv(s) && Enabled(s, e, node) && !e.Restart?
    requires name in s.processed && name in s.store
    ensures var t := Next(s, e, checked); name in t.processed && name in t.store && t.store[name] == s.store[name]
  {
    if e.Claim? {
      assert Known(s.store, s.queue[0]);
    }
  }

  /** Once an operation is processed, its record stays as it is until the agent restarts. */
  lemma {:induction false} ProcessedStaysPut(states: seq<State>, events: seq<Event>, node: string, checked: bool, i: nat, j: nat, name: string)
    requires IsRun(states, events, node, checked) && i <= j < |states|
    requires name in states[i].processed && name in states[i].store
    requires forall k | i <= k < j :: !events[k].Restart?
    ensures name in states[j].processed && name in states[j].store && states[j].store[name] == states[i].store[name]
    decreases j
  {
    if i < j {
      ProcessedStaysPut(states, events, node, checked, i, j - 1, name);
      RunKeepsInv(states, events, node, checked, j - 1);
      ProcessedStep(states[j - 1], events[j - 1], node, checked, name);
    }
  }

  /** So a wait on a processed operation whose report was lost times out unless the agent restarts. */
  lemma {:induction false} LostReportTimesOut(states: seq<State>, events: seq<Event>, node: string, checked: bool,
                                             i: nat, times: seq<nat>, name: string, r: WaitResult)
    requires IsRun(states, events, node, checked) && i < |states|
    requires name in states[i].processed && name in states[i].store && !Decisive(Poll(states[i], name))
    requires forall k | 0 <= k < |times| :: i <= times[k] < |states| && forall e | i <= e < times[k] :: !events[e].Restart?
    requires WaitsFor(PollsAt(states, times, name), r)
    ensures r == TimedOut
  {
    forall k | 0 <= k < |times|
      ensures !Decisive(PollsAt(states, times, name)[k])
    {
      ProcessedStaysPut(states, events, node, checked, i, times[k], name);
    }
  }

  ghost predicate NoRestart(events: seq<Event>, i: int, j: int) {
    forall k | i <= k < j && 0 <= k < |events| :: !events[k].Restart?
  }

  /** From its post on, and as long as the agent does not restart, an operation is decided only once it is processed. */
  lemma {:induction false} DecidedIsProcessed(states: seq<State>, events: seq<Event>, node: string, checked: bool, p: nat, i: nat)
    requires IsRun(states, events, node, checked) && AcceptedPost(states, events, p) && p < i < |states| && NoRestart(events, p, i)
    ensures var name := OpName(events[p].target, events[p].millis);
      name in states[i].store && (Decisive(Poll(states[i], name)) ==> name in states[i].processed)
    decreases i
  {
    RunKeepsInv(states, events, node, checked, i - 1);
    if i > p + 1 {
      DecidedIsProcessed(states, events, node, checked, p, i - 1);
      DecidedStep(states[i - 1], events[i - 1], node, checked, OpName(events[p].target, events[p].millis));
    } else {
      assert states[i] == Next(states[p], events[p], checked);
    }
  }

  lemma {:induction false} DecidedStep(s: State, e: Event, node: string, checked: bool, name: string)
    requires Inv(s) && Enabled(s, e, node) && !e.Restart? && name in s.store
    requires Decisive(Poll(s, name)) ==> name in s.processed
    ensures var t := Next(s, e, checked); name in t.store && (Decisive(Poll(t, name)) ==> name in t.processed)
  {
    if e.Claim? {
      assert Known(s.store, s.queue[0]);
    }
  }

  function VerdictOf(outcome: Outcome): WaitResult {
    match outcome
    case Done => Completed
    case Error(m) => OperationFailed(m)
  }

  /** Up to the report of a posted operation its record is undecided. */
  lemma {:induction false} UndecidedBefore(states: seq<State>, events: seq<Event>, node: string, checked: bool, p: nat, done: nat, t: nat)
    requires IsRun(states, events, node, checked) && AcceptedPost(states, events, p) && p < t <= done < |events|
    requires events[done].Report? && states[done].pc.cm.name == OpName(events[p].target, events[p].millis)
    requires NoRestart(events, p, done)
    ensures !Decisive(Poll(states[t], OpName(events[p].target, events[p].millis)))
  {
    var name := OpName(events[p].target, events[p].millis);
    RunKeepsInv(states, events, node, checked, done);
    DecidedIsProcessed(states, events, node, checked, p, t);
    if Decisive(Poll(states[t], name)) {
      StaysProcessed(states, events, node, checked, t, done, name, p);
      assert false;
    }
  }

  /** After an accepted report its record shows what was reported. */
  lemma {:induction false} ReportedAfter(states: seq<State>, events: seq<Event>, node: string, checked: bool, done: nat, t: nat)
    requires IsRun(states, events, node, checked) && done < t < |states| && events[done].Report?
    requires Accepted(states[done].store, states[done].pc.cm, events[done].delivered, checked)
    requires NoRestart(events, done, t)
    ensures var reading := Poll(states[t], states[done].pc.cm.name);
      Decisive(reading) && Verdict(reading) == VerdictOf(states[done].pc.outcome)
  {
    RunKeepsInv(states, events, node, checked, done);
    assert states[done + 1] == Next(states[done], events[done], checked);
    ProcessedStaysPut(states, events, node, checked, done + 1, t, states[done].pc.cm.name);
  }

  /**
   Without a restart since the post, a wait that polls at least once after an accepted report of the operation returns
   what was reported, however many polls came before it.
   */
  lemma {:induction false} ReportInTimeIsReturned(states: seq<State>, events: seq<Event>, node: string, checked: bool,
                                                 p: nat, done: nat, times: seq<nat>, r: WaitResult)
    requires IsRun(states, events, node, checked) && AcceptedPost(states, events, p) && p < done < |events|
    requires events[done].Report? && states[done].pc.cm.name == OpName(events[p].target, events[p].millis)
    requires Accepted(states[done].store, states[done].pc.cm, events[done].delivered, checked)
    requires forall k | 0 <= k < |times| :: p < times[k] < |states| && NoRestart(events, p, times[k])
    requires exists k :: 0 <= k < |times| && times[k] > done
    requires WaitsFor(PollsAt(states, times, OpName(events[p].target, events[p].millis)), r)
    ensures r == VerdictOf(states[done].pc.outcome)
  {
    var readings := PollsAt(states, times, OpName(events[p].target, events[p].millis));
    var late :| 0 <= late < |times| && times[late] > done;
    forall k | 0 <= k < |times|
      ensures if times[k] <= done then !Decisive(readings[k])
              else Decisive(readings[k]) && Verdict(readings[k]) == VerdictOf(states[done].pc.outcome)
    {
      if times[k] <= done {
        UndecidedBefore(states, events, node, checked, p, done, times[k]);
      } else {
        ReportedAfter(states, events, node, checked, done, times[k]);
      }
    }
    assert Decisive(readings[late]);
  }

  lemma {:induction false} StaysProcessed(states: seq<State>, events: seq<Event>, node: string, checked: bool, i: nat, j: nat, name: string, p: nat)
    requires IsRun(states, events, node, checked) && p < i <= j < |states|
    requires name in states[i].processed && name in states[i].store
    requires forall k | p <= k < j :: !events[k].Restart?
    ensures name in states[j].processed
  {
    ProcessedStaysPut(states, events, node, checked, i, j, name);
  }

  // ---------------------------------------------------------------- what completion means for the host

  /** The named record and the agent's copy of it carry this operation. */
  ghost predicate Carries(s: State, name: string, operation: Host.Operation) {
    && name in s.store && s.store[name].operation == operation
    && (!s.pc.Idle? && s.pc.cm.name == name ==> s.pc.cm.operation == operation)
  }

  lemma {:induction false} PostedCarries(s: State, e: Event, checked: bool)
    requires Inv(s) && e.Post? && OpName(e.target, e.millis) !in s.store
    ensures Carries(Next(s, e, checked), OpName(e.target, e.millis), e.operation)
  {
  }

  lemma {:induction false} ClaimCarries(s: State, e: Event, checked: bool, name: string, operation: Host.Operation)
    requires Inv(s) && e.Claim? && s.pc.Idle? && s.queue != [] && Carries(s, name, operation)
    ensures Carries(Next(s, e, checked), name, operation)
  {
    assert Known(s.store, s.queue[0]) && s.store[s.queue[0].name] == s.queue[0];
  }

  lemma {:induction false} StepCarries(s: State, e: Event, node: string, checked: bool, name: string, operation: Host.Operation)
    requires Inv(s) && Enabled(s, e, node) && Carries(s, name, operation)
    ensures Carries(Next(s, e, checked), name, operation)
  {
    if e.Claim? {
      ClaimCarries(s, e, checked, name, operation);
    }
  }

  /** A posted operation is never exchanged for another one. */
  lemma {:induction false} RunCarries(states: seq<State>, events: seq<Event>, node: string, checked: bool, p: nat, i: nat)
    requires IsRun(states, events, node, checked) && AcceptedPost(states, events, p) && p < i < |states|
    ensures Carries(states[i], OpName(events[p].target, events[p].millis), events[p].operation)
    decreases i
  {
    RunKeepsInv(states, events, node, checked, i - 1);
    if i > p + 1 {
      RunCarries(states, events, node, checked, p, i - 1);
      StepCarries(states[i - 1], events[i - 1], node, checked, OpName(events[p].target, events[p].millis), events[p].operation);
    } else {
      PostedCarries(states[p], events[p], checked);
    }
  }

  /** Step a acts on this operation, successfully. */
  ghost predicate ActsOn(states: seq<State>, events: seq<Event>, a: nat, operation: Host.Operation)
    requires |states| == |events| + 1
  {
    && a < |events| && events[a].Act? && states[a].pc.Claimed?
    && Host.Succeeds(states[a].host, Host.Job(operation, events[a].io))
    && states[a + 1].host == Host.After(states[a].host, Host.Job(operation, events[a].io))
  }

  /** The step that made a log entry. */
  lemma {:induction false} EntryStep(states: seq<State>, events: seq<Event>, node: string, checked: bool, p: nat, t: nat, i: nat) returns (a: nat)
    requires IsRun(states, events, node, checked) && p <= t < |states| && |states[p].log| <= i < |states[t].log|
    ensures p <= a < t && events[a].Act? && states[a].pc.Claimed?
    ensures var cm := states[a].pc.cm;
      states[t].log[i] == Run(OpId(cm), states[a].life, OutcomeOf(states[a].host, cm.operation, events[a].io, events[a].error))
    decreases t
  {
    assert states[t] == Next(states[t - 1], events[t - 1], checked);
    NamesStay(states, events, node, checked, p, t);
    NamesStay(states, events, node, checked, t - 1, t);
    if i < |states[t - 1].log| {
      a := EntryStep(states, events, node, checked, p, t - 1, i);
      assert states[t].log[i] == states[t - 1].log[i];
    } else {
      a := t - 1;
    }
  }

  /** When post and wait report completion, some step between the post and a poll acted on the posted operation, successfully. */
  lemma {:induction false} CompletedMeansActed(states: seq<State>, events: seq<Event>, node: string, checked: bool,
                                              p: nat, times: seq<nat>, r: WaitResult) returns (k: nat, a: nat)
    requires IsRun(states, events, node, checked) && AcceptedPost(states, events, p)
    requires forall k | 0 <= k < |times| :: p < times[k] < |states|
    requires WaitsFor(PollsAt(states, times, OpName(events[p].target, events[p].millis)), r) && r == Completed
    ensures k < |times| && p < a < times[k] && ActsOn(states, events, a, events[p].operation)
  {
    var name := OpName(events[p].target, events[p].millis);
    CompletedMeansRanSincePost(states, events, node, checked, p, times, r);
    var x, i :| 0 <= x < |times| && |states[p].log| <= i < |states[times[x]].log|
                && states[times[x]].log[i].id == name && states[times[x]].log[i].outcome == Done;
    k := x;
    a := EntryStep(states, events, node, checked, p, times[k], i);
    assert a != p;
    RunKeepsInv(states, events, node, checked, a);
    RunCarries(states, events, node, checked, p, a);
    assert states[a + 1] == Next(states[a], events[a], checked);
  }

  /**
   Completion is about the host, not only the record: at some moment after the post and before a poll the host was as the
   operation demands. For a disk mount its point was mounted and its device named in the fstab.
   */
  lemma {:induction false} CompletedMeansAchieved(states: seq<State>, events: seq<Event>, node: string, checked: bool,
                                                 p: nat, times: seq<nat>, r: WaitResult) returns (k: nat, a: nat)
    requires IsRun(states, events, node, checked) && AcceptedPost(states, events, p)
    requires forall k | 0 <= k < |times| :: p < times[k] < |states|
    requires WaitsFor(PollsAt(states, times, OpName(events[p].target, events[p].millis)), r) && r == Completed
    ensures k < |times| && p < a < times[k] && events[a].Act?
    ensures Host.Achieved(states[a].host, Host.Job(events[p].operation, events[a].io), states[a + 1].host)
  {
    k, a := CompletedMeansActed(states, events, node, checked, p, times, r);
    Host.SuccessAchieves(states[a].host, Host.Job(events[p].operation, events[a].io));
  }

  /** So no wait for an operation the agent does not know, such as a parity operation, ever completes. */
  lemma {:induction false} UnknownNeverCompletes(states: seq<State>, events: seq<Event>, node: string, checked: bool,
                                                p: nat, times: seq<nat>, r: WaitResult)
    requires IsRun(states, events, node, checked)
    requires AcceptedPost(states, events, p) && events[p].operation.Unsupported?
    requires forall k | 0 <= k < |times| :: p < times[k] < |states|
    requires WaitsFor(PollsAt(states, times, OpName(events[p].target, events[p].millis)), r)
    ensures r != Completed
  {
    if r == Completed {
      var k, a := CompletedMeansAchieved(states, events, node, checked, p, times, r);
      assert false;
    }
  }
}
