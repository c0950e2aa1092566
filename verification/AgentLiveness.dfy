/** What a post brings about: its record is within the reach of its node's agent, and a drained queue answers it. */
module AgentLiveness {
  import opened Text
  import opened AgentOperations
  import Host

  // ---------------------------------------------------------------- names

  lemma {:induction false} DashedNumbersDiffer(a: string, m: nat, b: string, n: nat)
    requires a + ("-" + Decimal(m)) == b + ("-" + Decimal(n))
    ensures a == b && m == n
  {
    var x, y := Decimal(m), Decimal(n);
    DecimalReadsBack(m);
    DecimalReadsBack(n);
    LongerNumber(a, x, b, y);
    LongerNumber(b, y, a, x);
    SameParts(a, x, b, y);
    DecimalIsInjective(m, n);
  }

  lemma SameParts(a: string, x: string, b: string, y: string)
    requires a + ("-" + x) == b + ("-" + y) && |x| == |y|
    ensures a == b && x == y
  {
    assert (a + ("-" + x))[|a| + 1..] == x && (b + ("-" + y))[|b| + 1..] == y;
    assert (a + ("-" + x))[..|a|] == a && (b + ("-" + y))[..|b|] == b;
  }

  lemma ShorterShowsDash(a: string, x: string, b: string, y: string)
    requires a + ("-" + x) == b + ("-" + y) && |x| < |y|
    ensures '-' in y
  {
    assert (a + ("-" + x))[|a|] == '-';
    assert (b + ("-" + y))[|a|] == y[|a| - |b| - 1];
  }

  lemma {:induction false} LongerNumber(a: string, x: string, b: string, y: string)
    requires a + ("-" + x) == b + ("-" + y) && forall c | c in y :: IsDigit(c)
    ensures |x| >= |y|
  {
    if |x| < |y| {
      ShorterShowsDash(a, x, b, y);
    }
  }

  /** Different nodes or different milliseconds give different record names. */
  lemma {:induction false} OpNameIsInjective(node: string, millis: nat, other: string, when: nat)
    requires OpName(node, millis) == OpName(other, when)
    ensures node == other && millis == when
  {
    var prefix := "kubenas-agentop-";
    var x, y := node + ("-" + Decimal(millis)), other + ("-" + Decimal(when));
    assert OpName(node, millis) == prefix + x && OpName(other, when) == prefix + y;
    assert (prefix + x)[|prefix|..] == x && (prefix + y)[|prefix|..] == y;
    DashedNumbersDiffer(node, millis, other, when);
  }

  ghost predicate PostedBefore(events: seq<Event>, i: int, target: string, millis: nat) {
    exists j :: 0 <= j < i && j < |events| && events[j].Post? && events[j].target == target && events[j].millis == millis
  }

  /** A post is rejected exactly when something was posted to the same node in the same millisecond before. */
  lemma {:induction false} RejectedIffPostedBefore(states: seq<State>, events: seq<Event>, node: string, checked: bool,
                                                  i: nat, target: string, millis: nat)
    requires IsRun(states, events, node, checked) && i < |states|
    ensures OpName(target, millis) in states[i].store <==> PostedBefore(events, i, target, millis)
  {
    if i > 0 {
      RejectedIffPostedBefore(states, events, node, checked, i - 1, target, millis);
      RunKeepsInv(states, events, node, checked, i - 1);
      var s, e := states[i - 1], events[i - 1];
      assert states[i] == Next(s, e, checked);
      StepNames(s, e, node, checked);
      if PostedBefore(events, i - 1, target, millis) {
        var j :| 0 <= j < i - 1 && j < |events| && events[j].Post? && events[j].target == target && events[j].millis == millis;
        assert PostedBefore(events, i, target, millis);
      }
      if e.Post? && OpName(e.target, e.millis) == OpName(target, millis) {
        OpNameIsInjective(e.target, e.millis, target, millis);
        assert PostedBefore(events, i, target, millis);
      }
    }
  }

  lemma {:induction false} StepNames(s: State, e: Event, node: string, checked: bool)
    requires Inv(s) && Enabled(s, e, node)
    ensures Next(s, e, checked).store.Keys == if e.Post? then s.store.Keys + {OpName(e.target, e.millis)} else s.store.Keys
  {
  }

  // ---------------------------------------------------------------- within reach

  /** Right after an accepted post the target's list holds the record, Pending, with the posted operation; no other list does. */
  lemma {:induction false} PostIsListed(s: State, e: Event, checked: bool, node: string, items: seq<Record>)
    requires e.Post? && OpName(e.target, e.millis) !in s.store && Lists(items, Next(s, e, checked).store, node)
    ensures var name := OpName(e.target, e.millis);
      if node == e.target then Record(name, e.target, name, e.operation, Pending, "queued", 0) in items
      else forall k | 0 <= k < |items| :: items[k].name != name
  {
    var name := OpName(e.target, e.millis);
    assert name in Next(s, e, checked).store;
  }

  /** The named record, and the agent's copy of it, belong to this node. */
  ghost predicate Addressed(s: State, name: string, target: string) {
    && name in s.store && s.store[name].node == target
    && (!s.pc.Idle? && s.pc.cm.name == name ==> s.pc.cm.node == target)
  }

  lemma {:induction false} PostedAddressed(s: State, e: Event, checked: bool)
    requires Inv(s) && e.Post? && OpName(e.target, e.millis) !in s.store
    ensures Addressed(Next(s, e, checked), OpName(e.target, e.millis), e.target)
  {
  }

  lemma {:induction false} StepAddressed(s: State, e: Event, node: string, checked: bool, name: string, target: string)
    requires Inv(s) && Enabled(s, e, node) && Addressed(s, name, target)
    ensures Addressed(Next(s, e, checked), name, target)
  {
    if e.Claim? {
      assert Known(s.store, s.queue[0]) && s.store[s.queue[0].name] == s.queue[0];
    }
  }

  lemma {:induction false} RunAddressed(states: seq<State>, events: seq<Event>, node: string, checked: bool, p: nat, i: nat)
    requires IsRun(states, events, node, checked) && AcceptedPost(states, events, p) && p < i < |states|
    ensures Addressed(states[i], OpName(events[p].target, events[p].millis), events[p].target)
    decreases i
  {
    RunKeepsInv(states, events, node, checked, i - 1);
    if i > p + 1 {
      RunAddressed(states, events, node, checked, p, i - 1);
      StepAddressed(states[i - 1], events[i - 1], node, checked, OpName(events[p].target, events[p].millis), events[p].target);
    } else {
      PostedAddressed(states[p], events[p], checked);
    }
  }

  // ---------------------------------------------------------------- processed operations are answered

  lemma {:induction false} ProcessedIsStored(states: seq<State>, events: seq<Event>, node: string, checked: bool, i: nat)
    requires IsRun(states, events, node, checked) && i < |states|
    ensures forall id | id in states[i].processed :: id in states[i].store
  {
    if i > 0 {
      ProcessedIsStored(states, events, node, checked, i - 1);
      RunKeepsInv(states, events, node, checked, i - 1);
      StepNames(states[i - 1], events[i - 1], node, checked);
      assert states[i] == Next(states[i - 1], events[i - 1], checked);
    }
  }

  /** Step a is an action since post p whose outcome is this one. */
  ghost predicate ActedWith(states: seq<State>, events: seq<Event>, p: nat, i: nat, a: nat, outcome: Outcome)
    requires |states| == |events| + 1 && p < i < |states| && events[p].Post?
  {
    && p < a < i && events[a].Act?
    && outcome == OutcomeOf(states[a].host, events[p].operation, events[a].io, events[a].error)
  }

  /** The record shows the outcome of step a. */
  ghost predicate Answers(states: seq<State>, events: seq<Event>, p: nat, i: nat, a: nat)
    requires |states| == |events| + 1 && p < i < |states| && events[p].Post?
  {
    var reading := Poll(states[i], OpName(events[p].target, events[p].millis));
    && p < a < i && events[a].Act? && Decisive(reading)
    && Verdict(reading) == VerdictOf(OutcomeOf(states[a].host, events[p].operation, events[a].io, events[a].error))
  }

  /** No restart and no lost report from p to i. */
  ghost predicate Smooth(events: seq<Event>, p: int, i: int) {
    NoRestart(events, p, i) && forall k | p <= k < i && 0 <= k < |events| && events[k].Report? :: events[k].delivered
  }

  lemma {:induction false} AnswerStays(states: seq<State>, events: seq<Event>, node: string, p: nat, i: nat, a: nat)
    requires IsRun(states, events, node, false) && AcceptedPost(states, events, p) && p < i < |events| && !events[i].Restart?
    requires OpName(events[p].target, events[p].millis) in states[i].processed && Answers(states, events, p, i, a)
    ensures Answers(states, events, p, i + 1, a)
  {
    RunKeepsInv(states, events, node, false, i);
    ProcessedStep(states[i], events[i], node, false, OpName(events[p].target, events[p].millis));
  }

  lemma {:induction false} ReportIsAnswer(states: seq<State>, events: seq<Event>, node: string, p: nat, i: nat, a: nat)
    requires IsRun(states, events, node, false) && AcceptedPost(states, events, p) && p < i < |events|
    requires events[i].Report? && events[i].delivered && states[i].pc.cm.name == OpName(events[p].target, events[p].millis)
    requires ActedWith(states, events, p, i, a, states[i].pc.outcome)
    ensures Answers(states, events, p, i + 1, a)
  {
    RunKeepsInv(states, events, node, false, i);
    ReportAnswers(states[i], events[i], OpName(events[p].target, events[p].millis));
  }

  lemma {:induction false} HandStep(s: State, e: Event, node: string, checked: bool, name: string)
    requires Enabled(s, e, node) && Next(s, e, checked).pc.Acted? && Next(s, e, checked).pc.cm.name == name
    ensures e.Act? || Next(s, e, checked).pc == s.pc
    ensures e.Act? ==> s.pc.cm.name == name
                       && Next(s, e, checked).pc.outcome == OutcomeOf(s.host, s.pc.cm.operation, e.io, e.error)
  {
  }

  lemma {:induction false} HandNotFresh(states: seq<State>, events: seq<Event>, node: string, p: nat, i: nat)
    requires IsRun(states, events, node, false) && AcceptedPost(states, events, p) && p < i < |states|
    requires states[i].pc.Acted? && states[i].pc.cm.name == OpName(events[p].target, events[p].millis)
    ensures i > p + 1
  {
    RunKeepsInv(states, events, node, false, p);
    PostKeepsHand(states[p], events[p], false);
  }

  lemma PostKeepsHand(s: State, e: Event, checked: bool)
    requires Inv(s) && e.Post? && OpName(e.target, e.millis) !in s.store
    ensures var t := Next(s, e, checked); t.pc.Acted? ==> t.pc.cm.name != OpName(e.target, e.millis)
  {
  }

  /** The outcome in the agent's hand is that of an action since the post. */
  lemma {:induction false} HandHoldsOutcome(states: seq<State>, events: seq<Event>, node: string, p: nat, i: nat) returns (a: nat)
    requires IsRun(states, events, node, false) && AcceptedPost(states, events, p) && p < i < |states|
    requires states[i].pc.Acted? && states[i].pc.cm.name == OpName(events[p].target, events[p].millis)
    ensures ActedWith(states, events, p, i, a, states[i].pc.outcome)
    decreases i
  {
    HandNotFresh(states, events, node, p, i);
    HandStep(states[i - 1], events[i - 1], node, false, OpName(events[p].target, events[p].millis));
    a := i - 1;
    if events[i - 1].Act? {
      RunCarries(states, events, node, false, p, i - 1);
    } else {
      a := HandHoldsOutcome(states, events, node, p, i - 1);
    }
  }

  lemma {:induction false} NewlyProcessed(s: State, e: Event, node: string, checked: bool, name: string)
    requires Inv(s) && Enabled(s, e, node) && name !in s.processed && name in Next(s, e, checked).processed
    ensures e.Report? && s.pc.cm.name == name
  {
    if e.Report? {
      assert Known(s.store, s.pc.cm);
    }
  }

  lemma {:induction false} FreshIsUnprocessed(states: seq<State>, events: seq<Event>, node: string, checked: bool, p: nat)
    requires IsRun(states, events, node, checked) && AcceptedPost(states, events, p)
    ensures OpName(events[p].target, events[p].millis) !in states[p + 1].processed
  {
    ProcessedIsStored(states, events, node, checked, p);
    assert states[p + 1] == Next(states[p], events[p], checked);
  }

  lemma {:induction false} NotYetProcessed(states: seq<State>, events: seq<Event>, node: string, checked: bool, p: nat, i: nat)
    requires IsRun(states, events, node, checked) && AcceptedPost(states, events, p) && p < i < |states|
    requires OpName(events[p].target, events[p].millis) in states[i].processed
    ensures p < i - 1
    ensures var name := OpName(events[p].target, events[p].millis);
      name !in states[i - 1].processed ==> events[i - 1].Report? && states[i - 1].pc.Acted? && states[i - 1].pc.cm.name == name
  {
    FreshIsUnprocessed(states, events, node, checked, p);
    RunKeepsInv(states, events, node, checked, i - 1);
    if OpName(events[p].target, events[p].millis) !in states[i - 1].processed {
      NewlyProcessed(states[i - 1], events[i - 1], node, checked, OpName(events[p].target, events[p].millis));
    }
  }

  /** In a store that takes every update, a processed operation's record shows the outcome of an action since the post. */
  lemma {:induction false} ProcessedIsAnswered(states: seq<State>, events: seq<Event>, node: string, p: nat, i: nat) returns (a: nat)
    requires IsRun(states, events, node, false) && AcceptedPost(states, events, p) && p < i < |states| && Smooth(events, p, i)
    requires OpName(events[p].target, events[p].millis) in states[i].processed
    ensures Answers(states, events, p, i, a)
    decreases i
  {
    var name := OpName(events[p].target, events[p].millis);
    NotYetProcessed(states, events, node, false, p, i);
    if name in states[i - 1].processed {
      a := ProcessedIsAnswered(states, events, node, p, i - 1);
      AnswerStays(states, events, node, p, i - 1, a);
    } else {
      a := HandHoldsOutcome(states, events, node, p, i - 1);
      ReportIsAnswer(states, events, node, p, i - 1, a);
    }
  }

  lemma ReportAnswers(s: State, e: Event, name: string)
    requires Inv(s) && e.Report? && e.delivered && s.pc.Acted? && s.pc.cm.name == name
    ensures var reading := Poll(Next(s, e, false), name); Decisive(reading) && Verdict(reading) == VerdictOf(s.pc.outcome)
  {
  }

  // ---------------------------------------------------------------- a drained queue

  /** The operation waits in the agent's list, is in its hands, or is processed. */
  ghost predicate Underway(s: State, name: string) {
    (exists k :: 0 <= k < |s.queue| && s.queue[k].name == name) || (!s.pc.Idle? && s.pc.cm.name == name) || name in s.processed
  }

  lemma {:induction false} UnderwayStep(s: State, e: Event, node: string, checked: bool, name: string)
    requires Inv(s) && Enabled(s, e, node) && !e.Restart? && Underway(s, name)
    ensures Underway(Next(s, e, checked), name)
  {
    var t := Next(s, e, checked);
    if e.Claim? {
      assert Known(s.store, s.queue[0]);
      if k :| 0 < k < |s.queue| && s.queue[k].name == name {
        assert t.queue[k - 1].name == name;
      }
    } else if e.Report? {
      assert Known(s.store, s.pc.cm);
    }
  }

  lemma {:induction false} ListedIsUnderway(s: State, e: Event, node: string, checked: bool, name: string)
    requires WellNamed(s.store) && Enabled(s, e, node) && e.List? && Addressed(s, name, node)
    ensures Underway(Next(s, e, checked), name)
  {
    assert s.store[name] in e.items;
    var k :| 0 <= k < |e.items| && e.items[k] == s.store[name];
    assert Next(s, e, checked).queue[k].name == name;
  }

  lemma {:induction false} UnderwayAfterList(states: seq<State>, events: seq<Event>, node: string, checked: bool, p: nat, l: nat, i: nat)
    requires IsRun(states, events, node, checked) && AcceptedPost(states, events, p) && events[p].target == node
    requires p < l < i < |states| && events[l].List? && NoRestart(events, p, i)
    ensures Underway(states[i], OpName(events[p].target, events[p].millis))
    decreases i
  {
    var name := OpName(events[p].target, events[p].millis);
    RunKeepsInv(states, events, node, checked, i - 1);
    if i > l + 1 {
      UnderwayAfterList(states, events, node, checked, p, l, i - 1);
      UnderwayStep(states[i - 1], events[i - 1], node, checked, name);
    } else {
      RunAddressed(states, events, node, checked, p, l);
      ListedIsUnderway(states[l], events[l], node, checked, name);
    }
  }

  /** Once its node's agent has listed the records and emptied its list, a posted operation's record shows the outcome of acting on it. */
  lemma {:induction false} DrainedIsAnswered(states: seq<State>, events: seq<Event>, node: string, p: nat, l: nat, i: nat) returns (a: nat)
    requires IsRun(states, events, node, false) && AcceptedPost(states, events, p) && events[p].target == node
    requires p < l < i < |states| && events[l].List? && Smooth(events, p, i)
    requires states[i].pc.Idle? && states[i].queue == []
    ensures Answers(states, events, p, i, a)
  {
    UnderwayAfterList(states, events, node, false, p, l, i);
    a := ProcessedIsAnswered(states, events, node, p, i);
  }

  /**
   The other half of the protocol: post to a node whose agent lists the records and empties its list at i, in a store that
   takes every update. A wait with a poll at or after i returns what an action since the post came to: completion exactly when
   everything the operation needed went well, the error otherwise.
   */
  lemma {:induction false} WaitIsAnswered(states: seq<State>, events: seq<Event>, node: string, p: nat, l: nat, i: nat,
                                         times: seq<nat>, r: WaitResult) returns (a: nat)
    requires IsRun(states, events, node, false) && AcceptedPost(states, events, p) && events[p].target == node
    requires p < l < i < |states| && events[l].List? && states[i].pc.Idle? && states[i].queue == []
    requires forall k | 0 <= k < |times| :: p < times[k] < |states| && Smooth(events, p, times[k])
    requires exists k :: 0 <= k < |times| && times[k] >= i
    requires WaitsFor(PollsAt(states, times, OpName(events[p].target, events[p].millis)), r)
    ensures p < a < |events| && events[a].Act?
    ensures r == if NeedsMet(states[a].host, events[p].operation, events[a].io) then Completed else OperationFailed(events[a].error)
  {
    var name := OpName(events[p].target, events[p].millis);
    var readings := PollsAt(states, times, name);
    var late :| 0 <= late < |times| && times[late] >= i;
    LatePollDecides(states, events, node, p, l, i, times[late]);
    assert readings[late] == Poll(states[times[late]], name);
    assert Decisive(readings[late]);
    var k :| 0 <= k < |readings| && Decisive(readings[k]) && r == Verdict(readings[k]);
    assert readings[k] == Poll(states[times[k]], name);
    DecidedIsProcessed(states, events, node, false, p, times[k]);
    a := ProcessedIsAnswered(states, events, node, p, times[k]);
    DoneIffNeedsMet(states[a].host, events[p].operation, events[a].io, events[a].error);
  }

  lemma {:induction false} LatePollDecides(states: seq<State>, events: seq<Event>, node: string, p: nat, l: nat, i: nat, t: nat)
    requires IsRun(states, events, node, false) && AcceptedPost(states, events, p) && events[p].target == node
    requires p < l < i <= t < |states| && events[l].List? && states[i].pc.Idle? && states[i].queue == [] && Smooth(events, p, t)
    ensures Decisive(Poll(states[t], OpName(events[p].target, events[p].millis)))
  {
    var name := OpName(events[p].target, events[p].millis);
    UnderwayAfterList(states, events, node, false, p, l, i);
    NamesStay(states, events, node, false, p + 1, i);
    ProcessedIsStored(states, events, node, false, i);
    ProcessedStaysPut(states, events, node, false, i, t, name);
    var a := ProcessedIsAnswered(states, events, node, p, t);
  }

  // ---------------------------------------------------------------- the list does get emptied

  /** How many agent steps are left at most. */
  function Work(s: State): nat {
    3 * |s.queue| + (match s.pc case Idle => 0 case Acted(_, _) => 1 case Claimed(_) => 2)
  }

  /** While there is work an agent step is possible, and each one leaves less; nothing but listing and restarting adds or drops any. */
  lemma {:induction false} AgentDrains(s: State, e: Event, node: string, checked: bool, io: Host.Io, error: string, delivered: bool)
    requires Enabled(s, e, node)
    ensures Work(s) > 0 ==> Enabled(s, Claim(delivered), node) || Enabled(s, Act(io, error), node) || Enabled(s, Report(delivered), node)
    ensures e.Claim? || e.Act? || e.Report? ==> Work(Next(s, e, checked)) < Work(s)
    ensures e.Post? || e.Disturb? ==> Work(Next(s, e, checked)) == Work(s)
    ensures Work(s) == 0 <==> s.pc.Idle? && s.queue == []
  {
  }

  // ---------------------------------------------------------------- restarts

  /**
   A restart forgets what was processed and nothing else: the next list hands out every record of the node again, and the
   first one is claimed and set back to Running, even if it said Success.
   */
  lemma {:induction false} RestartRunsAgain(s: State, node: string, items: seq<Record>)
    requires Inv(s) && Lists(items, s.store, node) && items != []
    ensures var restarted := Next(s, Restart, false);
      && restarted == s.(queue := [], pc := Idle, processed := {}, life := s.life + 1)
      && Enabled(restarted, List(items), node)
      && var listed := Next(restarted, List(items), false);
         && Enabled(listed, Claim(true), node)
         && var claimed := Next(listed, Claim(true), false);
            && claimed.pc == Claimed(items[0]) && claimed.queue == items[1..]
            && claimed.store[items[0].name].state == Running
            && forall n | n in s.store && n != items[0].name :: claimed.store[n] == s.store[n]
  {
    assert items[0].name in s.store;
  }
}
