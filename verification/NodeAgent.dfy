/** The node agent as an object: its processed set, the record store it updates and the machine it acts on. */
module NodeAgent {
  import opened AgentOperations
  import Host

  /** The ConfigMaps of the API server. */
  class ConfigMaps {
    var records: map<string, Record>
    const checked: bool

    constructor (checked: bool)
      ensures records == map[] && this.checked == checked
    {
      records, this.checked := map[], checked;
    }

    /** Create fails on an existing name. */
    method Create(r: Record) returns (ok: bool)
      modifies this
      ensures ok <==> r.name !in old(records)
      ensures records == if ok then old(records)[r.name := r] else old(records)
    {
      if r.name in records {
        return false;
      }
      records := records[r.name := r];
      return true;
    }

    method Update(r: Record, delivered: bool)
      modifies this
      ensures records == Write(old(records), r, delivered, checked)
    {
      if Accepted(records, r, delivered, checked) {
        records := records[r.name := r.(version := records[r.name].version + 1)];
      }
    }

    /** postAgentOp. */
    method PostAgentOp(target: string, millis: nat, operation: Host.Operation) returns (name: string, ok: bool)
      modifies this
      ensures name == OpName(target, millis) && (ok <==> name !in old(records))
      ensures ok ==> records == old(records)[name := Record(name, target, name, operation, Pending, "queued", 0)]
      ensures !ok ==> records == old(records)
      ensures forall s: State | s.store == old(records) :: Next(s, Post(target, millis, operation), checked) == s.(store := records)
    {
      name := OpName(target, millis);
      ok := Create(Record(name, target, name, operation, Pending, "queued", 0));
    }
  }

  /** The outside of one execution: command results, the error text, and whether each update reaches the server. */
  datatype Circumstances = Circumstances(io: Host.Io, error: string, claimDelivered: bool, reportDelivered: bool)

  /** One executeOperation as steps of the protocol: a skipped claim, or a claim, an act and a report. */
  function Execute(s: State, c: Circumstances, checked: bool): State
    requires s.pc.Idle? && s.queue != []
  {
    var claimed := Next(s, Claim(c.claimDelivered), checked);
    if OpId(s.queue[0]) in s.processed then claimed
    else Next(Next(claimed, Act(c.io, c.error), checked), Report(c.reportDelivered), checked)
  }

  /** A pass over the listed records. */
  function Pass(s: State, cs: seq<Circumstances>, checked: bool): State
    requires s.pc.Idle? && |s.queue| == |cs|
    decreases |cs|
  {
    if cs == [] then s else Pass(Execute(s, cs[0], checked), cs[1..], checked)
  }

  class Agent {
    const api: ConfigMaps
    const machine: Host.Machine
    var processed: set<string>

    constructor (api: ConfigMaps, machine: Host.Machine)
      ensures this.api == api && this.machine == machine && processed == {}
    {
      this.api, this.machine, processed := api, machine, {};
    }

    /** The protocol state the agent, its machine and its API server are in, with these records listed. */
    ghost function At(items: seq<Record>, life: nat, log: seq<Run>): State
      reads this, api, machine
    {
      State(api.records, items, Idle, processed, life, log, machine.State())
    }

    /** executeOperation: records, machine and processed set change as the protocol's steps say. */
    method ExecuteOperation(cm: Record, c: Circumstances, ghost s: State)
      requires s.queue != [] && s.queue[0] == cm && s == At(s.queue, s.life, s.log)
      modifies this, api, machine
      ensures Execute(s, c, api.checked) == At(s.queue[1..], s.life, Execute(s, c, api.checked).log)
    {
      var opId := cm.operationId;
      if opId == "" {
        opId := cm.name;
      }
      if opId in processed {
        return;
      }
      var copy := cm.(state := Running, message := "operation in progress");
      api.Update(copy, c.claimDelivered);
      ghost var claimed := Next(s, Claim(c.claimDelivered), api.checked);
      assert claimed == State(api.records, s.queue[1..], Claimed(cm), processed, s.life, s.log, machine.State());
      var ok := machine.Perform(cm.operation, c.io);
      ghost var acted := Next(claimed, Act(c.io, c.error), api.checked);
      assert acted.host == machine.State() && acted.pc == Acted(cm, if ok then Done else Error(c.error));
      if !ok {
        copy := copy.(state := Failed, message := c.error);
      } else {
        copy := copy.(state := Success, message := "completed");
      }
      processed := processed + {opId};
      api.Update(copy, c.reportDelivered);
    }

    /** processOperationRequests over the records the server listed, in its order; a failed listing ends it. */
    method ProcessOperationRequests(listOk: bool, items: seq<Record>, cs: seq<Circumstances>, ghost life: nat, ghost log: seq<Run>)
      requires |cs| == |items|
      modifies this, api, machine
      ensures var s := old(At(items, life, log));
        if listOk then Pass(s, cs, api.checked) == At([], life, Pass(s, cs, api.checked).log) else At(items, life, log) == s
      ensures machine.State() == if listOk then Host.RunJobs(old(machine.State()), JobsOf(items, cs, old(processed))) else old(machine.State())
      ensures processed == if listOk then old(processed) + Ids(items) else old(processed)
    {
      if !listOk {
        return;
      }
      ghost var start := At(items, life, log);
      ghost var s := start;
      for i := 0 to |items|
        invariant s == At(items[i..], life, s.log)
        invariant Pass(start, cs, api.checked) == Pass(s, cs[i..], api.checked)
      {
        assert items[i..][0] == items[i] && items[i..][1..] == items[i + 1..];
        assert cs[i..][0] == cs[i] && cs[i..][1..] == cs[i + 1..];
        ghost var next := Execute(s, cs[i], api.checked);
        ExecuteOperation(items[i], cs[i], s);
        s := next;
      }
      PassJobs(start, cs, api.checked);
    }

    /** A restart forgets what was processed. */
    method Restarted()
      modifies this
      ensures processed == {}
    {
      processed := {};
    }

    /**
     A fresh agent makes a pass, restarts, and finds the same operations listed again with their records as they are now:
     it performs them again, and the mount table ends as it was before the restart.
     */
    method PassAndRestart(items: seq<Record>, again: seq<Record>, cs: seq<Circumstances>)
      requires processed == {} && |cs| == |items| && SameOperations(items, again)
      requires Host.Unstacked(machine.mounts)
      requires forall i | 0 <= i < |items| :: !Host.Stacks(Host.Job(items[i].operation, cs[i].io))
      modifies this, api, machine
      ensures var once := Host.RunJobs(old(machine.State()), JobsOf(items, cs, {}));
        machine.State() == Host.RunJobs(once, JobsOf(items, cs, {})) && Host.SameTable(machine.mounts, once.mounts)
    {
      RestartIsHarmless(machine.State(), items, cs);
      ProcessOperationRequests(true, items, cs, 0, []);
      Restarted();
      SameJobs(items, again, cs, {});
      ProcessOperationRequests(true, again, cs, 1, []);
    }
  }

  /** The same operations, whatever state their records are in. */
  ghost predicate SameOperations(items: seq<Record>, again: seq<Record>) {
    |again| == |items| && forall i | 0 <= i < |items| :: OpId(again[i]) == OpId(items[i]) && again[i].operation == items[i].operation
  }

  function Ids(items: seq<Record>): set<string> {
    set i | 0 <= i < |items| :: OpId(items[i])
  }

  /** The jobs a pass performs: one per record whose operation was not processed before. */
  function JobsOf(items: seq<Record>, cs: seq<Circumstances>, processed: set<string>): seq<Host.Job>
    requires |cs| == |items|
    decreases |items|
  {
    if items == [] then []
    else
      (if OpId(items[0]) in processed then [] else [Host.Job(items[0].operation, cs[0].io)])
      + JobsOf(items[1..], cs[1..], processed + {OpId(items[0])})
  }

  /** A second pass in the same life does nothing. */
  lemma {:induction false} SecondPassIsEmpty(items: seq<Record>, cs: seq<Circumstances>, processed: set<string>)
    requires |cs| == |items| && Ids(items) <= processed
    ensures JobsOf(items, cs, processed) == []
  {
    if items != [] {
      IdsOfFirst(items);
      SecondPassIsEmpty(items[1..], cs[1..], processed + {OpId(items[0])});
    }
  }

  /** The protocol's pass performs on the host exactly the jobs of the list, and processes all of it. */
  lemma {:induction false} PassJobs(s: State, cs: seq<Circumstances>, checked: bool)
    requires s.pc.Idle? && |s.queue| == |cs|
    ensures var t := Pass(s, cs, checked);
      t.host == Host.RunJobs(s.host, JobsOf(s.queue, cs, s.processed)) && t.processed == s.processed + Ids(s.queue)
    decreases |cs|
  {
    if cs != [] {
      var t := Execute(s, cs[0], checked);
      ExecuteActs(s, cs[0], checked);
      PassJobs(t, cs[1..], checked);
      IdsOfFirst(s.queue);
      var rest := JobsOf(s.queue[1..], cs[1..], t.processed);
      RunAfterFirst(s.host, Host.Job(s.queue[0].operation, cs[0].io), rest);
      assert [] + rest == rest;
    }
  }

  lemma ExecuteActs(s: State, c: Circumstances, checked: bool)
    requires s.pc.Idle? && s.queue != []
    ensures var t, id := Execute(s, c, checked), OpId(s.queue[0]);
      && t.pc.Idle? && t.queue == s.queue[1..] && t.processed == s.processed + {id}
      && t.host == if id in s.processed then s.host else Host.After(s.host, Host.Job(s.queue[0].operation, c.io))
  {
  }

  lemma IdsOfFirst(items: seq<Record>)
    requires items != []
    ensures Ids(items) == {OpId(items[0])} + Ids(items[1..])
  {
    var rest := items[1..];
    forall x
      ensures x in Ids(items) <==> x == OpId(items[0]) || x in Ids(rest)
    {
      if x in Ids(items) {
        var k :| 0 <= k < |items| && OpId(items[k]) == x;
        if k > 0 { assert rest[k - 1] == items[k]; }
      }
      if x in Ids(rest) {
        var k :| 0 <= k < |rest| && OpId(rest[k]) == x;
        assert items[k + 1] == rest[k];
      }
    }
  }

  lemma {:induction false} RunAfterFirst(h: Host.HostState, first: Host.Job, rest: seq<Host.Job>)
    ensures Host.RunJobs(h, [first] + rest) == Host.RunJobs(Host.After(h, first), rest)
  {
    if rest == [] {
      assert [first] + rest == [first];
      Host.OneJob(h, first);
    } else {
      var n := |rest| - 1;
      RunAfterFirst(h, first, rest[..n]);
      assert ([first] + rest)[..n + 1] == [first] + rest[..n];
    }
  }

  lemma {:induction false} SameJobs(items: seq<Record>, again: seq<Record>, cs: seq<Circumstances>, processed: set<string>)
    requires |cs| == |items| && SameOperations(items, again)
    ensures JobsOf(again, cs, processed) == JobsOf(items, cs, processed) && Ids(again) == Ids(items)
  {
    if items != [] {
      SameJobs(items[1..], again[1..], cs[1..], processed + {OpId(items[0])});
      IdsOfFirst(items);
      IdsOfFirst(again);
    }
  }

  /** A pass after a restart performs the same list again, and leaves the same mount table. */
  lemma {:induction false} RestartIsHarmless(h: Host.HostState, items: seq<Record>, cs: seq<Circumstances>)
    requires |cs| == |items| && Host.Unstacked(h.mounts)
    requires forall i | 0 <= i < |items| :: !Host.Stacks(Host.Job(items[i].operation, cs[i].io))
    ensures var jobs := JobsOf(items, cs, {});
      var once := Host.RunJobs(h, jobs);
      Host.SameTable(Host.RunJobs(once, jobs).mounts, once.mounts)
  {
    JobsKeepIo(items, cs, {});
    Host.ReplayKeepsMounts(h, JobsOf(items, cs, {}));
  }

  lemma {:induction false} JobsKeepIo(items: seq<Record>, cs: seq<Circumstances>, processed: set<string>)
    requires |cs| == |items| && forall i | 0 <= i < |items| :: !Host.Stacks(Host.Job(items[i].operation, cs[i].io))
    ensures Host.NoneStacks(JobsOf(items, cs, processed))
  {
    if items != [] {
      JobsKeepIo(items[1..], cs[1..], processed + {OpId(items[0])});
    }
  }
}
