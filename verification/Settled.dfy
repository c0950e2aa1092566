/** What a settled cluster means, and what every run of the reconcilers keeps. */
module Settled {
  import opened Wrappers
  import opened Conditions
  import opened Api
  import opened Cascade

  /** Every call out of the operator succeeds. */
  ghost predicate AgentWorks(env: Env) {
    && (forall node, device :: env.report(node, device).Success?)
    && (forall n :: env.mountOk(n))
    && (forall k :: env.snapraidOk(k) && env.mergerfsOk(k) && env.publishOk(k))
  }

  ghost predicate NothingDeleting(c: Cluster) {
    forall n | n in c.disks :: !c.disks[n].deleting
  }

  function ReportOf(env: Env, d: Disk): AgentReport
    requires env.report(d.spec.node, d.spec.device).Success?
  {
    env.report(d.spec.node, d.spec.device).value
  }

  /** The named disk exists and its reported health computes to Ready. */
  ghost predicate Sound(env: Env, c: Cluster, name: string)
    requires AgentWorks(env)
  {
    name in c.disks && ComputePhase(ReportOf(env, c.disks[name])) == Ready
  }

  /** A settled disk shows its report, has the phase the report computes to, and is mounted if it was or if it is Ready. */
  lemma {:induction false} SettledDisk(env: Env, c: Cluster, n: string)
    requires AgentWorks(env) && Settled(env, c) && n in c.disks && !c.disks[n].deleting
    ensures var st := c.disks[n].status;
      && st.phase == ComputePhase(ReportOf(env, c.disks[n]))
      && st.capacity == ReportOf(env, c.disks[n]).capacity && st.available == ReportOf(env, c.disks[n]).available
      && st.health == ReportOf(env, c.disks[n]).health && st.summary == ReportOf(env, c.disks[n]).summary
      && st.serial == ReportOf(env, c.disks[n]).serial && st.model == ReportOf(env, c.disks[n]).model
      && st.rotational == ReportOf(env, c.disks[n]).rotational
      && (st.mounted <==> ReportOf(env, c.disks[n]).mounted || st.phase == Ready)
      && StatusOf(st.conditions, "Ready") == Some(st.phase == Ready)
  {
    var d := c.disks[n];
    assert Reconcile(env, c, DiskRequest(n)) == c;
    assert Reconcile(env, c, DiskRequest(n)).disks[n] == d;
    assert DiskStep(env, d) == Some(d);
    assert env.mountOk(d.name);
    assert d.status.conditions == SetCondition(d.status.conditions, Condition("Ready", d.status.phase == Ready, "Reconciled"));
    SetIsRead(d.status.conditions, Condition("Ready", d.status.phase == Ready, "Reconciled"), "Ready");
  }

  lemma AllNamed(disks: map<string, Disk>, data: seq<string>, parity: seq<string>)
    requires forall n | n in data + parity :: n in disks
    ensures AllFound(disks, data) && AllFound(disks, parity)
  {
    forall n | n in data || n in parity
      ensures n in disks
    {
      assert n in data + parity;
    }
  }

  /** The names of the disks referenced under these names whose computed phase is not Ready, in order. */
  ghost function UnsoundNames(env: Env, c: Cluster, names: seq<string>): seq<string>
    requires AgentWorks(env) && AllFound(c.disks, names)
  {
    if names == [] then []
    else
      var n := names[|names| - 1];
      UnsoundNames(env, c, names[..|names| - 1]) + (if Sound(env, c, n) then [] else [c.disks[n].name])
  }

  lemma {:induction false} UnhealthyAreUnsound(env: Env, c: Cluster, names: seq<string>)
    requires AgentWorks(env) && Settled(env, c) && NothingDeleting(c) && AllFound(c.disks, names)
    ensures UnhealthyNames(Lookup(c.disks, names)) == UnsoundNames(env, c, names)
  {
    if names != [] {
      var init, n := names[..|names| - 1], names[|names| - 1];
      UnhealthyAreUnsound(env, c, init);
      assert Lookup(c.disks, names)[..|names| - 1] == Lookup(c.disks, init);
      SettledDisk(env, c, n);
    }
  }

  lemma {:induction false} NoneUnsound(env: Env, c: Cluster, names: seq<string>)
    requires AgentWorks(env) && AllFound(c.disks, names)
    ensures UnsoundNames(env, c, names) == [] <==> forall n | n in names :: Sound(env, c, n)
  {
    if names != [] {
      var init, last := names[..|names| - 1], names[|names| - 1];
      NoneUnsound(env, c, init);
      assert names == init + [last];
    }
  }

  /** Fixed means the status is what the step computes. */
  lemma SettledArrayStatus(env: Env, c: Cluster, k: Key)
    requires Settled(env, c) && k in c.arrays
    ensures c.arrays[k].status == ArrayStatusStep(env, c.disks, k, c.arrays[k])
  {
    assert Reconcile(env, c, ArrayRequest(k)).arrays[k] == c.arrays[k];
  }

  /** When all references of a settled array resolve, its degraded list names the unsound ones in order, and decides its phase. */
  lemma {:induction false} SettledDegradedList(env: Env, c: Cluster, k: Key)
    requires AgentWorks(env) && Settled(env, c) && NothingDeleting(c) && k in c.arrays
    requires AllFound(c.disks, c.arrays[k].spec.dataDisks) && AllFound(c.disks, c.arrays[k].spec.parityDisks)
    ensures var a := c.arrays[k]; var names := a.spec.dataDisks + a.spec.parityDisks;
      && AllFound(c.disks, names)
      && a.status.degradedDisks == UnsoundNames(env, c, names)
      && (a.status.phase == ArrayReady <==> a.status.degradedDisks == [])
  {
    var a := c.arrays[k];
    var names := a.spec.dataDisks + a.spec.parityDisks;
    SettledArrayStatus(env, c, k);
    assert env.snapraidOk(k);
    UnhealthyAreUnsound(env, c, names);
    assert Lookup(c.disks, names) == Lookup(c.disks, a.spec.dataDisks) + Lookup(c.disks, a.spec.parityDisks);
  }

  /** A settled array is Ready exactly when all its references resolve to disks whose computed phase is Ready. */
  lemma {:induction false} SettledArray(env: Env, c: Cluster, k: Key)
    requires AgentWorks(env) && Settled(env, c) && NothingDeleting(c) && k in c.arrays
    ensures var a := c.arrays[k];
      a.status.phase == ArrayReady <==> forall n | n in a.spec.dataDisks + a.spec.parityDisks :: Sound(env, c, n)
  {
    var a := c.arrays[k];
    var names := a.spec.dataDisks + a.spec.parityDisks;
    if n :| n in names && n !in c.disks {
      assert n in a.spec.dataDisks || n in a.spec.parityDisks;
      assert !Sound(env, c, n);
      SettledArrayStatus(env, c, k);
    } else {
      AllNamed(c.disks, a.spec.dataDisks, a.spec.parityDisks);
      SettledDegradedList(env, c, k);
      NoneUnsound(env, c, names);
    }
  }

  lemma {:induction false} AllAreBranches(disks: map<string, Disk>, names: seq<string>)
    requires forall n | n in names :: IsBranch(disks, n)
    ensures Branches(disks, names) == names
  {
    if names != [] {
      var init, last := names[..|names| - 1], names[|names| - 1];
      assert names == init + [last];
      assert last in names && IsBranch(disks, last);
      AllAreBranches(disks, init);
      assert Branches(disks, names) == Branches(disks, init) + [last];
    }
  }

  lemma {:induction false} SameTotals(f: string -> int, g: string -> int, names: seq<string>)
    requires forall n | n in names :: f(n) == g(n)
    ensures TotalOf(f, names) == TotalOf(g, names)
  {
    if names != [] {
      SameTotals(f, g, names[..|names| - 1]);
    }
  }

  /** The bytes the agent reports for a named disk. */
  function ReportedCapacity(env: Env, c: Cluster): string -> int {
    n => if n in c.disks && env.report(c.disks[n].spec.node, c.disks[n].spec.device).Success?
         then ReportOf(env, c.disks[n]).capacity else 0
  }

  function ReportedAvailable(env: Env, c: Cluster): string -> int {
    n => if n in c.disks && env.report(c.disks[n].spec.node, c.disks[n].spec.device).Success?
         then ReportOf(env, c.disks[n]).available else 0
  }

  /**
   In a settled cluster a pool whose array exists is Ready exactly when the array lists data disks and every data and
   parity reference resolves to a disk whose computed phase is Ready. It then has all the data disks as members, in
   order, sums of what the agent reports for them as byte totals, and is mounted.
   */
  lemma {:induction false} SettledPool(env: Env, c: Cluster, k: Key)
    requires AgentWorks(env) && Settled(env, c) && NothingDeleting(c)
    requires k in c.pools && Key(k.namespace, c.pools[k].spec.arrayRef) in c.arrays
    ensures var st, a := c.pools[k].status, c.arrays[Key(k.namespace, c.pools[k].spec.arrayRef)].spec;
      && (st.phase == "Ready" <==> a.dataDisks != [] && forall n | n in a.dataDisks + a.parityDisks :: Sound(env, c, n))
      && (st.phase == "Ready" ==>
            && st.memberDisks == a.dataDisks
            && st.totalBytes == TotalOf(ReportedCapacity(env, c), a.dataDisks)
            && st.availableBytes == TotalOf(ReportedAvailable(env, c), a.dataDisks)
            && st.mounted)
  {
    var p, arrayKey := c.pools[k], Key(k.namespace, c.pools[k].spec.arrayRef);
    var names := c.arrays[arrayKey].spec.dataDisks;
    assert Reconcile(env, c, PoolRequest(k)) == c;
    assert Reconcile(env, c, PoolRequest(k)).pools[k] == p;
    assert p.status == PoolStatusStep(env, c, k, p);
    SettledArray(env, c, arrayKey);
    if c.arrays[arrayKey].status.phase == ArrayReady {
      forall n | n in names
        ensures IsBranch(c.disks, n)
        ensures CapacityIn(c.disks)(n) == ReportedCapacity(env, c)(n) && AvailableIn(c.disks)(n) == ReportedAvailable(env, c)(n)
      {
        assert n in names + c.arrays[arrayKey].spec.parityDisks;
        SettledDisk(env, c, n);
      }
      AllAreBranches(c.disks, names);
      SameTotals(CapacityIn(c.disks), ReportedCapacity(env, c), names);
      SameTotals(AvailableIn(c.disks), ReportedAvailable(env, c), names);
      assert env.mergerfsOk(k);
    }
  }

  /** A settled share is Ready exactly when its pool exists and carries the mounted flag, whatever the pool's phase. */
  lemma {:induction false} SettledShare(env: Env, c: Cluster, k: Key)
    requires AgentWorks(env) && Settled(env, c) && k in c.shares
    ensures var st, poolKey := c.shares[k].status, Key(k.namespace, c.shares[k].spec.poolRef);
      && (st.phase == "Ready" <==> poolKey in c.pools && c.pools[poolKey].status.mounted)
      && (st.published <==> st.phase == "Ready")
      && (st.phase == "Ready" && (c.shares[k].spec.protocol == "SMB" || c.shares[k].spec.protocol == "NFS") ==>
            st.podName == (if c.shares[k].spec.protocol == "SMB" then "kubenas-smb-" else "kubenas-nfs-") + k.name
            && st.serviceName == st.podName + "-svc")
  {
    var s := c.shares[k];
    assert Reconcile(env, c, ShareRequest(k)) == c;
    assert Reconcile(env, c, ShareRequest(k)).shares[k] == s;
    assert env.publishOk(k);
  }

  // ---------------------------------------------------------------- five rounds are needed

  const SAMPLE := Key("ns", "x")

  /** One disk, one array of it, one pool of that, one share of that. */
  ghost predicate Chain(c: Cluster) {
    && c.disks.Keys == {"d"} && c.arrays.Keys == {SAMPLE} && c.pools.Keys == {SAMPLE} && c.shares.Keys == {SAMPLE}
    && !c.disks["d"].deleting
    && c.arrays[SAMPLE].spec == ArraySpec(["d"], [], None)
    && c.pools[SAMPLE].spec.arrayRef == "x"
    && c.shares[SAMPLE].spec.poolRef == "x"
  }

  /** Each layer is reconciled before the one below it. */
  const TOP_DOWN := [ShareRequest(SAMPLE), PoolRequest(SAMPLE), ArrayRequest(SAMPLE), DiskRequest("d")]

  ghost predicate AllHealthy(env: Env) {
    AgentWorks(env) && forall d: Disk :: ComputePhase(ReportOf(env, d)) == Ready
  }

  /** The cluster after the share, the pool and the array of a top-down round. */
  function AfterShare(env: Env, c: Cluster): Cluster {
    Reconcile(env, c, ShareRequest(SAMPLE))
  }

  function AfterPool(env: Env, c: Cluster): Cluster {
    Reconcile(env, AfterShare(env, c), PoolRequest(SAMPLE))
  }

  function AfterArray(env: Env, c: Cluster): Cluster {
    Reconcile(env, AfterPool(env, c), ArrayRequest(SAMPLE))
  }

  lemma HealthyArrayStep(env: Env, c: Cluster)
    requires AllHealthy(env) && Chain(c)
    ensures ArrayStatusStep(env, c.disks, SAMPLE, c.arrays[SAMPLE]).phase == if Unhealthy(c.disks["d"]) then ArrayDegraded else ArrayReady
  {
    assert env.snapraidOk(SAMPLE);
    OneLookup(c.disks, "d");
  }

  lemma HealthyPoolStep(env: Env, c: Cluster)
    requires AllHealthy(env) && Chain(c)
    ensures var st := PoolStatusStep(env, c, SAMPLE, c.pools[SAMPLE]);
      && (c.arrays[SAMPLE].status.phase != ArrayReady ==> st.mounted == c.pools[SAMPLE].status.mounted)
      && (c.arrays[SAMPLE].status.phase == ArrayReady && IsBranch(c.disks, "d") ==> st.mounted)
  {
    assert env.mergerfsOk(SAMPLE);
    OneBranch(c.disks, "d");
  }

  lemma HealthyShareStep(env: Env, c: Cluster)
    requires AllHealthy(env) && Chain(c)
    ensures ShareStatusStep(env, c.pools, SAMPLE, c.shares[SAMPLE]).phase == "Ready" <==> c.pools[SAMPLE].status.mounted
  {
    assert env.publishOk(SAMPLE);
  }

  lemma ShareOfRound(env: Env, c: Cluster)
    requires AllHealthy(env) && Chain(c)
    ensures var e := AfterShare(env, c);
      && Chain(e) && e == c.(shares := e.shares)
      && (e.shares[SAMPLE].status.phase == "Ready" <==> c.pools[SAMPLE].status.mounted)
  {
    HealthyShareStep(env, c);
  }

  lemma PoolOfRound(env: Env, c: Cluster)
    requires AllHealthy(env) && Chain(c)
    ensures var b, e := AfterShare(env, c), AfterPool(env, c);
      && Chain(e) && e == b.(pools := e.pools)
      && (c.arrays[SAMPLE].status.phase != ArrayReady ==> e.pools[SAMPLE].status.mounted == c.pools[SAMPLE].status.mounted)
      && (c.arrays[SAMPLE].status.phase == ArrayReady && IsBranch(c.disks, "d") ==> e.pools[SAMPLE].status.mounted)
  {
    ShareOfRound(env, c);
    HealthyPoolStep(env, AfterShare(env, c));
  }

  lemma ArrayOfRound(env: Env, c: Cluster)
    requires AllHealthy(env) && Chain(c)
    ensures var b, e := AfterPool(env, c), AfterArray(env, c);
      && Chain(e) && e == b.(arrays := e.arrays) && e.disks == c.disks
      && e.arrays[SAMPLE].status.phase == (if Unhealthy(c.disks["d"]) then ArrayDegraded else ArrayReady)
  {
    ShareOfRound(env, c);
    PoolOfRound(env, c);
    HealthyArrayStep(env, AfterPool(env, c));
  }

  lemma DiskOfRound(env: Env, c: Cluster)
    requires AllHealthy(env) && Chain(c)
    ensures var e := Reconcile(env, c, DiskRequest("d"));
      && Chain(e) && e == c.(disks := e.disks) && DISK_FINALIZER in e.disks["d"].finalizers
      && (if DISK_FINALIZER in c.disks["d"].finalizers then e.disks["d"].status.phase == Ready && e.disks["d"].status.mounted
          else e.disks["d"].status == c.disks["d"].status)
  {
    HealthyDiskStep(env, c.disks["d"]);
  }

  /** What one top-down round over a healthy chain does: each layer sees the layer below as it was before the round. */
  lemma {:induction false} TopDownRound(env: Env, c: Cluster)
    requires AllHealthy(env) && Chain(c)
    ensures var e := ReconcileAll(env, c, TOP_DOWN);
      && Chain(e)
      && DISK_FINALIZER in e.disks["d"].finalizers
      && (if DISK_FINALIZER in c.disks["d"].finalizers then e.disks["d"].status.phase == Ready && e.disks["d"].status.mounted
          else e.disks["d"].status == c.disks["d"].status)
      && e.arrays[SAMPLE].status.phase == (if Unhealthy(c.disks["d"]) then ArrayDegraded else ArrayReady)
      && (c.arrays[SAMPLE].status.phase != ArrayReady ==> e.pools[SAMPLE].status.mounted == c.pools[SAMPLE].status.mounted)
      && (c.arrays[SAMPLE].status.phase == ArrayReady && IsBranch(c.disks, "d") ==> e.pools[SAMPLE].status.mounted)
      && (e.shares[SAMPLE].status.phase == "Ready" <==> c.pools[SAMPLE].status.mounted)
  {
    FourRequests(env, c, ShareRequest(SAMPLE), PoolRequest(SAMPLE), ArrayRequest(SAMPLE), DiskRequest("d"));
    ShareOfRound(env, c);
    PoolOfRound(env, c);
    ArrayOfRound(env, c);
    DiskOfRound(env, AfterArray(env, c));
  }

  lemma FourRequests(env: Env, c: Cluster, p: Request, q: Request, r: Request, s: Request)
    ensures ReconcileAll(env, c, [p, q, r, s]) == Reconcile(env, Reconcile(env, Reconcile(env, Reconcile(env, c, p), q), r), s)
  {
    var one, two, three, four := [s], [r, s], [q, r, s], [p, q, r, s];
    assert four[1..] == three && three[1..] == two && two[1..] == one && one[1..] == [];
    var c1 := Reconcile(env, c, p);
    var c2 := Reconcile(env, c1, q);
    var c3 := Reconcile(env, c2, r);
    assert ReconcileAll(env, c, four) == ReconcileAll(env, c1, three);
    assert ReconcileAll(env, c1, three) == ReconcileAll(env, c2, two);
    assert ReconcileAll(env, c2, two) == ReconcileAll(env, c3, one);
    assert ReconcileAll(env, c3, one) == ReconcileAll(env, Reconcile(env, c3, s), []);
  }

  lemma HealthyDiskStep(env: Env, d: Disk)
    requires AllHealthy(env) && !d.deleting
    ensures DISK_FINALIZER in d.finalizers ==> DiskStatusStep(env, d).phase == Ready && DiskStatusStep(env, d).mounted
  {
    assert env.mountOk(d.name);
    assert ComputePhase(ReportOf(env, d)) == Ready;
  }

  lemma OneBranch(disks: map<string, Disk>, n: string)
    ensures Branches(disks, [n]) == if IsBranch(disks, n) then [n] else []
  {
    assert [n][..0] == [];
  }

  lemma OneLookup(disks: map<string, Disk>, n: string)
    requires n in disks
    ensures AllFound(disks, [n]) && AllFound(disks, [])
    ensures UnhealthyNames(Lookup(disks, [n]) + Lookup(disks, [])) == if Unhealthy(disks[n]) then [disks[n].name] else []
  {
    var all := Lookup(disks, [n]) + Lookup(disks, []);
    assert all == [disks[n]] && all[..0] == [];
  }

  /** How far a chain has come: finalizer present, disk Ready and mounted rather than Degraded, array Ready, pool mounted. */
  ghost predicate Shows(c: Cluster, prepared: bool, diskReady: bool, arrayReady: bool, poolMounted: bool) {
    && Chain(c)
    && (DISK_FINALIZER in c.disks["d"].finalizers <==> prepared)
    && (if diskReady then IsBranch(c.disks, "d") else c.disks["d"].status.phase == Degraded)
    && (c.arrays[SAMPLE].status.phase == ArrayReady <==> arrayReady)
    && (c.pools[SAMPLE].status.mounted <==> poolMounted)
  }

  /** In a top-down round news travels one layer up. */
  lemma {:induction false} NewsTravels(env: Env, c: Cluster, prepared: bool, diskReady: bool, arrayReady: bool, poolMounted: bool)
    requires AllHealthy(env) && Shows(c, prepared, diskReady, arrayReady, poolMounted)
    requires (arrayReady ==> diskReady) && (diskReady ==> prepared)
    ensures var e := ReconcileAll(env, c, TOP_DOWN);
      Shows(e, true, prepared, diskReady, poolMounted || arrayReady) && (e.shares[SAMPLE].status.phase == "Ready" <==> poolMounted)
  {
    TopDownRound(env, c);
  }

  lemma AnyChainIsCovered(c: Cluster)
    requires Chain(c)
    ensures Covers(c, TOP_DOWN)
  {
    forall r | Exists(c, r)
      ensures r in TOP_DOWN
    {
      match r {
        case DiskRequest(n) => assert TOP_DOWN[3] == r;
        case ArrayRequest(k) => assert TOP_DOWN[2] == r;
        case PoolRequest(k) => assert TOP_DOWN[1] == r;
        case ShareRequest(k) => assert TOP_DOWN[0] == r;
      }
    }
  }

  /**
   Four rounds are not always enough, whatever else the statuses hold: a disk recorded as Degraded that has no finalizer
   takes one round for the finalizer, and its recovery one more round for each layer.
   */
  lemma {:induction false} FourRoundsDoNotSuffice(env: Env, c: Cluster)
    requires AllHealthy(env) && Shows(c, false, false, false, false)
    ensures Covers(c, TOP_DOWN) && !Settled(env, RunRounds(env, c, [TOP_DOWN, TOP_DOWN, TOP_DOWN, TOP_DOWN]))
  {
    AnyChainIsCovered(c);
    NewsTravels(env, c, false, false, false, false);
    var r1 := ReconcileAll(env, c, TOP_DOWN);
    NewsTravels(env, r1, true, false, false, false);
    var r2 := ReconcileAll(env, r1, TOP_DOWN);
    NewsTravels(env, r2, true, true, false, false);
    var r3 := ReconcileAll(env, r2, TOP_DOWN);
    NewsTravels(env, r3, true, true, true, false);
    FourRounds(env, c, TOP_DOWN);
    UnpublishedIsUnsettled(env, ReconcileAll(env, r3, TOP_DOWN));
  }

  lemma UnpublishedIsUnsettled(env: Env, c: Cluster)
    requires AllHealthy(env) && Shows(c, true, true, true, true) && c.shares[SAMPLE].status.phase != "Ready"
    ensures !Settled(env, c)
  {
    if Settled(env, c) {
      SettledShare(env, c, SAMPLE);
    }
  }

  lemma FourRounds(env: Env, c: Cluster, round: seq<Request>)
    ensures RunRounds(env, c, [round, round, round, round])
         == ReconcileAll(env, ReconcileAll(env, ReconcileAll(env, ReconcileAll(env, c, round), round), round), round)
  {
    var one, two, three, four := [round], [round, round], [round, round, round], [round, round, round, round];
    assert four[1..] == three && three[1..] == two && two[1..] == one && one[1..] == [];
    var c1 := ReconcileAll(env, c, round);
    var c2 := ReconcileAll(env, c1, round);
    var c3 := ReconcileAll(env, c2, round);
    assert RunRounds(env, c, four) == RunRounds(env, c1, three);
    assert RunRounds(env, c1, three) == RunRounds(env, c2, two);
    assert RunRounds(env, c2, two) == RunRounds(env, c3, one);
    assert RunRounds(env, c3, one) == RunRounds(env, ReconcileAll(env, c3, round), []);
  }

  // ---------------------------------------------------------------- runs

  /** A run in which the outside may answer differently at every step. */
  ghost predicate IsRun(trace: seq<Cluster>, envs: seq<Env>, requests: seq<Request>) {
    && |trace| == |requests| + 1 && |envs| == |requests|
    && forall i | 0 <= i < |requests| :: trace[i + 1] == Reconcile(envs[i], trace[i], requests[i])
  }

  /** No reconcile ever clears a pool's mounted flag, and none empties its member list. */
  lemma {:induction false} MountedSticks(trace: seq<Cluster>, envs: seq<Env>, requests: seq<Request>, i: nat, j: nat, k: Key)
    requires IsRun(trace, envs, requests) && i <= j < |trace| && k in trace[i].pools
    ensures k in trace[j].pools
    ensures trace[i].pools[k].status.mounted ==> trace[j].pools[k].status.mounted
    ensures trace[i].pools[k].status.memberDisks != [] ==> trace[j].pools[k].status.memberDisks != []
    decreases j
  {
    if i < j {
      MountedSticks(trace, envs, requests, i, j - 1, k);
      assert trace[j] == Reconcile(envs[j - 1], trace[j - 1], requests[j - 1]);
    }
  }

  /** At some moment up to the i-th the pool's phase was Ready. */
  ghost predicate WasReady(trace: seq<Cluster>, i: int, k: Key) {
    exists j :: 0 <= j <= i && j < |trace| && k in trace[j].pools && trace[j].pools[k].status.phase == "Ready"
  }

  lemma {:induction false} PoolStepMounts(env: Env, c: Cluster, r: Request, k: Key)
    requires k in c.pools
    ensures var d := Reconcile(env, c, r);
      && k in d.pools
      && (d.pools[k].status.mounted <==> c.pools[k].status.mounted || (d.pools[k] != c.pools[k] && d.pools[k].status.phase == "Ready"))
      && (d.pools[k].status.phase == "Ready" ==> d.pools[k].status.mounted || d.pools[k] == c.pools[k])
  {
  }

  /** In a run from a pool neither mounted nor Ready, the mounted flag tells exactly whether the pool was ever Ready. */
  lemma {:induction false} MountedIffWasReady(trace: seq<Cluster>, envs: seq<Env>, requests: seq<Request>, i: nat, k: Key)
    requires IsRun(trace, envs, requests) && i < |trace| && k in trace[0].pools
    requires !trace[0].pools[k].status.mounted && trace[0].pools[k].status.phase != "Ready"
    ensures k in trace[i].pools
    ensures trace[i].pools[k].status.mounted <==> WasReady(trace, i, k)
    ensures trace[i].pools[k].status.phase == "Ready" ==> trace[i].pools[k].status.mounted
  {
    if i == 0 {
      assert forall j | 0 <= j <= 0 :: trace[j] == trace[0];
    } else {
      MountedIffWasReady(trace, envs, requests, i - 1, k);
      PoolStepMounts(envs[i - 1], trace[i - 1], requests[i - 1], k);
      assert trace[i] == Reconcile(envs[i - 1], trace[i - 1], requests[i - 1]);
      if WasReady(trace, i - 1, k) {
        var j :| 0 <= j <= i - 1 && j < |trace| && k in trace[j].pools && trace[j].pools[k].status.phase == "Ready";
        assert WasReady(trace, i, k);
      }
      if WasReady(trace, i, k) && !WasReady(trace, i - 1, k) {
        var j :| 0 <= j <= i && j < |trace| && k in trace[j].pools && trace[j].pools[k].status.phase == "Ready";
        assert j == i;
      }
    }
  }

  /** A pool that lost its array but was mounted once, and a share on it. */
  function StaleCluster(): Cluster {
    var pool := Pool(PoolSpec("gone", "/mnt/pool"),
                     PoolStatus("Pending", true, 1, 1, ["d"], [Condition("Ready", false, "ArrayNotFound")]));
    var share := Share(ShareSpec("x", "/media", "SMB"),
                       ShareStatus("Ready", true, [], "kubenas-smb-" + "x", "kubenas-smb-" + "x" + "-svc", [Condition("Ready", true, "Published")]));
    Cluster(map[], map[], map[SAMPLE := pool], map[SAMPLE := share])
  }

  /** So a Ready share does not imply a Ready pool, even when everything is settled. */
  lemma {:induction false} ReadyShareOnPendingPool(env: Env)
    requires AgentWorks(env)
    ensures var c := StaleCluster();
      Settled(env, c) && c.shares[SAMPLE].status.phase == "Ready" && c.pools[SAMPLE].status.phase == "Pending"
  {
    var c := StaleCluster();
    assert env.publishOk(SAMPLE);
    forall r
      ensures Reconcile(env, c, r) == c
    {
      if Exists(c, r) {
        match r {
          case PoolRequest(k) =>
            assert PoolStatusStep(env, c, k, c.pools[k]) == c.pools[k].status;
            assert c.pools[k := c.pools[k]] == c.pools;
          case ShareRequest(k) =>
            assert ShareStatusStep(env, c.pools, k, c.shares[k]) == c.shares[k].status;
            assert c.shares[k := c.shares[k]] == c.shares;
        }
      }
    }
  }

  /**
   Settled, a share is Ready on a pool that is not exactly when the pool is not Ready but carries the mounted flag. At the
   end of a run that began with the pool neither mounted nor Ready, that is when the pool was Ready before.
   */
  lemma {:induction false} ReadyShareOnUnreadyPoolIff(env: Env, trace: seq<Cluster>, envs: seq<Env>, requests: seq<Request>, k: Key)
    requires IsRun(trace, envs, requests)
    requires var c := trace[|requests|];
      AgentWorks(env) && Settled(env, c) && k in c.shares && Key(k.namespace, c.shares[k].spec.poolRef) in c.pools
    ensures var c := trace[|requests|]; var pk := Key(k.namespace, c.shares[k].spec.poolRef);
      var outlives := c.shares[k].status.phase == "Ready" && c.pools[pk].status.phase != "Ready";
      && (outlives <==> c.pools[pk].status.mounted && c.pools[pk].status.phase != "Ready")
      && (pk in trace[0].pools && !trace[0].pools[pk].status.mounted && trace[0].pools[pk].status.phase != "Ready" ==>
            (outlives <==> WasReady(trace, |requests|, pk) && c.pools[pk].status.phase != "Ready"))
  {
    var c := trace[|requests|];
    var pk := Key(k.namespace, c.shares[k].spec.poolRef);
    SettledShare(env, c, k);
    if pk in trace[0].pools && !trace[0].pools[pk].status.mounted && trace[0].pools[pk].status.phase != "Ready" {
      MountedIffWasReady(trace, envs, requests, |requests|, pk);
    }
  }

  // ---------------------------------------------------------------- conditions over whole runs

  /** No status written yet, or one condition of type Ready that is True exactly when the phase is Ready. */
  ghost predicate OneReady(conditions: seq<Condition>, ready: bool) {
    conditions == [] || (|conditions| == 1 && conditions[0].kind == "Ready" && conditions[0].status == ready)
  }

  ghost predicate ConditionsMatchPhases(c: Cluster) {
    && (forall n | n in c.disks :: OneReady(c.disks[n].status.conditions, c.disks[n].status.phase == Ready))
    && (forall k | k in c.arrays :: OneReady(c.arrays[k].status.conditions, c.arrays[k].status.phase == ArrayReady))
    && (forall k | k in c.pools :: OneReady(c.pools[k].status.conditions, c.pools[k].status.phase == "Ready"))
    && (forall k | k in c.shares :: OneReady(c.shares[k].status.conditions, c.shares[k].status.phase == "Ready"))
  }

  ghost predicate NoConditions(c: Cluster) {
    && (forall n | n in c.disks :: c.disks[n].status.conditions == [])
    && (forall k | k in c.arrays :: c.arrays[k].status.conditions == [])
    && (forall k | k in c.pools :: c.pools[k].status.conditions == [])
    && (forall k | k in c.shares :: c.shares[k].status.conditions == [])
  }

  lemma {:induction false} SetOnlyReady(conditions: seq<Condition>, before: bool, ready: bool, reason: string)
    requires OneReady(conditions, before)
    ensures SetCondition(conditions, Condition("Ready", ready, reason)) == [Condition("Ready", ready, reason)]
    ensures ReadyPatched(conditions, ready, reason) == [Condition("Ready", ready, reason)]
  {
    if conditions != [] {
      assert conditions[1..] == [];
    }
  }

  /** The conditions of the object a request names, if it exists. */
  function ConditionsOf(c: Cluster, r: Request): seq<Condition>
    requires Exists(c, r)
  {
    match r
    case DiskRequest(n) => c.disks[n].status.conditions
    case ArrayRequest(k) => c.arrays[k].status.conditions
    case PoolRequest(k) => c.pools[k].status.conditions
    case ShareRequest(k) => c.shares[k].status.conditions
  }

  /** This request writes a status rather than only a finalizer. */
  ghost predicate WritesStatus(c: Cluster, r: Request) {
    Exists(c, r) && (r.DiskRequest? ==> !c.disks[r.name].deleting && DISK_FINALIZER in c.disks[r.name].finalizers)
  }

  /** A status write leaves exactly one condition, Ready, telling the phase. */
  ghost predicate JustReady(conditions: seq<Condition>, ready: bool) {
    |conditions| == 1 && OneReady(conditions, ready)
  }

  lemma {:induction false} DiskWriteIsJustReady(env: Env, d: Disk)
    requires OneReady(d.status.conditions, d.status.phase == Ready)
    ensures var st := DiskStatusStep(env, d); JustReady(st.conditions, st.phase == Ready)
  {
    var st, before := DiskStatusStep(env, d), d.status.phase == Ready;
    SetOnlyReady(d.status.conditions, before, st.phase == Ready, "AgentUnavailable");
    SetOnlyReady(d.status.conditions, before, st.phase == Ready, "MountFailed");
    SetOnlyReady(d.status.conditions, before, st.phase == Ready, "Reconciled");
  }

  lemma {:induction false} ArrayWriteIsJustReady(env: Env, disks: map<string, Disk>, k: Key, a: Array)
    requires OneReady(a.status.conditions, a.status.phase == ArrayReady)
    ensures var st := ArrayStatusStep(env, disks, k, a); JustReady(st.conditions, st.phase == ArrayReady)
  {
    forall ready, reason
      ensures JustReady(ReadyPatched(a.status.conditions, ready, reason), ready)
    {
      SetOnlyReady(a.status.conditions, a.status.phase == ArrayReady, ready, reason);
    }
  }

  lemma {:induction false} PoolWriteIsJustReady(env: Env, c: Cluster, k: Key, p: Pool)
    requires OneReady(p.status.conditions, p.status.phase == "Ready")
    ensures var st := PoolStatusStep(env, c, k, p); JustReady(st.conditions, st.phase == "Ready")
  {
    forall ready, reason
      ensures JustReady(ReadyPatched(p.status.conditions, ready, reason), ready)
    {
      SetOnlyReady(p.status.conditions, p.status.phase == "Ready", ready, reason);
    }
  }

  lemma {:induction false} ShareWriteIsJustReady(env: Env, pools: map<Key, Pool>, k: Key, s: Share)
    requires OneReady(s.status.conditions, s.status.phase == "Ready")
    ensures var st := ShareStatusStep(env, pools, k, s); JustReady(st.conditions, st.phase == "Ready")
  {
    forall ready, reason
      ensures JustReady(ReadyPatched(s.status.conditions, ready, reason), ready)
    {
      SetOnlyReady(s.status.conditions, s.status.phase == "Ready", ready, reason);
    }
  }

  lemma {:induction false} StepKeepsConditions(env: Env, c: Cluster, r: Request)
    requires ConditionsMatchPhases(c)
    ensures var d := Reconcile(env, c, r);
      && ConditionsMatchPhases(d)
      && (WritesStatus(c, r) ==> Exists(d, r) && |ConditionsOf(d, r)| == 1)
  {
    if Exists(c, r) {
      match r {
        case DiskRequest(_) => DiskStepKeepsConditions(env, c, r);
        case ArrayRequest(_) => ArrayStepKeepsConditions(env, c, r);
        case PoolRequest(_) => PoolStepKeepsConditions(env, c, r);
        case ShareRequest(_) => ShareStepKeepsConditions(env, c, r);
      }
    }
  }

  /** The conditions of the reconciled object match again, and a status write leaves exactly one. */
  ghost predicate KeepsConditions(env: Env, c: Cluster, r: Request) {
    var d := Reconcile(env, c, r);
    && ConditionsMatchPhases(d)
    && (WritesStatus(c, r) ==> Exists(d, r) && |ConditionsOf(d, r)| == 1)
  }

  lemma DiskStepKeepsConditions(env: Env, c: Cluster, r: Request)
    requires ConditionsMatchPhases(c) && Exists(c, r) && r.DiskRequest?
    ensures KeepsConditions(env, c, r)
  {
    var d := c.disks[r.name];
    DiskWriteIsJustReady(env, d);
    var rest := DiskStep(env, d);
    if rest.Some? {
      assert OneReady(rest.value.status.conditions, rest.value.status.phase == Ready);
      assert Reconcile(env, c, r) == c.(disks := c.disks[r.name := rest.value]);
    } else {
      assert Reconcile(env, c, r) == c.(disks := c.disks - {r.name});
    }
  }

  lemma ArrayStepKeepsConditions(env: Env, c: Cluster, r: Request)
    requires ConditionsMatchPhases(c) && Exists(c, r) && r.ArrayRequest?
    ensures KeepsConditions(env, c, r)
  {
    ArrayWriteIsJustReady(env, c.disks, r.key, c.arrays[r.key]);
  }

  lemma PoolStepKeepsConditions(env: Env, c: Cluster, r: Request)
    requires ConditionsMatchPhases(c) && Exists(c, r) && r.PoolRequest?
    ensures KeepsConditions(env, c, r)
  {
    PoolWriteIsJustReady(env, c, r.key, c.pools[r.key]);
  }

  lemma ShareStepKeepsConditions(env: Env, c: Cluster, r: Request)
    requires ConditionsMatchPhases(c) && Exists(c, r) && r.ShareRequest?
    ensures KeepsConditions(env, c, r)
  {
    ShareWriteIsJustReady(env, c.pools, r.key, c.shares[r.key]);
  }

  /** The object's status was written before the i-th cluster of the run. */
  ghost predicate WasWritten(trace: seq<Cluster>, requests: seq<Request>, s: Request, i: int)
    requires |trace| == |requests| + 1
  {
    exists j :: 0 <= j < i && j < |requests| && requests[j] == s && WritesStatus(trace[j], s)
  }

  /** A reconcile brings no object into being, and leaves the conditions of every object alone whose status it does not write. */
  lemma {:induction false} OthersKeepConditions(env: Env, c: Cluster, r: Request, s: Request)
    requires Exists(Reconcile(env, c, r), s)
    ensures Exists(c, s)
    ensures r != s || !WritesStatus(c, s) ==> ConditionsOf(Reconcile(env, c, r), s) == ConditionsOf(c, s)
  {
  }

  /**
   In every run from empty conditions an object has no condition until its first status write and exactly one ever
   after: type Ready, True exactly when the phase is Ready.
   */
  lemma {:induction false} RunsKeepConditions(trace: seq<Cluster>, envs: seq<Env>, requests: seq<Request>, i: nat)
    requires IsRun(trace, envs, requests) && NoConditions(trace[0]) && i < |trace|
    ensures ConditionsMatchPhases(trace[i])
    ensures forall s | Exists(trace[i], s) :: |ConditionsOf(trace[i], s)| == if WasWritten(trace, requests, s, i) then 1 else 0
    decreases i
  {
    if i > 0 {
      RunsKeepConditions(trace, envs, requests, i - 1);
      var env, c, r := envs[i - 1], trace[i - 1], requests[i - 1];
      assert trace[i] == Reconcile(env, c, r);
      StepKeepsConditions(env, c, r);
      forall s | Exists(trace[i], s)
        ensures |ConditionsOf(trace[i], s)| == if WasWritten(trace, requests, s, i) then 1 else 0
      {
        OthersKeepConditions(env, c, r, s);
        WrittenGrows(trace, requests, s, i);
      }
    }
  }

  lemma WrittenGrows(trace: seq<Cluster>, requests: seq<Request>, s: Request, i: nat)
    requires |trace| == |requests| + 1 && 0 < i <= |requests|
    ensures WasWritten(trace, requests, s, i)
       <==> WasWritten(trace, requests, s, i - 1) || (requests[i - 1] == s && WritesStatus(trace[i - 1], s))
  {
    if WasWritten(trace, requests, s, i) {
      var j :| 0 <= j < i && j < |requests| && requests[j] == s && WritesStatus(trace[j], s);
      assert j < i - 1 ==> WasWritten(trace, requests, s, i - 1);
    }
  }
}
