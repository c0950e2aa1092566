/**
 The Disk, Array, Pool and Share reconcilers as functions of the cluster, and what whole runs of them do.
 API reads and writes succeed here; Controllers has the failing writes.
 */
module Cascade {
  import opened Wrappers
  import opened Conditions
  import opened Api

  const DISK_FINALIZER := "storage.kubenas.io/disk-protection"

  datatype Key = Key(namespace: string, name: string)

  datatype Cluster = Cluster(disks: map<string, Disk>, arrays: map<Key, Array>, pools: map<Key, Pool>, shares: map<Key, Share>)

  /** What the calls out of the operator answer. */
  datatype Env = Env(
    report: (string, string) -> Result<AgentReport>, // disk status of a node's device
    mountOk: string -> bool,                         // mounting a disk
    snapraidOk: Key -> bool,                         // pushing an array's SnapRAID configuration
    mergerfsOk: Key -> bool,                         // mounting a pool
    publishOk: Key -> bool)                          // creating a share's ConfigMap, Pod and Service

  // ---------------------------------------------------------------- Disk

  function RemoveString(items: seq<string>, s: string): seq<string> {
    if items == [] then []
    else RemoveString(items[..|items| - 1], s) + (if items[|items| - 1] != s then [items[|items| - 1]] else [])
  }

  lemma {:induction false} RemoveStringRemoves(items: seq<string>, s: string)
    ensures s !in RemoveString(items, s)
    ensures s !in items ==> RemoveString(items, s) == items
  {
    if items != [] {
      RemoveStringRemoves(items[..|items| - 1], s);
      assert items == items[..|items| - 1] + [items[|items| - 1]];
    }
  }

  /** Everything else stays, in order. */
  lemma {:induction false} RemoveStringKeepsOrder(before: seq<string>, x: string, after: seq<string>, s: string)
    ensures RemoveString(before + [x] + after, s) == RemoveString(before, s) + (if x == s then [] else [x]) + RemoveString(after, s)
  {
    var all := before + [x] + after;
    if after == [] {
      assert all[..|all| - 1] == before && all[|all| - 1] == x;
    } else {
      var init, last := after[..|after| - 1], after[|after| - 1];
      RemoveStringKeepsOrder(before, x, init, s);
      assert all[..|all| - 1] == before + [x] + init && all[|all| - 1] == last;
    }
  }

  function WithDiskPhase(st: DiskStatus, phase: DiskPhase, reason: string): DiskStatus {
    st.(phase := phase, conditions := SetCondition(st.conditions, Condition("Ready", phase == Ready, reason)))
  }

  /** The status fields copied from an agent report. */
  function Observed(st: DiskStatus, r: AgentReport): DiskStatus {
    st.(capacity := r.capacity, available := r.available, health := r.health, summary := r.summary,
        serial := r.serial, model := r.model, rotational := r.rotational, mounted := r.mounted)
  }

  function DiskStatusStep(env: Env, d: Disk): DiskStatus {
    match env.report(d.spec.node, d.spec.device)
    case Failure(_) => WithDiskPhase(d.status, Degraded, "AgentUnavailable")
    case Success(r) =>
      var target := ComputePhase(r);
      if !r.mounted && target == Ready then
        if env.mountOk(d.name) then WithDiskPhase(Observed(d.status, r).(mounted := true), Ready, "Reconciled")
        else WithDiskPhase(Observed(d.status, r), Degraded, "MountFailed")
      else WithDiskPhase(Observed(d.status, r), target, "Reconciled")
  }

  /** A deleting disk loses the finalizer, and disappears with its last one; a new disk gains it first. */
  function DiskStep(env: Env, d: Disk): Option<Disk> {
    if d.deleting then
      var rest := RemoveString(d.finalizers, DISK_FINALIZER);
      if rest == [] then None else Some(d.(finalizers := rest))
    else if DISK_FINALIZER !in d.finalizers then Some(d.(finalizers := d.finalizers + [DISK_FINALIZER]))
    else Some(d.(status := DiskStatusStep(env, d)))
  }

  // ---------------------------------------------------------------- Array

  predicate AllFound(disks: map<string, Disk>, names: seq<string>) {
    forall n | n in names :: n in disks
  }

  function Lookup(disks: map<string, Disk>, names: seq<string>): seq<Disk>
    requires AllFound(disks, names)
  {
    seq(|names|, i requires 0 <= i < |names| => disks[names[i]])
  }

  predicate Unhealthy(d: Disk) {
    d.status.phase == Degraded || d.status.phase == Failed
  }

  function UnhealthyNames(disks: seq<Disk>): seq<string> {
    if disks == [] then []
    else
      var last := disks[|disks| - 1];
      UnhealthyNames(disks[..|disks| - 1]) + (if Unhealthy(last) then [last.name] else [])
  }

  function WithArrayPhase(st: ArrayStatus, phase: ArrayPhase, reason: string): ArrayStatus {
    st.(phase := phase, conditions := ReadyPatched(st.conditions, phase == ArrayReady, reason))
  }

  function ArrayStatusStep(env: Env, disks: map<string, Disk>, key: Key, a: Array): ArrayStatus {
    if !AllFound(disks, a.spec.dataDisks) then WithArrayPhase(a.status, ArrayPending, "DiskRefError")
    else if !AllFound(disks, a.spec.parityDisks) then WithArrayPhase(a.status, ArrayPending, "ParityDiskRefError")
    else
      var unhealthy := UnhealthyNames(Lookup(disks, a.spec.dataDisks) + Lookup(disks, a.spec.parityDisks));
      var st := a.status.(degradedDisks := unhealthy);
      if a.spec.dataDisks != [] && !env.snapraidOk(key) then WithArrayPhase(st, ArrayDegraded, "SnapraidConfigError")
      else WithArrayPhase(st, if unhealthy == [] then ArrayReady else ArrayDegraded, "Reconciled")
  }

  // ---------------------------------------------------------------- Pool

  predicate IsBranch(disks: map<string, Disk>, name: string) {
    name in disks && disks[name].status.mounted && disks[name].status.phase == Ready
  }

  /** The listed disks that are mounted and Ready, in order. */
  function Branches(disks: map<string, Disk>, names: seq<string>): (bs: seq<string>)
    ensures forall n | n in bs :: n in names && IsBranch(disks, n)
  {
    if names == [] then []
    else
      assert names == names[..|names| - 1] + [names[|names| - 1]];
      Branches(disks, names[..|names| - 1]) + (if IsBranch(disks, names[|names| - 1]) then [names[|names| - 1]] else [])
  }

  function TotalOf(amount: string -> int, names: seq<string>): int {
    if names == [] then 0 else TotalOf(amount, names[..|names| - 1]) + amount(names[|names| - 1])
  }

  function CapacityIn(disks: map<string, Disk>): string -> int {
    n => if n in disks then disks[n].status.capacity else 0
  }

  function AvailableIn(disks: map<string, Disk>): string -> int {
    n => if n in disks then disks[n].status.available else 0
  }

  function WithPoolPhase(st: PoolStatus, phase: string, reason: string): PoolStatus {
    st.(phase := phase, conditions := ReadyPatched(st.conditions, phase == "Ready", reason))
  }

  function PoolStatusStep(env: Env, c: Cluster, key: Key, p: Pool): PoolStatus {
    var arrayKey := Key(key.namespace, p.spec.arrayRef);
    if arrayKey !in c.arrays then WithPoolPhase(p.status, "Pending", "ArrayNotFound")
    else if c.arrays[arrayKey].status.phase != ArrayReady then WithPoolPhase(p.status, "Pending", "ArrayNotReady")
    else
      var names := Branches(c.disks, c.arrays[arrayKey].spec.dataDisks);
      if names == [] then WithPoolPhase(p.status, "Pending", "NoBranchesReady")
      else if !env.mergerfsOk(key) then WithPoolPhase(p.status, "Degraded", "MountError")
      else
        var st := p.status.(totalBytes := TotalOf(CapacityIn(c.disks), names),
                            availableBytes := TotalOf(AvailableIn(c.disks), names),
                            memberDisks := names, mounted := true);
        WithPoolPhase(st, "Ready", "Reconciled")
  }

  // ---------------------------------------------------------------- Share

  function WithSharePhase(st: ShareStatus, phase: string, reason: string): ShareStatus {
    st.(phase := phase, conditions := ReadyPatched(st.conditions, phase == "Ready", reason),
        published := st.published && phase == "Ready")
  }

  function ObjectPrefix(protocol: string): string {
    if protocol == "SMB" then "kubenas-smb-" else "kubenas-nfs-"
  }

  function ShareStatusStep(env: Env, pools: map<Key, Pool>, key: Key, s: Share): ShareStatus {
    var poolKey := Key(key.namespace, s.spec.poolRef);
    if poolKey !in pools then WithSharePhase(s.status, "Pending", "PoolNotFound")
    else if !pools[poolKey].status.mounted then WithSharePhase(s.status, "Pending", "PoolNotMounted")
    else
      var st := s.status.(effectiveSubjects := []);
      if s.spec.protocol != "SMB" && s.spec.protocol != "NFS" then
        WithSharePhase(st.(published := true), "Ready", "Published")
      else if !env.publishOk(key) then WithSharePhase(st, "Degraded", "DataPlaneError")
      else
        var name := ObjectPrefix(s.spec.protocol) + key.name;
        WithSharePhase(st.(podName := name, serviceName := name + "-svc", published := true), "Ready", "Published")
  }

  // ---------------------------------------------------------------- the four together

  datatype Request = DiskRequest(name: string) | ArrayRequest(key: Key) | PoolRequest(key: Key) | ShareRequest(key: Key)

  predicate Exists(c: Cluster, r: Request) {
    match r
    case DiskRequest(n) => n in c.disks
    case ArrayRequest(k) => k in c.arrays
    case PoolRequest(k) => k in c.pools
    case ShareRequest(k) => k in c.shares
  }

  /** One reconcile request; an absent object is left alone. */
  function Reconcile(env: Env, c: Cluster, r: Request): Cluster {
    if !Exists(c, r) then c
    else
      match r
      case DiskRequest(n) =>
        (match DiskStep(env, c.disks[n])
         case Some(d) => c.(disks := c.disks[n := d])
         case None => c.(disks := c.disks - {n}))
      case ArrayRequest(k) =>
        c.(arrays := c.arrays[k := c.arrays[k].(status := ArrayStatusStep(env, c.disks, k, c.arrays[k]))])
      case PoolRequest(k) =>
        c.(pools := c.pools[k := c.pools[k].(status := PoolStatusStep(env, c, k, c.pools[k]))])
      case ShareRequest(k) =>
        c.(shares := c.shares[k := c.shares[k].(status := ShareStatusStep(env, c.pools, k, c.shares[k]))])
  }

  function ReconcileAll(env: Env, c: Cluster, requests: seq<Request>): Cluster
    decreases |requests|
  {
    if requests == [] then c else ReconcileAll(env, Reconcile(env, c, requests[0]), requests[1..])
  }

  /** No reconcile changes anything. */
  ghost predicate Settled(env: Env, c: Cluster) {
    forall r :: Reconcile(env, c, r) == c
  }

  lemma {:induction false} SettledStays(env: Env, c: Cluster, requests: seq<Request>)
    requires Settled(env, c)
    ensures ReconcileAll(env, c, requests) == c
  {
    if requests != [] {
      assert Reconcile(env, c, requests[0]) == c;
      SettledStays(env, c, requests[1..]);
    }
  }

  // ---------------------------------------------------------------- convergence

  /** The finalizer work of this disk is over. */
  predicate Prepared(d: Disk) {
    if d.deleting then DISK_FINALIZER !in d.finalizers && d.finalizers != [] else DISK_FINALIZER in d.finalizers
  }

  function Layer(r: Request): nat {
    match r
    case DiskRequest(_) => 1
    case ArrayRequest(_) => 2
    case PoolRequest(_) => 3
    case ShareRequest(_) => 4
  }

  /** What stage k adds for one object: first prepared disks, then fixed disks, arrays, pools, shares. */
  ghost predicate Goal(env: Env, c: Cluster, r: Request, k: nat) {
    if k == 0 then r.DiskRequest? && r.name in c.disks ==> Prepared(c.disks[r.name])
    else Layer(r) == k ==> Reconcile(env, c, r) == c
  }

  ghost predicate Stage(env: Env, c: Cluster, k: nat) {
    forall j: nat, r | j < k :: Goal(env, c, r, j)
  }

  lemma {:induction false} DiskStepPrepares(env: Env, d: Disk)
    ensures var e := DiskStep(env, d); e.Some? ==> Prepared(e.value)
  {
    RemoveStringRemoves(d.finalizers, DISK_FINALIZER);
  }

  lemma {:induction false} DiskStepTwice(env: Env, d: Disk)
    requires Prepared(d)
    ensures DiskStep(env, d).Some?
    ensures DiskStep(env, DiskStep(env, d).value) == DiskStep(env, d)
  {
    RemoveStringRemoves(d.finalizers, DISK_FINALIZER);
    if !d.deleting {
      var reason := match env.report(d.spec.node, d.spec.device)
        case Failure(_) => "AgentUnavailable"
        case Success(r) => if !r.mounted && ComputePhase(r) == Ready && !env.mountOk(d.name) then "MountFailed" else "Reconciled";
      SetTwice(d.status.conditions, Condition("Ready", DiskStatusStep(env, d).phase == Ready, reason));
    }
  }

  lemma {:induction false} ArrayStepTwice(env: Env, disks: map<string, Disk>, key: Key, a: Array)
    ensures var once := a.(status := ArrayStatusStep(env, disks, key, a));
      ArrayStatusStep(env, disks, key, once) == once.status
  {
    var st := ArrayStatusStep(env, disks, key, a);
    var reason := if !AllFound(disks, a.spec.dataDisks) then "DiskRefError"
                  else if !AllFound(disks, a.spec.parityDisks) then "ParityDiskRefError"
                  else if a.spec.dataDisks != [] && !env.snapraidOk(key) then "SnapraidConfigError"
                  else "Reconciled";
    PatchTwice(a.status.conditions, st.phase == ArrayReady, reason);
  }

  lemma PoolPhaseTwice(st: PoolStatus, phase: string, reason: string)
    ensures WithPoolPhase(WithPoolPhase(st, phase, reason), phase, reason) == WithPoolPhase(st, phase, reason)
  {
    PatchTwice(st.conditions, phase == "Ready", reason);
  }

  lemma {:induction false} PoolStepTwice(env: Env, c: Cluster, key: Key, p: Pool)
    ensures var once := p.(status := PoolStatusStep(env, c, key, p));
      PoolStatusStep(env, c, key, once) == once.status
  {
    var arrayKey := Key(key.namespace, p.spec.arrayRef);
    if arrayKey !in c.arrays {
      PoolPhaseTwice(p.status, "Pending", "ArrayNotFound");
    } else if c.arrays[arrayKey].status.phase != ArrayReady {
      PoolPhaseTwice(p.status, "Pending", "ArrayNotReady");
    } else {
      var names := Branches(c.disks, c.arrays[arrayKey].spec.dataDisks);
      if names == [] {
        PoolPhaseTwice(p.status, "Pending", "NoBranchesReady");
      } else if !env.mergerfsOk(key) {
        PoolPhaseTwice(p.status, "Degraded", "MountError");
      } else {
        PatchTwice(p.status.conditions, true, "Reconciled");
      }
    }
  }

  lemma SharePhaseTwice(st: ShareStatus, phase: string, reason: string)
    ensures WithSharePhase(WithSharePhase(st, phase, reason), phase, reason) == WithSharePhase(st, phase, reason)
  {
    PatchTwice(st.conditions, phase == "Ready", reason);
  }

  lemma {:induction false} ShareStepTwice(env: Env, pools: map<Key, Pool>, key: Key, s: Share)
    ensures var once := s.(status := ShareStatusStep(env, pools, key, s));
      ShareStatusStep(env, pools, key, once) == once.status
  {
    var poolKey := Key(key.namespace, s.spec.poolRef);
    if poolKey !in pools {
      SharePhaseTwice(s.status, "Pending", "PoolNotFound");
    } else if !pools[poolKey].status.mounted {
      SharePhaseTwice(s.status, "Pending", "PoolNotMounted");
    } else if (s.spec.protocol == "SMB" || s.spec.protocol == "NFS") && !env.publishOk(key) {
      SharePhaseTwice(s.status.(effectiveSubjects := []), "Degraded", "DataPlaneError");
    } else {
      PatchTwice(s.status.conditions, true, "Published");
    }
  }

  /** Reconciling an object whose inputs are final makes that object final. */
  lemma {:induction false} GoalReached(env: Env, c: Cluster, r: Request, k: nat)
    requires Stage(env, c, k)
    ensures Goal(env, Reconcile(env, c, r), r, k)
  {
    if Exists(c, r) && (k == 0 || Layer(r) == k) {
      match r {
        case DiskRequest(n) =>
          DiskStepPrepares(env, c.disks[n]);
          if k == 1 {
            assert Goal(env, c, r, 0);
            DiskStepTwice(env, c.disks[n]);
          }
        case ArrayRequest(a) => ArrayStepTwice(env, c.disks, a, c.arrays[a]);
        case PoolRequest(p) => PoolStepTwice(env, c, p, c.pools[p]); SamePoolInputs(env, c, Reconcile(env, c, r), p);
        case ShareRequest(s) => ShareStepTwice(env, c.pools, s, c.shares[s]);
      }
    }
  }

  lemma SamePoolInputs(env: Env, c: Cluster, d: Cluster, key: Key)
    requires d.disks == c.disks && d.arrays == c.arrays && key in d.pools
    ensures PoolStatusStep(env, d, key, d.pools[key]) == PoolStatusStep(env, c, key, d.pools[key])
  {
  }

  /** Reconciling another object of the same or a higher layer does not disturb a final object. */
  lemma {:induction false} OthersDoNotDisturb(env: Env, c: Cluster, r: Request, s: Request)
    requires r != s && Layer(r) >= Layer(s) && Reconcile(env, c, s) == c
    ensures var d := Reconcile(env, c, r); Reconcile(env, d, s) == d
  {
    var d := Reconcile(env, c, r);
    if Exists(c, s) {
      match s {
        case DiskRequest(n) =>
          assert n in Reconcile(env, c, s).disks;
          assert Reconcile(env, c, s).disks[n] == c.disks[n] == d.disks[n];
          assert d.disks[n := d.disks[n]] == d.disks;
        case ArrayRequest(k) =>
          assert Reconcile(env, c, s).arrays[k] == c.arrays[k] == d.arrays[k];
          assert d.arrays[k := d.arrays[k]] == d.arrays;
        case PoolRequest(k) =>
          assert Reconcile(env, c, s).pools[k] == c.pools[k] == d.pools[k];
          SamePoolInputs(env, c, d, k);
          assert d.pools[k := d.pools[k]] == d.pools;
        case ShareRequest(k) =>
          assert Reconcile(env, c, s).shares[k] == c.shares[k] == d.shares[k];
          assert d.shares[k := d.shares[k]] == d.shares;
      }
    }
  }

  /** A final object stays final whatever is reconciled next. */
  lemma {:induction false} GoalKept(env: Env, c: Cluster, r: Request, s: Request, k: nat)
    requires Stage(env, c, k) && Goal(env, c, s, k)
    ensures Goal(env, Reconcile(env, c, r), s, k)
  {
    if r == s {
      GoalReached(env, c, r, k);
    } else if k > 0 {
      if Layer(r) < k {
        assert Goal(env, c, r, Layer(r));
      } else if Layer(s) == k {
        OthersDoNotDisturb(env, c, r, s);
      }
    }
  }

  lemma {:induction false} StageKept(env: Env, c: Cluster, r: Request, k: nat)
    requires Stage(env, c, k)
    ensures Stage(env, Reconcile(env, c, r), k)
  {
    forall j: nat, s | j < k
      ensures Goal(env, Reconcile(env, c, r), s, j)
    {
      assert Goal(env, c, s, j);
      GoalKept(env, c, r, s, j);
    }
  }

  lemma {:induction false} RunReaches(env: Env, c: Cluster, requests: seq<Request>, s: Request, k: nat)
    requires Stage(env, c, k) && (s in requests || Goal(env, c, s, k))
    ensures Stage(env, ReconcileAll(env, c, requests), k) && Goal(env, ReconcileAll(env, c, requests), s, k)
    decreases |requests|
  {
    if requests != [] {
      var r := requests[0];
      StageKept(env, c, r, k);
      if r == s { GoalReached(env, c, r, k); } else if s !in requests[1..] { GoalKept(env, c, r, s, k); }
      RunReaches(env, Reconcile(env, c, r), requests[1..], s, k);
    }
  }

  /** Every object of c is reconciled at least once, in any order. */
  ghost predicate Covers(c: Cluster, requests: seq<Request>) {
    forall r | Exists(c, r) :: r in requests
  }

  lemma {:induction false} NothingAppears(env: Env, c: Cluster, requests: seq<Request>, r: Request)
    requires Exists(ReconcileAll(env, c, requests), r)
    ensures Exists(c, r)
    decreases |requests|
  {
    if requests != [] {
      NothingAppears(env, Reconcile(env, c, requests[0]), requests[1..], r);
    }
  }

  /** A round carries the cluster one stage further. */
  lemma {:induction false} RoundAdvances(env: Env, c: Cluster, round: seq<Request>, k: nat)
    requires Stage(env, c, k) && Covers(c, round)
    ensures Stage(env, ReconcileAll(env, c, round), k + 1)
  {
    var d := ReconcileAll(env, c, round);
    StageKeptByRun(env, c, round, k);
    forall j: nat, s | j < k + 1
      ensures Goal(env, d, s, j)
    {
      if j == k {
        if s in round {
          RunReaches(env, c, round, s, k);
        } else if Exists(d, s) {
          NothingAppears(env, c, round, s);
        }
      }
    }
  }

  lemma {:induction false} StageKeptByRun(env: Env, c: Cluster, requests: seq<Request>, k: nat)
    requires Stage(env, c, k)
    ensures Stage(env, ReconcileAll(env, c, requests), k)
    decreases |requests|
  {
    if requests != [] {
      StageKept(env, c, requests[0], k);
      StageKeptByRun(env, Reconcile(env, c, requests[0]), requests[1..], k);
    }
  }

  lemma {:induction false} LastStageSettles(env: Env, c: Cluster)
    requires Stage(env, c, 5)
    ensures Settled(env, c)
  {
    forall r
      ensures Reconcile(env, c, r) == c
    {
      assert Goal(env, c, r, Layer(r));
    }
  }

  /**
   Whatever the cluster looks like and however the outside calls answer, as long as they keep answering the same,
   five rounds settle every status, and no later reconcile in any order changes anything.
   */
  lemma {:induction false} FiveRoundsSettle(env: Env, c0: Cluster, rounds: seq<seq<Request>>, later: seq<Request>)
    requires |rounds| == 5 && forall i | 0 <= i < 5 :: Covers(c0, rounds[i])
    ensures var c5 := RunRounds(env, c0, rounds);
      Settled(env, c5) && ReconcileAll(env, c5, later) == c5
  {
    RoundsAdvance(env, c0, rounds, 0);
    LastStageSettles(env, RunRounds(env, c0, rounds));
    SettledStays(env, RunRounds(env, c0, rounds), later);
  }

  function RunRounds(env: Env, c: Cluster, rounds: seq<seq<Request>>): Cluster
    decreases |rounds|
  {
    if rounds == [] then c else RunRounds(env, ReconcileAll(env, c, rounds[0]), rounds[1..])
  }

  lemma {:induction false} RoundsAdvance(env: Env, c: Cluster, rounds: seq<seq<Request>>, k: nat)
    requires Stage(env, c, k) && forall i | 0 <= i < |rounds| :: Covers(c, rounds[i])
    ensures Stage(env, RunRounds(env, c, rounds), k + |rounds|)
    decreases |rounds|
  {
    if rounds != [] {
      var d := ReconcileAll(env, c, rounds[0]);
      RoundAdvances(env, c, rounds[0], k);
      forall i | 0 <= i < |rounds[1..]|
        ensures Covers(d, rounds[1..][i])
      {
        assert Covers(c, rounds[i + 1]);
        forall r | Exists(d, r)
          ensures r in rounds[1..][i]
        {
          NothingAppears(env, c, rounds[0], r);
        }
      }
      RoundsAdvance(env, d, rounds[1..], k + 1);
    }
  }
}
