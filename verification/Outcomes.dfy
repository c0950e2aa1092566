/** What one reconcile leaves, for any cluster and any answers from outside, told from the inputs alone. */
module Outcomes {
  import opened Wrappers
  import opened Conditions
  import opened Api
  import opened Cascade
  import S = Settled

  // ---------------------------------------------------------------- disks

  /** A disk being deleted loses the finalizer and disappears exactly when it has no other; nothing else of it changes. */
  lemma {:induction false} DeletedDisk(env: Env, c: Cluster, n: string)
    requires n in c.disks && c.disks[n].deleting
    ensures var e, d := Reconcile(env, c, DiskRequest(n)), c.disks[n];
      && (n in e.disks <==> exists f :: f in d.finalizers && f != "storage.kubenas.io/disk-protection")
      && (n in e.disks ==> e.disks[n].finalizers == RemoveString(d.finalizers, "storage.kubenas.io/disk-protection")
                           && e.disks[n].status == d.status && e.disks[n].spec == d.spec)
      && e.disks - {n} == c.disks - {n}
  {
    RemovesAllBut(c.disks[n].finalizers, DISK_FINALIZER);
  }

  lemma {:induction false} RemovesAllBut(items: seq<string>, s: string)
    ensures RemoveString(items, s) != [] <==> exists f :: f in items && f != s
  {
    if items != [] {
      var init, last := items[..|items| - 1], items[|items| - 1];
      RemovesAllBut(init, s);
      assert items == init + [last];
      assert forall f :: f in items <==> f in init || f == last;
      assert RemoveString(items, s) == RemoveString(init, s) + if last != s then [last] else [];
      if last == s {
        assert RemoveString(items, s) == RemoveString(init, s);
      } else {
        assert last in items;
      }
    }
  }

  /** A new disk only gets the finalizer. */
  lemma {:induction false} NewDisk(env: Env, c: Cluster, n: string)
    requires n in c.disks && !c.disks[n].deleting && "storage.kubenas.io/disk-protection" !in c.disks[n].finalizers
    ensures var d := c.disks[n];
      Reconcile(env, c, DiskRequest(n)) == c.(disks := c.disks[n := d.(finalizers := d.finalizers + ["storage.kubenas.io/disk-protection"])])
  {
  }

  ghost predicate IsManaged(c: Cluster, n: string) {
    n in c.disks && !c.disks[n].deleting && "storage.kubenas.io/disk-protection" in c.disks[n].finalizers
  }

  /** Without a report a disk is Degraded and otherwise keeps what was known of it. */
  lemma {:induction false} UnreportedDisk(env: Env, c: Cluster, n: string)
    requires IsManaged(c, n) && env.report(c.disks[n].spec.node, c.disks[n].spec.device).Failure?
    ensures var d := c.disks[n];
      Reconcile(env, c, DiskRequest(n))
      == c.(disks := c.disks[n := d.(status := d.status.(phase := Degraded,
              conditions := SetCondition(d.status.conditions, Condition("Ready", false, "AgentUnavailable"))))])
  {
  }

  /**
   With a report a disk is Failed exactly when SMART failed; Ready exactly when SMART passed, the health score is at least
   0.3, there are no I/O errors, and it is mounted or the requested mount works; Degraded otherwise. All reported fields are
   taken over, and the mounted flag is set besides exactly if the mount was requested and worked.
   */
  lemma {:induction false} ReportedDisk(env: Env, c: Cluster, n: string)
    requires IsManaged(c, n) && env.report(c.disks[n].spec.node, c.disks[n].spec.device).Success?
    ensures var d := c.disks[n]; var r := env.report(d.spec.node, d.spec.device).value;
      var e := Reconcile(env, c, DiskRequest(n));
      && n in e.disks && e == c.(disks := c.disks[n := e.disks[n]]) && e.disks[n] == d.(status := e.disks[n].status)
      && var st, healthy := e.disks[n].status, !r.smartFailed && r.health >= 0.3 && r.ioErrors <= 0;
         && st.capacity == r.capacity && st.available == r.available && st.health == r.health && st.summary == r.summary
         && st.serial == r.serial && st.model == r.model && st.rotational == r.rotational
         && (st.phase == Failed <==> r.smartFailed)
         && (st.phase == Ready <==> healthy && (r.mounted || env.mountOk(d.name)))
         && (st.phase == Degraded <==> !r.smartFailed && !(healthy && (r.mounted || env.mountOk(d.name))))
         && (st.mounted <==> r.mounted || (healthy && env.mountOk(d.name)))
         && st.conditions == SetCondition(d.status.conditions, Condition("Ready", st.phase == Ready,
              if healthy && !r.mounted && !env.mountOk(d.name) then "MountFailed" else "Reconciled"))
  {
  }

  /** A device the agent never reported passes for a healthy, empty, unmounted one: its mount decides between Ready and Degraded. */
  lemma {:induction false} UndiscoveredDisk(env: Env, c: Cluster, n: string)
    requires IsManaged(c, n) && env.report(c.disks[n].spec.node, c.disks[n].spec.device) == Success(HEALTHY_DEFAULT)
    ensures var st := Reconcile(env, c, DiskRequest(n)).disks[n].status;
      && st.health == 1.0 && st.capacity == 0 && st.available == 0 && st.serial == "" && st.model == "" && st.summary == ""
      && !st.rotational
      && st.phase == (if env.mountOk(c.disks[n].name) then Ready else Degraded)
      && st.mounted == env.mountOk(c.disks[n].name)
  {
  }

  // ---------------------------------------------------------------- arrays

  ghost predicate Resolves(c: Cluster, spec: ArraySpec) {
    forall n | n in spec.dataDisks || n in spec.parityDisks :: n in c.disks
  }

  predicate IsBad(c: Cluster, n: string) {
    n in c.disks && (c.disks[n].status.phase == Degraded || c.disks[n].status.phase == Failed)
  }

  /** The degraded list is made name by name, in order: each disk whose phase is Degraded or Failed adds its name. */
  lemma {:induction false} UnhealthyInOrder(before: seq<Disk>, d: Disk, after: seq<Disk>)
    ensures UnhealthyNames([]) == []
    ensures UnhealthyNames(before + [d] + after)
         == UnhealthyNames(before) + (if d.status.phase == Degraded || d.status.phase == Failed then [d.name] else []) + UnhealthyNames(after)
  {
    var all := before + [d] + after;
    if after == [] {
      assert all[..|all| - 1] == before && all[|all| - 1] == d;
    } else {
      var init, last := after[..|after| - 1], after[|after| - 1];
      UnhealthyInOrder(before, d, init);
      assert all[..|all| - 1] == before + [d] + init && all[|all| - 1] == last;
    }
  }

  lemma {:induction false} NoneListedIff(c: Cluster, names: seq<string>)
    requires AllFound(c.disks, names)
    ensures UnhealthyNames(Lookup(c.disks, names)) == [] <==> forall n | n in names :: !IsBad(c, n)
  {
    if names != [] {
      var init, last := names[..|names| - 1], names[|names| - 1];
      assert names == init + [last];
      assert Lookup(c.disks, names)[..|names| - 1] == Lookup(c.disks, init);
      NoneListedIff(c, init);
    }
  }

  /**
   An array is Pending exactly when a reference does not resolve; Ready exactly when all resolve, no referenced disk is
   Degraded or Failed and, if it lists data disks, its SnapRAID configuration could be pushed; Degraded otherwise.
   */
  lemma {:induction false} ReconciledArray(env: Env, c: Cluster, k: Key)
    requires k in c.arrays
    ensures var a, e := c.arrays[k], Reconcile(env, c, ArrayRequest(k));
      && k in e.arrays && e == c.(arrays := c.arrays[k := e.arrays[k]]) && e.arrays[k].spec == a.spec
      && var st, names := e.arrays[k].status, a.spec.dataDisks + a.spec.parityDisks;
         var pushed, bad := a.spec.dataDisks == [] || env.snapraidOk(k), exists n :: n in names && IsBad(c, n);
         && (st.phase == ArrayPending <==> !Resolves(c, a.spec))
         && (st.phase == ArrayReady <==> Resolves(c, a.spec) && !bad && pushed)
         && (st.phase == ArrayDegraded <==> Resolves(c, a.spec) && (bad || !pushed))
         && (!Resolves(c, a.spec) ==> st.degradedDisks == a.status.degradedDisks)
         && (Resolves(c, a.spec) ==> AllFound(c.disks, names) && st.degradedDisks == UnhealthyNames(Lookup(c.disks, names)))
         && st.conditions == ReadyPatched(a.status.conditions, st.phase == ArrayReady,
              if exists n :: n in a.spec.dataDisks && n !in c.disks then "DiskRefError"
              else if !Resolves(c, a.spec) then "ParityDiskRefError"
              else if !pushed then "SnapraidConfigError"
              else "Reconciled")
  {
    var a := c.arrays[k];
    var names := a.spec.dataDisks + a.spec.parityDisks;
    assert Resolves(c, a.spec) <==> AllFound(c.disks, a.spec.dataDisks) && AllFound(c.disks, a.spec.parityDisks);
    if Resolves(c, a.spec) {
      assert AllFound(c.disks, names);
      assert Lookup(c.disks, names) == Lookup(c.disks, a.spec.dataDisks) + Lookup(c.disks, a.spec.parityDisks);
      NoneListedIff(c, names);
    }
  }

  // ---------------------------------------------------------------- pools

  /** The disk exists, is mounted and is Ready. */
  predicate IsUsable(c: Cluster, n: string) {
    n in c.disks && c.disks[n].status.mounted && c.disks[n].status.phase == Ready
  }

  /** Members are found name by name, in order. */
  lemma {:induction false} BranchesInOrder(disks: map<string, Disk>, before: seq<string>, n: string, after: seq<string>)
    ensures Branches(disks, before + [n] + after)
         == Branches(disks, before)
            + (if n in disks && disks[n].status.mounted && disks[n].status.phase == Ready then [n] else [])
            + Branches(disks, after)
  {
    var all := before + [n] + after;
    if after == [] {
      assert all[..|all| - 1] == before && all[|all| - 1] == n;
    } else {
      var init, last := after[..|after| - 1], after[|after| - 1];
      BranchesInOrder(disks, before, n, init);
      assert all[..|all| - 1] == before + [n] + init && all[|all| - 1] == last;
    }
  }

  /** Every occurrence counts once in a total. */
  lemma {:induction false} TotalsAdd(amount: string -> int, before: seq<string>, n: string, after: seq<string>)
    ensures TotalOf(amount, []) == 0
    ensures TotalOf(amount, before + [n] + after) == TotalOf(amount, before) + amount(n) + TotalOf(amount, after)
  {
    var all := before + [n] + after;
    if after == [] {
      assert all[..|all| - 1] == before && all[|all| - 1] == n;
    } else {
      var init, last := after[..|after| - 1], after[|after| - 1];
      TotalsAdd(amount, before, n, init);
      assert all[..|all| - 1] == before + [n] + init && all[|all| - 1] == last;
    }
  }

  lemma {:induction false} BranchMembers(c: Cluster, names: seq<string>)
    ensures forall n :: n in Branches(c.disks, names) <==> n in names && IsUsable(c, n)
    ensures Branches(c.disks, names) == [] <==> !exists n :: n in names && IsUsable(c, n)
  {
    if names != [] {
      var init, last := names[..|names| - 1], names[|names| - 1];
      assert names == init + [last];
      BranchMembers(c, init);
    }
    if Branches(c.disks, names) != [] {
      var n := Branches(c.disks, names)[0];
      assert n in Branches(c.disks, names);
    }
  }

  /** The pool's array exists and is Ready, and one of its data disks can be used. */
  ghost predicate CanMount(c: Cluster, k: Key)
    requires k in c.pools
  {
    var ak := Key(k.namespace, c.pools[k].spec.arrayRef);
    ak in c.arrays && c.arrays[ak].status.phase == ArrayReady && exists n :: n in c.arrays[ak].spec.dataDisks && IsUsable(c, n)
  }

  /**
   A pool is Ready exactly when its array is Ready, a data disk can be used and the mergerfs mount works; Degraded exactly
   when only the mount fails; Pending otherwise. Unless Ready it keeps its members, totals and mounted flag.
   */
  lemma {:induction false} ReconciledPool(env: Env, c: Cluster, k: Key)
    requires k in c.pools
    ensures var p, e := c.pools[k], Reconcile(env, c, PoolRequest(k)); var ak := Key(k.namespace, p.spec.arrayRef);
      && k in e.pools && e == c.(pools := c.pools[k := e.pools[k]]) && e.pools[k].spec == p.spec
      && var st := e.pools[k].status;
         && (st.phase == "Ready" <==> CanMount(c, k) && env.mergerfsOk(k))
         && (st.phase == "Degraded" <==> CanMount(c, k) && !env.mergerfsOk(k))
         && (st.phase == "Pending" <==> !CanMount(c, k))
         && (st.phase != "Ready" ==> st.mounted == p.status.mounted && st.memberDisks == p.status.memberDisks
                                     && st.totalBytes == p.status.totalBytes && st.availableBytes == p.status.availableBytes)
         && (st.phase == "Ready" ==>
               && st.mounted
               && st.memberDisks == Branches(c.disks, c.arrays[ak].spec.dataDisks)
               && st.totalBytes == TotalOf(n => if n in c.disks then c.disks[n].status.capacity else 0, st.memberDisks)
               && st.availableBytes == TotalOf(n => if n in c.disks then c.disks[n].status.available else 0, st.memberDisks))
         && st.conditions == ReadyPatched(p.status.conditions, st.phase == "Ready",
              if ak !in c.arrays then "ArrayNotFound"
              else if c.arrays[ak].status.phase != ArrayReady then "ArrayNotReady"
              else if !CanMount(c, k) then "NoBranchesReady"
              else if !env.mergerfsOk(k) then "MountError"
              else "Reconciled")
  {
    var ak := Key(k.namespace, c.pools[k].spec.arrayRef);
    if ak in c.arrays {
      var names := c.arrays[ak].spec.dataDisks;
      BranchMembers(c, names);
      var members := Branches(c.disks, names);
      S.SameTotals(CapacityIn(c.disks), n => if n in c.disks then c.disks[n].status.capacity else 0, members);
      S.SameTotals(AvailableIn(c.disks), n => if n in c.disks then c.disks[n].status.available else 0, members);
    }
  }

  /** In a settled cluster, whatever fails: a pool is Ready exactly when it can be mounted and its mount works, Degraded exactly when it does not. */
  lemma {:induction false} SettledPoolReadyIff(env: Env, c: Cluster, k: Key)
    requires Settled(env, c) && k in c.pools
    ensures var phase := c.pools[k].status.phase;
      && (phase == "Ready" <==> CanMount(c, k) && env.mergerfsOk(k))
      && (phase == "Degraded" <==> CanMount(c, k) && !env.mergerfsOk(k))
  {
    assert Reconcile(env, c, PoolRequest(k)) == c;
    ReconciledPool(env, c, k);
  }

  // ---------------------------------------------------------------- shares

  predicate IsServed(s: Share) {
    s.spec.protocol == "SMB" || s.spec.protocol == "NFS"
  }

  /**
   A share is Pending exactly when its pool does not exist or is not mounted; Degraded exactly when the objects of an SMB or
   NFS share on a mounted pool cannot be published; Ready, and published, otherwise.
   */
  lemma {:induction false} ReconciledShare(env: Env, c: Cluster, k: Key)
    requires k in c.shares
    ensures var s, e := c.shares[k], Reconcile(env, c, ShareRequest(k)); var pk := Key(k.namespace, s.spec.poolRef);
      && k in e.shares && e == c.(shares := c.shares[k := e.shares[k]]) && e.shares[k].spec == s.spec
      && var st, mounted := e.shares[k].status, pk in c.pools && c.pools[pk].status.mounted;
         var published := !IsServed(s) || env.publishOk(k);
         && (st.phase == "Pending" <==> !mounted)
         && (st.phase == "Degraded" <==> mounted && !published)
         && (st.phase == "Ready" <==> mounted && published)
         && (st.published <==> st.phase == "Ready")
         && st.effectiveSubjects == (if mounted then [] else s.status.effectiveSubjects)
         && st.podName == (if st.phase != "Ready" || !IsServed(s) then s.status.podName
                           else (if s.spec.protocol == "SMB" then "kubenas-smb-" else "kubenas-nfs-") + k.name)
         && st.serviceName == (if st.phase != "Ready" || !IsServed(s) then s.status.serviceName else st.podName + "-svc")
         && st.conditions == ReadyPatched(s.status.conditions, st.phase == "Ready",
              if pk !in c.pools then "PoolNotFound" else if !mounted then "PoolNotMounted"
              else if !published then "DataPlaneError" else "Published")
  {
  }

  // ---------------------------------------------------------------- over runs

  /** A pool's mounted flag rises only in a reconcile of that pool that could mount and whose mergerfs mount worked. */
  lemma {:induction false} FlagRises(env: Env, c: Cluster, r: Request, k: Key)
    requires k in c.pools && !c.pools[k].status.mounted
    ensures var d := Reconcile(env, c, r);
      k in d.pools && (d.pools[k].status.mounted <==> r == PoolRequest(k) && CanMount(c, k) && env.mergerfsOk(k))
  {
    if r.PoolRequest? && r.key in c.pools {
      ReconciledPool(env, c, r.key);
    }
  }

  /** In every run a pool that was not mounted is mounted later exactly if in between such a reconcile of it happened. */
  lemma {:induction false} MountedIffMergerfsWorked(trace: seq<Cluster>, envs: seq<Env>, requests: seq<Request>, i: nat, j: nat, k: Key)
    requires S.IsRun(trace, envs, requests) && i <= j < |trace| && k in trace[i].pools && !trace[i].pools[k].status.mounted
    ensures k in trace[j].pools
    ensures trace[j].pools[k].status.mounted <==> MountWorked(trace, envs, requests, i, j, k)
    decreases j
  {
    if i < j {
      MountedIffMergerfsWorked(trace, envs, requests, i, j - 1, k);
      assert trace[j] == Reconcile(envs[j - 1], trace[j - 1], requests[j - 1]);
      WorkedGrows(trace, envs, requests, i, j, k);
      if trace[j - 1].pools[k].status.mounted {
        S.MountedSticks(trace, envs, requests, j - 1, j, k);
      } else {
        FlagRises(envs[j - 1], trace[j - 1], requests[j - 1], k);
      }
    }
  }

  /** Request x reconciles the pool when it can be mounted, and its mount works. */
  ghost predicate MountsAt(trace: seq<Cluster>, envs: seq<Env>, requests: seq<Request>, x: int, k: Key) {
    && 0 <= x < |requests| && x < |trace| && x < |envs|
    && requests[x] == PoolRequest(k) && k in trace[x].pools && CanMount(trace[x], k) && envs[x].mergerfsOk(k)
  }

  ghost predicate MountWorked(trace: seq<Cluster>, envs: seq<Env>, requests: seq<Request>, i: int, j: int, k: Key) {
    exists x :: i <= x < j && MountsAt(trace, envs, requests, x, k)
  }

  lemma WorkedGrows(trace: seq<Cluster>, envs: seq<Env>, requests: seq<Request>, i: nat, j: nat, k: Key)
    requires i < j
    ensures MountWorked(trace, envs, requests, i, j, k)
       <==> MountWorked(trace, envs, requests, i, j - 1, k) || MountsAt(trace, envs, requests, j - 1, k)
  {
    if x :| i <= x < j && MountsAt(trace, envs, requests, x, k) {
      assert x < j - 1 || x == j - 1;
    }
    if x :| i <= x < j - 1 && MountsAt(trace, envs, requests, x, k) {
      assert i <= x < j;
    }
  }
}
