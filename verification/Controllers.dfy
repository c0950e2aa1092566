/** The four reconcilers as methods on the stored objects, each proved to make the step Cascade describes. */
module Controllers {
  import opened Wrappers
  import opened Conditions
  import opened Api
  import opened Cascade

  class Store {
    var disks: map<string, Disk>
    var arrays: map<Key, Array>
    var pools: map<Key, Pool>
    var shares: map<Key, Share>

    ghost function State(): Cluster
      reads this
    {
      Cluster(disks, arrays, pools, shares)
    }

    /**
     Reconcile of the disk controller. `writeOk` says whether the API server takes the write; `asked` is the node and
     mount point of the unmount request, if one is made.
     */
    method ReconcileDisk(env: Env, name: string, writeOk: bool) returns (ok: bool, asked: Option<(string, string)>)
      modifies this`disks
      ensures asked == if name in old(disks) && old(disks)[name].deleting && old(disks)[name].status.mounted
                       then Some((old(disks)[name].spec.node, old(disks)[name].spec.mountPoint)) else None
      ensures ok <==> name !in old(disks) || writeOk
      ensures State() == if ok then Reconcile(env, old(State()), DiskRequest(name)) else old(State())
    {
      asked := None;
      if name !in disks {
        ok := true;
        return;
      }
      var disk := disks[name];
      if disk.deleting {
        RemovesAllIff(disk.finalizers, DISK_FINALIZER);
        ok, asked := ReconcileDelete(name, writeOk);
        return;
      }
      var present := ContainsString(disk.finalizers, DISK_FINALIZER);
      if !present {
        disk := disk.(finalizers := disk.finalizers + [DISK_FINALIZER]);
        if writeOk {
          disks := disks[name := disk];
        }
        ok := writeOk;
        return;
      }
      ok := ReconcileNormal(env, name, writeOk);
    }

    method ReconcileNormal(env: Env, name: string, writeOk: bool) returns (ok: bool)
      requires name in disks
      modifies this`disks
      ensures ok <==> writeOk
      ensures disks == if ok then old(disks)[name := old(disks)[name].(status := DiskStatusStep(env, old(disks)[name]))] else old(disks)
    {
      var disk := disks[name];
      var answer := env.report(disk.spec.node, disk.spec.device);
      if answer.Failure? {
        ok := SetPhase(name, disk.status, Degraded, "AgentUnavailable", writeOk);
        return;
      }
      var report := answer.value;
      var status := disk.status.(capacity := report.capacity, available := report.available, health := report.health);
      status := status.(summary := report.summary, serial := report.serial, model := report.model);
      status := status.(rotational := report.rotational, mounted := report.mounted);
      var target := ComputePhase(report);
      if !report.mounted && target == Ready {
        if !env.mountOk(disk.name) {
          ok := SetPhase(name, status, Degraded, "MountFailed", writeOk);
          return;
        }
        status := status.(mounted := true);
      }
      ok := SetPhase(name, status, target, "Reconciled", writeOk);
    }

    method SetPhase(name: string, status: DiskStatus, phase: DiskPhase, reason: string, writeOk: bool) returns (ok: bool)
      requires name in disks
      modifies this`disks
      ensures ok <==> writeOk
      ensures disks == if ok then old(disks)[name := old(disks)[name].(status := WithDiskPhase(status, phase, reason))] else old(disks)
    {
      var conditions := new ConditionList(status.conditions);
      conditions.Set(Condition("Ready", phase == Ready, reason));
      if writeOk {
        disks := disks[name := disks[name].(status := status.(phase := phase, conditions := conditions.items))];
      }
      return writeOk;
    }

    /**
     A mounted disk is asked to be unmounted, whatever comes of it. The finalizer goes, and with the last finalizer the
     API server drops the object.
     */
    method ReconcileDelete(name: string, writeOk: bool) returns (ok: bool, asked: Option<(string, string)>)
      requires name in disks && disks[name].deleting
      modifies this`disks
      ensures ok <==> writeOk
      ensures asked == if old(disks)[name].status.mounted then Some((old(disks)[name].spec.node, old(disks)[name].spec.mountPoint)) else None
      ensures disks == if !ok then old(disks)
                       else if OnlyHas(old(disks)[name].finalizers, DISK_FINALIZER) then old(disks) - {name}
                       else old(disks)[name := old(disks)[name].(finalizers := RemoveString(old(disks)[name].finalizers, DISK_FINALIZER))]
    {
      var disk := disks[name];
      asked := None;
      if disk.status.mounted {
        asked := Some((disk.spec.node, disk.spec.mountPoint));
      }
      var rest := RemoveFrom(disk.finalizers, DISK_FINALIZER);
      RemovesAllIff(disk.finalizers, DISK_FINALIZER);
      if writeOk {
        if rest == [] {
          disks := disks - {name};
        } else {
          disks := disks[name := disk.(finalizers := rest)];
        }
      }
      ok := writeOk;
    }

    method ReconcileArray(env: Env, key: Key, writeOk: bool) returns (ok: bool)
      modifies this`arrays
      ensures ok <==> key !in old(arrays) || writeOk
      ensures State() == if ok then Reconcile(env, old(State()), ArrayRequest(key)) else old(State())
    {
      if key !in arrays {
        return true;
      }
      var arr := arrays[key];
      var dataDisks := ResolveDiskRefs(arr.spec.dataDisks);
      if dataDisks.None? {
        ok := SetArrayPhase(key, arr.status, ArrayPending, "DiskRefError", writeOk);
        return;
      }
      var parityDisks := ResolveDiskRefs(arr.spec.parityDisks);
      if parityDisks.None? {
        ok := SetArrayPhase(key, arr.status, ArrayPending, "ParityDiskRefError", writeOk);
        return;
      }
      var all := dataDisks.value + parityDisks.value;
      var degraded: seq<string> := [];
      for i := 0 to |all|
        invariant degraded == UnhealthyNames(all[..i])
      {
        var d := all[i];
        assert all[..i + 1][..i] == all[..i];
        if d.status.phase == Degraded || d.status.phase == Failed {
          degraded := degraded + [d.name];
        }
      }
      assert all[..|all|] == all;
      var status := arr.status.(degradedDisks := degraded);
      if |dataDisks.value| > 0 {
        if !env.snapraidOk(key) {
          ok := SetArrayPhase(key, status, ArrayDegraded, "SnapraidConfigError", writeOk);
          return;
        }
      }
      var target := ArrayReady;
      if |degraded| > 0 {
        target := ArrayDegraded;
      }
      ok := SetArrayPhase(key, status, target, "Reconciled", writeOk);
    }

    method ResolveDiskRefs(names: seq<string>) returns (found: Option<seq<Disk>>)
      ensures found == if AllFound(disks, names) then Some(Lookup(disks, names)) else None
    {
      var list: seq<Disk> := [];
      for i := 0 to |names|
        invariant AllFound(disks, names[..i]) && list == Lookup(disks, names[..i])
      {
        if names[i] !in disks {
          assert names[i] in names;
          return None;
        }
        list := list + [disks[names[i]]];
      }
      assert names[..|names|] == names;
      return Some(list);
    }

    method SetArrayPhase(key: Key, status: ArrayStatus, phase: ArrayPhase, reason: string, writeOk: bool) returns (ok: bool)
      requires key in arrays
      modifies this`arrays
      ensures ok <==> writeOk
      ensures arrays == if ok then old(arrays)[key := old(arrays)[key].(status := WithArrayPhase(status, phase, reason))] else old(arrays)
    {
      var conditions := new ConditionList(status.conditions);
      conditions.SetReady(phase == ArrayReady, reason);
      if writeOk {
        arrays := arrays[key := arrays[key].(status := status.(phase := phase, conditions := conditions.items))];
      }
      return writeOk;
    }

    method ReconcilePool(env: Env, key: Key, writeOk: bool) returns (ok: bool)
      modifies this`pools
      ensures ok <==> key !in old(pools) || writeOk
      ensures State() == if ok then Reconcile(env, old(State()), PoolRequest(key)) else old(State())
    {
      if key !in pools {
        return true;
      }
      var pool := pools[key];
      var arrayKey := Key(key.namespace, pool.spec.arrayRef);
      if arrayKey !in arrays {
        ok := SetPoolPhase(key, pool.status, "Pending", "ArrayNotFound", writeOk);
        return;
      }
      var arr := arrays[arrayKey];
      if arr.status.phase != ArrayReady {
        ok := SetPoolPhase(key, pool.status, "Pending", "ArrayNotReady", writeOk);
        return;
      }
      var branches, diskNames, totalBytes, availableBytes := CollectBranches(arr.spec.dataDisks);
      if |branches| == 0 {
        ok := SetPoolPhase(key, pool.status, "Pending", "NoBranchesReady", writeOk);
        return;
      }
      if !env.mergerfsOk(key) {
        ok := SetPoolPhase(key, pool.status, "Degraded", "MountError", writeOk);
        return;
      }
      var status := pool.status.(totalBytes := totalBytes, availableBytes := availableBytes);
      status := status.(memberDisks := diskNames, mounted := true);
      ok := SetPoolPhase(key, status, "Ready", "Reconciled", writeOk);
    }

    /** The loop of the pool controller: mount points, names and byte sums of the disks that can take part. */
    method CollectBranches(names: seq<string>)
      returns (branches: seq<string>, diskNames: seq<string>, totalBytes: int, availableBytes: int)
      ensures diskNames == Branches(disks, names) && |branches| == |diskNames|
      ensures forall i | 0 <= i < |branches| :: diskNames[i] in disks && branches[i] == disks[diskNames[i]].spec.mountPoint
      ensures totalBytes == TotalOf(CapacityIn(disks), diskNames)
      ensures availableBytes == TotalOf(AvailableIn(disks), diskNames)
    {
      branches, diskNames := [], [];
      totalBytes, availableBytes := 0, 0;
      for i := 0 to |names|
        invariant diskNames == Branches(disks, names[..i]) && |branches| == |diskNames|
        invariant forall j | 0 <= j < |branches| :: diskNames[j] in disks && branches[j] == disks[diskNames[j]].spec.mountPoint
        invariant totalBytes == TotalOf(CapacityIn(disks), diskNames)
        invariant availableBytes == TotalOf(AvailableIn(disks), diskNames)
      {
        assert names[..i + 1][..i] == names[..i];
        if names[i] !in disks {
          continue;
        }
        var disk := disks[names[i]];
        if disk.status.mounted && disk.status.phase == Ready {
          branches := branches + [disk.spec.mountPoint];
          assert (diskNames + [names[i]])[..|diskNames|] == diskNames;
          diskNames := diskNames + [names[i]];
          totalBytes := totalBytes + disk.status.capacity;
          availableBytes := availableBytes + disk.status.available;
        }
      }
      assert names[..|names|] == names;
    }

    method SetPoolPhase(key: Key, status: PoolStatus, phase: string, reason: string, writeOk: bool) returns (ok: bool)
      requires key in pools
      modifies this`pools
      ensures ok <==> writeOk
      ensures pools == if ok then old(pools)[key := old(pools)[key].(status := WithPoolPhase(status, phase, reason))] else old(pools)
    {
      var conditions := new ConditionList(status.conditions);
      conditions.SetReady(phase == "Ready", reason);
      if writeOk {
        pools := pools[key := pools[key].(status := status.(phase := phase, conditions := conditions.items))];
      }
      return writeOk;
    }

    method ReconcileShare(env: Env, key: Key, writeOk: bool) returns (ok: bool)
      modifies this`shares
      ensures ok <==> key !in old(shares) || writeOk
      ensures State() == if ok then Reconcile(env, old(State()), ShareRequest(key)) else old(State())
    {
      if key !in shares {
        return true;
      }
      var share := shares[key];
      var poolKey := Key(key.namespace, share.spec.poolRef);
      if poolKey !in pools {
        ok := SetSharePhase(key, share.status, "Pending", "PoolNotFound", writeOk);
        return;
      }
      if !pools[poolKey].status.mounted {
        ok := SetSharePhase(key, share.status, "Pending", "PoolNotMounted", writeOk);
        return;
      }
      var status := share.status.(effectiveSubjects := []);
      if share.spec.protocol == "SMB" || share.spec.protocol == "NFS" {
        var name := (if share.spec.protocol == "SMB" then "kubenas-smb-" else "kubenas-nfs-") + key.name;
        if !env.publishOk(key) {
          ok := SetSharePhase(key, status, "Degraded", "DataPlaneError", writeOk);
          return;
        }
        status := status.(podName := name, serviceName := name + "-svc");
      }
      status := status.(published := true);
      ok := SetSharePhase(key, status, "Ready", "Published", writeOk);
    }

    method SetSharePhase(key: Key, status: ShareStatus, phase: string, reason: string, writeOk: bool) returns (ok: bool)
      requires key in shares
      modifies this`shares
      ensures ok <==> writeOk
      ensures shares == if ok then old(shares)[key := old(shares)[key].(status := WithSharePhase(status, phase, reason))] else old(shares)
    {
      var conditions := new ConditionList(status.conditions);
      conditions.SetReady(phase == "Ready", reason);
      var st := status.(phase := phase, conditions := conditions.items);
      if phase != "Ready" {
        st := st.(published := false);
      }
      if writeOk {
        shares := shares[key := shares[key].(status := st)];
      }
      return writeOk;
    }
  }

  method ContainsString(items: seq<string>, s: string) returns (found: bool)
    ensures found <==> s in items
  {
    for i := 0 to |items|
      invariant s !in items[..i]
    {
      if items[i] == s {
        return true;
      }
    }
    return false;
  }

  method RemoveFrom(items: seq<string>, s: string) returns (result: seq<string>)
    ensures result == RemoveString(items, s)
  {
    result := [];
    for i := 0 to |items|
      invariant result == RemoveString(items[..i], s)
    {
      assert items[..i + 1][..i] == items[..i];
      if items[i] != s {
        result := result + [items[i]];
      }
    }
    assert items[..|items|] == items;
  }

  predicate OnlyHas(items: seq<string>, s: string) {
    forall i | 0 <= i < |items| :: items[i] == s
  }

  /** Nothing is left exactly when the removed string was all there was. */
  lemma {:induction false} RemovesAllIff(items: seq<string>, s: string)
    ensures RemoveString(items, s) == [] <==> OnlyHas(items, s)
  {
    if items != [] {
      var n := |items| - 1;
      RemovesAllIff(items[..n], s);
      assert forall i | 0 <= i < n :: items[i] == items[..n][i];
    }
  }
}
