/** The host the node agent acts on: a mount table and the text of /etc/fstab. */
module Host {
  import opened Text

  datatype Source = Device(path: string, filesystem: string) | Union(branches: seq<string>, options: string)

  /** One line of the mount table; later lines of the same point lie on top. Points are absolute and clean. */
  datatype Mount = Mount(source: Source, point: string)

  type Table = seq<Mount>

  /** Unsupported stands for an unknown operation type and for a payload that cannot be decoded. */
  datatype Operation =
    | MountDisk(device: string, point: string, filesystem: string)
    | Unmount(point: string)
    | MountPool(branches: seq<string>, point: string, options: string)
    | Unsupported(kind: string)

  /** How the commands and file accesses of one operation come out. */
  datatype Io = Io(mkdirOk: bool, tableReadable: bool, commandOk: bool, umountOk: bool, fstabReadable: bool, fstabWritable: bool)

  const ALL_WELL := Io(true, true, true, true, true, true)

  datatype Job = Job(op: Operation, io: Io)

  datatype HostState = HostState(mounts: Table, fstab: string)

  predicate Mounted(t: Table, p: string) {
    exists i :: 0 <= i < |t| && t[i].point == p
  }

  /** umount takes away the top mount of a point. */
  function RemoveTop(t: Table, p: string): Table {
    if t == [] then []
    else
      var last := t[|t| - 1];
      if last.point == p then t[..|t| - 1] else RemoveTop(t[..|t| - 1], p) + [last]
  }

  /** What is mounted at a point, bottom first. */
  function Stack(t: Table, p: string): seq<Source> {
    if t == [] then []
    else Stack(t[..|t| - 1], p) + (if t[|t| - 1].point == p then [t[|t| - 1].source] else [])
  }

  predicate OccursAt(text: string, part: string, i: int) {
    0 <= i <= |text| - |part| && text[i..i + |part|] == part
  }

  predicate Contains(text: string, part: string) {
    exists i :: 0 <= i <= |text| && OccursAt(text, part, i)
  }

  function FstabLine(device: string, point: string, filesystem: string): string {
    device + "\t" + point + "\t" + filesystem + "\tdefaults\t0\t0\n"
  }

  class Machine {
    var mounts: Table
    var fstab: string

    ghost function State(): HostState
      reads this
    {
      HostState(mounts, fstab)
    }

    /** A mount table that cannot be read counts as one without the point. */
    method IsMounted(point: string, readable: bool) returns (found: bool)
      ensures found <==> readable && Mounted(mounts, point)
    {
      if !readable {
        return false;
      }
      for i := 0 to |mounts|
        invariant forall j | 0 <= j < i :: mounts[j].point != point
      {
        if mounts[i].point == point {
          return true;
        }
      }
      return false;
    }

    method MountDevice(device: string, point: string, filesystem: string, io: Io) returns (ok: bool)
      modifies this`mounts
      ensures ok <==> io.mkdirOk && (Seen(old(mounts), point, io) || io.commandOk)
      ensures mounts == MountsAfter(old(mounts), Job(MountDisk(device, point, filesystem), io))
    {
      if !io.mkdirOk {
        return false;
      }
      var mounted := IsMounted(point, io.tableReadable);
      if mounted {
        return true;
      }
      if !io.commandOk {
        return false;
      }
      mounts := mounts + [Mount(Device(device, filesystem), point)];
      return true;
    }

    method UnmountDevice(point: string, io: Io) returns (ok: bool)
      modifies this`mounts
      ensures ok <==> !Seen(old(mounts), point, io) || io.umountOk
      ensures mounts == MountsAfter(old(mounts), Job(Unmount(point), io))
    {
      var mounted := IsMounted(point, io.tableReadable);
      if !mounted {
        return true;
      }
      if !io.umountOk {
        return false;
      }
      mounts := RemoveTop(mounts, point);
      return true;
    }

    method MountMergerFS(branches: seq<string>, point: string, options: string, io: Io) returns (ok: bool)
      modifies this`mounts
      ensures ok <==> io.mkdirOk && io.commandOk
      ensures mounts == MountsAfter(old(mounts), Job(MountPool(branches, point, options), io))
    {
      if !io.mkdirOk {
        return false;
      }
      var mounted := IsMounted(point, io.tableReadable);
      if mounted {
        var _ := UnmountDevice(point, io);
      }
      if !io.commandOk {
        return false;
      }
      mounts := mounts + [Mount(Union(branches, options), point)];
      return true;
    }

    method EnsureFstabEntry(device: string, point: string, filesystem: string, io: Io) returns (ok: bool)
      modifies this`fstab
      ensures ok <==> io.fstabReadable && (Contains(old(fstab), device) || io.fstabWritable)
      ensures fstab == if ok && !Contains(old(fstab), device) then old(fstab) + FstabLine(device, point, filesystem) else old(fstab)
    {
      if !io.fstabReadable {
        return false;
      }
      if Contains(fstab, device) {
        return true;
      }
      if !io.fstabWritable {
        return false;
      }
      fstab := fstab + FstabLine(device, point, filesystem);
      return true;
    }

    /** The switch of executeOperation. */
    method Perform(op: Operation, io: Io) returns (ok: bool)
      modifies this
      ensures ok == Succeeds(old(State()), Job(op, io)) && State() == After(old(State()), Job(op, io))
    {
      match op {
        case MountDisk(device, point, filesystem) =>
          ok := MountDevice(device, point, filesystem, io);
          if ok {
            ok := EnsureFstabEntry(device, point, filesystem, io);
          }
        case Unmount(point) =>
          ok := UnmountDevice(point, io);
        case MountPool(branches, point, options) =>
          ok := MountMergerFS(branches, point, options, io);
        case Unsupported(_) =>
          ok := false;
      }
    }
  }

  /** The agent finds the point in use. */
  predicate Seen(t: Table, p: string, io: Io) {
    io.tableReadable && Mounted(t, p)
  }

  function MountsAfter(t: Table, job: Job): Table {
    var io := job.io;
    match job.op
    case MountDisk(device, p, filesystem) =>
      if !io.mkdirOk || Seen(t, p, io) || !io.commandOk then t else t + [Mount(Device(device, filesystem), p)]
    case Unmount(p) => if Seen(t, p, io) && io.umountOk then RemoveTop(t, p) else t
    case MountPool(branches, p, options) =>
      if !io.mkdirOk then t
      else
        var u := if Seen(t, p, io) && io.umountOk then RemoveTop(t, p) else t;
        if io.commandOk then u + [Mount(Union(branches, options), p)] else u
    case Unsupported(_) => t
  }

  /** The operation is a disk mount whose MountDevice part returns no error. */
  predicate DiskIsMounted(t: Table, job: Job) {
    job.op.MountDisk? && job.io.mkdirOk && (Seen(t, job.op.point, job.io) || job.io.commandOk)
  }

  predicate AddsFstabLine(h: HostState, job: Job) {
    DiskIsMounted(h.mounts, job) && job.io.fstabReadable && job.io.fstabWritable && !Contains(h.fstab, job.op.device)
  }

  function After(h: HostState, job: Job): HostState {
    HostState(MountsAfter(h.mounts, job),
              if AddsFstabLine(h, job) then h.fstab + FstabLine(job.op.device, job.op.point, job.op.filesystem) else h.fstab)
  }

  predicate Succeeds(h: HostState, job: Job) {
    var io := job.io;
    match job.op
    case MountDisk(device, _, _) => DiskIsMounted(h.mounts, job) && io.fstabReadable && (Contains(h.fstab, device) || io.fstabWritable)
    case Unmount(p) => Seen(h.mounts, p, io) ==> io.umountOk
    case MountPool(_, _, _) => io.mkdirOk && io.commandOk
    case Unsupported(_) => false
  }

  /** What a successful operation leaves behind. An unmount that cannot see the mount table succeeds without acting. */
  predicate Achieved(before: HostState, job: Job, after: HostState) {
    match job.op
    case MountDisk(device, p, _) => Mounted(after.mounts, p) && Contains(after.fstab, device)
    case Unmount(p) =>
      job.io.tableReadable ==>
        Stack(after.mounts, p) == if Stack(before.mounts, p) == [] then [] else Stack(before.mounts, p)[..|Stack(before.mounts, p)| - 1]
    case MountPool(branches, p, options) =>
      var s := Stack(after.mounts, p);
      s != [] && s[|s| - 1] == Union(branches, options)
    case Unsupported(_) => false
  }

  function RunJobs(h: HostState, jobs: seq<Job>): HostState {
    if jobs == [] then h else After(RunJobs(h, jobs[..|jobs| - 1]), jobs[|jobs| - 1])
  }

  // ---------------------------------------------------------------- replaying the mounts

  lemma {:induction false} MountedIffStacked(t: Table, p: string)
    ensures Mounted(t, p) <==> Stack(t, p) != []
  {
    if t != [] {
      var n := |t| - 1;
      MountedIffStacked(t[..n], p);
      if i :| 0 <= i < n && t[i].point == p { assert t[..n][i].point == p; }
      if i :| 0 <= i < n && t[..n][i].point == p { assert t[i].point == p; }
    }
  }

  lemma {:induction false} StackOfRemoved(t: Table, p: string, q: string)
    ensures Stack(RemoveTop(t, p), q) == if p == q && Stack(t, p) != [] then Stack(t, p)[..|Stack(t, p)| - 1] else Stack(t, q)
  {
    if t != [] {
      var n := |t| - 1;
      StackOfRemoved(t[..n], p, q);
      if t[n].point != p {
        assert (RemoveTop(t[..n], p) + [t[n]])[..|RemoveTop(t[..n], p)|] == RemoveTop(t[..n], p);
      }
    }
  }

  lemma StackOfAppended(t: Table, m: Mount, q: string)
    ensures Stack(t + [m], q) == Stack(t, q) + (if m.point == q then [m.source] else [])
  {
    assert (t + [m])[..|t|] == t;
  }

  /** Success means the operation's purpose is achieved, and an unknown operation never succeeds. */
  lemma {:induction false} SuccessAchieves(h: HostState, job: Job)
    requires Succeeds(h, job)
    ensures Achieved(h, job, After(h, job))
  {
    match job.op {
      case MountDisk(device, p, filesystem) =>
        MountLeavesPoint(h.mounts, job);
        FstabGrows(h, job, device);
      case Unmount(p) =>
        MountedIffStacked(h.mounts, p);
        StackOfRemoved(h.mounts, p, p);
      case MountPool(branches, p, options) =>
        var u := if Seen(h.mounts, p, job.io) && job.io.umountOk then RemoveTop(h.mounts, p) else h.mounts;
        assert MountsAfter(h.mounts, job) == u + [Mount(Union(branches, options), p)];
        StackOfAppended(u, Mount(Union(branches, options), p), p);
    }
  }

  lemma MountLeavesPoint(t: Table, job: Job)
    requires DiskIsMounted(t, job)
    ensures Mounted(MountsAfter(t, job), job.op.point)
  {
    if !Seen(t, job.op.point, job.io) {
      assert MountsAfter(t, job)[|t|].point == job.op.point;
    }
  }

  /** The things an operation may need to have done. */
  datatype Need = Directory | MountCommand | UmountCommand | FstabRead | FstabWrite

  predicate WentWell(n: Need, io: Io) {
    match n
    case Directory => io.mkdirOk
    case MountCommand => io.commandOk
    case UmountCommand => io.umountOk
    case FstabRead => io.fstabReadable
    case FstabWrite => io.fstabWritable
  }

  /** What an operation needs on this host: a disk needs no mount if its point is in use and no line if it is listed. */
  function Needs(h: HostState, op: Operation, tableReadable: bool): set<Need> {
    match op
    case MountDisk(device, p, _) =>
      {Directory, FstabRead} + (if tableReadable && Mounted(h.mounts, p) then {} else {MountCommand})
      + (if Contains(h.fstab, device) then {} else {FstabWrite})
    case Unmount(p) => if tableReadable && Mounted(h.mounts, p) then {UmountCommand} else {}
    case MountPool(_, _, _) => {Directory, MountCommand}
    case Unsupported(_) => {}
  }

  /** A supported operation succeeds exactly when everything it needed went well; the umount before a pool mount is not needed. */
  lemma {:induction false} SucceedsIffNeedsMet(h: HostState, job: Job)
    ensures Succeeds(h, job) <==> !job.op.Unsupported? && forall n | n in Needs(h, job.op, job.io.tableReadable) :: WentWell(n, job.io)
  {
    var needs, io := Needs(h, job.op, job.io.tableReadable), job.io;
    match job.op {
      case MountDisk(device, p, _) =>
        assert Directory in needs && FstabRead in needs;
        assert MountCommand in needs <==> !(io.tableReadable && Mounted(h.mounts, p));
        assert FstabWrite in needs <==> !Contains(h.fstab, device);
      case Unmount(p) =>
        assert UmountCommand in needs <==> io.tableReadable && Mounted(h.mounts, p);
      case MountPool(_, _, _) =>
        assert Directory in needs && MountCommand in needs;
      case Unsupported(_) =>
    }
  }

  /** With every command and file access going well, every supported operation succeeds on every host. */
  lemma {:induction false} AllWellSucceeds(h: HostState, op: Operation)
    requires !op.Unsupported?
    ensures Succeeds(h, Job(op, ALL_WELL))
  {
    SucceedsIffNeedsMet(h, Job(op, ALL_WELL));
  }

  /** The point an operation is about. */
  function PointOf(op: Operation): string
    requires !op.Unsupported?
  {
    op.point
  }

  /** No operation touches what is mounted at another point, and none but a disk mount touches the fstab. */
  lemma {:induction false} OtherPointsStay(h: HostState, job: Job, q: string)
    requires job.op.Unsupported? || q != PointOf(job.op)
    ensures Stack(After(h, job).mounts, q) == Stack(h.mounts, q)
    ensures !job.op.MountDisk? ==> After(h, job).fstab == h.fstab
  {
    match job.op {
      case MountDisk(device, p, filesystem) => StackOfAppended(h.mounts, Mount(Device(device, filesystem), p), q);
      case Unmount(p) => StackOfRemoved(h.mounts, p, q);
      case MountPool(branches, p, options) =>
        StackOfRemoved(h.mounts, p, q);
        StackOfAppended(h.mounts, Mount(Union(branches, options), p), q);
        StackOfAppended(RemoveTop(h.mounts, p), Mount(Union(branches, options), p), q);
      case Unsupported(_) =>
    }
  }

  /**
   What a failed operation leaves. Unknown operations and unmounts leave the host as it was. A disk mount leaves the fstab,
   and the mounts too unless only its fstab entry failed: then the device stays mounted, unlisted. A pool mount adds nothing,
   but takes the old top mount away exactly when the directory and the umount went well on a point seen in use.
   */
  lemma {:induction false} FailureLeaves(h: HostState, job: Job)
    requires !Succeeds(h, job)
    ensures var after, io := After(h, job), job.io;
      && after.fstab == h.fstab
      && match job.op
         case MountDisk(device, p, filesystem) =>
           var s := Stack(h.mounts, p);
           Stack(after.mounts, p)
           == if io.mkdirOk && io.commandOk && !(io.tableReadable && s != []) then s + [Device(device, filesystem)] else s
         case Unmount(_) => after == h
         case MountPool(_, p, _) =>
           var s := Stack(h.mounts, p);
           Stack(after.mounts, p) == if io.mkdirOk && io.tableReadable && io.umountOk && s != [] then s[..|s| - 1] else s
         case Unsupported(_) => after == h
  {
    match job.op {
      case MountDisk(device, p, filesystem) =>
        MountedIffStacked(h.mounts, p);
        StackOfAppended(h.mounts, Mount(Device(device, filesystem), p), p);
      case Unmount(_) =>
      case MountPool(_, p, _) =>
        MountedIffStacked(h.mounts, p);
        StackOfRemoved(h.mounts, p, p);
      case Unsupported(_) =>
    }
  }

  /** What a job does to one point holding at most one mount. */
  datatype Effect = Keep | Fill(source: Source) | Become(stack: seq<Source>)

  function Apply(e: Effect, stack: seq<Source>): seq<Source> {
    match e
    case Keep => stack
    case Fill(s) => if stack == [] then [s] else stack
    case Become(s) => s
  }

  function Then(first: Effect, second: Effect): Effect {
    match second
    case Keep => first
    case Become(_) => second
    case Fill(s) =>
      match first
      case Keep => second
      case Fill(_) => first
      case Become(stack) => Become(Apply(second, stack))
  }

  lemma EffectsCompose(first: Effect, second: Effect, stack: seq<Source>)
    ensures Apply(Then(first, second), stack) == Apply(second, Apply(first, stack))
  {
  }

  lemma EffectsRepeat(e: Effect, stack: seq<Source>)
    ensures Apply(e, Apply(e, stack)) == Apply(e, stack)
  {
  }

  /** A mount that may be put over another one: its point is not cleared, or not even looked at, first. */
  predicate Stacks(job: Job) {
    var io := job.io;
    match job.op
    case MountDisk(_, _, _) => io.mkdirOk && io.commandOk && !io.tableReadable
    case MountPool(_, _, _) => io.mkdirOk && io.commandOk && !(io.tableReadable && io.umountOk)
    case _ => false
  }

  function EffectOf(job: Job, p: string): Effect {
    var io := job.io;
    match job.op
    case MountDisk(device, q, filesystem) => if q == p && io.mkdirOk && io.commandOk then Fill(Device(device, filesystem)) else Keep
    case Unmount(q) => if q == p && io.tableReadable && io.umountOk then Become([]) else Keep
    case MountPool(branches, q, options) =>
      if q == p && io.mkdirOk && io.tableReadable && io.umountOk then Become(if io.commandOk then [Union(branches, options)] else []) else Keep
    case Unsupported(_) => Keep
  }

  function EffectOfAll(jobs: seq<Job>, p: string): Effect {
    if jobs == [] then Keep else Then(EffectOfAll(jobs[..|jobs| - 1], p), EffectOf(jobs[|jobs| - 1], p))
  }

  ghost predicate NoneStacks(jobs: seq<Job>) {
    forall i | 0 <= i < |jobs| :: !Stacks(jobs[i])
  }

  /** No point is mounted over itself. */
  ghost predicate Unstacked(t: Table) {
    forall p :: |Stack(t, p)| <= 1
  }

  /** Equal up to the order of lines of different points. */
  ghost predicate SameTable(t: Table, u: Table) {
    forall p :: Stack(t, p) == Stack(u, p)
  }

  lemma {:induction false} JobEffect(t: Table, job: Job, p: string)
    requires |Stack(t, p)| <= 1 && !Stacks(job)
    ensures Stack(MountsAfter(t, job), p) == Apply(EffectOf(job, p), Stack(t, p))
  {
    match job.op {
      case MountDisk(device, q, filesystem) =>
        MountedIffStacked(t, q);
        StackOfAppended(t, Mount(Device(device, filesystem), q), p);
      case Unmount(q) =>
        Cleared(t, q, p);
      case MountPool(_, _, _) =>
        PoolEffect(t, job, p);
      case Unsupported(_) =>
    }
  }

  /** One umount, if needed, frees a point without anything mounted over itself, and leaves the others. */
  lemma {:induction false} Cleared(t: Table, q: string, p: string)
    requires |Stack(t, p)| <= 1
    ensures Stack(if Mounted(t, q) then RemoveTop(t, q) else t, p) == if p == q then [] else Stack(t, p)
  {
    MountedIffStacked(t, q);
    StackOfRemoved(t, q, p);
  }

  lemma {:induction false} PoolEffect(t: Table, job: Job, p: string)
    requires |Stack(t, p)| <= 1 && !Stacks(job) && job.op.MountPool?
    ensures Stack(MountsAfter(t, job), p) == Apply(EffectOf(job, p), Stack(t, p))
  {
    var q, m := job.op.point, Mount(Union(job.op.branches, job.op.options), job.op.point);
    if job.io.mkdirOk && job.io.tableReadable && job.io.umountOk {
      var cleared := if Mounted(t, q) then RemoveTop(t, q) else t;
      Cleared(t, q, p);
      if job.io.commandOk {
        assert MountsAfter(t, job) == cleared + [m];
        StackOfAppended(cleared, m, p);
      } else {
        assert MountsAfter(t, job) == cleared;
      }
    } else {
      assert MountsAfter(t, job) == t;
    }
  }

  lemma {:induction false} JobsEffect(h: HostState, jobs: seq<Job>, p: string)
    requires |Stack(h.mounts, p)| <= 1 && NoneStacks(jobs)
    ensures Stack(RunJobs(h, jobs).mounts, p) == Apply(EffectOfAll(jobs, p), Stack(h.mounts, p))
    ensures |Stack(RunJobs(h, jobs).mounts, p)| <= 1
  {
    if jobs != [] {
      var init, last := jobs[..|jobs| - 1], jobs[|jobs| - 1];
      JobsEffect(h, init, p);
      JobEffect(RunJobs(h, init).mounts, last, p);
      EffectsCompose(EffectOfAll(init, p), EffectOf(last, p), Stack(h.mounts, p));
    }
  }

  /** Running a job list again from its own end state ends in the same mount table. */
  lemma {:induction false} ReplayKeepsMounts(h: HostState, jobs: seq<Job>)
    requires Unstacked(h.mounts) && NoneStacks(jobs)
    ensures var once := RunJobs(h, jobs);
      SameTable(RunJobs(once, jobs).mounts, once.mounts) && Unstacked(once.mounts)
  {
    var once := RunJobs(h, jobs);
    forall p
      ensures Stack(RunJobs(once, jobs).mounts, p) == Stack(once.mounts, p) && |Stack(once.mounts, p)| <= 1
    {
      JobsEffect(h, jobs, p);
      JobsEffect(once, jobs, p);
      EffectsRepeat(EffectOfAll(jobs, p), Stack(h.mounts, p));
    }
  }

  ghost predicate ReplayHarmless(h: HostState, jobs: seq<Job>) {
    SameTable(RunJobs(RunJobs(h, jobs), jobs).mounts, RunJobs(h, jobs).mounts)
  }

  lemma OneJob(h: HostState, job: Job)
    ensures RunJobs(h, [job]) == After(h, job)
  {
    assert [job][..0] == [];
  }

  /** Unmounting a point that is mounted over itself does something different each time. */
  lemma {:induction false} StackedReplayHarms(h: HostState, p: string)
    requires |Stack(h.mounts, p)| > 1
    ensures var jobs := [Job(Unmount(p), ALL_WELL)];
      NoneStacks(jobs) && !ReplayHarmless(h, jobs)
  {
    var job := Job(Unmount(p), ALL_WELL);
    var once := After(h, job);
    OneJob(h, job);
    OneJob(once, job);
    SuccessAchieves(h, job);
    SuccessAchieves(once, job);
    assert |Stack(After(once, job).mounts, p)| < |Stack(once.mounts, p)|;
  }

  /** Every list without a stacking mount can be replayed exactly when the table starts without a point mounted over itself. */
  lemma {:induction false} ReplayHarmlessIff(h: HostState)
    ensures (forall jobs | NoneStacks(jobs) :: ReplayHarmless(h, jobs)) <==> Unstacked(h.mounts)
  {
    if Unstacked(h.mounts) {
      forall jobs | NoneStacks(jobs)
        ensures ReplayHarmless(h, jobs)
      {
        ReplayKeepsMounts(h, jobs);
      }
    } else {
      var p :| |Stack(h.mounts, p)| > 1;
      StackedReplayHarms(h, p);
    }
  }

  lemma StackingAppends(t: Table, job: Job)
    requires Stacks(job) && (job.op.MountPool? && Seen(t, job.op.point, job.io) ==> !job.io.umountOk)
    ensures exists m: Mount :: MountsAfter(t, job) == t + [m] && m.point == job.op.point
  {
    match job.op {
      case MountDisk(device, q, filesystem) =>
        assert MountsAfter(t, job) == t + [Mount(Device(device, filesystem), q)];
      case MountPool(branches, q, options) =>
        assert MountsAfter(t, job) == t + [Mount(Union(branches, options), q)];
    }
  }

  /** On an empty table a stacking mount puts a second mount over the first when it is replayed. */
  lemma {:induction false} StackingReplayHarms(job: Job)
    requires Stacks(job)
    ensures var once := RunJobs(HostState([], ""), [job]);
      |Stack(once.mounts, job.op.point)| == 1 && |Stack(RunJobs(once, [job]).mounts, job.op.point)| == 2
    ensures !ReplayHarmless(HostState([], ""), [job])
  {
    var start, p := HostState([], ""), job.op.point;
    var once := After(start, job);
    OneJob(start, job);
    OneJob(once, job);
    StackingAppends([], job);
    StackingAppends(once.mounts, job);
    var m :| once.mounts == [] + [m] && m.point == p;
    var n :| MountsAfter(once.mounts, job) == once.mounts + [n] && n.point == p;
    StackOfAppended([], m, p);
    StackOfAppended(once.mounts, n, p);
    assert Stack(RunJobs(once, [job]).mounts, p) != Stack(once.mounts, p);
  }

  ghost predicate ListOver(jobs: seq<Job>, kinds: iset<Job>) {
    forall i | 0 <= i < |jobs| :: jobs[i] in kinds
  }

  /**
   Which operations with which outcomes can be replayed: all lists over a set of jobs replay harmlessly, from every table
   without a point mounted over itself, exactly when the set holds no stacking mount.
   */
  lemma {:induction false} ReplayableIff(kinds: iset<Job>)
    ensures (forall h: HostState, jobs | Unstacked(h.mounts) && ListOver(jobs, kinds) :: ReplayHarmless(h, jobs))
       <==> forall job | job in kinds :: !Stacks(job)
  {
    if job :| job in kinds && Stacks(job) {
      var start, jobs := HostState([], ""), [job];
      assert Unstacked(start.mounts) && ListOver(jobs, kinds);
      StackingReplayHarms(job);
    } else {
      forall h: HostState, jobs | Unstacked(h.mounts) && ListOver(jobs, kinds)
        ensures ReplayHarmless(h, jobs)
      {
        ReplayKeepsMounts(h, jobs);
      }
    }
  }

  /** A pool mount whose umount fails stacks another mount on every replay. */
  lemma FailedUmountStacks(branches: seq<string>, p: string, options: string)
    ensures var job := Job(MountPool(branches, p, options), ALL_WELL.(umountOk := false));
      var once := RunJobs(HostState([], ""), [job]);
      |Stack(once.mounts, p)| == 1 && |Stack(RunJobs(once, [job]).mounts, p)| == 2
  {
    StackingReplayHarms(Job(MountPool(branches, p, options), ALL_WELL.(umountOk := false)));
  }

  // ---------------------------------------------------------------- reading the fstab

  /** The fields of an fstab line without its newline: what tabs separate. */
  function Fields(line: string): seq<string>
    decreases |line|
  {
    var i := IndexOf(line, '\t');
    if i == |line| then [line] else [line[..i]] + Fields(line[i + 1..])
  }

  lemma TabPosition(field: string, rest: string)
    requires '\t' !in field
    ensures var line := field + ("\t" + rest);
      IndexOf(line, '\t') == |field| < |line| && line[..|field|] == field && line[|field| + 1..] == rest
  {
    var line := field + ("\t" + rest);
    assert line[|field|] == '\t' && forall j | 0 <= j < |field| :: line[j] == field[j];
    var i := IndexOf(line, '\t');
    assert i == |field|;
  }

  lemma {:induction false} FirstField(field: string, rest: string)
    requires '\t' !in field
    ensures Fields(field + ("\t" + rest)) == [field] + Fields(rest)
  {
    TabPosition(field, rest);
  }

  lemma LastField(field: string)
    requires '\t' !in field
    ensures Fields(field) == [field]
  {
    assert IndexOf(field, '\t') == |field|;
  }

  /** An appended line reads back as device, point, filesystem, default options, no dump and no check. */
  lemma {:induction false} FstabLineReadsBack(device: string, point: string, filesystem: string) returns (text: string)
    requires '\t' !in device && '\t' !in point && '\t' !in filesystem
    ensures FstabLine(device, point, filesystem) == text + "\n"
    ensures Fields(text) == [device, point, filesystem, "defaults", "0", "0"]
  {
    var tail := LineTail();
    text := device + ("\t" + (point + ("\t" + (filesystem + ("\t" + tail)))));
    Regroup(device, "\t", point, filesystem, tail, "\n");
    ThreeFields(device, point, filesystem, tail);
    SixItems(device, point, filesystem, "defaults", "0", "0");
  }

  lemma SixItems<T>(a: T, b: T, c: T, d: T, e: T, f: T)
    ensures [a, b, c] + [d, e, f] == [a, b, c, d, e, f]
  {
  }

  /** What follows the filesystem in every appended line. */
  lemma LineTail() returns (tail: string)
    ensures "\tdefaults\t0\t0\n" == "\t" + tail + "\n"
    ensures Fields(tail) == ["defaults", "0", "0"]
  {
    tail := "defaults" + ("\t" + ("0" + ("\t" + "0")));
    TailFields();
  }

  lemma {:induction false} ThreeFields(d: string, p: string, f: string, rest: string)
    requires '\t' !in d && '\t' !in p && '\t' !in f
    ensures Fields(d + ("\t" + (p + ("\t" + (f + ("\t" + rest)))))) == [d, p, f] + Fields(rest)
  {
    var third := f + ("\t" + rest);
    var second := p + ("\t" + third);
    calc {
      Fields(d + ("\t" + second));
      { FirstField(d, second); }
      [d] + Fields(second);
      { FirstField(p, third); }
      [d] + ([p] + Fields(third));
      { FirstField(f, rest); }
      [d] + ([p] + ([f] + Fields(rest)));
      [d, p, f] + Fields(rest);
    }
  }

  lemma Regroup(d: string, t: string, p: string, f: string, tail: string, n: string)
    ensures d + t + p + t + f + (t + tail + n) == d + (t + (p + (t + (f + (t + tail))))) + n
  {
  }

  lemma TailFields()
    ensures Fields("defaults" + ("\t" + ("0" + ("\t" + "0")))) == ["defaults", "0", "0"]
  {
    FirstField("defaults", "0" + ("\t" + "0"));
    FirstField("0", "0");
    LastField("0");
  }

  // ---------------------------------------------------------------- replaying the fstab

  lemma ContainsGrows(text: string, more: string, part: string)
    requires Contains(text, part)
    ensures Contains(text + more, part)
  {
    var i :| 0 <= i <= |text| && OccursAt(text, part, i);
    assert (text + more)[i..i + |part|] == part;
    assert OccursAt(text + more, part, i);
  }

  lemma FstabGrows(h: HostState, job: Job, part: string)
    ensures h.fstab <= After(h, job).fstab
    ensures Contains(h.fstab, part) ==> Contains(After(h, job).fstab, part)
    ensures AddsFstabLine(h, job) ==> |h.fstab| < |After(h, job).fstab| && Contains(After(h, job).fstab, job.op.device)
  {
    if AddsFstabLine(h, job) {
      var line := FstabLine(job.op.device, job.op.point, job.op.filesystem);
      if Contains(h.fstab, part) { ContainsGrows(h.fstab, line, part); }
      assert (h.fstab + line)[|h.fstab|..|h.fstab| + |job.op.device|] == job.op.device;
      assert OccursAt(h.fstab + line, job.op.device, |h.fstab|);
    }
  }

  lemma {:induction false} FstabGrowsOver(h: HostState, jobs: seq<Job>, k: nat, part: string)
    requires k <= |jobs|
    ensures RunJobs(h, jobs[..k]).fstab <= RunJobs(h, jobs).fstab
    ensures Contains(RunJobs(h, jobs[..k]).fstab, part) ==> Contains(RunJobs(h, jobs).fstab, part)
    decreases |jobs| - k
  {
    if k < |jobs| {
      assert jobs[..k + 1][..k] == jobs[..k];
      FstabGrows(RunJobs(h, jobs[..k]), jobs[k], part);
      FstabGrowsOver(h, jobs, k + 1, part);
    } else {
      assert jobs[..k] == jobs;
    }
  }

  /** A disk mount whose own command succeeds leaves its device named in the fstab. */
  lemma {:induction false} SuccessfulMountIsListed(h: HostState, jobs: seq<Job>, k: nat)
    requires k < |jobs| && jobs[k].op.MountDisk?
    requires var io := jobs[k].io; io.mkdirOk && io.commandOk && io.fstabReadable && io.fstabWritable
    ensures Contains(RunJobs(h, jobs).fstab, jobs[k].op.device)
  {
    assert jobs[..k + 1][..k] == jobs[..k];
    FstabGrows(RunJobs(h, jobs[..k]), jobs[k], jobs[k].op.device);
    FstabGrowsOver(h, jobs, k + 1, jobs[k].op.device);
  }

  /**
   Job k of the replay is a disk mount whose own command fails, but its point is in use by now, so it returns success,
   and its device is not in the fstab the first run left.
   */
  ghost predicate LateSuccess(h: HostState, jobs: seq<Job>, k: nat) {
    && k < |jobs| && jobs[k].op.MountDisk?
    && jobs[k].io.mkdirOk && !jobs[k].io.commandOk && jobs[k].io.fstabReadable && jobs[k].io.fstabWritable
    && Seen(RunJobs(RunJobs(h, jobs), jobs[..k]).mounts, jobs[k].op.point, jobs[k].io)
    && !Contains(RunJobs(h, jobs).fstab, jobs[k].op.device)
  }

  lemma {:induction false} QuietPrefix(h: HostState, jobs: seq<Job>, k: nat)
    requires k <= |jobs| && forall j: nat | j < |jobs| :: !LateSuccess(h, jobs, j)
    ensures RunJobs(RunJobs(h, jobs), jobs[..k]).fstab == RunJobs(h, jobs).fstab
  {
    if k > 0 {
      QuietPrefix(h, jobs, k - 1);
      assert jobs[..k][..k - 1] == jobs[..k - 1];
      var before := RunJobs(RunJobs(h, jobs), jobs[..k - 1]);
      assert !LateSuccess(h, jobs, k - 1);
      if AddsFstabLine(before, jobs[k - 1]) && jobs[k - 1].io.commandOk {
        SuccessfulMountIsListed(h, jobs, k - 1);
        assert false;
      }
    }
  }

  lemma {:induction false} LateSuccessAdds(h: HostState, jobs: seq<Job>, k: nat)
    requires LateSuccess(h, jobs, k)
    ensures |RunJobs(RunJobs(h, jobs), jobs).fstab| > |RunJobs(h, jobs).fstab|
  {
    var once := RunJobs(h, jobs);
    var before := RunJobs(once, jobs[..k]);
    FstabGrowsOver(once, jobs[..k], 0, "");
    assert jobs[..k][..0] == [];
    assert jobs[..k + 1][..k] == jobs[..k];
    FstabGrows(before, jobs[k], "");
    FstabGrowsOver(once, jobs, k + 1, "");
    if before.fstab == once.fstab {
      assert AddsFstabLine(before, jobs[k]);
    }
  }

  /** Replaying a job list adds no fstab line exactly when no job is such a late success. Any table, any outcomes. */
  lemma {:induction false} ReplayKeepsFstabIff(h: HostState, jobs: seq<Job>)
    ensures RunJobs(RunJobs(h, jobs), jobs).fstab == RunJobs(h, jobs).fstab
       <==> forall k: nat | k < |jobs| :: !LateSuccess(h, jobs, k)
  {
    if k: nat :| k < |jobs| && LateSuccess(h, jobs, k) {
      LateSuccessAdds(h, jobs, k);
    } else {
      QuietPrefix(h, jobs, |jobs|);
      assert jobs[..|jobs|] == jobs;
    }
  }

  /**
   What late success comes from: a mount that fails by itself, whose point is free at the start and untouched before it,
   while the whole list leaves something mounted there, and whose device the fstab left by the first run does not name.
   */
  ghost predicate Overtaken(h: HostState, jobs: seq<Job>, k: nat) {
    && k < |jobs| && jobs[k].op.MountDisk?
    && jobs[k].io.mkdirOk && jobs[k].io.tableReadable && !jobs[k].io.commandOk
    && jobs[k].io.fstabReadable && jobs[k].io.fstabWritable
    && var p, left := jobs[k].op.point, RunJobs(h, jobs);
       && Stack(h.mounts, p) == []
       && EffectOfAll(jobs[..k], p) == Keep
       && Apply(EffectOfAll(jobs, p), []) != []
       && !Contains(left.fstab, jobs[k].op.device)
  }

  /** A mount of an occupied point whose fstab can be written leaves its device listed. */
  lemma {:induction false} OccupiedMountIsListed(h: HostState, jobs: seq<Job>, k: nat)
    requires k < |jobs| && jobs[k].op.MountDisk?
    requires jobs[k].io.mkdirOk && jobs[k].io.fstabReadable && jobs[k].io.fstabWritable
    requires Seen(RunJobs(h, jobs[..k]).mounts, jobs[k].op.point, jobs[k].io)
    ensures Contains(RunJobs(h, jobs).fstab, jobs[k].op.device)
  {
    assert jobs[..k + 1][..k] == jobs[..k];
    FstabGrows(RunJobs(h, jobs[..k]), jobs[k], jobs[k].op.device);
    FstabGrowsOver(h, jobs, k + 1, jobs[k].op.device);
  }

  lemma {:induction false} LateSuccessIffOvertaken(h: HostState, jobs: seq<Job>, k: nat)
    requires Unstacked(h.mounts) && NoneStacks(jobs)
    ensures LateSuccess(h, jobs, k) <==> Overtaken(h, jobs, k)
  {
    if k < |jobs| && jobs[k].op.MountDisk? {
      var p, once := jobs[k].op.point, RunJobs(h, jobs);
      JobsEffect(h, jobs, p);
      JobsEffect(h, jobs[..k], p);
      JobsEffect(once, jobs[..k], p);
      MountedIffStacked(RunJobs(h, jobs[..k]).mounts, p);
      MountedIffStacked(RunJobs(once, jobs[..k]).mounts, p);
      if LateSuccess(h, jobs, k) && Mounted(RunJobs(h, jobs[..k]).mounts, p) {
        OccupiedMountIsListed(h, jobs, k);
        assert false;
      }
    }
  }

  /** Without stacking mounts and without a point mounted over itself, replaying adds no fstab line exactly when no job is overtaken. */
  lemma {:induction false} ReplayAddsNoLineIff(h: HostState, jobs: seq<Job>)
    requires Unstacked(h.mounts) && NoneStacks(jobs)
    ensures RunJobs(RunJobs(h, jobs), jobs).fstab == RunJobs(h, jobs).fstab
       <==> forall k: nat | k < |jobs| :: !Overtaken(h, jobs, k)
  {
    ReplayKeepsFstabIff(h, jobs);
    forall k: nat | k < |jobs|
      ensures LateSuccess(h, jobs, k) <==> Overtaken(h, jobs, k)
    {
      LateSuccessIffOvertaken(h, jobs, k);
    }
  }

  lemma AbsentChar(text: string, part: string, c: char)
    requires c !in text && c in part
    ensures !Contains(text, part)
  {
    var k :| 0 <= k < |part| && part[k] == c;
    forall i
      ensures !OccursAt(text, part, i)
    {
      if 0 <= i <= |text| - |part| { assert text[i..i + |part|][k] == text[i + k]; }
    }
  }

  /** A mount fails, the next one takes its point, and the replay enlists the first device. */
  lemma {:induction false} SecondMountOvertakes(a: string, b: string, p: string, filesystem: string)
    requires b != "" && !Contains(FstabLine(b, p, filesystem), a)
    ensures var fails := Job(MountDisk(a, p, filesystem), ALL_WELL.(commandOk := false));
      var works := Job(MountDisk(b, p, filesystem), ALL_WELL);
      LateSuccess(HostState([], ""), [fails, works], 0)
  {
    var fails := Job(MountDisk(a, p, filesystem), ALL_WELL.(commandOk := false));
    var works := Job(MountDisk(b, p, filesystem), ALL_WELL);
    var start, jobs := HostState([], ""), [fails, works];
    assert jobs[..1] == [fails] && jobs[..0] == [];
    OneJob(start, fails);
    assert RunJobs(start, jobs) == After(RunJobs(start, jobs[..1]), works);
    assert !Contains("", b) by {
      forall i
        ensures !OccursAt("", b, i)
      {
      }
    }
    var once := RunJobs(start, jobs);
    assert once.mounts == [Mount(Device(b, filesystem), p)] && once.fstab == FstabLine(b, p, filesystem);
    assert once.mounts[0].point == p;
  }

  /** It does happen. */
  lemma {:induction false} ReplayCanAddLine()
    ensures var fails := Job(MountDisk("/dev/sdz", "/mnt/p", "xfs"), ALL_WELL.(commandOk := false));
      var works := Job(MountDisk("/dev/sdb", "/mnt/p", "xfs"), ALL_WELL);
      LateSuccess(HostState([], ""), [fails, works], 0)
  {
    assert "/dev/sdz"[7] == 'z';
    AbsentChar(FstabLine("/dev/sdb", "/mnt/p", "xfs"), "/dev/sdz", 'z');
    SecondMountOvertakes("/dev/sdz", "/dev/sdb", "/mnt/p", "xfs");
  }
}
