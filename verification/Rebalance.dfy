/** Rebalance jobs and the imbalance test. */
module Rebalance {
  import opened Wrappers
  import Api

  // ---------------------------------------------------------------- isImbalanced

  /** Used share of the capacity in percent. */
  function Utilization(d: Api.Disk): real
    requires d.status.capacity > 0
  {
    (d.status.capacity - d.status.available) as real / d.status.capacity as real * 100.0
  }

  /** Two disks with positive capacity differ in utilisation by more than the threshold, which is positive. */
  ghost predicate Imbalanced(disks: seq<Api.Disk>, threshold: int) {
    threshold > 0 &&
    exists x, y :: x in disks && y in disks && x.status.capacity > 0 && y.status.capacity > 0
                   && Utilization(x) - Utilization(y) > threshold as real
  }

  /** One min/max scan answers the question over all pairs. */
  method IsImbalanced(disks: seq<Api.Disk>, threshold: int) returns (imbalanced: bool)
    ensures imbalanced <==> Imbalanced(disks, threshold)
  {
    if |disks| < 2 || threshold <= 0 {
      FewDisksAreBalanced(disks, threshold);
      return false;
    }
    var utilizations: seq<real> := [];
    ghost var from: seq<Api.Disk> := [];
    for i := 0 to |disks|
      invariant |from| == |utilizations|
      invariant forall k | 0 <= k < |from| :: from[k] in disks && from[k].status.capacity > 0 && utilizations[k] == Utilization(from[k])
      invariant forall k | 0 <= k < i && disks[k].status.capacity > 0 :: disks[k] in from
    {
      var d := disks[i];
      if d.status.capacity > 0 {
        var used := d.status.capacity - d.status.available;
        utilizations := utilizations + [used as real / d.status.capacity as real * 100.0];
        from := from + [d];
      }
    }
    if |utilizations| < 2 {
      forall x, y | x in disks && y in disks && x.status.capacity > 0 && y.status.capacity > 0
        ensures Utilization(x) == Utilization(y)
      {
        assert x in from && y in from;
      }
      return false;
    }
    var min, max := utilizations[0], utilizations[0];
    ghost var lo, hi := 0, 0;
    for i := 1 to |utilizations|
      invariant 0 <= lo < i && 0 <= hi < i && min == utilizations[lo] && max == utilizations[hi]
      invariant forall k | 0 <= k < i :: min <= utilizations[k] <= max
    {
      var u := utilizations[i];
      if u < min {
        min, lo := u, i;
      }
      if u > max {
        max, hi := u, i;
      }
    }
    var spread := if max - min >= 0.0 then max - min else min - max;
    imbalanced := spread > threshold as real;
    ExtremesDecide(disks, threshold, from, utilizations, lo, hi);
  }

  lemma FewDisksAreBalanced(disks: seq<Api.Disk>, threshold: int)
    requires |disks| < 2 || threshold <= 0
    ensures !Imbalanced(disks, threshold)
  {
  }

  lemma ExtremesDecide(disks: seq<Api.Disk>, threshold: int, from: seq<Api.Disk>, utilizations: seq<real>, lo: nat, hi: nat)
    requires threshold > 0 && |from| == |utilizations| && lo < |from| && hi < |from|
    requires forall k | 0 <= k < |from| :: from[k] in disks && from[k].status.capacity > 0 && utilizations[k] == Utilization(from[k])
    requires forall d | d in disks && d.status.capacity > 0 :: d in from
    requires forall k | 0 <= k < |from| :: utilizations[lo] <= utilizations[k] <= utilizations[hi]
    ensures utilizations[hi] - utilizations[lo] > threshold as real <==> Imbalanced(disks, threshold)
  {
    if utilizations[hi] - utilizations[lo] > threshold as real {
      assert from[hi] in disks && from[lo] in disks;
    }
    forall x, y | x in disks && y in disks && x.status.capacity > 0 && y.status.capacity > 0
      ensures Utilization(x) - Utilization(y) <= utilizations[hi] - utilizations[lo]
    {
      var i :| 0 <= i < |from| && from[i] == x;
      var j :| 0 <= j < |from| && from[j] == y;
    }
  }

  /** The answer depends only on which disks are listed, not on their order. */
  lemma OrderDoesNotMatter(a: seq<Api.Disk>, b: seq<Api.Disk>, threshold: int)
    requires forall d :: d in a <==> d in b
    ensures Imbalanced(a, threshold) <==> Imbalanced(b, threshold)
  {
  }

  /** A larger positive threshold never turns a balanced list into an imbalanced one. */
  lemma LargerThresholdTolerates(disks: seq<Api.Disk>, small: int, large: int)
    requires 0 < small <= large && Imbalanced(disks, large)
    ensures Imbalanced(disks, small)
  {
    var x, y :| x in disks && y in disks && x.status.capacity > 0 && y.status.capacity > 0
                && Utilization(x) - Utilization(y) > large as real;
    assert Utilization(x) - Utilization(y) > small as real;
  }

  // ---------------------------------------------------------------- the job

  datatype JobPhase = Unset | Pending | Planning | Running | Completed | Failed

  datatype JobSpec = JobSpec(dryRun: bool, threshold: int)

  datatype JobStatus = JobStatus(phase: JobPhase, startTime: Option<int>, completionTime: Option<int>)

  /** What one reconcile finds: whether pool and policy resolve, the member disks that do, the clock, the write. */
  datatype Found = Found(poolFound: bool, policyFound: bool, disks: seq<Api.Disk>, now: int, writeOk: bool)

  predicate Terminal(p: JobPhase) {
    p == Completed || p == Failed
  }

  class Job {
    const spec: JobSpec
    var status: JobStatus

    constructor (spec: JobSpec, status: JobStatus)
      ensures this.spec == spec && this.status == status
    {
      this.spec, this.status := spec, status;
    }

    method Reconcile(f: Found)
      modifies this
      ensures status == Step(spec, f, old(status))
    {
      if status.phase == Completed || status.phase == Failed {
        return;
      }
      if !f.poolFound {
        SetJobPhase(Failed, f);
        return;
      }
      if !f.policyFound {
        SetJobPhase(Failed, f);
        return;
      }
      if |f.disks| < 2 {
        SetJobPhase(Completed, f);
        return;
      }
      var imbalanced := IsImbalanced(f.disks, spec.threshold);
      if !imbalanced {
        SetJobPhase(Completed, f);
        return;
      }
      if status.phase == Pending {
        SetJobPhase(Planning, f);
        return;
      }
      if spec.dryRun {
        SetJobPhase(Completed, f);
        return;
      }
      SetJobPhase(Running, f);
    }

    method SetJobPhase(phase: JobPhase, f: Found)
      modifies this
      ensures status == if f.writeOk then WithPhase(old(status), phase, f.now) else old(status)
    {
      var st := status.(phase := phase);
      if phase == Running && st.startTime == None {
        st := st.(startTime := Some(f.now));
      }
      if phase == Completed || phase == Failed {
        st := st.(completionTime := Some(f.now));
      }
      if f.writeOk {
        status := st;
      }
    }
  }

  function WithPhase(st: JobStatus, phase: JobPhase, now: int): JobStatus {
    JobStatus(phase,
              if phase == Running && st.startTime == None then Some(now) else st.startTime,
              if Terminal(phase) then Some(now) else st.completionTime)
  }

  /** There is something to move: pool, policy and two disks that are imbalanced. */
  ghost predicate WorkToDo(spec: JobSpec, f: Found) {
    f.poolFound && f.policyFound && Imbalanced(f.disks, spec.threshold)
  }

  ghost function TargetPhase(spec: JobSpec, f: Found, phase: JobPhase): JobPhase {
    if !f.poolFound || !f.policyFound then Failed
    else if !WorkToDo(spec, f) then Completed
    else if phase == Pending then Planning
    else if spec.dryRun then Completed
    else Running
  }

  ghost function Step(spec: JobSpec, f: Found, st: JobStatus): JobStatus {
    if Terminal(st.phase) || !f.writeOk then st else WithPhase(st, TargetPhase(spec, f, st.phase), f.now)
  }

  ghost predicate Fresh(st: JobStatus) {
    (st.phase == Unset || st.phase == Pending) && st.startTime == None && st.completionTime == None
  }

  ghost predicate IsRun(spec: JobSpec, found: seq<Found>, trace: seq<JobStatus>) {
    && |trace| == |found| + 1 && Fresh(trace[0])
    && forall i | 0 <= i < |found| :: trace[i + 1] == Step(spec, found[i], trace[i])
  }

  function Rank(p: JobPhase): nat {
    match p
    case Unset => 0
    case Pending => 0
    case Planning => 1
    case Running => 2
    case _ => 3
  }

  /** What holds at every point of every run from a fresh status. */
  lemma {:induction false} TimesTellPhases(spec: JobSpec, found: seq<Found>, trace: seq<JobStatus>, i: nat)
    requires IsRun(spec, found, trace) && i < |trace|
    ensures trace[i].completionTime.Some? <==> Terminal(trace[i].phase)
    ensures trace[i].startTime.Some? <==> exists k :: 0 <= k <= i && trace[k].phase == Running
    ensures spec.dryRun ==> trace[i].phase != Running && trace[i].startTime == None
  {
    if i > 0 {
      TimesTellPhases(spec, found, trace, i - 1);
      assert trace[i] == Step(spec, found[i - 1], trace[i - 1]);
      if trace[i].phase == Running { assert exists k :: 0 <= k <= i && trace[k].phase == Running; }
    }
  }

  /** Phases only move forward, terminal statuses stay as they are, and a start time never changes. */
  lemma {:induction false} OnlyForward(spec: JobSpec, found: seq<Found>, trace: seq<JobStatus>, i: nat, j: nat)
    requires IsRun(spec, found, trace) && i <= j < |trace|
    ensures Rank(trace[i].phase) <= Rank(trace[j].phase)
    ensures Rank(trace[i].phase) == Rank(trace[j].phase) ==> trace[i].phase == trace[j].phase
    ensures Terminal(trace[i].phase) ==> trace[j] == trace[i]
    ensures trace[i].startTime.Some? ==> trace[j].startTime == trace[i].startTime
    decreases j
  {
    if i < j {
      OnlyForward(spec, found, trace, i, j - 1);
      assert trace[j] == Step(spec, found[j - 1], trace[j - 1]);
    }
  }

  /** A dry run is over after two reconciles whose writes go through; a job without work after one. */
  lemma {:induction false} DryRunEnds(spec: JobSpec, f: Found, g: Found, st: JobStatus)
    requires f.writeOk && g.writeOk
    ensures !WorkToDo(spec, f) ==> Terminal(Step(spec, f, st).phase)
    ensures spec.dryRun ==> Terminal(Step(spec, g, Step(spec, f, st)).phase)
  {
  }

  // ---------------------------------------------------------------- which phase

  /**
   What a reconcile with an accepted write makes of a job that is not over: Failed exactly when pool or policy is missing;
   otherwise Completed when the disks are balanced or a dry run is past Pending, Planning when Pending, Running else.
   */
  lemma {:induction false} NextPhase(spec: JobSpec, f: Found, st: JobStatus)
    requires st.phase != Completed && st.phase != Failed && f.writeOk
    ensures var phase, found := Step(spec, f, st).phase, f.poolFound && f.policyFound;
      && (phase == Failed <==> !f.poolFound || !f.policyFound)
      && (phase == Completed <==> found && (!Imbalanced(f.disks, spec.threshold) || (spec.dryRun && st.phase != Pending)))
      && (phase == Planning <==> found && Imbalanced(f.disks, spec.threshold) && st.phase == Pending)
      && (phase == Running <==> found && Imbalanced(f.disks, spec.threshold) && st.phase != Pending && !spec.dryRun)
  {
  }

  /** A refused write changes nothing, and neither does a reconcile of a job that is over. */
  lemma {:induction false} StaysPut(spec: JobSpec, f: Found, st: JobStatus)
    requires st.phase == Completed || st.phase == Failed || !f.writeOk
    ensures Step(spec, f, st) == st
  {
  }

  /** Reconcile j is the one that ended the job. */
  ghost predicate EndsAt(found: seq<Found>, trace: seq<JobStatus>, j: int) {
    && 0 <= j < |found| && j + 1 < |trace|
    && trace[j].phase != Completed && trace[j].phase != Failed
    && (trace[j + 1].phase == Completed || trace[j + 1].phase == Failed)
  }

  /** In every run a job is over at i exactly when one earlier reconcile ended it; it then looks as that reconcile left it. */
  lemma {:induction false} OverMeansEnded(spec: JobSpec, found: seq<Found>, trace: seq<JobStatus>, i: nat)
    requires IsRun(spec, found, trace) && i < |trace|
    ensures trace[i].phase == Completed || trace[i].phase == Failed
       <==> exists j :: j < i && EndsAt(found, trace, j) && trace[j + 1] == trace[i]
  {
    if i > 0 && (trace[i].phase == Completed || trace[i].phase == Failed) {
      assert trace[i] == Step(spec, found[i - 1], trace[i - 1]);
      if trace[i - 1].phase == Completed || trace[i - 1].phase == Failed {
        OverMeansEnded(spec, found, trace, i - 1);
        var j :| j < i - 1 && EndsAt(found, trace, j) && trace[j + 1] == trace[i - 1];
        assert trace[j + 1] == trace[i];
      } else {
        assert EndsAt(found, trace, i - 1);
      }
    }
  }

  /**
   How and when a job ended: it is Failed exactly if the reconcile that ended it found the pool or the policy missing, and
   its completion time is the time of that reconcile.
   */
  lemma {:induction false} EndTellsWhy(spec: JobSpec, found: seq<Found>, trace: seq<JobStatus>, j: nat, i: nat)
    requires IsRun(spec, found, trace) && j < i < |trace| && EndsAt(found, trace, j)
    ensures trace[i].phase == Failed <==> !found[j].poolFound || !found[j].policyFound
    ensures trace[i].phase == Completed
       <==> found[j].poolFound && found[j].policyFound
            && (!Imbalanced(found[j].disks, spec.threshold) || (spec.dryRun && trace[j].phase != Pending))
    ensures trace[i].completionTime == Some(found[j].now)
  {
    assert trace[j + 1] == Step(spec, found[j], trace[j]);
    assert found[j].writeOk;
    NextPhase(spec, found[j], trace[j]);
    OnlyForward(spec, found, trace, j + 1, i);
  }

  /** In every run a job is Failed at i exactly when an earlier reconcile ended it that found the pool or the policy missing. */
  lemma {:induction false} FailedIffMissing(spec: JobSpec, found: seq<Found>, trace: seq<JobStatus>, i: nat)
    requires IsRun(spec, found, trace) && i < |trace|
    ensures trace[i].phase == Failed
       <==> exists j :: j < i && EndsAt(found, trace, j) && (!found[j].poolFound || !found[j].policyFound)
  {
    if j :| j < i && EndsAt(found, trace, j) && (!found[j].poolFound || !found[j].policyFound) {
      EndTellsWhy(spec, found, trace, j, i);
    }
    if trace[i].phase == Failed {
      OverMeansEnded(spec, found, trace, i);
      var j :| j < i && EndsAt(found, trace, j) && trace[j + 1] == trace[i];
      EndTellsWhy(spec, found, trace, j, i);
    }
  }

  /** The start time is the time of the first reconcile that made the job Running. */
  lemma {:induction false} StartTellsWhen(spec: JobSpec, found: seq<Found>, trace: seq<JobStatus>, j: nat, i: nat)
    requires IsRun(spec, found, trace) && j < i < |trace|
    requires trace[j + 1].phase == Running && forall k | 0 <= k <= j :: trace[k].phase != Running
    ensures trace[i].startTime == Some(found[j].now)
  {
    TimesTellPhases(spec, found, trace, j);
    assert trace[j].startTime == None;
    assert trace[j + 1] == Step(spec, found[j], trace[j]);
    OnlyForward(spec, found, trace, j + 1, i);
  }

  /** Utilisation is in percent: multiplied out, two disks differ by more than the threshold exactly when this holds of their bytes. */
  lemma {:induction false} ImbalancedInBytes(disks: seq<Api.Disk>, threshold: int)
    ensures Imbalanced(disks, threshold)
       <==> threshold > 0 && exists x, y :: x in disks && y in disks && x.status.capacity > 0 && y.status.capacity > 0 && MoreUsed(x, y, threshold)
  {
    forall x, y | x in disks && y in disks && x.status.capacity > 0 && y.status.capacity > 0
      ensures Utilization(x) - Utilization(y) > threshold as real <==> MoreUsed(x, y, threshold)
    {
      PercentInBytes(x, y, threshold);
    }
  }

  predicate MoreUsed(x: Api.Disk, y: Api.Disk, threshold: int) {
    var usedX, usedY := x.status.capacity - x.status.available, y.status.capacity - y.status.available;
    100 * (usedX * y.status.capacity - usedY * x.status.capacity) > threshold * (x.status.capacity * y.status.capacity)
  }

  lemma PercentInBytes(x: Api.Disk, y: Api.Disk, threshold: int)
    requires x.status.capacity > 0 && y.status.capacity > 0
    ensures Utilization(x) - Utilization(y) > threshold as real <==> MoreUsed(x, y, threshold)
  {
    var a, c := (x.status.capacity - x.status.available) as real, x.status.capacity as real;
    var b, d := (y.status.capacity - y.status.available) as real, y.status.capacity as real;
    Multiplied(a, c, b, d, threshold as real);
    RealProducts(x.status.capacity - x.status.available, y.status.capacity, y.status.capacity - y.status.available, x.status.capacity, threshold);
  }

  lemma RealProducts(usedX: int, capY: int, usedY: int, capX: int, threshold: int)
    ensures (100 * (usedX * capY - usedY * capX)) as real == 100.0 * (usedX as real * capY as real - usedY as real * capX as real)
    ensures (threshold * (capX * capY)) as real == threshold as real * (capX as real * capY as real)
  {
    RealProduct(usedX, capY);
    RealProduct(usedY, capX);
    RealProduct(capX, capY);
    RealProduct(threshold, capX * capY);
  }

  lemma RealProduct(m: int, n: int)
    ensures (m * n) as real == m as real * n as real
  {
  }

  lemma Multiplied(a: real, c: real, b: real, d: real, t: real)
    requires c > 0.0 && d > 0.0
    ensures a / c * 100.0 - b / d * 100.0 > t <==> 100.0 * (a * d - b * c) > t * (c * d)
  {
    var p, q := a / c, b / d;
    assert a == p * c && b == q * d;
    assert a * d == p * (c * d) && b * c == q * (c * d);
    var e, k := (p - q) * 100.0 - t, c * d;
    assert k > 0.0;
    assert 100.0 * (a * d - b * c) - t * k == e * k;
    SignOfProduct(e, k);
  }

  lemma SignOfProduct(e: real, k: real)
    requires k > 0.0
    ensures e * k > 0.0 <==> e > 0.0
  {
  }
}
