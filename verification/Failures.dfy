/** DiskFailure records, opened and resolved by the failure controller. */
module Failures {
  import opened Wrappers
  import opened Api

  datatype Severity = Warning | Critical

  /** The recommended action, for its two texts. */
  datatype Advice = MonitorDisk | ReplaceDisk

  datatype FailurePhase = NoPhaseYet | Detected | Acknowledged | Rebuilding | Resolved

  datatype DiskFailure = DiskFailure(diskRef: string, severity: Severity, reason: string, action: Advice,
                                     phase: FailurePhase, resolvedAtSet: bool)

  predicate IsUnhealthy(p: DiskPhase) {
    p == Degraded || p == Failed
  }

  function SeverityFor(p: DiskPhase): Severity {
    if p == Failed then Critical else Warning
  }

  function ReasonFor(p: DiskPhase, health: real): string {
    if p != Failed then "DISK_DEGRADED" else if health < 0.1 then "SMART_FAILURE" else "SMART_PREFAIL"
  }

  function ActionFor(p: DiskPhase): Advice {
    if p == Failed then ReplaceDisk else MonitorDisk
  }

  function FailureName(disk: string): string {
    disk + "-failure"
  }

  /** One reconcile: the disk's name, phase and health at that moment, and whether the API calls go through. */
  datatype Event = Event(disk: string, phase: DiskPhase, health: real, apiOk: bool)

  class FailureStore {
    var failures: map<string, DiskFailure>

    constructor ()
      ensures failures == map[]
    {
      failures := map[];
    }

    /** Reconcile of the failure controller for an existing disk. */
    method Reconcile(e: Event)
      modifies this
      ensures failures == Step(old(failures), e)
    {
      if e.phase != Degraded && e.phase != Failed {
        ResolveOpenFailures(e);
        return;
      }
      var severity, reason, action := Warning, "DISK_DEGRADED", MonitorDisk;
      if e.phase == Failed {
        severity, reason := Critical, "SMART_PREFAIL";
        if e.health < 0.1 {
          reason := "SMART_FAILURE";
        }
        action := ReplaceDisk;
      }
      var failureName := e.disk + "-failure";
      if !e.apiOk {
        return;
      }
      if failureName !in failures {
        failures := failures[failureName := DiskFailure(e.disk, severity, reason, action, NoPhaseYet, false)];
      } else {
        var existing := failures[failureName];
        if existing.severity != severity {
          existing := existing.(severity := severity, reason := reason);
          failures := failures[failureName := existing];
        }
      }
    }

    method ResolveOpenFailures(e: Event)
      requires !IsUnhealthy(e.phase)
      modifies this
      ensures failures == Step(old(failures), e)
    {
      var failureName := e.disk + "-failure";
      if failureName in failures && e.apiOk {
        var existing := failures[failureName];
        if existing.phase != Resolved {
          failures := failures[failureName := existing.(phase := Resolved, resolvedAtSet := true)];
        }
      }
    }
  }

  function Step(store: map<string, DiskFailure>, e: Event): map<string, DiskFailure> {
    var name := FailureName(e.disk);
    if !e.apiOk then store
    else if IsUnhealthy(e.phase) then
      if name !in store then
        store[name := DiskFailure(e.disk, SeverityFor(e.phase), ReasonFor(e.phase, e.health), ActionFor(e.phase), NoPhaseYet, false)]
      else if store[name].severity != SeverityFor(e.phase) then
        store[name := store[name].(severity := SeverityFor(e.phase), reason := ReasonFor(e.phase, e.health))]
      else store
    else if name in store && store[name].phase != Resolved then
      store[name := store[name].(phase := Resolved, resolvedAtSet := true)]
    else store
  }

  function Run(events: seq<Event>): map<string, DiskFailure> {
    if events == [] then map[] else Step(Run(events[..|events| - 1]), events[|events| - 1])
  }

  // ---------------------------------------------------------------- what the history says

  /** The phase of the disk at its last unhealthy reconcile whose API calls went through. */
  function LastUnhealthy(events: seq<Event>, disk: string): Option<DiskPhase> {
    if events == [] then None
    else
      var e := events[|events| - 1];
      if e.disk == disk && e.apiOk && IsUnhealthy(e.phase) then Some(e.phase)
      else LastUnhealthy(events[..|events| - 1], disk)
  }

  /** The phase of the disk at its first unhealthy reconcile whose API calls went through. */
  function FirstUnhealthy(events: seq<Event>, disk: string): Option<DiskPhase> {
    if events == [] then None
    else
      var earlier := FirstUnhealthy(events[..|events| - 1], disk);
      var e := events[|events| - 1];
      if earlier.None? && e.disk == disk && e.apiOk && IsUnhealthy(e.phase) then Some(e.phase) else earlier
  }

  /** A healthy reconcile went through after an unhealthy one. */
  predicate HasRecovered(events: seq<Event>, disk: string) {
    if events == [] then false
    else
      var init, e := events[..|events| - 1], events[|events| - 1];
      HasRecovered(init, disk) || (e.disk == disk && e.apiOk && !IsUnhealthy(e.phase) && LastUnhealthy(init, disk).Some?)
  }

  /** warning goes with DISK_DEGRADED, critical with a SMART reason. */
  predicate ReasonMatches(f: DiskFailure) {
    match f.severity
    case Warning => f.reason == "DISK_DEGRADED"
    case Critical => f.reason == "SMART_PREFAIL" || f.reason == "SMART_FAILURE"
  }

  lemma NameIsInjective(a: string, b: string)
    ensures FailureName(a) == FailureName(b) ==> a == b
  {
    if FailureName(a) == FailureName(b) {
      assert |a| == |b|;
      assert FailureName(a)[..|a|] == a && FailureName(b)[..|b|] == b;
    }
  }

  /**
   After any history a disk has a record exactly when some unhealthy reconcile went through. Its severity is that of the
   last such reconcile, its advice that of the first, and it is Resolved exactly when the disk recovered once since.
   */
  lemma {:induction false} RecordTellsHistory(events: seq<Event>, disk: string)
    ensures var name, store := FailureName(disk), Run(events);
      && (name in store <==> LastUnhealthy(events, disk).Some?)
      && (FirstUnhealthy(events, disk).Some? <==> LastUnhealthy(events, disk).Some?)
      && (name in store ==>
            && store[name].diskRef == disk
            && store[name].severity == (if LastUnhealthy(events, disk).value == Failed then Critical else Warning)
            && ReasonMatches(store[name])
            && store[name].action == (if FirstUnhealthy(events, disk).value == Failed then ReplaceDisk else MonitorDisk)
            && store[name].phase == (if HasRecovered(events, disk) then Resolved else NoPhaseYet)
            && (store[name].resolvedAtSet <==> store[name].phase == Resolved))
  {
    if events != [] {
      RecordTellsHistory(events[..|events| - 1], disk);
      NameIsInjective(events[|events| - 1].disk, disk);
      if HasRecovered(events[..|events| - 1], disk) { RecoveredWasUnhealthy(events[..|events| - 1], disk); }
    }
  }

  /** The unhealthy reconcile at which the record got its present severity: the first of the last stretch of equal phases. */
  function SeverityEvent(events: seq<Event>, disk: string): Option<Event> {
    if events == [] then None
    else
      var init, e := events[..|events| - 1], events[|events| - 1];
      if e.disk == disk && e.apiOk && (e.phase == Degraded || e.phase == Failed) && LastUnhealthy(init, disk) != Some(e.phase) then Some(e)
      else SeverityEvent(init, disk)
  }

  /**
   After any history the reason is that of the reconcile at which the record got its present severity: for a Failed disk
   SMART_FAILURE exactly if its health was below 0.1 at that time, whatever it has become since.
   */
  lemma {:induction false} ReasonTellsHistory(events: seq<Event>, disk: string)
    requires disk + "-failure" in Run(events)
    ensures var e := SeverityEvent(events, disk);
      && e.Some? && LastUnhealthy(events, disk) == Some(e.value.phase)
      && Run(events)[disk + "-failure"].reason
         == if e.value.phase != Failed then "DISK_DEGRADED" else if e.value.health < 0.1 then "SMART_FAILURE" else "SMART_PREFAIL"
  {
    var init, e := events[..|events| - 1], events[|events| - 1];
    NameIsInjective(e.disk, disk);
    RecordTellsHistory(init, disk);
    LastIsUnhealthy(init, disk);
    if FailureName(disk) in Run(init) {
      ReasonTellsHistory(init, disk);
    }
  }

  /** What one reconcile whose API calls go through does, by the disk's phase alone: open or update, or resolve if there is a record. */
  lemma {:induction false} ReconcileByPhase(store: map<string, DiskFailure>, e: Event)
    requires e.apiOk
    ensures var after, name := Step(store, e), e.disk + "-failure";
      && after - {name} == store - {name}
      && (e.phase == Degraded ==> name in after && after[name].severity == Warning)
      && (e.phase == Failed ==> name in after && after[name].severity == Critical)
      && (e.phase == Degraded || e.phase == Failed ==>
            after[name].phase == if name in store then store[name].phase else NoPhaseYet)
      && (e.phase != Degraded && e.phase != Failed ==>
            && (name in after <==> name in store)
            && (name in after ==> after[name] == store[name].(phase := Resolved, resolvedAtSet := after[name].resolvedAtSet)))
  {
  }

  lemma {:induction false} RecoveredWasUnhealthy(events: seq<Event>, disk: string)
    requires HasRecovered(events, disk)
    ensures LastUnhealthy(events, disk).Some?
  {
    if HasRecovered(events[..|events| - 1], disk) {
      RecoveredWasUnhealthy(events[..|events| - 1], disk);
    }
  }

  /** Each record belongs to the disk its name is made from, so no disk has two. */
  lemma {:induction false} OneRecordPerDisk(events: seq<Event>, m: string, n: string)
    requires m in Run(events) && n in Run(events) && Run(events)[m].diskRef == Run(events)[n].diskRef
    ensures m == n
  {
    NamedAfterDisk(events, m);
    NamedAfterDisk(events, n);
  }

  lemma {:induction false} NamedAfterDisk(events: seq<Event>, n: string)
    requires n in Run(events)
    ensures n == FailureName(Run(events)[n].diskRef)
  {
    var init := events[..|events| - 1];
    if n in Run(init) {
      NamedAfterDisk(init, n);
    }
  }

  /** Resolved is never left: a later degradation changes the severity of the record but does not reopen it. */
  lemma {:induction false} ResolvedIsFinal(events: seq<Event>, later: seq<Event>, name: string)
    requires name in Run(events) && Run(events)[name].phase == Resolved
    ensures name in Run(events + later) && Run(events + later)[name].phase == Resolved
  {
    if later == [] {
      assert events + later == events;
    } else {
      var init := later[..|later| - 1];
      ResolvedIsFinal(events, init, name);
      assert (events + later)[..|events + later| - 1] == events + init;
    }
  }

  /** The advice of a record fits its severity exactly when the first and the last unhealthy phase agree. */
  lemma {:induction false} AdviceFitsIff(events: seq<Event>, disk: string)
    requires FailureName(disk) in Run(events)
    ensures var f := Run(events)[FailureName(disk)];
      f.action == (if f.severity == Critical then ActionFor(Failed) else ActionFor(Degraded))
      <==> FirstUnhealthy(events, disk) == LastUnhealthy(events, disk)
  {
    RecordTellsHistory(events, disk);
    LastIsUnhealthy(events, disk);
  }

  lemma {:induction false} LastIsUnhealthy(events: seq<Event>, disk: string)
    ensures LastUnhealthy(events, disk).Some? ==> IsUnhealthy(LastUnhealthy(events, disk).value)
    ensures FirstUnhealthy(events, disk).Some? ==> IsUnhealthy(FirstUnhealthy(events, disk).value)
  {
    if events != [] {
      LastIsUnhealthy(events[..|events| - 1], disk);
    }
  }
}
