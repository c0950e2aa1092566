/** From the SMART attribute table to a health score, a disk phase and a failure severity. */
module Smart {
  import opened Wrappers
  import opened Api
  import F = Failures

  datatype Attribute = Attribute(id: int, raw: int)

  datatype Output = Output(passed: bool, rotationRate: int, temperature: int, table: seq<Attribute>, percentageUsed: int)

  datatype Counters = Counters(reallocated: int, pending: int, uncorrectable: int, spinRetry: int, commandTimeout: int)

  datatype Health = Health(smartFailed: bool, rotational: bool, temperature: int, counters: Counters, percentUsed: int)

  const ZERO := Counters(0, 0, 0, 0, 0)

  function Record(c: Counters, a: Attribute): Counters {
    match a.id
    case 5 => c.(reallocated := a.raw)
    case 187 => c.(uncorrectable := a.raw)
    case 197 => c.(pending := a.raw)
    case 198 => if a.raw > c.uncorrectable then c.(uncorrectable := a.raw) else c
    case 10 => c.(spinRetry := a.raw)
    case 188 => c.(commandTimeout := a.raw)
    case _ => c
  }

  function CountersOf(table: seq<Attribute>): Counters {
    if table == [] then ZERO else Record(CountersOf(table[..|table| - 1]), table[|table| - 1])
  }

  /** The raw value last listed under an ID, 0 when it is not listed. */
  function Raw(table: seq<Attribute>, id: int): int {
    if table == [] then 0
    else if table[|table| - 1].id == id then table[|table| - 1].raw
    else Raw(table[..|table| - 1], id)
  }

  /** The attribute fold of QueryDisk. */
  method ParseAttributes(table: seq<Attribute>) returns (c: Counters)
    ensures c == CountersOf(table)
  {
    c := ZERO;
    for i := 0 to |table|
      invariant c == CountersOf(table[..i])
    {
      assert table[..i + 1][..i] == table[..i];
      var attr := table[i];
      match attr.id {
        case 5 => c := c.(reallocated := attr.raw);
        case 187 => c := c.(uncorrectable := attr.raw);
        case 196 =>
        case 197 => c := c.(pending := attr.raw);
        case 198 =>
          if attr.raw > c.uncorrectable {
            c := c.(uncorrectable := attr.raw);
          }
        case 10 => c := c.(spinRetry := attr.raw);
        case 188 => c := c.(commandTimeout := attr.raw);
        case _ =>
      }
    }
    assert table[..|table|] == table;
  }

  /** QueryDisk, given what smartctl printed if it can be read. */
  method QueryDisk(printed: Option<Output>) returns (r: Result<(Health, real)>)
    ensures r.Failure? <==> printed.None?
    ensures r.Success? ==> r.value == (HealthOf(printed.value), Score(HealthOf(printed.value)))
  {
    if printed.None? {
      return Failure("no usable smartctl output");
    }
    var out := printed.value;
    var counters := ParseAttributes(out.table);
    var h := Health(!out.passed, out.rotationRate > 0, out.temperature, counters, out.percentageUsed);
    var score := ComputeHealthScore(h);
    return Success((h, score));
  }

  function HealthOf(out: Output): Health {
    Health(!out.passed, out.rotationRate > 0, out.temperature, CountersOf(out.table), out.percentageUsed)
  }

  /** ComputeHealthScore, on exact decimals. */
  method ComputeHealthScore(h: Health) returns (score: real)
    ensures score == Score(h)
  {
    score := 1.0;
    if h.smartFailed {
      score := score - 0.6;
    }
    if h.counters.reallocated > 0 {
      var penalty := Min(0.3, h.counters.reallocated as real * 0.01);
      score := score - penalty;
    }
    if h.counters.pending > 0 {
      var penalty := Min(0.4, h.counters.pending as real * 0.05);
      score := score - penalty;
    }
    if h.counters.uncorrectable > 0 {
      var penalty := Min(0.5, h.counters.uncorrectable as real * 0.1);
      score := score - penalty;
    }
    if h.rotational && h.temperature > 55 {
      score := score - (h.temperature - 55) as real * 0.02;
    }
    if !h.rotational && h.percentUsed > 0 {
      score := score - h.percentUsed as real * 0.005;
    }
    score := Max(0.0, Min(1.0, score));
  }

  function Min(x: real, y: real): real {
    if x <= y then x else y
  }

  function Max(x: real, y: real): real {
    if x >= y then x else y
  }

  /** A capped linear penalty, nothing for counts that are not positive. */
  function Capped(count: int, each: real, most: real): real {
    if count > 0 then Min(most, count as real * each) else 0.0
  }

  function Penalty(h: Health): real {
    (if h.smartFailed then 0.6 else 0.0)
    + Capped(h.counters.reallocated, 0.01, 0.3)
    + Capped(h.counters.pending, 0.05, 0.4)
    + Capped(h.counters.uncorrectable, 0.1, 0.5)
    + (if h.rotational then (if h.temperature > 55 then (h.temperature - 55) as real * 0.02 else 0.0)
       else if h.percentUsed > 0 then h.percentUsed as real * 0.005 else 0.0)
  }

  /** One minus the penalties, clamped to [0, 1]. */
  function Score(h: Health): real {
    Max(0.0, Min(1.0, 1.0 - Penalty(h)))
  }

  // ---------------------------------------------------------------- the attribute fold

  ghost predicate DistinctIds(table: seq<Attribute>) {
    forall i, j | 0 <= i < j < |table| :: table[i].id != table[j].id
  }

  ghost predicate AscendingIds(table: seq<Attribute>) {
    forall i, j | 0 <= i < j < |table| :: table[i].id < table[j].id
  }

  ghost predicate NonNegative(table: seq<Attribute>) {
    forall i | 0 <= i < |table| :: table[i].raw >= 0
  }

  /** Attribute 187 is listed somewhere after 198. */
  ghost predicate ReportedAfterOffline(table: seq<Attribute>) {
    exists i, j :: 0 <= i < j < |table| && table[i].id == 198 && table[j].id == 187
  }

  lemma {:induction false} RawIsListed(table: seq<Attribute>, id: int)
    requires NonNegative(table)
    ensures Raw(table, id) >= 0
    ensures (forall i | 0 <= i < |table| :: table[i].id != id) ==> Raw(table, id) == 0
  {
    if table != [] {
      RawIsListed(table[..|table| - 1], id);
    }
  }

  /** Each plain counter is the raw value of its attribute. */
  lemma {:induction false} PlainCounters(table: seq<Attribute>)
    ensures var c := CountersOf(table);
      && c.reallocated == Raw(table, 5) && c.pending == Raw(table, 197)
      && c.spinRetry == Raw(table, 10) && c.commandTimeout == Raw(table, 188)
  {
    if table != [] {
      PlainCounters(table[..|table| - 1]);
    }
  }

  lemma {:induction false} UncorrectableCases(table: seq<Attribute>)
    requires DistinctIds(table) && NonNegative(table)
    ensures var u := CountersOf(table).uncorrectable;
      if ReportedAfterOffline(table) then u == Raw(table, 187)
      else u == if Raw(table, 187) >= Raw(table, 198) then Raw(table, 187) else Raw(table, 198)
  {
    if table != [] {
      var n := |table| - 1;
      var init := table[..n];
      assert forall i | 0 <= i < n :: init[i] == table[i];
      UncorrectableCases(init);
      RawIsListed(init, 187);
      RawIsListed(init, 198);
      if table[n].id == 187 {
        assert forall i | 0 <= i < n :: init[i].id != 187;
        if i :| 0 <= i < n && table[i].id == 198 { assert ReportedAfterOffline(table); }
      } else if table[n].id == 198 {
        assert forall i | 0 <= i < n :: init[i].id != 198;
        assert !ReportedAfterOffline(init) && !ReportedAfterOffline(table);
      } else {
        assert ReportedAfterOffline(table) <==> ReportedAfterOffline(init);
      }
    }
  }

  /** The fold yields the larger of attributes 187 and 198 unless 187 comes after a larger 198. */
  lemma {:induction false} UncorrectableIsLargerIff(table: seq<Attribute>)
    requires DistinctIds(table) && NonNegative(table)
    ensures CountersOf(table).uncorrectable == (if Raw(table, 187) >= Raw(table, 198) then Raw(table, 187) else Raw(table, 198))
       <==> !(ReportedAfterOffline(table) && Raw(table, 198) > Raw(table, 187))
  {
    UncorrectableCases(table);
  }

  lemma {:induction false} AscendingUncorrectable(table: seq<Attribute>)
    requires AscendingIds(table) && NonNegative(table)
    ensures CountersOf(table).uncorrectable == if Raw(table, 187) >= Raw(table, 198) then Raw(table, 187) else Raw(table, 198)
  {
    UncorrectableCases(table);
  }

  // ---------------------------------------------------------------- worse data never helps

  /** The same disk with no counter smaller, no SMART failure healed, and no more favourable temperature or wear. */
  ghost predicate Worse(h: Health, k: Health) {
    && h.rotational == k.rotational
    && (h.smartFailed ==> k.smartFailed)
    && h.counters.reallocated <= k.counters.reallocated
    && h.counters.pending <= k.counters.pending
    && h.counters.uncorrectable <= k.counters.uncorrectable
    && (h.rotational ==> h.temperature <= k.temperature)
    && (!h.rotational ==> h.percentUsed <= k.percentUsed)
  }

  ghost predicate WorseTable(a: seq<Attribute>, b: seq<Attribute>) {
    |a| == |b| && forall i | 0 <= i < |a| :: a[i].id == b[i].id && a[i].raw <= b[i].raw
  }

  lemma {:induction false} WorseTableIsWorse(a: seq<Attribute>, b: seq<Attribute>)
    requires WorseTable(a, b)
    ensures var c, d := CountersOf(a), CountersOf(b);
      c.reallocated <= d.reallocated && c.pending <= d.pending && c.uncorrectable <= d.uncorrectable
  {
    if a != [] {
      var n := |a| - 1;
      assert forall i | 0 <= i < n :: a[..n][i] == a[i] && b[..n][i] == b[i];
      WorseTableIsWorse(a[..n], b[..n]);
    }
  }

  lemma ScoreRange(h: Health)
    ensures 0.0 <= Score(h) <= 1.0
  {
  }

  lemma CappedGrows(m: int, n: int, each: real, most: real)
    requires m <= n && each > 0.0 && most >= 0.0
    ensures Capped(m, each, most) <= Capped(n, each, most)
  {
    assert (n as real - m as real) * each >= 0.0;
    if n > 0 { assert n as real * each > 0.0; }
  }

  lemma ScoreFalls(h: Health, k: Health)
    requires Worse(h, k)
    ensures Score(k) <= Score(h)
  {
    CappedGrows(h.counters.reallocated, k.counters.reallocated, 0.01, 0.3);
    CappedGrows(h.counters.pending, k.counters.pending, 0.05, 0.4);
    CappedGrows(h.counters.uncorrectable, k.counters.uncorrectable, 0.1, 0.5);
  }

  /** The report of a device with this health; every other field is the device's own. */
  function ReportFor(base: AgentReport, h: Health): AgentReport {
    base.(health := Score(h), smartFailed := h.smartFailed)
  }

  function Rank(p: DiskPhase): nat {
    match p
    case Failed => 2
    case Degraded => 1
    case _ => 0
  }

  function SeverityRank(p: DiskPhase): nat {
    if !F.IsUnhealthy(p) then 0 else if F.SeverityFor(p) == F.Warning then 1 else 2
  }

  /** Worse SMART data never raises the score, improves the disk phase or lowers the failure severity. */
  lemma WorseNeverHelps(a: Output, b: Output, base: AgentReport)
    requires WorseTable(a.table, b.table)
    requires a.rotationRate == b.rotationRate && (b.passed ==> a.passed)
    requires a.rotationRate > 0 ==> a.temperature <= b.temperature
    requires a.rotationRate <= 0 ==> a.percentageUsed <= b.percentageUsed
    ensures var h, k := HealthOf(a), HealthOf(b);
      var p, q := ComputePhase(ReportFor(base, h)), ComputePhase(ReportFor(base, k));
      && 0.0 <= Score(k) <= Score(h) <= 1.0
      && Rank(p) <= Rank(q)
      && SeverityRank(p) <= SeverityRank(q)
  {
    WorseTableIsWorse(a.table, b.table);
    ScoreRange(HealthOf(a));
    ScoreRange(HealthOf(b));
    ScoreFalls(HealthOf(a), HealthOf(b));
  }

  // ---------------------------------------------------------------- what each signal costs

  /** A disk with no bad sign: passed, all counters zero, not hot, no wear. */
  function Sound(rotational: bool): Health {
    Health(false, rotational, 0, ZERO, 0)
  }

  /** The same disk with only one of its signs left. */
  function OnlySmart(h: Health): Health {
    Sound(h.rotational).(smartFailed := h.smartFailed)
  }

  function OnlyReallocated(h: Health): Health {
    Sound(h.rotational).(counters := ZERO.(reallocated := h.counters.reallocated))
  }

  function OnlyPending(h: Health): Health {
    Sound(h.rotational).(counters := ZERO.(pending := h.counters.pending))
  }

  function OnlyUncorrectable(h: Health): Health {
    Sound(h.rotational).(counters := ZERO.(uncorrectable := h.counters.uncorrectable))
  }

  function OnlyTemperature(h: Health): Health {
    Sound(h.rotational).(temperature := h.temperature)
  }

  function OnlyWear(h: Health): Health {
    Sound(h.rotational).(percentUsed := h.percentUsed)
  }

  /** A failed SMART status alone costs 0.6, and a disk without a bad sign scores 1. */
  lemma SmartFailureAlone(h: Health)
    ensures Score(Sound(h.rotational)) == 1.0
    ensures Score(OnlySmart(h)) == if h.smartFailed then 0.4 else 1.0
  {
  }

  /** Counters alone: a hundredth, a twentieth and a tenth each, up to 0.3, 0.4 and 0.5. */
  lemma CountersAlone(h: Health)
    ensures var n := h.counters.reallocated;
      Score(OnlyReallocated(h)) == if n <= 0 then 1.0 else if n >= 30 then 0.7 else 1.0 - n as real / 100.0
    ensures var n := h.counters.pending;
      Score(OnlyPending(h)) == if n <= 0 then 1.0 else if n >= 8 then 0.6 else 1.0 - n as real / 20.0
    ensures var n := h.counters.uncorrectable;
      Score(OnlyUncorrectable(h)) == if n <= 0 then 1.0 else if n >= 5 then 0.5 else 1.0 - n as real / 10.0
  {
  }

  /** Heat alone costs a rotational disk a fiftieth per degree above 55, wear alone another disk a two-hundredth per percent. */
  lemma HeatAndWearAlone(h: Health)
    ensures Score(OnlyTemperature(h))
         == if !h.rotational || h.temperature <= 55 then 1.0
            else if h.temperature >= 105 then 0.0 else 1.0 - (h.temperature - 55) as real / 50.0
    ensures Score(OnlyWear(h))
         == if h.rotational || h.percentUsed <= 0 then 1.0
            else if h.percentUsed >= 200 then 0.0 else 1.0 - h.percentUsed as real / 200.0
  {
  }

  /** What the signs cost alone, added up. */
  function SumOfLosses(h: Health): real {
    (1.0 - Score(OnlySmart(h))) + (1.0 - Score(OnlyReallocated(h))) + (1.0 - Score(OnlyPending(h)))
    + (1.0 - Score(OnlyUncorrectable(h))) + (1.0 - Score(OnlyTemperature(h))) + (1.0 - Score(OnlyWear(h)))
  }

  /** Together the signs cost what they cost alone, added up, until nothing is left. */
  lemma {:induction false} LossesAdd(h: Health)
    ensures Score(h) == if SumOfLosses(h) >= 1.0 then 0.0 else 1.0 - SumOfLosses(h)
  {
    SmartFailureAlone(h);
    PenaltiesAlone(h);
    HeatAndWearAlone(h);
    var heat := if h.rotational && h.temperature > 55 then (h.temperature - 55) as real * 0.02 else 0.0;
    var wear := if !h.rotational && h.percentUsed > 0 then h.percentUsed as real * 0.005 else 0.0;
    assert 1.0 - Score(OnlyTemperature(h)) == if heat >= 1.0 then 1.0 else heat;
    assert 1.0 - Score(OnlyWear(h)) == if wear >= 1.0 then 1.0 else wear;
  }

  lemma PenaltiesAlone(h: Health)
    ensures 1.0 - Score(OnlyReallocated(h)) == Capped(h.counters.reallocated, 0.01, 0.3)
    ensures 1.0 - Score(OnlyPending(h)) == Capped(h.counters.pending, 0.05, 0.4)
    ensures 1.0 - Score(OnlyUncorrectable(h)) == Capped(h.counters.uncorrectable, 0.1, 0.5)
    ensures Capped(h.counters.reallocated, 0.01, 0.3) >= 0.0 && Capped(h.counters.pending, 0.05, 0.4) >= 0.0
    ensures Capped(h.counters.uncorrectable, 0.1, 0.5) >= 0.0
  {
  }

  /** Where the signs come from: the output's own fields and the raw values of attributes 5, 197, 187 and 198. */
  lemma {:induction false} SignsOfOutput(out: Output)
    requires AscendingIds(out.table) && NonNegative(out.table)
    ensures var h := HealthOf(out);
      && h.smartFailed == !out.passed && h.rotational == (out.rotationRate > 0)
      && h.temperature == out.temperature && h.percentUsed == out.percentageUsed
      && h.counters.reallocated == Raw(out.table, 5) && h.counters.pending == Raw(out.table, 197)
      && h.counters.uncorrectable == if Raw(out.table, 187) >= Raw(out.table, 198) then Raw(out.table, 187) else Raw(out.table, 198)
  {
    PlainCounters(out.table);
    AscendingUncorrectable(out.table);
  }

  /**
   From the signs to the disk's phase, without I/O errors, which discovery never reports: Failed exactly when SMART failed, Degraded exactly when it passed and the losses add up to more than 0.7, Ready otherwise.
   */
  lemma {:induction false} PhaseFromLosses(base: AgentReport, h: Health)
    requires base.ioErrors <= 0
    ensures var phase := ComputePhase(ReportFor(base, h));
      && (phase == Failed <==> h.smartFailed)
      && (phase == Degraded <==> !h.smartFailed && SumOfLosses(h) > 0.7)
      && (phase == Ready <==> !h.smartFailed && SumOfLosses(h) <= 0.7)
  {
    LossesAdd(h);
  }

  /** I/O errors alone degrade a disk that SMART passes, whatever its score. */
  lemma ErrorsDegrade(base: AgentReport, h: Health)
    requires base.ioErrors > 0
    ensures ComputePhase(ReportFor(base, h)) == if h.smartFailed then Failed else Degraded
  {
  }

  /** A failed disk counts as lost, not only about to be, exactly when its losses, 0.6 of them for SMART, exceed 0.9. */
  lemma {:induction false} FailureReasonFromLosses(h: Health)
    requires h.smartFailed
    ensures F.ReasonFor(Failed, Score(h)) == if SumOfLosses(h) > 0.9 then "SMART_FAILURE" else "SMART_PREFAIL"
  {
    LossesAdd(h);
  }
}
