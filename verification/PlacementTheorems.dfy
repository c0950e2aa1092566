/** Whole runs of both schedulers, and their agreement. */
module PlacementTheorems {
  import opened Wrappers
  import opened PlacementRuns
  import opened Sorting
  import Api
  import E = Scheduler
  import P = Placement

  // ---------------------------------------------------------------- runs of the engine

  function EngineWrite(d: E.Disk, bytes: int): E.Disk {
    d.(available := d.available - bytes)
  }

  /** Select a disk, write 1 to `most` bytes that fit to it, select again. */
  ghost predicate EngineRun(w: E.Weights, strategy: E.Strategy, trace: seq<seq<E.Disk>>, picks: seq<int>, writes: seq<int>, most: int) {
    && |trace| == |picks| + 1 && |writes| == |picks|
    && forall k | 0 <= k < |picks| ::
         && E.Chosen(w, strategy, trace[k], picks[k])
         && 0 <= picks[k] < |trace[k]|
         && 1 <= writes[k] <= most && writes[k] <= trace[k][picks[k]].available
         && trace[k + 1] == trace[k][picks[k] := EngineWrite(trace[k][picks[k]], writes[k])]
  }

  lemma EngineFillFirstDrains(w: E.Weights, trace: seq<seq<E.Disk>>, picks: seq<int>, writes: seq<int>, most: int)
    requires EngineRun(w, E.FillFirst, trace, picks, writes, most)
    ensures IsRun(trace, picks, E.Keep, E.Used) && DrainsOneByOne(trace, picks, E.Keep, E.Used)
  {
    FillFirstDrains(trace, picks, E.Keep, E.Used);
  }

  lemma EngineLeastUsedLevels(w: E.Weights, trace: seq<seq<E.Disk>>, picks: seq<int>, writes: seq<int>, most: int)
    requires EngineRun(w, E.LeastUsed, trace, picks, writes, most) && most >= 0
    ensures IsRun(trace, picks, E.Keep, E.Available) && StaysLevel(trace, picks, E.Keep, E.Available, most)
  {
    LeastUsedLevels(trace, picks, E.Keep, E.Available, most);
  }

  // ---------------------------------------------------------------- the engine's balanced choice

  /** The picked disk has a competitor with more free space in proportion and better health. */
  ghost predicate Dominated(disks: seq<E.Disk>, i: int, j: int) {
    && 0 <= i < |disks| && 0 <= j < |disks| && E.Keep(disks[i]) && E.Keep(disks[j])
    && disks[j].available as real / disks[j].capacity as real > disks[i].available as real / disks[i].capacity as real
    && disks[j].health > disks[i].health
  }

  lemma {:induction false} NoLoadNoDomination(w: E.Weights, disks: seq<E.Disk>, i: int, j: int)
    requires w.freeSpace >= 0.0 && w.health >= 0.0 && w.ioLoad == 0.0 && w.freeSpace + w.health > 0.0
    requires E.BestScore(w, disks, i)
    ensures !Dominated(disks, i, j)
  {
    if Dominated(disks, i, j) {
      DominatingScoresMore(w, disks, i, j);
    }
  }

  lemma DominatingScoresMore(w: E.Weights, disks: seq<E.Disk>, i: int, j: int)
    requires w.freeSpace >= 0.0 && w.health >= 0.0 && w.ioLoad == 0.0 && w.freeSpace + w.health > 0.0
    requires Dominated(disks, i, j)
    ensures E.ScoreOf(w, disks[j]) > E.ScoreOf(w, disks[i])
  {
    var df := disks[j].available as real / disks[j].capacity as real - disks[i].available as real / disks[i].capacity as real;
    var dh := disks[j].health - disks[i].health;
    P.PositiveMix(df, dh, w.freeSpace, w.health);
    assert E.ScoreOf(w, disks[j]) - E.ScoreOf(w, disks[i]) == df * w.freeSpace + dh * w.health;
  }

  /** A half-full, unhealthy disk whose load score outweighs what the empty, healthy one gains. */
  function LoadWins(w: E.Weights): seq<E.Disk>
    requires w.ioLoad > 0.0
  {
    [E.Disk("a", 2, 1, 0.0, (w.freeSpace + w.health) / w.ioLoad, true, true), E.Disk("b", 2, 2, 1.0, 0.0, true, true)]
  }

  lemma {:induction false} LoadCanDominate(w: E.Weights)
    requires w.freeSpace >= 0.0 && w.health >= 0.0 && w.ioLoad > 0.0
    ensures E.BestScore(w, LoadWins(w), 0) && Dominated(LoadWins(w), 0, 1)
  {
    var a, b := LoadWins(w)[0], LoadWins(w)[1];
    var q := (w.freeSpace + w.health) / w.ioLoad;
    assert q * w.ioLoad == w.freeSpace + w.health;
    assert a.available as real / a.capacity as real == 0.5 && b.available as real / b.capacity as real == 1.0;
    assert E.ScoreOf(w, a) == 0.5 * w.freeSpace + 0.0 * w.health + q * w.ioLoad;
    assert E.ScoreOf(w, b) == 1.0 * w.freeSpace + 1.0 * w.health + 0.0 * w.ioLoad;
  }

  /**
   With non-negative weights, not all zero, the engine's winner is never beaten in both free ratio and health
   exactly when the load does not count: its load score is a third measure of its own.
   */
  lemma {:induction false} EngineUndominatedIff(w: E.Weights)
    requires w.freeSpace >= 0.0 && w.health >= 0.0 && w.ioLoad >= 0.0 && w.freeSpace + w.health + w.ioLoad > 0.0
    ensures (forall disks, i, j | E.BestScore(w, disks, i) :: !Dominated(disks, i, j)) <==> w.ioLoad == 0.0
  {
    if w.ioLoad == 0.0 {
      forall disks, i, j | E.BestScore(w, disks, i)
        ensures !Dominated(disks, i, j)
      {
        NoLoadNoDomination(w, disks, i, j);
      }
    } else {
      LoadCanDominate(w);
    }
  }

  // ---------------------------------------------------------------- runs of the controllers' scheduler

  function DiskWrite(d: Api.Disk, bytes: int): Api.Disk {
    d.(status := d.status.(available := d.status.available - bytes))
  }

  ghost predicate DiskRun(policy: P.Policy, trace: seq<seq<Api.Disk>>, picks: seq<int>, writes: seq<int>, most: int) {
    && |trace| == |picks| + 1 && |writes| == |picks|
    && forall k | 0 <= k < |picks| ::
         && P.Chosen(policy, trace[k], picks[k])
         && 0 <= picks[k] < |trace[k]|
         && 1 <= writes[k] <= most && writes[k] <= trace[k][picks[k]].status.available
         && trace[k + 1] == trace[k][picks[k] := DiskWrite(trace[k][picks[k]], writes[k])]
  }

  lemma DiskFillFirstDrains(policy: P.Policy, trace: seq<seq<Api.Disk>>, picks: seq<int>, writes: seq<int>, most: int)
    requires policy.strategy == P.FillFirst && DiskRun(policy, trace, picks, writes, most)
    ensures IsRun(trace, picks, P.Keep, P.Used) && DrainsOneByOne(trace, picks, P.Keep, P.Used)
  {
    FillFirstDrains(trace, picks, P.Keep, P.Used);
  }

  lemma DiskLeastUsedLevels(policy: P.Policy, trace: seq<seq<Api.Disk>>, picks: seq<int>, writes: seq<int>, most: int)
    requires policy.strategy == P.LeastUsed && DiskRun(policy, trace, picks, writes, most) && most >= 0
    ensures IsRun(trace, picks, P.Keep, P.Available) && StaysLevel(trace, picks, P.Keep, P.Available, most)
  {
    LeastUsedLevels(trace, picks, P.Keep, P.Available, most);
  }

  // ---------------------------------------------------------------- the choices, in the disks' own fields

  ghost predicate EngineEligible(d: E.Disk) {
    d.eligible && d.capacity > 0 && d.available > 0
  }

  /** What the engine chooses, in the fields of the disks and the weights. */
  lemma {:induction false} EngineChoices(w: E.Weights, disks: seq<E.Disk>, i: int)
    requires 0 <= i < |disks|
    ensures E.Chosen(w, E.LeastUsed, disks, i)
       <==> && EngineEligible(disks[i])
            && (forall j | 0 <= j < |disks| && EngineEligible(disks[j]) :: disks[j].available <= disks[i].available)
            && (forall j | 0 <= j < i && EngineEligible(disks[j]) :: disks[j].available < disks[i].available)
    ensures E.Chosen(w, E.FillFirst, disks, i)
       <==> && EngineEligible(disks[i])
            && (forall j | 0 <= j < |disks| && EngineEligible(disks[j]) ::
                  disks[j].capacity - disks[j].available <= disks[i].capacity - disks[i].available)
            && (forall j | 0 <= j < i && EngineEligible(disks[j]) ::
                  disks[j].capacity - disks[j].available < disks[i].capacity - disks[i].available)
  {
    assert forall d :: E.Keep(d) <==> EngineEligible(d);
  }

  /** The tiered choice is the first eligible solid-state disk, or the least-used choice when there is none. */
  lemma {:induction false} EngineTieredChoice(w: E.Weights, disks: seq<E.Disk>, i: int)
    requires E.Chosen(w, E.Tiered, disks, i)
    ensures 0 <= i < |disks| && EngineEligible(disks[i])
    ensures if exists j :: 0 <= j < |disks| && EngineEligible(disks[j]) && !disks[j].rotational then
              !disks[i].rotational && forall j | 0 <= j < i && EngineEligible(disks[j]) :: disks[j].rotational
            else E.Chosen(w, E.LeastUsed, disks, i)
  {
    if j :| 0 <= j < |disks| && EngineEligible(disks[j]) && !disks[j].rotational {
      assert disks[j] in disks && E.Keep(disks[j]) && E.Solid(disks[j]);
    }
  }

  /** The balanced choice maximises free ratio, health and load score, each times its weight. */
  lemma {:induction false} EngineBalancedChoice(w: E.Weights, disks: seq<E.Disk>, i: int, j: int)
    requires E.Chosen(w, E.Balanced, disks, i) && 0 <= j < |disks| && EngineEligible(disks[j])
    ensures 0 <= i < |disks| && EngineEligible(disks[i])
    ensures var a, b := disks[i], disks[j];
      (b.available as real / b.capacity as real) * w.freeSpace + b.health * w.health + b.ioLoad * w.ioLoad
      <= (a.available as real / a.capacity as real) * w.freeSpace + a.health * w.health + a.ioLoad * w.ioLoad
  {
    assert E.Keep(disks[j]);
  }

  ghost predicate DiskEligible(d: Api.Disk) {
    d.status.phase == Api.Ready && d.status.capacity != 0 && d.status.available as real / d.status.capacity as real >= 0.05
  }

  /** What the controllers choose, in the fields of the disk statuses. */
  lemma {:induction false} DiskChoices(weights: Option<P.Weights>, disks: seq<Api.Disk>, i: int)
    requires 0 <= i < |disks|
    ensures P.Chosen(P.Policy(P.LeastUsed, weights), disks, i)
       <==> && DiskEligible(disks[i])
            && (forall j | 0 <= j < |disks| && DiskEligible(disks[j]) :: disks[j].status.available <= disks[i].status.available)
            && (forall j | 0 <= j < i && DiskEligible(disks[j]) :: disks[j].status.available < disks[i].status.available)
    ensures P.Chosen(P.Policy(P.FillFirst, weights), disks, i)
       <==> && DiskEligible(disks[i])
            && (forall j | 0 <= j < |disks| && DiskEligible(disks[j]) ::
                  disks[j].status.capacity - disks[j].status.available <= disks[i].status.capacity - disks[i].status.available)
            && (forall j | 0 <= j < i && DiskEligible(disks[j]) ::
                  disks[j].status.capacity - disks[j].status.available < disks[i].status.capacity - disks[i].status.available)
  {
    assert forall d :: P.Keep(d) <==> DiskEligible(d);
  }

  /** The tiered choice is the first eligible solid-state disk, or the least-used choice when there is none. */
  lemma {:induction false} DiskTieredChoice(weights: Option<P.Weights>, disks: seq<Api.Disk>, i: int)
    requires P.Chosen(P.Policy(P.Tiered, weights), disks, i)
    ensures 0 <= i < |disks| && DiskEligible(disks[i])
    ensures if exists j :: 0 <= j < |disks| && DiskEligible(disks[j]) && !disks[j].status.rotational then
              !disks[i].status.rotational && forall j | 0 <= j < i && DiskEligible(disks[j]) :: disks[j].status.rotational
            else P.Chosen(P.Policy(P.LeastUsed, weights), disks, i)
  {
    if j :| 0 <= j < |disks| && DiskEligible(disks[j]) && !disks[j].status.rotational {
      assert disks[j] in disks && P.Keep(disks[j]) && P.Solid(disks[j]);
    }
  }

  /**
   The balanced choice under a policy's own weights: free ratio counts with the free-space and the load weight together,
   health with its own; without weights these are 0.7 and 0.2, and 0.1.
   */
  lemma {:induction false} DiskBalancedChoice(weights: Option<P.Weights>, disks: seq<Api.Disk>, i: int, j: int)
    requires P.Chosen(P.Policy(P.Balanced, weights), disks, i) && 0 <= j < |disks| && DiskEligible(disks[j])
    requires SaneCapacities(disks)
    ensures 0 <= i < |disks| && DiskEligible(disks[i])
    ensures var a, b := disks[i].status, disks[j].status;
      var free := if weights.Some? then weights.value.freeSpace + weights.value.load else 0.9;
      var health := if weights.Some? then weights.value.health else 0.1;
      (b.available as real / b.capacity as real) * free + b.health * health <= (a.available as real / a.capacity as real) * free + a.health * health
  {
    assert P.Keep(disks[j]);
    assert disks[i] in disks && disks[j] in disks;
    KeptHasCapacity(disks[i]);
    KeptHasCapacity(disks[j]);
    SplitWeights(P.WeightsOf(P.Policy(P.Balanced, weights)), disks[i]);
    SplitWeights(P.WeightsOf(P.Policy(P.Balanced, weights)), disks[j]);
  }

  lemma SplitWeights(w: P.Weights, d: Api.Disk)
    requires d.status.capacity > 0
    ensures P.ScoreOf(w, d) == (d.status.available as real / d.status.capacity as real) * (w.freeSpace + w.load) + d.status.health * w.health
  {
  }

  // ---------------------------------------------------------------- the two engines agree

  /** A Disk as the engine sees it: Eligible means Ready with at least 5% free, IOLoadScore is the free ratio. */
  function View(d: Api.Disk): E.Disk {
    E.Disk(d.name, d.status.capacity, d.status.available, d.status.health, P.FreeRatio(d), d.status.rotational,
           d.status.phase == Api.Ready && 20 * d.status.available >= d.status.capacity)
  }

  function Views(disks: seq<Api.Disk>): seq<E.Disk> {
    seq(|disks|, i requires 0 <= i < |disks| => View(disks[i]))
  }

  predicate SaneCapacities(disks: seq<Api.Disk>) {
    forall d | d in disks :: d.status.capacity >= 0
  }

  function EngineStrategy(s: P.Strategy): E.Strategy {
    match s
    case Balanced => E.Balanced
    case LeastUsed => E.LeastUsed
    case FillFirst => E.FillFirst
    case Tiered => E.Tiered
    case Unknown(n) => E.Unknown(n)
  }

  function EngineWeights(w: P.Weights): E.Weights {
    E.Weights(w.freeSpace, w.health, w.load)
  }

  lemma FivePercent(available: int, capacity: int)
    requires capacity > 0
    ensures available as real / capacity as real >= 0.05 <==> 20 * available >= capacity
  {
    var q, c := available as real / capacity as real, capacity as real;
    assert q * c == available as real;
    if q >= 0.05 {
      assert (q - 0.05) * c >= 0.0;
    } else {
      assert (0.05 - q) * c > 0.0;
    }
  }

  /** The filters differ on a disk exactly when its capacity is negative, it is Ready, and 5% of it is no less than what is free. */
  lemma KeepAgreesIff(d: Api.Disk)
    ensures (E.Keep(View(d)) <==> P.Keep(d))
       <==> !(d.status.capacity < 0 && d.status.phase == Api.Ready && 20 * d.status.available <= d.status.capacity)
  {
    var a, c := d.status.available, d.status.capacity;
    if c > 0 {
      FivePercent(a, c);
    } else if c < 0 {
      FivePercent(-a, -c);
      assert (-a) as real / (-c) as real == a as real / c as real by {
        var q := a as real / c as real;
        assert q * c as real == a as real;
        assert q * (-c) as real == (-a) as real;
      }
    }
  }

  /** Both filters keep the same disks in the same order. */
  lemma {:induction false} FiltersAgree(disks: seq<Api.Disk>)
    requires SaneCapacities(disks)
    ensures Kept(Views(disks), E.Keep) == Views(Kept(disks, P.Keep))
  {
    if disks != [] {
      var init, last := disks[..|disks| - 1], disks[|disks| - 1];
      assert Views(disks)[..|disks| - 1] == Views(init);
      FiltersAgree(init);
      KeepAgreesIff(last);
      assert Kept(Views(disks), E.Keep) == Kept(Views(init), E.Keep) + (if E.Keep(View(last)) then [View(last)] else []);
    }
  }

  /** With matched weights the balanced scores coincide. */
  lemma ScoresAgree(w: P.Weights, d: Api.Disk)
    requires d.status.capacity > 0
    ensures E.ScoreOf(EngineWeights(w), View(d)) == P.ScoreOf(w, d)
  {
  }

  lemma DisksAgree(w: P.Weights, disks: seq<Api.Disk>, j: int)
    requires SaneCapacities(disks) && 0 <= j < |disks|
    ensures E.Keep(Views(disks)[j]) <==> P.Keep(disks[j])
    ensures P.Keep(disks[j]) ==>
              disks[j].status.capacity > 0 && E.ScoreOf(EngineWeights(w), Views(disks)[j]) == P.ScoreOf(w, disks[j])
  {
    assert disks[j] in disks;
    KeepAgreesIff(disks[j]);
  }

  /** Each strategy of one engine may pick exactly the positions the same strategy of the other may pick. */
  lemma {:induction false} EnginesAgree(policy: P.Policy, disks: seq<Api.Disk>, i: int)
    requires SaneCapacities(disks)
    ensures E.Chosen(EngineWeights(P.WeightsOf(policy)), EngineStrategy(policy.strategy), Views(disks), i)
       <==> P.Chosen(policy, disks, i)
  {
    var w, vs := P.WeightsOf(policy), Views(disks);
    forall j | 0 <= j < |disks|
      ensures E.Keep(vs[j]) <==> P.Keep(disks[j])
      ensures E.Keep(vs[j]) ==> E.ScoreOf(EngineWeights(w), vs[j]) == P.ScoreOf(w, disks[j])
    {
      DisksAgree(w, disks, j);
    }
    match policy.strategy {
      case LeastUsed => SameFirstBest(vs, E.Keep, E.Available, disks, P.Keep, P.Available, i);
      case FillFirst => SameFirstBest(vs, E.Keep, E.Used, disks, P.Keep, P.Used, i);
      case Tiered =>
        SameFirstBest(vs, E.Keep, E.Available, disks, P.Keep, P.Available, i);
        SameFastTier(vs, E.Keep, E.Solid, disks, P.Keep, P.Solid);
      case _ =>
    }
  }

  lemma SameFirstBest<S(!new), T(!new)>(s: seq<S>, okS: S -> bool, keyS: S -> int, t: seq<T>, okT: T -> bool, keyT: T -> int, i: int)
    requires |s| == |t| && forall j | 0 <= j < |s| :: okS(s[j]) == okT(t[j]) && keyS(s[j]) == keyT(t[j])
    ensures FirstBest(s, okS, keyS, i) <==> FirstBest(t, okT, keyT, i)
  {
    if FirstBest(s, okS, keyS, i) {
      assert forall j | 0 <= j < |t| :: okT(t[j]) ==> okS(s[j]);
    }
    if FirstBest(t, okT, keyT, i) {
      assert forall j | 0 <= j < |s| :: okS(s[j]) ==> okT(t[j]);
    }
  }

  lemma SameFastTier<S(!new), T(!new)>(s: seq<S>, okS: S -> bool, fastS: S -> bool, t: seq<T>, okT: T -> bool, fastT: T -> bool)
    requires |s| == |t| && forall j | 0 <= j < |s| :: okS(s[j]) == okT(t[j]) && fastS(s[j]) == fastT(t[j])
    ensures forall i :: FirstOfTier(s, okS, fastS, i) <==> FirstOfTier(t, okT, fastT, i)
    ensures (forall x | x in s && okS(x) :: !fastS(x)) <==> (forall x | x in t && okT(x) :: !fastT(x))
  {
    assert (forall x | x in s && okS(x) :: !fastS(x)) <==> (forall j | 0 <= j < |s| && okS(s[j]) :: !fastS(s[j]));
    assert (forall x | x in t && okT(x) :: !fastT(x)) <==> (forall j | 0 <= j < |t| && okT(t[j]) :: !fastT(t[j]));
  }

  /**
   The built-in defaults are not matched: the engine gives health 0.2 and load 0.1, the controllers the reverse.
   The scores agree exactly on disks whose health equals their free ratio.
   */
  lemma DefaultsAgreeIff(d: Api.Disk)
    requires d.status.capacity > 0
    ensures E.ScoreOf(E.DEFAULT_WEIGHTS, View(d)) == P.ScoreOf(P.DEFAULT_WEIGHTS, d) <==> d.status.health == P.FreeRatio(d)
  {
  }

  function SampleDisk(name: string, available: int, health: real): Api.Disk {
    Api.Disk(name, [], false, Api.DiskSpec("n", "/dev/sda", "xfs", "/mnt"),
             Api.DiskStatus(Api.Ready, 100, available, health, "", "", "", true, true, []))
  }

  /**
   Two disks the defaults order differently: with df and dh what the first has over the second in free ratio and health,
   the engine goes by the sign of 4 df + dh and the controllers by that of 9 df + dh.
   */
  predicate OrderedDifferently(a: Api.Disk, b: Api.Disk) {
    var df, dh := P.FreeRatio(a) - P.FreeRatio(b), a.status.health - b.status.health;
    (4.0 * df + dh >= 0.0) != (9.0 * df + dh >= 0.0)
  }

  /** Both engines with their defaults can choose the same positions of this list. */
  ghost predicate SameDefaultChoices(disks: seq<Api.Disk>) {
    forall i :: E.Chosen(E.DEFAULT_WEIGHTS, E.Balanced, Views(disks), i) <==> P.Chosen(P.Policy(P.Balanced, None), disks, i)
  }

  lemma DefaultScores(d: Api.Disk)
    requires d.status.capacity > 0
    ensures 5.0 * E.ScoreOf(E.DEFAULT_WEIGHTS, View(d)) == 4.0 * P.FreeRatio(d) + d.status.health
    ensures 10.0 * P.ScoreOf(P.DEFAULT_WEIGHTS, d) == 9.0 * P.FreeRatio(d) + d.status.health
  {
  }

  lemma DefaultOrders(a: Api.Disk, b: Api.Disk)
    requires a.status.capacity > 0 && b.status.capacity > 0
    ensures (E.ScoreOf(E.DEFAULT_WEIGHTS, View(b)) <= E.ScoreOf(E.DEFAULT_WEIGHTS, View(a))
             <==> P.ScoreOf(P.DEFAULT_WEIGHTS, b) <= P.ScoreOf(P.DEFAULT_WEIGHTS, a))
       <==> !OrderedDifferently(a, b)
  {
    DefaultScores(a);
    DefaultScores(b);
  }

  ghost predicate NoneOrderedDifferently(disks: seq<Api.Disk>) {
    forall i, j | 0 <= i < |disks| && 0 <= j < |disks| && P.Keep(disks[i]) && P.Keep(disks[j]) :: !OrderedDifferently(disks[i], disks[j])
  }

  lemma {:induction false} SameOrderSameChoices(disks: seq<Api.Disk>)
    requires SaneCapacities(disks) && NoneOrderedDifferently(disks)
    ensures SameDefaultChoices(disks)
  {
    var vs, w := Views(disks), P.DEFAULT_WEIGHTS;
    forall i, j | 0 <= i < |disks| && 0 <= j < |disks|
      ensures E.Keep(vs[i]) <==> P.Keep(disks[i])
      ensures P.Keep(disks[i]) && P.Keep(disks[j]) ==>
                vs[i].capacity > 0 && vs[j].capacity > 0
                && (E.ScoreOf(E.DEFAULT_WEIGHTS, vs[j]) <= E.ScoreOf(E.DEFAULT_WEIGHTS, vs[i]) <==> P.ScoreOf(w, disks[j]) <= P.ScoreOf(w, disks[i]))
    {
      DisksAgree(w, disks, i);
      DisksAgree(w, disks, j);
      if P.Keep(disks[i]) && P.Keep(disks[j]) {
        DefaultOrders(disks[i], disks[j]);
      }
    }
  }

  /** On two eligible disks the defaults admit the same choices exactly when they order the two alike, both ways round. */
  lemma {:induction false} PairChoicesAgreeIff(a: Api.Disk, b: Api.Disk)
    requires a.status.capacity > 0 && b.status.capacity > 0 && P.Keep(a) && P.Keep(b)
    ensures SameDefaultChoices([a, b]) <==> !OrderedDifferently(a, b) && !OrderedDifferently(b, a)
  {
    var disks := [a, b];
    if !OrderedDifferently(a, b) && !OrderedDifferently(b, a) {
      SameOrderSameChoices(disks);
    } else {
      PairWinner(a, b);
      DefaultOrders(a, b);
      DefaultOrders(b, a);
    }
  }

  lemma PairWinner(a: Api.Disk, b: Api.Disk)
    requires a.status.capacity > 0 && b.status.capacity > 0 && P.Keep(a) && P.Keep(b)
    ensures var disks := [a, b];
      && (P.Chosen(P.Policy(P.Balanced, None), disks, 0) <==> P.ScoreOf(P.DEFAULT_WEIGHTS, b) <= P.ScoreOf(P.DEFAULT_WEIGHTS, a))
      && (P.Chosen(P.Policy(P.Balanced, None), disks, 1) <==> P.ScoreOf(P.DEFAULT_WEIGHTS, a) <= P.ScoreOf(P.DEFAULT_WEIGHTS, b))
      && (E.Chosen(E.DEFAULT_WEIGHTS, E.Balanced, Views(disks), 0)
          <==> E.ScoreOf(E.DEFAULT_WEIGHTS, View(b)) <= E.ScoreOf(E.DEFAULT_WEIGHTS, View(a)))
      && (E.Chosen(E.DEFAULT_WEIGHTS, E.Balanced, Views(disks), 1)
          <==> E.ScoreOf(E.DEFAULT_WEIGHTS, View(a)) <= E.ScoreOf(E.DEFAULT_WEIGHTS, View(b)))
  {
    var disks, w := [a, b], P.DEFAULT_WEIGHTS;
    var vs := Views(disks);
    DisksAgree(w, disks, 0);
    DisksAgree(w, disks, 1);
    assert disks[0] == a && disks[1] == b && vs[0] == View(a) && vs[1] == View(b);
  }

  /** sub keeps some entries of s, in order. */
  ghost predicate IsSublist<T(!new)>(sub: seq<T>, s: seq<T>) {
    exists at: seq<nat> :: Picks(sub, at, s)
  }

  ghost predicate Picks<T(!new)>(sub: seq<T>, at: seq<nat>, s: seq<T>) {
    && |at| == |sub|
    && (forall k | 0 <= k < |at| :: at[k] < |s| && sub[k] == s[at[k]])
    && (forall k, m | 0 <= k < m < |at| :: at[k] < at[m])
  }

  /**
   The two built-in defaults admit the same choices on every sublist of a disk list exactly when no two of its eligible
   disks are ordered differently.
   */
  lemma {:induction false} DefaultChoicesAgreeIff(disks: seq<Api.Disk>)
    requires SaneCapacities(disks)
    ensures (forall sub | IsSublist(sub, disks) :: SameDefaultChoices(sub)) <==> NoneOrderedDifferently(disks)
  {
    if NoneOrderedDifferently(disks) {
      forall sub | IsSublist(sub, disks)
        ensures SameDefaultChoices(sub)
      {
        var at :| Picks(sub, at, disks);
        SameOrderSameChoices(sub);
      }
    } else {
      var i, j :| 0 <= i < |disks| && 0 <= j < |disks| && P.Keep(disks[i]) && P.Keep(disks[j]) && OrderedDifferently(disks[i], disks[j]);
      assert disks[i] in disks && disks[j] in disks;
      var lo, hi := if i < j then i else j, if i < j then j else i;
      var sub := [disks[lo], disks[hi]];
      assert lo != hi && Picks(sub, [lo, hi], disks);
      KeptHasCapacity(disks[lo]);
      KeptHasCapacity(disks[hi]);
      PairChoicesAgreeIff(disks[lo], disks[hi]);
    }
  }

  lemma KeptHasCapacity(d: Api.Disk)
    requires P.Keep(d) && d.status.capacity >= 0
    ensures d.status.capacity > 0
  {
  }

  /** With the defaults the two engines can pick different disks. */
  lemma DefaultsCanDisagree()
    ensures var disks := [SampleDisk("a", 50, 1.0), SampleDisk("b", 60, 0.55)];
      && E.Chosen(E.DEFAULT_WEIGHTS, E.Balanced, Views(disks), 0)
      && !P.Chosen(P.Policy(P.Balanced, None), disks, 0)
      && P.Chosen(P.Policy(P.Balanced, None), disks, 1)
  {
    var a, b := SampleDisk("a", 50, 1.0), SampleDisk("b", 60, 0.55);
    var disks := [a, b];
    assert P.FreeRatio(a) == 0.5 && P.FreeRatio(b) == 0.6;
    assert P.Keep(a) && P.Keep(b);
    assert Views(disks)[0] == View(a) && Views(disks)[1] == View(b);
    assert E.ScoreOf(E.DEFAULT_WEIGHTS, View(a)) == 0.6 && E.ScoreOf(E.DEFAULT_WEIGHTS, View(b)) == 0.59;
    assert P.ScoreOf(P.DEFAULT_WEIGHTS, a) == 0.55 && P.ScoreOf(P.DEFAULT_WEIGHTS, b) == 0.595;
    assert P.Keep(disks[0]) && P.Keep(disks[1]);
  }
}
