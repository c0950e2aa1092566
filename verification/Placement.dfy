/** The PlacementScheduler of the controllers, which reads Disk statuses. */
module Placement {
  import opened Wrappers
  import opened Api
  import opened PlacementRuns
  import opened Sorting

  datatype Weights = Weights(freeSpace: real, load: real, health: real)

  datatype Strategy = Balanced | LeastUsed | FillFirst | Tiered | Unknown(name: string)

  datatype Policy = Policy(strategy: Strategy, weights: Option<Weights>)

  const DEFAULT_WEIGHTS := Weights(0.7, 0.2, 0.1)

  function WeightsOf(policy: Policy): Weights {
    match policy.weights
    case Some(w) => w
    case None => DEFAULT_WEIGHTS
  }

  predicate Keep(d: Disk) {
    && d.status.phase == Ready
    && d.status.capacity != 0
    && d.status.available as real / d.status.capacity as real >= 0.05
  }

  function Available(d: Disk): int {
    d.status.available
  }

  function Used(d: Disk): int {
    d.status.capacity - d.status.available
  }

  predicate Solid(d: Disk) {
    !d.status.rotational
  }

  function FreeRatio(d: Disk): real {
    if d.status.capacity > 0 then d.status.available as real / d.status.capacity as real else 0.0
  }

  /** The load term has no counter of its own: it is the free ratio again. */
  function ScoreOf(w: Weights, d: Disk): real {
    FreeRatio(d) * w.freeSpace + FreeRatio(d) * w.load + d.status.health * w.health
  }

  function Scores(w: Weights, disks: seq<Disk>): seq<real> {
    seq(|disks|, i requires 0 <= i < |disks| => ScoreOf(w, disks[i]))
  }

  /** What each strategy promises about the position it picks. */
  ghost predicate Chosen(policy: Policy, disks: seq<Disk>, i: int) {
    match policy.strategy
    case LeastUsed => FirstBest(disks, Keep, Available, i)
    case FillFirst => FirstBest(disks, Keep, Used, i)
    case Tiered => TierPick(disks, Keep, Solid, Available, i)
    case _ => BestScore(WeightsOf(policy), disks, i)
  }

  ghost predicate BestScore(w: Weights, disks: seq<Disk>, i: int) {
    && 0 <= i < |disks| && Keep(disks[i])
    && forall j | 0 <= j < |disks| && Keep(disks[j]) :: ScoreOf(w, disks[j]) <= ScoreOf(w, disks[i])
  }

  method FilterEligible(disks: seq<Disk>) returns (eligible: seq<Disk>)
    ensures eligible == Kept(disks, Keep)
  {
    eligible := [];
    for k := 0 to |disks|
      invariant eligible == Kept(disks[..k], Keep)
    {
      var d := disks[k];
      assert disks[..k + 1][..k] == disks[..k];
      if d.status.phase != Ready {
        continue;
      }
      if d.status.capacity == 0 {
        continue;
      }
      var freeRatio := d.status.available as real / d.status.capacity as real;
      if freeRatio < 0.05 {
        continue;
      }
      eligible := eligible + [d];
    }
    assert disks[..|disks|] == disks;
  }

  /** `order` is the permutation the library sort happens to produce. */
  method SelectBalanced(policy: Policy, disks: seq<Disk>, order: seq<nat>) returns (best: Disk)
    requires disks != [] && SortsDescending(order, Scores(WeightsOf(policy), disks))
    ensures best in disks
    ensures forall d | d in disks :: ScoreOf(WeightsOf(policy), d) <= ScoreOf(WeightsOf(policy), best)
  {
    var wFree, wLoad, wHealth := 0.7, 0.2, 0.1;
    if policy.weights.Some? {
      wFree := policy.weights.value.freeSpace;
      wLoad := policy.weights.value.load;
      wHealth := policy.weights.value.health;
    }
    var scored: seq<(Disk, real)> := [];
    for k := 0 to |disks|
      invariant |scored| == k
      invariant forall j | 0 <= j < k :: scored[j] == (disks[j], ScoreOf(WeightsOf(policy), disks[j]))
    {
      var d := disks[k];
      var freeRatio := 0.0;
      if d.status.capacity > 0 {
        freeRatio := d.status.available as real / d.status.capacity as real;
      }
      var inverseLoad := freeRatio;
      var score := freeRatio * wFree + inverseLoad * wLoad + d.status.health * wHealth;
      assert score == ScoreOf(WeightsOf(policy), d);
      scored := scored + [(d, score)];
    }
    scored := seq(|order|, k requires 0 <= k < |order| => scored[order[k]]);
    FirstIsMaximum(order, Scores(WeightsOf(policy), disks));
    best := scored[0].0;
    forall d | d in disks
      ensures ScoreOf(WeightsOf(policy), d) <= ScoreOf(WeightsOf(policy), best)
    {
      var j :| 0 <= j < |disks| && disks[j] == d;
      assert Scores(WeightsOf(policy), disks)[j] == ScoreOf(WeightsOf(policy), d);
    }
  }

  method SelectLeastUsed(disks: seq<Disk>) returns (best: Option<Disk>)
    ensures best.None? <==> disks == []
    ensures best.Some? ==> IsFirstBest(disks, Everything, Available, best.value)
  {
    best := None;
    ghost var i := 0;
    for k := 0 to |disks|
      invariant best.None? <==> k == 0
      invariant k > 0 ==> 0 <= i < k && best == Some(disks[i]) && FirstBest(disks[..k], Everything, Available, i)
    {
      var d := disks[k];
      if best == None || d.status.available > best.value.status.available {
        best, i := Some(d), k;
      }
    }
    assert disks[..|disks|] == disks;
  }

  method SelectFillFirst(disks: seq<Disk>) returns (best: Option<Disk>)
    ensures best.None? <==> disks == []
    ensures best.Some? ==> IsFirstBest(disks, Everything, Used, best.value)
  {
    best := None;
    ghost var i := 0;
    for k := 0 to |disks|
      invariant best.None? <==> k == 0
      invariant k > 0 ==> 0 <= i < k && best == Some(disks[i]) && FirstBest(disks[..k], Everything, Used, i)
    {
      var d := disks[k];
      var usedBytes := d.status.capacity - d.status.available;
      if best == None {
        best, i := Some(d), k;
        continue;
      }
      var bestUsed := best.value.status.capacity - best.value.status.available;
      if usedBytes > bestUsed {
        best, i := Some(d), k;
      }
    }
    assert disks[..|disks|] == disks;
  }

  method SelectTiered(disks: seq<Disk>) returns (best: Option<Disk>)
    ensures best.None? <==> disks == []
    ensures best.Some? ==> IsTierPick(disks, Everything, Solid, Available, best.value)
  {
    for k := 0 to |disks|
      invariant forall j | 0 <= j < k :: !Solid(disks[j])
    {
      if !disks[k].status.rotational {
        assert TierPick(disks, Everything, Solid, Available, k);
        return Some(disks[k]);
      }
    }
    best := SelectLeastUsed(disks);
    if best.Some? {
      ghost var i :| FirstBest(disks, Everything, Available, i) && disks[i] == best.value;
      assert TierPick(disks, Everything, Solid, Available, i);
    }
  }

  /** Selection succeeds exactly when some disk is eligible, and the disk picked is the one its strategy promises. */
  method SelectDisk(policy: Policy, candidates: seq<Disk>, order: seq<nat>) returns (r: Result<Disk>)
    requires SortsDescending(order, Scores(WeightsOf(policy), Kept(candidates, Keep)))
    ensures r.Failure? <==> forall d | d in candidates :: !Keep(d)
    ensures r.Success? ==> exists i :: Chosen(policy, candidates, i) && candidates[i] == r.value
  {
    var eligible := FilterEligible(candidates);
    forall d
      ensures d in eligible <==> d in candidates && Keep(d)
    {
      KeptMembers(candidates, Keep, d);
    }
    if |eligible| == 0 {
      return Failure("no eligible disks meet policy constraints");
    }
    assert eligible[0] in eligible;
    match policy.strategy {
      case LeastUsed =>
        var best := SelectLeastUsed(eligible);
        PickOfKept(policy, candidates, best.value);
        r := Success(best.value);
      case FillFirst =>
        var best := SelectFillFirst(eligible);
        PickOfKept(policy, candidates, best.value);
        r := Success(best.value);
      case Tiered =>
        var best := SelectTiered(eligible);
        PickOfKept(policy, candidates, best.value);
        r := Success(best.value);
      case _ =>
        var best := SelectBalanced(policy, eligible, order);
        PickOfKept(policy, candidates, best);
        r := Success(best);
    }
  }

  /** What the strategies pick from the filtered list. */
  ghost predicate PickedFrom(policy: Policy, eligible: seq<Disk>, best: Disk) {
    match policy.strategy
    case LeastUsed => IsFirstBest(eligible, Everything, Available, best)
    case FillFirst => IsFirstBest(eligible, Everything, Used, best)
    case Tiered => IsTierPick(eligible, Everything, Solid, Available, best)
    case _ => best in eligible && forall d | d in eligible :: ScoreOf(WeightsOf(policy), d) <= ScoreOf(WeightsOf(policy), best)
  }

  lemma PickOfKept(policy: Policy, disks: seq<Disk>, best: Disk)
    requires PickedFrom(policy, Kept(disks, Keep), best)
    ensures exists i :: Chosen(policy, disks, i) && disks[i] == best
  {
    match policy.strategy {
      case LeastUsed =>
        BestOfKept(disks, Keep, Available, best);
        var i :| FirstBest(disks, Keep, Available, i) && disks[i] == best;
        assert Chosen(policy, disks, i);
      case FillFirst =>
        BestOfKept(disks, Keep, Used, best);
        var i :| FirstBest(disks, Keep, Used, i) && disks[i] == best;
        assert Chosen(policy, disks, i);
      case Tiered =>
        TierPickOfKept(disks, Keep, Solid, Available, best);
        var i :| TierPick(disks, Keep, Solid, Available, i) && disks[i] == best;
        assert Chosen(policy, disks, i);
      case _ =>
        BalancedOfKept(WeightsOf(policy), disks, best);
        var i :| BestScore(WeightsOf(policy), disks, i) && disks[i] == best;
        assert Chosen(policy, disks, i);
    }
  }

  lemma BalancedOfKept(w: Weights, disks: seq<Disk>, best: Disk)
    requires best in Kept(disks, Keep) && forall d | d in Kept(disks, Keep) :: ScoreOf(w, d) <= ScoreOf(w, best)
    ensures exists i :: BestScore(w, disks, i) && disks[i] == best
  {
    var i :| 0 <= i < |disks| && disks[i] == best;
    forall j | 0 <= j < |disks| && Keep(disks[j])
      ensures ScoreOf(w, disks[j]) <= ScoreOf(w, disks[i])
    {
      KeptMembers(disks, Keep, disks[j]);
    }
    assert BestScore(w, disks, i);
  }

  // ---------------------------------------------------------------- balanced

  /** A balanced winner is on the Pareto front of free ratio and health. */
  lemma {:induction false} BalancedIsUndominated(policy: Policy, disks: seq<Disk>, i: int, j: int)
    requires var w := WeightsOf(policy);
      w.freeSpace >= 0.0 && w.load >= 0.0 && w.health >= 0.0 && w.freeSpace + w.load + w.health > 0.0
    requires BestScore(WeightsOf(policy), disks, i)
    requires 0 <= j < |disks| && Keep(disks[j])
    ensures !(FreeRatio(disks[j]) > FreeRatio(disks[i]) && disks[j].status.health > disks[i].status.health)
  {
    var w := WeightsOf(policy);
    var df, dh := FreeRatio(disks[j]) - FreeRatio(disks[i]), disks[j].status.health - disks[i].status.health;
    assert ScoreOf(w, disks[j]) - ScoreOf(w, disks[i]) == df * (w.freeSpace + w.load) + dh * w.health;
    if df > 0.0 && dh > 0.0 {
      PositiveMix(df, dh, w.freeSpace + w.load, w.health);
    }
  }

  lemma PositiveMix(x: real, y: real, u: real, v: real)
    requires x > 0.0 && y > 0.0 && u >= 0.0 && v >= 0.0 && u + v > 0.0
    ensures x * u + y * v > 0.0
  {
    if u > 0.0 {
      assert x * u > 0.0;
    } else {
      assert y * v > 0.0;
    }
  }

  /** Which positions of the filtered list can win, over all descending orders an unstable sort may produce. */
  ghost predicate CanWin(w: Weights, disks: seq<Disk>, k: nat) {
    CanComeFirst(Scores(w, disks), k)
  }

  /** Exactly the positions of maximal score can win. */
  lemma {:induction false} WinnersAreMaxima(w: Weights, disks: seq<Disk>, k: nat)
    ensures CanWin(w, disks, k) <==> IsMaximum(Scores(w, disks), k)
  {
    FirstIffMaximum(Scores(w, disks), k);
  }

  /** Scaling all weights by a positive factor leaves the possible winners as they are. */
  lemma {:induction false} ScalingKeepsWinners(w: Weights, c: real, disks: seq<Disk>, k: nat)
    requires c > 0.0
    ensures CanWin(Weights(c * w.freeSpace, c * w.load, c * w.health), disks, k) <==> CanWin(w, disks, k)
  {
    var v := Weights(c * w.freeSpace, c * w.load, c * w.health);
    forall i | 0 <= i < |disks|
      ensures Scores(v, disks)[i] == c * Scores(w, disks)[i]
    {
      ScaledScore(w, c, disks[i]);
    }
    ScalingKeepsFirst(Scores(w, disks), Scores(v, disks), c, k);
  }

  lemma ScaledScore(w: Weights, c: real, d: Disk)
    ensures ScoreOf(Weights(c * w.freeSpace, c * w.load, c * w.health), d) == c * ScoreOf(w, d)
  {
    var f, h := FreeRatio(d), d.status.health;
    assert f * (c * w.freeSpace) == c * (f * w.freeSpace);
    assert f * (c * w.load) == c * (f * w.load);
    assert h * (c * w.health) == c * (h * w.health);
  }
}
