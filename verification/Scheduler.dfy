/** Descending sorts whose treatment of equal keys is unknown, as with Go's sort.Slice. */
module Sorting {

  ghost predicate Occurs(order: seq<nat>, k: nat) {
    exists a :: 0 <= a < |order| && order[a] == k
  }

  /** order lists every index below n once. */
  ghost predicate IsPermutation(order: seq<nat>, n: nat) {
    && |order| == n
    && (forall a | 0 <= a < n :: order[a] < n)
    && (forall k: nat | k < n :: Occurs(order, k))
  }

  /** Reading the values in this order gives a descending sequence. */
  ghost predicate SortsDescending(order: seq<nat>, values: seq<real>) {
    && IsPermutation(order, |values|)
    && forall a, b | 0 <= a < b < |order| :: values[order[a]] >= values[order[b]]
  }

  ghost predicate IsMaximum(values: seq<real>, i: int) {
    0 <= i < |values| && forall j | 0 <= j < |values| :: values[j] <= values[i]
  }

  lemma {:induction false} FirstIsMaximum(order: seq<nat>, values: seq<real>)
    requires SortsDescending(order, values) && values != []
    ensures IsMaximum(values, order[0])
  {
    forall j: nat | j < |values|
      ensures values[j] <= values[order[0]]
    {
      assert Occurs(order, j);
      var a :| 0 <= a < |order| && order[a] == j;
    }
  }

  /** An order of the indices below n with n put in at place p. */
  function Inserted(order: seq<nat>, p: nat, n: nat): seq<nat>
    requires p <= |order|
  {
    order[..p] + [n] + order[p..]
  }

  lemma {:induction false} InsertedIsPermutation(order: seq<nat>, p: nat, n: nat)
    requires IsPermutation(order, n) && p <= n
    ensures IsPermutation(Inserted(order, p, n), n + 1)
  {
    var wider := Inserted(order, p, n);
    forall k: nat | k < n + 1
      ensures Occurs(wider, k)
    {
      if k < n {
        assert Occurs(order, k);
        var a :| 0 <= a < |order| && order[a] == k;
        assert wider[if a < p then a else a + 1] == k;
      } else {
        assert wider[p] == k;
      }
    }
  }

  lemma {:induction false} InsertedSorts(order: seq<nat>, values: seq<real>, v: real, p: nat)
    requires SortsDescending(order, values) && p <= |order|
    requires forall a | 0 <= a < p :: values[order[a]] >= v
    requires p < |order| ==> values[order[p]] < v
    ensures SortsDescending(Inserted(order, p, |values|), values + [v])
  {
    var wider, longer := Inserted(order, p, |values|), values + [v];
    InsertedIsPermutation(order, p, |values|);
    assert forall c | p <= c < |order| :: values[order[c]] < v;
    forall a, b | 0 <= a < b < |wider|
      ensures longer[wider[a]] >= longer[wider[b]]
    {
      assert a < p ==> longer[wider[a]] == values[order[a]];
      assert b < p ==> longer[wider[b]] == values[order[b]];
      assert a > p ==> longer[wider[a]] == values[order[a - 1]];
      assert b > p ==> longer[wider[b]] == values[order[b - 1]];
    }
  }

  /** Put index n, whose value is v, into an order of the indices below n. */
  lemma {:induction false} InsertIndex(order: seq<nat>, values: seq<real>, v: real) returns (wider: seq<nat>)
    requires SortsDescending(order, values)
    ensures SortsDescending(wider, values + [v])
    ensures forall i | order != [] && i == order[0] && values[i] >= v :: wider[0] == i
    ensures (forall i | 0 <= i < |values| :: values[i] < v) ==> wider[0] == |values|
  {
    var p := 0;
    while p < |order| && values[order[p]] >= v
      invariant p <= |order|
      invariant forall a | 0 <= a < p :: values[order[a]] >= v
    {
      p := p + 1;
    }
    wider := Inserted(order, p, |values|);
    InsertedSorts(order, values, v, p);
  }

  /** Any maximum comes first in some descending order, so an unstable sort may pick any of them. */
  lemma {:induction false} MaximumCanBeFirst(values: seq<real>, i: nat) returns (order: seq<nat>)
    requires IsMaximum(values, i)
    ensures SortsDescending(order, values) && order[0] == i
  {
    var n := |values| - 1;
    var init, v := values[..n], values[n];
    assert values == init + [v];
    if i < n {
      assert values[i] == init[i];
      assert forall j | 0 <= j < n :: init[j] == values[j];
      var inner := MaximumCanBeFirst(init, i);
      order := InsertIndex(inner, init, v);
    } else {
      var inner := SomeOrder(init);
      order := [n] + inner;
      assert order[0] == n && forall a | 0 <= a < |inner| :: order[a + 1] == inner[a];
      forall k: nat | k < |values|
        ensures Occurs(order, k)
      {
        if k < n {
          assert Occurs(inner, k);
          var a :| 0 <= a < |inner| && inner[a] == k;
          assert order[a + 1] == k;
        }
      }
      forall a, b | 0 <= a < b < |order|
        ensures values[order[a]] >= values[order[b]]
      {
        assert order[b] == inner[b - 1];
        assert init[inner[b - 1]] == values[order[b]];
        if a > 0 { assert init[inner[a - 1]] == values[order[a]]; }
      }
    }
  }

  /** Index k comes first in some descending order an unstable sort may produce. */
  ghost predicate CanComeFirst(values: seq<real>, k: nat) {
    exists order :: SortsDescending(order, values) && order != [] && order[0] == k
  }

  /** Exactly the maxima can come first. */
  lemma {:induction false} FirstIffMaximum(values: seq<real>, k: nat)
    ensures CanComeFirst(values, k) <==> IsMaximum(values, k)
  {
    if CanComeFirst(values, k) {
      var order :| SortsDescending(order, values) && order != [] && order[0] == k;
      FirstIsMaximum(order, values);
    }
    if IsMaximum(values, k) {
      var order := MaximumCanBeFirst(values, k);
    }
  }

  lemma ScaledOrder(c: real, x: real, y: real, cx: real, cy: real)
    requires c > 0.0 && cx == c * x && cy == c * y
    ensures cx <= cy <==> x <= y
  {
    if x <= y {
      assert c * (y - x) >= 0.0;
    } else {
      assert c * (x - y) > 0.0;
    }
  }

  lemma SameOrderSameMaximum(values: seq<real>, others: seq<real>, k: nat)
    requires |others| == |values|
    requires forall i, j | 0 <= i < |values| && 0 <= j < |values| :: others[i] <= others[j] <==> values[i] <= values[j]
    ensures IsMaximum(others, k) <==> IsMaximum(values, k)
  {
  }

  /** Scaling all values by a positive factor does not change what can come first. */
  lemma {:induction false} ScalingKeepsFirst(values: seq<real>, scaled: seq<real>, c: real, k: nat)
    requires c > 0.0 && |scaled| == |values| && forall i | 0 <= i < |values| :: scaled[i] == c * values[i]
    ensures CanComeFirst(scaled, k) <==> CanComeFirst(values, k)
  {
    forall i, j | 0 <= i < |values| && 0 <= j < |values|
      ensures scaled[i] <= scaled[j] <==> values[i] <= values[j]
    {
      ScaledOrder(c, values[i], values[j], scaled[i], scaled[j]);
    }
    SameOrderSameMaximum(values, scaled, k);
    FirstIffMaximum(values, k);
    FirstIffMaximum(scaled, k);
  }

  lemma {:induction false} SomeOrder(values: seq<real>) returns (order: seq<nat>)
    ensures SortsDescending(order, values)
  {
    if values == [] {
      order := [];
    } else {
      var n := |values| - 1;
      var inner := SomeOrder(values[..n]);
      order := InsertIndex(inner, values[..n], values[n]);
      assert values == values[..n] + [values[n]];
    }
  }
}

/** The standalone placement engine. */
module Scheduler {
  import opened Wrappers
  import opened PlacementRuns
  import opened Sorting

  datatype Strategy = Balanced | LeastUsed | FillFirst | Tiered | Unknown(name: string)

  datatype Weights = Weights(freeSpace: real, health: real, ioLoad: real)

  datatype Disk = Disk(name: string, capacity: int, available: int, health: real, ioLoad: real, rotational: bool, eligible: bool)

  const DEFAULT_WEIGHTS := Weights(0.7, 0.2, 0.1)

  predicate Keep(d: Disk) {
    d.eligible && d.capacity > 0 && d.available > 0
  }

  function Available(d: Disk): int {
    d.available
  }

  function Used(d: Disk): int {
    d.capacity - d.available
  }

  predicate Solid(d: Disk) {
    !d.rotational
  }

  function ScoreOf(w: Weights, d: Disk): real
    requires d.capacity != 0
  {
    d.available as real / d.capacity as real * w.freeSpace + d.health * w.health + d.ioLoad * w.ioLoad
  }

  function Scores(w: Weights, disks: seq<Disk>): seq<real>
    requires forall d | d in disks :: d.capacity != 0
  {
    seq(|disks|, i requires 0 <= i < |disks| => ScoreOf(w, disks[i]))
  }

  /** What each strategy promises about the position it picks. */
  ghost predicate Chosen(w: Weights, strategy: Strategy, disks: seq<Disk>, i: int) {
    match strategy
    case LeastUsed => FirstBest(disks, Keep, Available, i)
    case FillFirst => FirstBest(disks, Keep, Used, i)
    case Tiered => TierPick(disks, Keep, Solid, Available, i)
    case _ => BestScore(w, disks, i)
  }

  /** No kept disk scores higher. */
  ghost predicate BestScore(w: Weights, disks: seq<Disk>, i: int) {
    && 0 <= i < |disks| && Keep(disks[i])
    && forall j | 0 <= j < |disks| && Keep(disks[j]) :: ScoreOf(w, disks[j]) <= ScoreOf(w, disks[i])
  }

  method FilterEligible(disks: seq<Disk>) returns (out: seq<Disk>)
    ensures out == Kept(disks, Keep)
  {
    out := [];
    for k := 0 to |disks|
      invariant out == Kept(disks[..k], Keep)
    {
      var d := disks[k];
      assert disks[..k + 1][..k] == disks[..k];
      if !d.eligible || d.capacity <= 0 || d.available <= 0 {
        continue;
      }
      out := out + [d];
    }
    assert disks[..|disks|] == disks;
  }

  /** `order` is the permutation the library sort happens to produce. */
  method SelectBalanced(w: Weights, disks: seq<Disk>, order: seq<nat>) returns (best: Disk)
    requires disks != [] && forall d | d in disks :: d.capacity != 0
    requires SortsDescending(order, Scores(w, disks))
    ensures best in disks && forall d | d in disks :: ScoreOf(w, d) <= ScoreOf(w, best)
  {
    var scored: seq<(Disk, real)> := [];
    for k := 0 to |disks|
      invariant |scored| == k
      invariant forall j | 0 <= j < k :: scored[j] == (disks[j], ScoreOf(w, disks[j]))
    {
      var d := disks[k];
      var freeRatio := d.available as real / d.capacity as real;
      var score := freeRatio * w.freeSpace + d.health * w.health + d.ioLoad * w.ioLoad;
      assert score == ScoreOf(w, d);
      scored := scored + [(d, score)];
    }
    scored := seq(|order|, k requires 0 <= k < |order| => scored[order[k]]);
    FirstIsMaximum(order, Scores(w, disks));
    best := scored[0].0;
    forall d | d in disks
      ensures ScoreOf(w, d) <= ScoreOf(w, best)
    {
      var j :| 0 <= j < |disks| && disks[j] == d;
      assert Scores(w, disks)[j] == ScoreOf(w, d);
    }
  }

  method SelectLeastUsed(disks: seq<Disk>) returns (best: Disk)
    requires disks != []
    ensures IsFirstBest(disks, Everything, Available, best)
  {
    best := disks[0];
    ghost var i := 0;
    for k := 1 to |disks|
      invariant 0 <= i < k && best == disks[i]
      invariant FirstBest(disks[..k], Everything, Available, i)
    {
      var d := disks[k];
      if d.available > best.available {
        best, i := d, k;
      }
    }
    assert disks[..|disks|] == disks;
  }

  method SelectFillFirst(disks: seq<Disk>) returns (best: Disk)
    requires disks != []
    ensures IsFirstBest(disks, Everything, Used, best)
  {
    best := disks[0];
    ghost var i := 0;
    for k := 1 to |disks|
      invariant 0 <= i < k && best == disks[i]
      invariant FirstBest(disks[..k], Everything, Used, i)
    {
      var d := disks[k];
      if d.capacity - d.available > best.capacity - best.available {
        best, i := d, k;
      }
    }
    assert disks[..|disks|] == disks;
  }

  method SelectTiered(disks: seq<Disk>) returns (best: Disk)
    requires disks != []
    ensures IsTierPick(disks, Everything, Solid, Available, best)
  {
    for k := 0 to |disks|
      invariant forall j | 0 <= j < k :: !Solid(disks[j])
    {
      if !disks[k].rotational {
        assert TierPick(disks, Everything, Solid, Available, k);
        return disks[k];
      }
    }
    best := SelectLeastUsed(disks);
    ghost var i :| FirstBest(disks, Everything, Available, i) && disks[i] == best;
    assert TierPick(disks, Everything, Solid, Available, i);
  }

  /** Selection succeeds exactly when some disk is eligible, and the disk picked is the one its strategy promises. */
  method Select(w: Weights, strategy: Strategy, disks: seq<Disk>, order: seq<nat>) returns (r: Result<Disk>)
    requires SortsDescending(order, Scores(w, Kept(disks, Keep)))
    ensures r.Failure? <==> forall d | d in disks :: !Keep(d)
    ensures r.Success? ==> exists i :: Chosen(w, strategy, disks, i) && disks[i] == r.value
  {
    var eligible := FilterEligible(disks);
    forall d
      ensures d in eligible <==> d in disks && Keep(d)
    {
      KeptMembers(disks, Keep, d);
    }
    if |eligible| == 0 {
      return Failure("no eligible disks");
    }
    assert eligible[0] in eligible;
    var best: Disk;
    match strategy {
      case LeastUsed =>
        best := SelectLeastUsed(eligible);
        PickOfKept(w, strategy, disks, best);
      case FillFirst =>
        best := SelectFillFirst(eligible);
        PickOfKept(w, strategy, disks, best);
      case Tiered =>
        best := SelectTiered(eligible);
        PickOfKept(w, strategy, disks, best);
      case _ =>
        best := SelectBalanced(w, eligible, order);
        PickOfKept(w, strategy, disks, best);
    }
    r := Success(best);
  }

  /** What the strategies pick from the filtered list. */
  ghost predicate PickedFrom(w: Weights, strategy: Strategy, eligible: seq<Disk>, best: Disk) {
    match strategy
    case LeastUsed => IsFirstBest(eligible, Everything, Available, best)
    case FillFirst => IsFirstBest(eligible, Everything, Used, best)
    case Tiered => IsTierPick(eligible, Everything, Solid, Available, best)
    case _ => best in eligible && best.capacity != 0 && forall d | d in eligible :: d.capacity != 0 && ScoreOf(w, d) <= ScoreOf(w, best)
  }

  lemma PickOfKept(w: Weights, strategy: Strategy, disks: seq<Disk>, best: Disk)
    requires PickedFrom(w, strategy, Kept(disks, Keep), best)
    ensures exists i :: Chosen(w, strategy, disks, i) && disks[i] == best
  {
    match strategy {
      case LeastUsed =>
        BestOfKept(disks, Keep, Available, best);
        var i :| FirstBest(disks, Keep, Available, i) && disks[i] == best;
        assert Chosen(w, strategy, disks, i);
      case FillFirst =>
        BestOfKept(disks, Keep, Used, best);
        var i :| FirstBest(disks, Keep, Used, i) && disks[i] == best;
        assert Chosen(w, strategy, disks, i);
      case Tiered =>
        TierPickOfKept(disks, Keep, Solid, Available, best);
        var i :| TierPick(disks, Keep, Solid, Available, i) && disks[i] == best;
        assert Chosen(w, strategy, disks, i);
      case _ =>
        BalancedOfKept(w, disks, best);
        var i :| BestScore(w, disks, i) && disks[i] == best;
        assert Chosen(w, strategy, disks, i);
    }
  }

  lemma BalancedOfKept(w: Weights, disks: seq<Disk>, best: Disk)
    requires best in Kept(disks, Keep) && forall d | d in Kept(disks, Keep) :: ScoreOf(w, d) <= ScoreOf(w, best)
    ensures exists i :: BestScore(w, disks, i) && disks[i] == best
  {
    var i :| 0 <= i < |disks| && disks[i] == best;
    forall j | 0 <= j < |disks| && Keep(disks[j])
      ensures ScoreOf(w, disks[j]) <= ScoreOf(w, disks[i])
    {
      KeptMembers(disks, Keep, disks[j]);
    }
    assert BestScore(w, disks, i);
  }

  /** Which positions of the filtered list can win, over all descending orders an unstable sort may produce. */
  ghost predicate CanWin(w: Weights, disks: seq<Disk>, k: nat)
    requires forall d | d in disks :: d.capacity != 0
  {
    CanComeFirst(Scores(w, disks), k)
  }

  /** Exactly the positions of maximal score can win. */
  lemma {:induction false} WinnersAreMaxima(w: Weights, disks: seq<Disk>, k: nat)
    requires forall d | d in disks :: d.capacity != 0
    ensures CanWin(w, disks, k) <==> IsMaximum(Scores(w, disks), k)
  {
    FirstIffMaximum(Scores(w, disks), k);
  }

  /** Scaling all weights by a positive factor leaves the possible winners as they are. */
  lemma {:induction false} ScalingKeepsWinners(w: Weights, c: real, disks: seq<Disk>, k: nat)
    requires c > 0.0 && forall d | d in disks :: d.capacity != 0
    ensures CanWin(Weights(c * w.freeSpace, c * w.health, c * w.ioLoad), disks, k) <==> CanWin(w, disks, k)
  {
    var v := Weights(c * w.freeSpace, c * w.health, c * w.ioLoad);
    forall i | 0 <= i < |disks|
      ensures Scores(v, disks)[i] == c * Scores(w, disks)[i]
    {
      ScaledScore(w, c, disks[i]);
    }
    ScalingKeepsFirst(Scores(w, disks), Scores(v, disks), c, k);
  }

  lemma ScaledScore(w: Weights, c: real, d: Disk)
    requires d.capacity != 0
    ensures ScoreOf(Weights(c * w.freeSpace, c * w.health, c * w.ioLoad), d) == c * ScoreOf(w, d)
  {
    var f := d.available as real / d.capacity as real;
    assert f * (c * w.freeSpace) == c * (f * w.freeSpace);
    assert d.health * (c * w.health) == c * (d.health * w.health);
    assert d.ioLoad * (c * w.ioLoad) == c * (d.ioLoad * w.ioLoad);
  }
}
