/**
 Runs of "select a disk, write to it, select again", for any disk type T.
 `ok` says which disks a filter keeps and `key` is the number a strategy maximises.
 Both schedulers of the repository are instances.
 */
module PlacementRuns {

  /** Position i holds the first maximum of key among the entries the filter keeps. */
  ghost predicate FirstBest<T(!new)>(s: seq<T>, ok: T -> bool, key: T -> int, i: int) {
    && 0 <= i < |s|
    && ok(s[i])
    && (forall j | 0 <= j < |s| && ok(s[j]) :: key(s[j]) <= key(s[i]))
    && (forall j | 0 <= j < i && ok(s[j]) :: key(s[j]) < key(s[i]))
  }

  /** The entries kept by a filter, in order. */
  function Kept<T>(s: seq<T>, ok: T -> bool): (kept: seq<T>)
    ensures forall x | x in kept :: x in s && ok(x)
  {
    if s == [] then []
    else
      var last := s[|s| - 1];
      assert s == s[..|s| - 1] + [last];
      Kept(s[..|s| - 1], ok) + (if ok(last) then [last] else [])
  }

  lemma {:induction false} KeptMembers<T>(s: seq<T>, ok: T -> bool, x: T)
    ensures x in Kept(s, ok) <==> x in s && ok(x)
  {
    if s != [] {
      var init, last := s[..|s| - 1], s[|s| - 1];
      assert s == init + [last];
      KeptMembers(init, ok, x);
    }
  }

  function Everything<T>(x: T): bool {
    true
  }

  /** A first maximum of the filtered list is the first maximum of the original list among the kept entries. */
  lemma {:induction false} FirstBestOfKept<T(!new)>(s: seq<T>, ok: T -> bool, key: T -> int, k: int) returns (i: int)
    requires FirstBest(Kept(s, ok), Everything, key, k)
    ensures FirstBest(s, ok, key, i) && s[i] == Kept(s, ok)[k]
  {
    var init, last, f := s[..|s| - 1], s[|s| - 1], Kept(s, ok);
    var g := Kept(init, ok);
    if k == |g| {
      i := |s| - 1;
      forall j | 0 <= j < i && ok(s[j])
        ensures key(s[j]) < key(s[i])
      {
        assert s[j] == init[j];
        KeptMembers(init, ok, s[j]);
        var m :| 0 <= m < |g| && g[m] == s[j];
        assert f[m] == g[m];
      }
    } else {
      assert forall m | 0 <= m < |g| :: g[m] == f[m];
      i := FirstBestOfKept(init, ok, key, k);
      assert forall j | 0 <= j < |init| :: init[j] == s[j];
      if ok(last) {
        assert f[|g|] == last;
      }
    }
  }

  /** best is the element at a first maximum of the kept entries. */
  ghost predicate IsFirstBest<T(!new)>(s: seq<T>, ok: T -> bool, key: T -> int, best: T) {
    exists i :: FirstBest(s, ok, key, i) && s[i] == best
  }

  lemma BestOfKept<T(!new)>(s: seq<T>, ok: T -> bool, key: T -> int, best: T)
    requires IsFirstBest(Kept(s, ok), Everything, key, best)
    ensures IsFirstBest(s, ok, key, best)
  {
    var k :| FirstBest(Kept(s, ok), Everything, key, k) && Kept(s, ok)[k] == best;
    var i := FirstBestOfKept(s, ok, key, k);
  }

  /** Position i holds the first kept entry of the fast tier. */
  ghost predicate FirstOfTier<T(!new)>(s: seq<T>, ok: T -> bool, fast: T -> bool, i: int) {
    && 0 <= i < |s| && ok(s[i]) && fast(s[i])
    && forall j | 0 <= j < i && ok(s[j]) :: !fast(s[j])
  }

  /** The first kept entry of the fast tier or, when there is none, the first maximum of all kept entries. */
  ghost predicate TierPick<T(!new)>(s: seq<T>, ok: T -> bool, fast: T -> bool, key: T -> int, i: int) {
    FirstOfTier(s, ok, fast, i) || ((forall x | x in s && ok(x) :: !fast(x)) && FirstBest(s, ok, key, i))
  }

  ghost predicate IsTierPick<T(!new)>(s: seq<T>, ok: T -> bool, fast: T -> bool, key: T -> int, best: T) {
    exists i :: TierPick(s, ok, fast, key, i) && s[i] == best
  }

  lemma {:induction false} FirstOfTierOfKept<T(!new)>(s: seq<T>, ok: T -> bool, fast: T -> bool, k: int) returns (i: int)
    requires FirstOfTier(Kept(s, ok), Everything, fast, k)
    ensures FirstOfTier(s, ok, fast, i) && s[i] == Kept(s, ok)[k]
  {
    var init, g := s[..|s| - 1], Kept(s[..|s| - 1], ok);
    assert forall m | 0 <= m < |g| :: g[m] == Kept(s, ok)[m];
    if k == |g| {
      i := |s| - 1;
      forall j | 0 <= j < i && ok(s[j])
        ensures !fast(s[j])
      {
        assert s[j] == init[j];
        KeptMembers(init, ok, s[j]);
        var m :| 0 <= m < |g| && g[m] == s[j];
      }
    } else {
      i := FirstOfTierOfKept(init, ok, fast, k);
      assert forall j | 0 <= j < |init| :: init[j] == s[j];
    }
  }

  lemma TierPickOfKept<T(!new)>(s: seq<T>, ok: T -> bool, fast: T -> bool, key: T -> int, best: T)
    requires IsTierPick(Kept(s, ok), Everything, fast, key, best)
    ensures IsTierPick(s, ok, fast, key, best)
  {
    var f := Kept(s, ok);
    var k :| TierPick(f, Everything, fast, key, k) && f[k] == best;
    if FirstOfTier(f, Everything, fast, k) {
      var i := FirstOfTierOfKept(s, ok, fast, k);
      assert TierPick(s, ok, fast, key, i);
    } else {
      var i := FirstBestOfKept(s, ok, key, k);
      forall x | x in s && ok(x)
        ensures !fast(x)
      {
        KeptMembers(s, ok, x);
      }
      assert TierPick(s, ok, fast, key, i);
    }
  }

  // ---------------------------------------------------------------- runs

  /** From s to t only the entry at position i may have changed. */
  ghost predicate OnlyChanged<T>(s: seq<T>, i: int, t: seq<T>) {
    |t| == |s| && forall j | 0 <= j < |s| && j != i :: t[j] == s[j]
  }

  /** trace[k] is the disk list at the k-th selection, which picks position picks[k]; then only that disk changes. */
  ghost predicate IsRun<T(!new)>(trace: seq<seq<T>>, picks: seq<int>, ok: T -> bool, key: T -> int) {
    && |trace| == |picks| + 1
    && forall k | 0 <= k < |picks| :: FirstBest(trace[k], ok, key, picks[k]) && OnlyChanged(trace[k], picks[k], trace[k + 1])
  }

  lemma {:induction false} RunWidth<T(!new)>(trace: seq<seq<T>>, picks: seq<int>, ok: T -> bool, key: T -> int, k: nat)
    requires IsRun(trace, picks, ok, key) && k <= |picks|
    ensures |trace[k]| == |trace[0]|
  {
    if k > 0 {
      RunWidth(trace, picks, ok, key, k - 1);
    }
  }

  /** A disk that is not picked between two points of a run is the same at both. */
  lemma {:induction false} Untouched<T(!new)>(trace: seq<seq<T>>, picks: seq<int>, ok: T -> bool, key: T -> int, a: nat, b: nat, j: int)
    requires IsRun(trace, picks, ok, key) && a <= b <= |picks| && 0 <= j < |trace[0]|
    requires forall k | a <= k < b :: picks[k] != j
    ensures |trace[a]| == |trace[b]| == |trace[0]| && trace[b][j] == trace[a][j]
    decreases b
  {
    RunWidth(trace, picks, ok, key, a);
    RunWidth(trace, picks, ok, key, b);
    if a < b {
      Untouched(trace, picks, ok, key, a, b - 1, j);
      assert OnlyChanged(trace[b - 1], picks[b - 1], trace[b]);
    }
  }

  /** A disk that the filter drops is never picked again. */
  lemma {:induction false} NeverReturns<T(!new)>(trace: seq<seq<T>>, picks: seq<int>, ok: T -> bool, key: T -> int, a: nat, b: nat, i: int)
    requires IsRun(trace, picks, ok, key) && a <= b < |picks| && 0 <= i < |trace[0]|
    requires |trace[a]| == |trace[0]| && !ok(trace[a][i])
    ensures picks[b] != i
    decreases b
  {
    forall k | a <= k < b
      ensures picks[k] != i
    {
      NeverReturns(trace, picks, ok, key, a, k, i);
    }
    Untouched(trace, picks, ok, key, a, b, i);
    assert FirstBest(trace[b], ok, key, picks[b]);
  }

  // ---------------------------------------------------------------- fill-first

  /** Every write makes the key (the used bytes) of the written disk grow. */
  ghost predicate KeyGrows<T(!new)>(trace: seq<seq<T>>, picks: seq<int>, ok: T -> bool, key: T -> int)
    requires IsRun(trace, picks, ok, key)
  {
    forall k | 0 <= k < |picks| ::
      (assert OnlyChanged(trace[k], picks[k], trace[k + 1]) && FirstBest(trace[k], ok, key, picks[k]);
       key(trace[k + 1][picks[k]]) > key(trace[k][picks[k]]))
  }

  /** Fill-first moves on exactly when the disk it was filling is no longer eligible. */
  lemma {:induction false} LeavesOnlyWhenDropped<T(!new)>(trace: seq<seq<T>>, picks: seq<int>, ok: T -> bool, key: T -> int, k: nat)
    requires IsRun(trace, picks, ok, key) && KeyGrows(trace, picks, ok, key) && k + 1 < |picks|
    ensures 0 <= picks[k] < |trace[k + 1]|
    ensures picks[k + 1] != picks[k] <==> !ok(trace[k + 1][picks[k]])
  {
    var i, j := picks[k], picks[k + 1];
    assert FirstBest(trace[k], ok, key, i) && OnlyChanged(trace[k], i, trace[k + 1]);
    assert FirstBest(trace[k + 1], ok, key, j);
  }

  /** Every disk is picked in one contiguous block. */
  lemma {:induction false} OneBlock<T(!new)>(trace: seq<seq<T>>, picks: seq<int>, ok: T -> bool, key: T -> int, a: nat, c: nat, b: nat)
    requires IsRun(trace, picks, ok, key) && KeyGrows(trace, picks, ok, key)
    requires a <= c <= b < |picks| && picks[a] == picks[b]
    ensures picks[c] == picks[a]
    decreases c
  {
    if a < c {
      OneBlock(trace, picks, ok, key, a, c - 1, b);
      RunWidth(trace, picks, ok, key, c);
      LeavesOnlyWhenDropped(trace, picks, ok, key, c - 1);
      if picks[c] != picks[a] {
        NeverReturns(trace, picks, ok, key, c, b, picks[a]);
        assert false;
      }
    }
  }

  /** The disk filled earlier had the larger key at the start of the run, or the same key and an earlier position. */
  lemma {:induction false} BlockOrder<T(!new)>(trace: seq<seq<T>>, picks: seq<int>, ok: T -> bool, key: T -> int, a: nat, b: nat)
    requires IsRun(trace, picks, ok, key) && KeyGrows(trace, picks, ok, key)
    requires a < b < |picks| && picks[a] != picks[b]
    ensures 0 <= picks[a] < |trace[0]| && 0 <= picks[b] < |trace[0]|
    ensures key(trace[0][picks[a]]) > key(trace[0][picks[b]])
         || (key(trace[0][picks[a]]) == key(trace[0][picks[b]]) && picks[a] < picks[b])
  {
    var i, j := picks[a], picks[b];
    var a0, b0 := FirstPick(picks, a), FirstPick(picks, b);
    forall x: nat, y: nat | x < |picks| && y < |picks| && picks[x] == j && picks[y] == i && x < y
      ensures false
    {
      if a <= x { OneBlock(trace, picks, ok, key, a, x, y); } else { OneBlock(trace, picks, ok, key, x, a, b); }
    }
    RunWidth(trace, picks, ok, key, a0);
    RunWidth(trace, picks, ok, key, b0);
    Untouched(trace, picks, ok, key, 0, a0, i);
    Untouched(trace, picks, ok, key, 0, a0, j);
    Untouched(trace, picks, ok, key, 0, b0, j);
    assert FirstBest(trace[a0], ok, key, i) && FirstBest(trace[b0], ok, key, j);
  }

  /** The first time the disk picked at step k is picked. */
  function FirstPick(picks: seq<int>, k: nat): (f: nat)
    requires k < |picks|
    ensures f <= k && picks[f] == picks[k] && forall x | 0 <= x < f :: picks[x] != picks[k]
  {
    if picks[0] == picks[k] then 0 else 1 + FirstPick(picks[1..], k - 1)
  }

  /** How often consecutive picks differ. */
  function Switches(picks: seq<int>): nat {
    if |picks| < 2 then 0
    else Switches(picks[..|picks| - 1]) + (if picks[|picks| - 1] != picks[|picks| - 2] then 1 else 0)
  }

  /** The disks picked in the first n steps. */
  function Seen(picks: seq<int>, n: nat): set<int>
    requires n <= |picks|
  {
    set k | 0 <= k < n :: picks[k]
  }

  lemma SeenGrows(picks: seq<int>, n: nat)
    requires 0 < n <= |picks|
    ensures Seen(picks, n) == Seen(picks, n - 1) + {picks[n - 1]}
    ensures |Seen(picks, n)| == |Seen(picks, n - 1)| + if picks[n - 1] in Seen(picks, n - 1) then 0 else 1
  {
    assert Seen(picks, n) == Seen(picks, n - 1) + {picks[n - 1]};
  }

  lemma {:induction false} SwitchesCountDisks<T(!new)>(trace: seq<seq<T>>, picks: seq<int>, ok: T -> bool, key: T -> int, n: nat)
    requires IsRun(trace, picks, ok, key) && KeyGrows(trace, picks, ok, key) && 0 < n <= |picks|
    ensures Switches(picks[..n]) + 1 == |Seen(picks, n)|
  {
    if n == 1 {
      assert Seen(picks, 1) == {picks[0]};
    } else {
      SwitchesCountDisks(trace, picks, ok, key, n - 1);
      SeenGrows(picks, n);
      SwitchesGrow(picks, n);
      SwitchMeansNew(trace, picks, ok, key, n);
    }
  }

  lemma SwitchesGrow(picks: seq<int>, n: nat)
    requires 2 <= n <= |picks|
    ensures Switches(picks[..n]) == Switches(picks[..n - 1]) + if picks[n - 1] != picks[n - 2] then 1 else 0
  {
    assert picks[..n][..n - 1] == picks[..n - 1];
  }

  /** A switch goes to a disk that was never picked before. */
  lemma {:induction false} SwitchMeansNew<T(!new)>(trace: seq<seq<T>>, picks: seq<int>, ok: T -> bool, key: T -> int, n: nat)
    requires IsRun(trace, picks, ok, key) && KeyGrows(trace, picks, ok, key) && 2 <= n <= |picks|
    ensures picks[n - 1] != picks[n - 2] <==> picks[n - 1] !in Seen(picks, n - 1)
  {
    if k :| 0 <= k < n - 1 && picks[k] == picks[n - 1] {
      OneBlock(trace, picks, ok, key, k, n - 2, n - 1);
    }
  }

  lemma Member<T>(s: set<T>) returns (x: T)
    requires s != {}
    ensures x in s
  {
    x :| x in s;
  }

  lemma {:induction false} SmallNumbers(s: set<int>, n: nat)
    requires forall x | x in s :: 0 <= x < n
    ensures |s| <= n
  {
    if n == 0 {
      if s != {} {
        var x := Member(s);
        assert false;
      }
    } else {
      SmallNumbers(s - {n - 1}, n - 1);
      assert |s| <= |s - {n - 1}| + 1;
    }
  }

  /** Fill-first switches fewer times than there are disks. */
  lemma {:induction false} FewSwitches<T(!new)>(trace: seq<seq<T>>, picks: seq<int>, ok: T -> bool, key: T -> int)
    requires IsRun(trace, picks, ok, key) && KeyGrows(trace, picks, ok, key) && picks != []
    ensures Switches(picks) < |trace[0]|
  {
    SwitchesCountDisks(trace, picks, ok, key, |picks|);
    assert picks[..|picks|] == picks;
    forall k | 0 <= k < |picks|
      ensures 0 <= picks[k] < |trace[0]|
    {
      RunWidth(trace, picks, ok, key, k);
      assert FirstBest(trace[k], ok, key, picks[k]);
    }
    SmallNumbers(Seen(picks, |picks|), |trace[0]|);
  }

  /** Fill-first fills one disk before rotating. */
  ghost predicate DrainsOneByOne<T(!new)>(trace: seq<seq<T>>, picks: seq<int>, ok: T -> bool, key: T -> int)
    requires IsRun(trace, picks, ok, key)
  {
    // one contiguous block per disk
    && (forall a, c, b | 0 <= a <= c <= b < |picks| && picks[a] == picks[b] :: picks[c] == picks[a])
    // a disk is left exactly when the filter drops it, and then for good
    && (forall k, next | 0 <= k < |picks| && next == k + 1 < |picks| ::
          0 <= picks[k] < |trace[next]| && (picks[next] != picks[k] <==> !ok(trace[next][picks[k]])))
    && (forall a, b | 0 <= a <= b < |picks| && 0 <= picks[b] < |trace[a]| :: ok(trace[a][picks[b]]))
    // blocks follow the initial keys, largest first, ties by position
    && (forall a, b | 0 <= a < b < |picks| && picks[a] != picks[b] ::
          && 0 <= picks[a] < |trace[0]| && 0 <= picks[b] < |trace[0]|
          && var ka, kb := key(trace[0][picks[a]]), key(trace[0][picks[b]]);
             ka > kb || (ka == kb && picks[a] < picks[b]))
    && (picks != [] ==> Switches(picks) < |trace[0]|)
  }

  lemma FillFirstDrains<T(!new)>(trace: seq<seq<T>>, picks: seq<int>, ok: T -> bool, key: T -> int)
    requires IsRun(trace, picks, ok, key) && KeyGrows(trace, picks, ok, key)
    ensures DrainsOneByOne(trace, picks, ok, key)
  {
    forall a, c, b | 0 <= a <= c <= b < |picks| && picks[a] == picks[b]
      ensures picks[c] == picks[a]
    {
      OneBlock(trace, picks, ok, key, a, c, b);
    }
    forall k, next | 0 <= k < |picks| && next == k + 1 < |picks|
      ensures 0 <= picks[k] < |trace[next]| && (picks[next] != picks[k] <==> !ok(trace[next][picks[k]]))
    {
      LeavesOnlyWhenDropped(trace, picks, ok, key, k);
    }
    forall a, b | 0 <= a <= b < |picks| && 0 <= picks[b] < |trace[a]|
      ensures ok(trace[a][picks[b]])
    {
      RunWidth(trace, picks, ok, key, a);
      if !ok(trace[a][picks[b]]) {
        NeverReturns(trace, picks, ok, key, a, b, picks[b]);
        assert false;
      }
    }
    forall a, b | 0 <= a < b < |picks| && picks[a] != picks[b]
      ensures 0 <= picks[a] < |trace[0]| && 0 <= picks[b] < |trace[0]|
      ensures key(trace[0][picks[a]]) > key(trace[0][picks[b]])
           || (key(trace[0][picks[a]]) == key(trace[0][picks[b]]) && picks[a] < picks[b])
    {
      BlockOrder(trace, picks, ok, key, a, b);
    }
    if picks != [] {
      FewSwitches(trace, picks, ok, key);
    }
  }

  // ---------------------------------------------------------------- least-used

  /** Every write lowers the key (the available bytes) of the written disk by 1 to `most`. */
  ghost predicate KeyDrops<T(!new)>(trace: seq<seq<T>>, picks: seq<int>, ok: T -> bool, key: T -> int, most: int)
    requires IsRun(trace, picks, ok, key)
  {
    forall k | 0 <= k < |picks| ::
      (assert OnlyChanged(trace[k], picks[k], trace[k + 1]) && FirstBest(trace[k], ok, key, picks[k]);
       1 <= key(trace[k][picks[k]]) - key(trace[k + 1][picks[k]]) <= most)
  }

  /** No two kept disks differ in key by more than bound. */
  ghost predicate SpreadAtMost<T(!new)>(s: seq<T>, ok: T -> bool, key: T -> int, bound: int) {
    forall i, j | 0 <= i < |s| && 0 <= j < |s| && ok(s[i]) && ok(s[j]) :: key(s[i]) - key(s[j]) <= bound
  }

  /** The spread never exceeds the larger of its initial value and the largest write. */
  lemma {:induction false} SpreadBounded<T(!new)>(trace: seq<seq<T>>, picks: seq<int>, ok: T -> bool, key: T -> int,
                                                 most: int, bound: int, a: nat, k: nat)
    requires IsRun(trace, picks, ok, key) && KeyDrops(trace, picks, ok, key, most)
    requires most <= bound && a <= k <= |picks| && SpreadAtMost(trace[a], ok, key, bound)
    ensures SpreadAtMost(trace[k], ok, key, bound)
    decreases k
  {
    if a < k {
      SpreadBounded(trace, picks, ok, key, most, bound, a, k - 1);
      assert FirstBest(trace[k - 1], ok, key, picks[k - 1]) && OnlyChanged(trace[k - 1], picks[k - 1], trace[k]);
    }
  }

  /** How far the kept disks lie above lo, added up. */
  ghost function Excess<T(!new)>(s: seq<T>, ok: T -> bool, key: T -> int, lo: int): (e: int)
    ensures (forall x | x in s && ok(x) :: lo <= key(x)) ==> e >= 0
  {
    if s == [] then 0
    else
      assert s == s[..|s| - 1] + [s[|s| - 1]];
      Excess(s[..|s| - 1], ok, key, lo) + (if ok(s[|s| - 1]) then key(s[|s| - 1]) - lo else 0)
  }

  lemma {:induction false} ExcessChange<T(!new)>(s: seq<T>, i: int, t: seq<T>, ok: T -> bool, key: T -> int, lo: int)
    requires 0 <= i < |s| && OnlyChanged(s, i, t)
    ensures Excess(t, ok, key, lo) - (if ok(t[i]) then key(t[i]) - lo else 0)
         == Excess(s, ok, key, lo) - (if ok(s[i]) then key(s[i]) - lo else 0)
  {
    var n := |s| - 1;
    if i < n {
      assert s[..n][i] == s[i] && t[..n][i] == t[i];
      ExcessChange(s[..n], i, t[..n], ok, key, lo);
    } else {
      assert s[..n] == t[..n];
    }
  }

  ghost predicate AllAbove<T(!new)>(s: seq<T>, ok: T -> bool, key: T -> int, lo: int) {
    forall x | x in s && ok(x) :: lo <= key(x)
  }

  /** While the spread is too large, every write uses up some of the excess and nobody falls below lo. */
  lemma {:induction false} ExcessShrinks<T(!new)>(trace: seq<seq<T>>, picks: seq<int>, ok: T -> bool, key: T -> int,
                                                 most: int, lo: int, k: nat)
    requires IsRun(trace, picks, ok, key) && KeyDrops(trace, picks, ok, key, most)
    requires k <= |picks| && AllAbove(trace[0], ok, key, lo)
    requires forall m | 0 <= m < k :: !SpreadAtMost(trace[m], ok, key, most)
    ensures AllAbove(trace[k], ok, key, lo)
    ensures Excess(trace[k], ok, key, lo) <= Excess(trace[0], ok, key, lo) - k
  {
    if k > 0 {
      var s, i, t := trace[k - 1], picks[k - 1], trace[k];
      ExcessShrinks(trace, picks, ok, key, most, lo, k - 1);
      assert FirstBest(s, ok, key, i) && OnlyChanged(s, i, t) && !SpreadAtMost(s, ok, key, most);
      var x, y :| 0 <= x < |s| && 0 <= y < |s| && ok(s[x]) && ok(s[y]) && key(s[x]) - key(s[y]) > most;
      assert key(t[i]) >= key(s[i]) - most > key(s[y]) >= lo;
      ExcessChange(s, i, t, ok, key, lo);
    }
  }

  /** After as many writes as the initial excess over any lower bound, the spread is at most the largest write, and stays so. */
  lemma {:induction false} Levels<T(!new)>(trace: seq<seq<T>>, picks: seq<int>, ok: T -> bool, key: T -> int,
                                          most: int, lo: int, k: nat)
    requires IsRun(trace, picks, ok, key) && KeyDrops(trace, picks, ok, key, most)
    requires most >= 0 && AllAbove(trace[0], ok, key, lo)
    requires Excess(trace[0], ok, key, lo) <= k <= |picks|
    ensures SpreadAtMost(trace[k], ok, key, most)
  {
    if m: nat :| m <= k && SpreadAtMost(trace[m], ok, key, most) {
      SpreadBounded(trace, picks, ok, key, most, most, m, k);
    } else {
      ExcessShrinks(trace, picks, ok, key, most, lo, k);
      var s := trace[k];
      var x, y :| 0 <= x < |s| && 0 <= y < |s| && ok(s[x]) && ok(s[y]) && key(s[x]) - key(s[y]) > most;
      ExcessAtLeast(s, ok, key, lo, x);
      assert false;
    }
  }

  lemma {:induction false} ExcessAtLeast<T(!new)>(s: seq<T>, ok: T -> bool, key: T -> int, lo: int, x: int)
    requires AllAbove(s, ok, key, lo) && 0 <= x < |s| && ok(s[x])
    ensures Excess(s, ok, key, lo) >= key(s[x]) - lo
  {
    var n := |s| - 1;
    assert s == s[..n] + [s[n]];
    if x < n {
      assert s[..n][x] == s[x];
      ExcessAtLeast(s[..n], ok, key, lo, x);
    }
  }

  /** Least-used keeps the disks level. */
  ghost predicate StaysLevel<T(!new)>(trace: seq<seq<T>>, picks: seq<int>, ok: T -> bool, key: T -> int, most: int)
    requires IsRun(trace, picks, ok, key)
  {
    // never a larger spread than the initial one or the largest write
    && (forall bound, k | most <= bound && 0 <= k <= |picks| && SpreadAtMost(trace[0], ok, key, bound) ::
          SpreadAtMost(trace[k], ok, key, bound))
    // after as many writes as the disks lie above any common lower bound, the spread is at most the largest write
    && (forall lo, k | AllAbove(trace[0], ok, key, lo) && Excess(trace[0], ok, key, lo) <= k <= |picks| && 0 <= k ::
          SpreadAtMost(trace[k], ok, key, most))
    // a write that fits on any kept disk fits on the picked one
    && (forall k, j | 0 <= k < |picks| && 0 <= j < |trace[k]| && ok(trace[k][j]) ::
          0 <= picks[k] < |trace[k]| && key(trace[k][j]) <= key(trace[k][picks[k]]))
  }

  lemma LeastUsedLevels<T(!new)>(trace: seq<seq<T>>, picks: seq<int>, ok: T -> bool, key: T -> int, most: int)
    requires IsRun(trace, picks, ok, key) && KeyDrops(trace, picks, ok, key, most) && most >= 0
    ensures StaysLevel(trace, picks, ok, key, most)
  {
    forall bound, k | most <= bound && 0 <= k <= |picks| && SpreadAtMost(trace[0], ok, key, bound)
      ensures SpreadAtMost(trace[k], ok, key, bound)
    {
      SpreadBounded(trace, picks, ok, key, most, bound, 0, k);
    }
    forall lo, k | AllAbove(trace[0], ok, key, lo) && Excess(trace[0], ok, key, lo) <= k <= |picks| && 0 <= k
      ensures SpreadAtMost(trace[k], ok, key, most)
    {
      Levels(trace, picks, ok, key, most, lo, k);
    }
    forall k | 0 <= k < |picks|
      ensures FirstBest(trace[k], ok, key, picks[k])
    {
    }
  }
}
