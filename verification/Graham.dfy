/** Graham's bound for longest-processing-time list scheduling, on durations and shard numbers alone.

    `w` lists durations in the order they are placed, `a[i]` is the shard that gets item `i`. `a` is the
    greedy assignment; `b` is any other one, and `cap` any number no shard of `b` exceeds. */
module Graham {
  function Load(w: seq<real>, a: seq<nat>, s: nat, i: nat): real
    requires i <= |w| && i <= |a|
  {
    if i == 0 then 0.0
    else Load(w, a, s, i - 1) + if a[i - 1] == s then w[i - 1] else 0.0
  }

  function Total(w: seq<real>, i: nat): real
    requires i <= |w|
  {
    if i == 0 then 0.0 else Total(w, i - 1) + w[i - 1]
  }

  ghost predicate Assignment(w: seq<real>, a: seq<nat>, m: nat) {
    |a| == |w| && forall i :: 0 <= i < |a| ==> a[i] < m
  }

  /** Every item went to a shard that was lightest at that moment. */
  ghost predicate Greedy(w: seq<real>, a: seq<nat>, m: nat) {
    Assignment(w, a, m) && forall i :: 0 <= i < |a| ==> WentToLightest(w, a, m, i)
  }

  ghost predicate WentToLightest(w: seq<real>, a: seq<nat>, m: nat, i: nat)
    requires i < |a| == |w|
  {
    forall s: nat :: s < m ==> Load(w, a, a[i], i) <= Load(w, a, s, i)
  }

  ghost predicate NonNegative(w: seq<real>) {
    forall i :: 0 <= i < |w| ==> w[i] >= 0.0
  }

  ghost predicate Descending(w: seq<real>) {
    forall i, j :: 0 <= i <= j < |w| ==> w[i] >= w[j]
  }

  ghost predicate Within(w: seq<real>, b: seq<nat>, m: nat, cap: real) {
    Assignment(w, b, m) && forall s: nat :: s < m ==> Load(w, b, s, |w|) <= cap
  }

  // ----- m copies of a load, kept as repeated addition so that every step below stays linear -----

  function Copies(m: nat, x: real): real {
    if m == 0 then 0.0 else Copies(m - 1, x) + x
  }

  lemma {:induction false} CopiesIsProduct(m: nat, x: real)
    ensures Copies(m, x) == m as real * x
  {
    if m > 0 {
      CopiesIsProduct(m - 1, x);
      var k := (m - 1) as real;
      assert m as real == k + 1.0;
      assert (k + 1.0) * x == k * x + x;
    }
  }

  lemma {:induction false} CopiesAdd(m: nat, x: real, y: real)
    ensures Copies(m, x + y) == Copies(m, x) + Copies(m, y)
  {
    if m > 0 {
      CopiesAdd(m - 1, x, y);
    }
  }

  lemma {:induction false} CopiesGrow(m: nat, x: real, y: real)
    requires x <= y
    ensures Copies(m, x) <= Copies(m, y)
  {
    if m > 0 {
      CopiesGrow(m - 1, x, y);
    }
  }

  // ----- loads -----

  lemma {:induction false} LoadGrows(w: seq<real>, a: seq<nat>, s: nat, i: nat, j: nat)
    requires i <= j <= |w| && j <= |a| && NonNegative(w)
    ensures 0.0 <= Load(w, a, s, i) <= Load(w, a, s, j)
  {
    if j > 0 {
      if i == j {
        LoadGrows(w, a, s, i - 1, j - 1);
      } else {
        LoadGrows(w, a, s, i, j - 1);
      }
    }
  }

  lemma MemberLoad(w: seq<real>, a: seq<nat>, j: nat, i: nat)
    requires j < i <= |w| && i <= |a| && NonNegative(w)
    ensures Load(w, a, a[j], j) + w[j] <= Load(w, a, a[j], i)
  {
    LoadGrows(w, a, a[j], j + 1, i);
  }

  /** Items `j < k` on one shard weigh at most what the shard does. */
  lemma PairLoad(w: seq<real>, a: seq<nat>, j: nat, k: nat, i: nat)
    requires j < k < i <= |w| && i <= |a| && NonNegative(w) && a[j] == a[k]
    ensures Load(w, a, a[j], j) + w[j] + w[k] <= Load(w, a, a[j], i)
  {
    MemberLoad(w, a, j, k);
    MemberLoad(w, a, k, i);
  }

  /** A shard that received nothing between `i` and `j` weighs the same at both. */
  lemma {:induction false} Untouched(w: seq<real>, a: seq<nat>, s: nat, i: nat, j: nat)
    requires i <= j <= |w| && j <= |a|
    requires forall k :: i <= k < j ==> a[k] != s
    ensures Load(w, a, s, j) == Load(w, a, s, i)
  {
    if i < j {
      Untouched(w, a, s, i, j - 1);
    }
  }

  function SumLoads(w: seq<real>, a: seq<nat>, m: nat, i: nat): real
    requires i <= |w| && i <= |a|
  {
    if m == 0 then 0.0 else SumLoads(w, a, m - 1, i) + Load(w, a, m - 1, i)
  }

  lemma {:induction false} SumLoadsStep(w: seq<real>, a: seq<nat>, m: nat, i: nat)
    requires i < |w| && i < |a|
    ensures SumLoads(w, a, m, i + 1) == SumLoads(w, a, m, i) + if a[i] < m then w[i] else 0.0
  {
    if m > 0 {
      SumLoadsStep(w, a, m - 1, i);
    }
  }

  lemma {:induction false} SumLoadsStart(w: seq<real>, a: seq<nat>, m: nat)
    ensures SumLoads(w, a, m, 0) == 0.0
  {
    if m > 0 {
      SumLoadsStart(w, a, m - 1);
    }
  }

  /** Nothing is lost: the shards together weigh what has been placed. */
  lemma {:induction false} LoadsConserved(w: seq<real>, a: seq<nat>, m: nat, i: nat)
    requires Assignment(w, a, m) && i <= |w|
    ensures SumLoads(w, a, m, i) == Total(w, i)
  {
    if i == 0 {
      SumLoadsStart(w, a, m);
    } else {
      LoadsConserved(w, a, m, i - 1);
      SumLoadsStep(w, a, m, i - 1);
    }
  }

  lemma {:induction false} SumLoadsBetween(w: seq<real>, a: seq<nat>, m: nat, i: nat, lo: real, hi: real)
    requires i <= |w| && i <= |a|
    requires forall s: nat :: s < m ==> lo <= Load(w, a, s, i) <= hi
    ensures Copies(m, lo) <= SumLoads(w, a, m, i) <= Copies(m, hi)
  {
    if m > 0 {
      SumLoadsBetween(w, a, m - 1, i, lo, hi);
    }
  }

  /** A non-empty shard's load is what it weighed before its last item, plus that item. */
  lemma {:induction false} LastItem(w: seq<real>, a: seq<nat>, s: nat, i: nat) returns (last: int)
    requires i <= |w| && i <= |a|
    ensures -1 <= last < i
    ensures last == -1 ==> Load(w, a, s, i) == 0.0 && forall k :: 0 <= k < i ==> a[k] != s
    ensures last >= 0 ==> a[last] == s && Load(w, a, s, i) == Load(w, a, s, last) + w[last]
  {
    if i == 0 {
      last := -1;
    } else if a[i - 1] == s {
      last := i - 1;
    } else {
      last := LastItem(w, a, s, i - 1);
    }
  }

  /** m·L ≤ total + (m−1)·last: the greedy shard was below average when its last item came. */
  lemma GreedyAverage(w: seq<real>, a: seq<nat>, m: nat, last: nat)
    requires Greedy(w, a, m) && last < |w|
    ensures Copies(m, Load(w, a, a[last], last) + w[last]) <= Total(w, last + 1) + Copies(m - 1, w[last])
  {
    var low := Load(w, a, a[last], last);
    assert WentToLightest(w, a, m, last);
    SumLoadsBetween(w, a, m, last, low, Max(w, a, m, last));
    LoadsConserved(w, a, m, last);
    CopiesAdd(m, low, w[last]);
  }

  ghost function Max(w: seq<real>, a: seq<nat>, m: nat, i: nat): (top: real)
    requires i <= |w| && i <= |a|
    ensures forall s: nat :: s < m ==> Load(w, a, s, i) <= top
  {
    if m == 0 then 0.0
    else
      var rest := Max(w, a, m - 1, i);
      var mine := Load(w, a, m - 1, i);
      if mine > rest then mine else rest
  }

  /** No assignment beats the average: the first `i` items need m·cap ≥ total. */
  lemma AverageBound(w: seq<real>, b: seq<nat>, m: nat, cap: real, i: nat)
    requires Within(w, b, m, cap) && NonNegative(w) && i <= |w|
    ensures Total(w, i) <= Copies(m, cap)
  {
    forall s: nat | s < m
      ensures 0.0 <= Load(w, b, s, i) <= cap
    {
      LoadGrows(w, b, s, i, |w|);
    }
    SumLoadsBetween(w, b, m, i, 0.0, cap);
    LoadsConserved(w, b, m, i);
  }

  // ----- counting -----

  function Below(n: nat): (s: set<nat>)
    ensures forall x: nat :: x in s <==> x < n
    ensures |s| == n
  {
    if n == 0 then {} else Below(n - 1) + {n - 1}
  }

  /** The shards items `lo..hi` landed on; there are no more of them than items. */
  function ShardsUsed(a: seq<nat>, lo: nat, hi: nat): (used: set<nat>)
    requires lo <= hi <= |a|
    ensures |used| <= hi - lo
    ensures forall i :: lo <= i < hi ==> a[i] in used
    ensures forall s :: s in used ==> exists i :: lo <= i < hi && a[i] == s
    decreases hi
  {
    if lo == hi then {} else ShardsUsed(a, lo, hi - 1) + {a[hi - 1]}
  }

  /** Items at most `c` to a shard: there are at most c items for every shard. */
  lemma {:induction false} FewPerShard(items: set<nat>, shards: set<nat>, b: seq<nat>, c: nat)
    requires forall i :: i in items ==> i < |b| && b[i] in shards
    requires forall s :: s in shards ==> |On(items, b, s)| <= c
    ensures |items| <= Groups(c, |shards|)
  {
    if shards == {} {
      assert items == {};
    } else {
      var s :| s in shards;
      OneShardLess(items, shards, b, c, s);
      hide On;
      FewPerShard(items - On(items, b, s), shards - {s}, b, c);
    }
  }

  lemma OneShardLess(items: set<nat>, shards: set<nat>, b: seq<nat>, c: nat, s: nat)
    requires forall i :: i in items ==> i < |b| && b[i] in shards
    requires s in shards && forall t :: t in shards ==> |On(items, b, t)| <= c
    ensures var rest := items - On(items, b, s);
      && |items| <= |rest| + c && |shards| == |shards - {s}| + 1
      && (forall i :: i in rest ==> b[i] in shards - {s})
      && (forall t :: t in shards - {s} ==> |On(rest, b, t)| <= c)
  {
    Remove(items, On(items, b, s));
    Remove(shards, {s});
    forall t | t in shards - {s} ensures On(items - On(items, b, s), b, t) == On(items, b, t) {
    }
  }

  /** The size of `n` groups of `c`. */
  function Groups(c: nat, n: nat): (size: nat)
    ensures c == 1 ==> size == n
    ensures c == 2 ==> size == 2 * n
  {
    if n == 0 then 0 else Groups(c, n - 1) + c
  }

  /** The items of a set that `b` puts on shard `s`. */
  function On(items: set<nat>, b: seq<nat>, s: nat): set<nat>
    requires forall i :: i in items ==> i < |b|
  {
    set i | i in items && b[i] == s
  }

  lemma ThreeDistinct(s: set<nat>) returns (x: nat, y: nat, z: nat)
    requires |s| >= 3
    ensures x in s && y in s && z in s && x < y < z
  {
    var p :| p in s;
    assert |s - {p}| == |s| - 1;
    var q :| q in s - {p};
    assert |s - {p} - {q}| == |s| - 2;
    var r :| r in s - {p} - {q};
    var lo := if p < q then p else q;
    var hi := if p < q then q else p;
    if r < lo { x, y, z := r, lo, hi; }
    else if r < hi { x, y, z := lo, r, hi; }
    else { x, y, z := lo, hi, r; }
  }

  /** When the first `l+1` items all exceed a third of `cap`, no shard of `b` holds three of them. */
  lemma AtMostTwo(w: seq<real>, b: seq<nat>, m: nat, cap: real, l: nat, items: set<nat>, s: nat)
    requires Within(w, b, m, cap) && NonNegative(w) && Descending(w) && l < |w| && 3.0 * w[l] > cap
    requires items <= Below(l + 1) && s < m
    ensures |On(items, b, s)| <= 2
  {
    var here := On(items, b, s);
    if |here| >= 3 {
      var x, y, z := ThreeDistinct(here);
      MemberLoad(w, b, x, y);
      LoadGrows(w, b, s, 0, x);
      PairLoad(w, b, y, z, |w|);
      assert false;
    }
  }

  // ----- the case of a large last item -----

  /** `b` must put one of the first k+1 = 2m−l items together with another of the first l+1. */
  lemma SharedShard(w: seq<real>, b: seq<nat>, m: nat, cap: real, l: nat) returns (i: nat, j: nat)
    requires Within(w, b, m, cap) && NonNegative(w) && Descending(w)
    requires m <= l < |w| && 3.0 * w[l] > cap
    ensures l < 2 * m && i < 2 * m - l && j <= l && i != j && b[i] == b[j]
  {
    LonersCrowdTheRest(w, b, m, cap, l, 0);
    var big := 2 * m - l;
    if i', j' :| 0 <= i' < big && 0 <= j' <= l && i' != j' && b[i'] == b[j'] {
      i, j := i', j';
    } else {
      LonersCrowdTheRest(w, b, m, cap, l, big);
      assert false;
    }
  }

  /** If the first `big` items each have a shard to themselves, the others share the remaining ones in pairs. */
  lemma LonersCrowdTheRest(w: seq<real>, b: seq<nat>, m: nat, cap: real, l: nat, big: nat)
    requires Within(w, b, m, cap) && NonNegative(w) && Descending(w)
    requires big <= l < |w| && 3.0 * w[l] > cap
    requires forall i, j :: 0 <= i < big && 0 <= j <= l && i != j ==> b[i] != b[j]
    ensures l + 1 - big <= 2 * (m - big)
  {
    var lone := ShardsUsed(b, 0, big);
    LonersTakeOneEach(b, big);
    var items, shards := Below(l + 1) - Below(big), Below(m) - lone;
    forall s | s in shards ensures |On(items, b, s)| <= 2 {
      AtMostTwo(w, b, m, cap, l, items, s);
    }
    FewPerShard(items, shards, b, 2);
    Remove(Below(m), lone);
    Remove(Below(l + 1), Below(big));
  }

  lemma LonersTakeOneEach(b: seq<nat>, big: nat)
    requires big <= |b|
    requires forall i, j :: 0 <= i < big && 0 <= j < big && i != j ==> b[i] != b[j]
    ensures |ShardsUsed(b, 0, big)| == big
  {
    var lone := ShardsUsed(b, 0, big);
    forall s | s in lone ensures |On(Below(big), b, s)| <= 1 {
      var x0 :| 0 <= x0 < big && b[x0] == s;
      assert On(Below(big), b, s) == {x0};
    }
    FewPerShard(Below(big), lone, b, 1);
  }

  lemma Remove(s: set<nat>, t: set<nat>)
    requires t <= s
    ensures |s - t| == |s| - |t|
  {
    assert s == (s - t) + t;
  }

  /** While shards are still empty, greedy opens a new one for every (positive) item. */
  lemma {:induction false} OpensEmptyShard(w: seq<real>, a: seq<nat>, m: nat, i: nat)
    requires Greedy(w, a, m) && NonNegative(w) && i < m && i < |w|
    ensures Load(w, a, a[i], i) <= 0.0
    ensures forall j :: 0 <= j < i && w[j] > 0.0 ==> a[j] != a[i]
  {
    var used := ShardsUsed(a, 0, i);
    assert WentToLightest(w, a, m, i);
    if Below(m) <= used {
      SubsetSize(Below(m), used);
      assert false;
    }
    var empty :| empty in Below(m) && empty !in used;
    Untouched(w, a, empty, 0, i);
    forall j | 0 <= j < i && w[j] > 0.0 ensures a[j] != a[i] {
      if a[j] == a[i] {
        MemberLoad(w, a, j, i);
        LoadGrows(w, a, a[j], 0, j);
      }
    }
  }

  lemma {:induction false} SubsetSize(s: set<nat>, t: set<nat>)
    requires s <= t
    ensures |s| <= |t|
  {
    if s != {} {
      var x :| x in s;
      SubsetSize(s - {x}, t - {x});
    }
  }

  /** Item l ≥ m is placed on top of at most item 2m−l−1, the partner longest-first order gives it. */
  lemma LightBeforeLast(w: seq<real>, a: seq<nat>, m: nat, l: nat)
    requires Greedy(w, a, m) && NonNegative(w) && Descending(w)
    requires m <= l < |w| && l < 2 * m && w[l] > 0.0
    ensures Load(w, a, a[l], l) <= w[2 * m - l - 1]
  {
    var k := 2 * m - l - 1;
    if Load(w, a, a[l], l) > w[k] {
      var late := ShardsUsed(a, m, l);
      var quiet := Below(m) - late;
      assert |quiet| >= k + 1 by {
        assert |Below(m)| == |Below(m) * late| + |quiet|;
        SubsetSize(Below(m) * late, late);
      }
      assert WentToLightest(w, a, m, l);
      forall u | u in quiet ensures u in ShardsUsed(a, 0, k) {
        Untouched(w, a, u, m, l);
        var e := LastItem(w, a, u, m);
        assert Load(w, a, u, m) > w[k] >= 0.0;
        OpensEmptyShard(w, a, m, e);
        assert w[k] < w[e];
      }
      SubsetSize(quiet, ShardsUsed(a, 0, k));
      assert false;
    }
  }

  /** A last item above cap/3 does no harm: greedy is then within `cap` itself. */
  lemma LargeLastItem(w: seq<real>, a: seq<nat>, b: seq<nat>, m: nat, cap: real, last: nat)
    requires Greedy(w, a, m) && Within(w, b, m, cap) && NonNegative(w) && Descending(w)
    requires last < |w| && 3.0 * w[last] > cap
    ensures Load(w, a, a[last], last) + w[last] <= cap
  {
    MemberLoad(w, b, last, |w|);
    LoadGrows(w, b, b[last], 0, last);
    if last < m {
      OpensEmptyShard(w, a, m, last);
    } else {
      var i, j := SharedShard(w, b, m, cap, last);
      PairLoad(w, b, if i < j then i else j, if i < j then j else i, |w|);
      LoadGrows(w, b, b[i], 0, if i < j then i else j);
      LightBeforeLast(w, a, m, last);
    }
  }

  // ----- the bounds -----

  /** List scheduling in any order is within 2 − 1/m of every other assignment. */
  lemma ListBound(w: seq<real>, a: seq<nat>, b: seq<nat>, m: nat, cap: real, s: nat)
    requires Greedy(w, a, m) && Within(w, b, m, cap) && NonNegative(w) && s < m
    ensures m as real * Load(w, a, s, |w|) <= (2.0 * m as real - 1.0) * cap
  {
    var load := Load(w, a, s, |w|);
    assert Copies(m, load) <= Copies(m, cap) + Copies(m - 1, cap) by {
      LoadGrows(w, b, s, 0, |w|);
      var last := LastItem(w, a, s, |w|);
      if last >= 0 {
        GreedyAverage(w, a, m, last);
        AverageBound(w, b, m, cap, last + 1);
        MemberLoad(w, b, last, |w|);
        LoadGrows(w, b, b[last], 0, last);
        CopiesGrow(m - 1, w[last], cap);
      } else {
        CopiesGrow(m, 0.0, cap);
        CopiesGrow(m - 1, 0.0, cap);
        CopiesIsProduct(m - 1, 0.0);
      }
    }
    CopiesIsProduct(m, load);
    CopiesIsProduct(m, cap);
  }

  /** load ≤ (4/3 − 1/(3m))·cap */
  ghost predicate WithinGrahamRatio(m: nat, load: real, cap: real) {
    3.0 * m as real * load <= (4.0 * m as real - 1.0) * cap
  }

  /** Graham: longest-first greedy is within 4/3 − 1/(3m) of every other assignment. */
  lemma GrahamBound(w: seq<real>, a: seq<nat>, b: seq<nat>, m: nat, cap: real, s: nat)
    requires Greedy(w, a, m) && Within(w, b, m, cap) && NonNegative(w) && Descending(w) && s < m
    ensures WithinGrahamRatio(m, Load(w, a, s, |w|), cap)
  {
    var load := Load(w, a, s, |w|);
    assert 3.0 * Copies(m, load) <= 3.0 * Copies(m, cap) + Copies(m - 1, cap) by {
      LoadGrows(w, b, s, 0, |w|);
      var last := LastItem(w, a, s, |w|);
      if last >= 0 && 3.0 * w[last] <= cap {
        var item := w[last];
        GreedyAverage(w, a, m, last);
        AverageBound(w, b, m, cap, last + 1);
        CopiesGrow(m - 1, item + item + item, cap);
        CopiesAdd(m - 1, item + item, item);
        CopiesAdd(m - 1, item, item);
      } else {
        if last >= 0 {
          LargeLastItem(w, a, b, m, cap, last);
        }
        CopiesGrow(m, load, cap);
        CopiesGrow(m - 1, 0.0, cap);
        CopiesIsProduct(m - 1, 0.0);
      }
    }
    CopiesIsProduct(m, load);
    CopiesIsProduct(m, cap);
  }

  // ----- the ratio is attained on every number of shards -----

  /** 2m-1, 2m-1, 2m-2, 2m-2, ..., m+1, m+1, m, m, m. */
  function Length(m: nat, i: nat): int {
    if i < 2 * m then 2 * m - 1 - i / 2 else m
  }

  function Lengths(m: nat): (w: seq<real>)
    ensures |w| == 2 * m + 1 && forall i :: 0 <= i < |w| ==> w[i] == Length(m, i) as real
  {
    seq(2 * m + 1, i requires 0 <= i => Length(m, i) as real)
  }

  /** Longest first: out along the shards, back again, and the last one on top of the first shard. */
  function OutAndBack(m: nat): (a: seq<nat>)
    ensures |a| == 2 * m + 1
    ensures forall i :: 0 <= i < |a| ==> a[i] == if i < m then i else if i < 2 * m then 2 * m - 1 - i else 0
  {
    seq(2 * m + 1, i requires 0 <= i => if i < m then i else if i < 2 * m then 2 * m - 1 - i else 0)
  }

  /** The three shortest together, the others in pairs of longest and shortest. */
  function ShortestTogether(m: nat): (b: seq<nat>)
    requires m > 0
    ensures |b| == 2 * m + 1
    ensures forall i :: 0 <= i < |b| ==> b[i] == if i < m - 1 then i else if i < 2 * m - 2 then 2 * m - 3 - i else m - 1
  {
    seq(2 * m + 1, i requires 0 <= i => if i < m - 1 then i else if i < 2 * m - 2 then 2 * m - 3 - i else m - 1)
  }

  /** A shard that gets items `x`, `y` and `z` and no others. */
  lemma {:induction false} LoadOfThree(w: seq<real>, a: seq<nat>, s: nat, x: nat, y: nat, z: nat, i: nat)
    requires i <= |w| == |a| && x < y < z
    requires forall k: nat :: k < |a| ==> (a[k] == s <==> k == x || k == y || k == z)
    ensures Load(w, a, s, i) == (if x < i then w[x] else 0.0) + (if y < i then w[y] else 0.0)
                                + (if z < i then w[z] else 0.0)
  {
    if i > 0 {
      LoadOfThree(w, a, s, x, y, z, i - 1);
    }
  }

  lemma OutAndBackLoad(m: nat, s: nat, i: nat)
    requires s < m && i <= 2 * m + 1
    ensures Load(Lengths(m), OutAndBack(m), s, i)
            == (if s < i then Length(m, s) else 0) as real
               + (if 2 * m - 1 - s < i then Length(m, 2 * m - 1 - s) else 0) as real
               + (if s == 0 && i == 2 * m + 1 then m else 0) as real
  {
    LoadOfThree(Lengths(m), OutAndBack(m), s, s, 2 * m - 1 - s, if s == 0 then 2 * m else 2 * m + 1, i);
  }

  lemma OutAndBackIsGreedy(m: nat)
    requires m > 0
    ensures Greedy(Lengths(m), OutAndBack(m), m)
  {
    hide Load;
    var w, a := Lengths(m), OutAndBack(m);
    forall i | 0 <= i < |a| ensures a[i] < m && WentToLightest(w, a, m, i) {
      forall s: nat | s < m ensures Load(w, a, a[i], i) <= Load(w, a, s, i) {
        OutAndBackLoad(m, a[i], i);
        OutAndBackLoad(m, s, i);
      }
    }
  }

  lemma LengthsDescend(m: nat)
    ensures NonNegative(Lengths(m)) && Descending(Lengths(m))
  {
  }

  lemma HalvesAdd(i: nat, j: nat, n: nat)
    requires i + j == 2 * n + 1
    ensures i / 2 + j / 2 == n
  {
  }

  lemma ShortestTogetherIsEven(m: nat, s: nat)
    requires s < m
    ensures Load(Lengths(m), ShortestTogether(m), s, 2 * m + 1) == (3 * m) as real
  {
    if s < m - 1 {
      PairTogether(m, s);
    } else {
      ThreeTogether(m);
    }
  }

  lemma ThreeTogether(m: nat)
    requires m > 0
    ensures Load(Lengths(m), ShortestTogether(m), m - 1, 2 * m + 1) == (3 * m) as real
  {
    hide Load;
    LoadOfThree(Lengths(m), ShortestTogether(m), m - 1, 2 * m - 2, 2 * m - 1, 2 * m, 2 * m + 1);
    assert (2 * m - 2) / 2 == m - 1 == (2 * m - 1) / 2;
  }

  lemma PairTogether(m: nat, s: nat)
    requires s < m - 1
    ensures Load(Lengths(m), ShortestTogether(m), s, 2 * m + 1) == (3 * m) as real
  {
    hide Load;
    LoadOfThree(Lengths(m), ShortestTogether(m), s, s, 2 * m - 3 - s, 2 * m + 1, 2 * m + 1);
    HalvesAdd(s, 2 * m - 3 - s, m - 2);
  }

  /** The ratio is attained on every number of shards, so no smaller one holds. */
  lemma GrahamRatioIsTight(m: nat) returns (w: seq<real>, a: seq<nat>, b: seq<nat>, cap: real)
    requires m > 0
    ensures Greedy(w, a, m) && Within(w, b, m, cap) && NonNegative(w) && Descending(w)
    ensures 3.0 * m as real * Load(w, a, 0, |w|) == (4.0 * m as real - 1.0) * cap && cap > 0.0
  {
    w, a, b, cap := Lengths(m), OutAndBack(m), ShortestTogether(m), (3 * m) as real;
    hide Load, Greedy;
    OutAndBackIsGreedy(m);
    OutAndBackLoad(m, 0, |w|);
    LengthsDescend(m);
    forall s: nat | s < m ensures Load(w, b, s, |w|) <= cap {
      ShortestTogetherIsEven(m, s);
    }
    var n := m as real;
    hide Length;
    assert Load(w, a, 0, |w|) == 4.0 * n - 1.0 && cap == 3.0 * n;
    assert (3.0 * n) * (4.0 * n - 1.0) == (4.0 * n - 1.0) * (3.0 * n);
  }

  /** The heaviest shard is never more than one item above the lightest. */
  lemma Spread(w: seq<real>, a: seq<nat>, m: nat, longest: real, s: nat, t: nat)
    requires Greedy(w, a, m) && NonNegative(w) && s < m && t < m && longest >= 0.0
    requires forall i :: 0 <= i < |w| ==> w[i] <= longest
    ensures Load(w, a, s, |w|) - Load(w, a, t, |w|) <= longest
  {
    LoadGrows(w, a, t, 0, |w|);
    var last := LastItem(w, a, s, |w|);
    if last >= 0 {
      assert WentToLightest(w, a, m, last);
      LoadGrows(w, a, t, last, |w|);
    }
  }

  // ----- how many shards get something -----

  /** Greedy in any order: as soon as there are as many positive items as shards, no shard is left empty. */
  lemma NoShardEmpty(w: seq<real>, a: seq<nat>, m: nat, items: set<nat>, s: nat)
    requires Greedy(w, a, m) && NonNegative(w) && s < m <= |items|
    requires forall i :: i in items ==> i < |w| && w[i] > 0.0
    ensures exists i :: 0 <= i < |w| && a[i] == s
  {
    if forall i :: 0 <= i < |w| ==> a[i] != s {
      var others := Below(m) - {s};
      forall i | i in items ensures a[i] in others && Load(w, a, a[i], i) <= 0.0 {
        Untouched(w, a, s, 0, i);
        assert WentToLightest(w, a, m, i);
      }
      forall t | t in others ensures |On(items, a, t)| <= 1 {
        AloneOnItsShard(w, a, items, t);
      }
      FewPerShard(items, others, a, 1);
      assert false;
    }
  }

  /** Items that each found their shard empty are on different ones. */
  lemma AloneOnItsShard(w: seq<real>, a: seq<nat>, items: set<nat>, t: nat)
    requires |a| == |w| && NonNegative(w)
    requires forall i :: i in items ==> i < |w| && w[i] > 0.0 && Load(w, a, a[i], i) <= 0.0
    ensures |On(items, a, t)| <= 1
  {
    var here := On(items, a, t);
    if i :| i in here {
      forall j | j in here ensures j == i {
        if j != i {
          var x, y := if j < i then j else i, if j < i then i else j;
          MemberLoad(w, a, x, y);
          LoadGrows(w, a, t, 0, x);
        }
      }
      assert here == {i};
    }
  }

  /** Ties go to the first of the lightest shards. */
  ghost predicate FirstOfLightest(w: seq<real>, a: seq<nat>, m: nat, i: nat)
    requires i < |a| == |w|
  {
    WentToLightest(w, a, m, i) && forall s: nat :: s < a[i] && s < m ==> Load(w, a, a[i], i) < Load(w, a, s, i)
  }

  /** The positive items come first, `p` of them. */
  ghost predicate PositiveUpTo(w: seq<real>, p: nat) {
    p <= |w| && forall i :: 0 <= i < |w| ==> w[i] >= 0.0 && (w[i] > 0.0 <==> i < p)
  }

  function Min(x: nat, y: nat): nat {
    if x < y then x else y
  }

  /** Items of no duration change no load, so they all go where the first of them went. */
  lemma {:induction false} ZerosGoTogether(w: seq<real>, a: seq<nat>, m: nat, p: nat, i: nat)
    requires Assignment(w, a, m) && PositiveUpTo(w, p) && p <= i < |w|
    requires FirstOfLightest(w, a, m, p) && FirstOfLightest(w, a, m, i)
    ensures a[i] == a[p]
  {
    ZerosWeighNothing(w, a, p, a[i], i);
    ZerosWeighNothing(w, a, p, a[p], i);
    hide Load;
    assert Load(w, a, a[i], i) <= Load(w, a, a[p], i) && Load(w, a, a[p], p) <= Load(w, a, a[i], p);
  }

  lemma {:induction false} ZerosWeighNothing(w: seq<real>, a: seq<nat>, p: nat, s: nat, i: nat)
    requires |a| == |w| && PositiveUpTo(w, p) && p <= i <= |w|
    ensures Load(w, a, s, i) == Load(w, a, s, p)
  {
    if p < i {
      ZerosWeighNothing(w, a, p, s, i - 1);
    }
  }

  /** Longest first, ties to the first: how many shards get an item at all. */
  lemma {:induction false} ShardsFilled(w: seq<real>, a: seq<nat>, m: nat, p: nat)
    requires Greedy(w, a, m) && PositiveUpTo(w, p)
    requires forall i :: 0 <= i < |a| ==> FirstOfLightest(w, a, m, i)
    ensures |ShardsUsed(a, 0, |a|)| == Min(m, Min(|w|, p + 1))
  {
    if p < m {
      FewPositives(w, a, m, p);
    } else {
      forall s | s in Below(m) ensures s in ShardsUsed(a, 0, |a|) {
        NoShardEmpty(w, a, m, Below(p), s);
      }
      assert ShardsUsed(a, 0, |a|) == Below(m);
    }
  }

  lemma {:induction false} PositivesSpread(w: seq<real>, a: seq<nat>, m: nat, p: nat)
    requires Greedy(w, a, m) && PositiveUpTo(w, p) && p <= m
    ensures |ShardsUsed(a, 0, p)| == p
    ensures p < m && p < |w| ==> a[p] !in ShardsUsed(a, 0, p)
  {
    hide Load, WentToLightest, ShardsUsed;
    forall i, j | 0 <= i < j < p ensures a[i] != a[j] {
      OpensEmptyShard(w, a, m, j);
    }
    LonersTakeOneEach(a, p);
    if p < m && p < |w| {
      OpensEmptyShard(w, a, m, p);
    }
  }

  lemma {:induction false} FewPositives(w: seq<real>, a: seq<nat>, m: nat, p: nat)
    requires Greedy(w, a, m) && PositiveUpTo(w, p) && p < m
    requires forall i :: 0 <= i < |a| ==> FirstOfLightest(w, a, m, i)
    ensures |ShardsUsed(a, 0, |a|)| == Min(|w|, p + 1)
  {
    hide FirstOfLightest, WentToLightest, ShardsUsed;
    PositivesSpread(w, a, m, p);
    if p < |w| {
      forall i | p <= i < |a| ensures a[i] == a[p] {
        ZerosGoTogether(w, a, m, p, i);
      }
      OneMoreShard(a, p);
    }
  }

  /** From item `p` on, all go to one shard. */
  lemma {:induction false} OneMoreShard(a: seq<nat>, p: nat)
    requires p < |a| && forall i :: p <= i < |a| ==> a[i] == a[p]
    ensures ShardsUsed(a, 0, |a|) == ShardsUsed(a, 0, p) + {a[p]}
  {
    forall s ensures s in ShardsUsed(a, 0, |a|) <==> s in ShardsUsed(a, 0, p) + {a[p]} {
    }
  }
}
