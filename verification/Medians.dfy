/** The median of a list of durations, by counting: what `statistics.median` promises, whatever the order of the
    list. */
module Medians {
  import opened Bags

  function AtMost(xs: seq<real>, v: real): nat {
    if xs == [] then 0 else AtMost(xs[1..], v) + if xs[0] <= v then 1 else 0
  }

  function AtLeast(xs: seq<real>, v: real): nat {
    if xs == [] then 0 else AtLeast(xs[1..], v) + if xs[0] >= v then 1 else 0
  }

  /** `v` is one of the list, with `r` of it before `v` and the others after it, in some ascending order. */
  ghost predicate Ranks(xs: seq<real>, v: real, r: nat) {
    v in xs && AtMost(xs, v) > r && AtLeast(xs, v) >= |xs| - r
  }

  /** The two in the middle. */
  ghost predicate Middles(xs: seq<real>, lo: real, hi: real) {
    |xs| >= 2 && Ranks(xs, lo, |xs| / 2 - 1) && Ranks(xs, hi, |xs| / 2)
  }

  /** The middle one of an odd number, the mean of the two middle ones of an even number, 1 of none. */
  ghost predicate IsMedian(c: real, xs: seq<real>) {
    var n := |xs|;
    if n == 0 then c == 1.0
    else if n % 2 == 1 then Ranks(xs, c, n / 2)
    else exists lo, hi :: Middles(xs, lo, hi) && c == (lo + hi) / 2.0
  }

  /** Nothing is both at most the lesser and at least the greater of two values. */
  lemma {:induction false} CountsApart(xs: seq<real>, v: real, u: real)
    requires v < u
    ensures AtMost(xs, v) + AtLeast(xs, u) <= |xs|
  {
    if xs != [] {
      CountsApart(xs[1..], v, u);
    }
  }

  lemma {:induction false} RankIsUnique(xs: seq<real>, v: real, u: real, r: nat)
    requires Ranks(xs, v, r) && Ranks(xs, u, r)
    ensures v == u
  {
    if v < u {
      CountsApart(xs, v, u);
    } else if u < v {
      CountsApart(xs, u, v);
    }
  }

  /** There is one median. */
  lemma {:induction false} MedianIsUnique(c: real, d: real, xs: seq<real>)
    requires IsMedian(c, xs) && IsMedian(d, xs)
    ensures c == d
  {
    var n := |xs|;
    if n == 0 {
    } else if n % 2 == 1 {
      RankIsUnique(xs, c, d, n / 2);
    } else {
      var lo, hi :| Middles(xs, lo, hi) && c == (lo + hi) / 2.0;
      var lo', hi' :| Middles(xs, lo', hi') && d == (lo' + hi') / 2.0;
      RankIsUnique(xs, lo, lo', n / 2 - 1);
      RankIsUnique(xs, hi, hi', n / 2);
    }
  }

  /** At least half of the list is at most the median, and at least half of it at least that. */
  lemma {:induction false} HalfOnEitherSide(c: real, xs: seq<real>)
    requires IsMedian(c, xs)
    ensures 2 * AtMost(xs, c) >= |xs| && 2 * AtLeast(xs, c) >= |xs|
  {
    var n := |xs|;
    if n > 0 && n % 2 == 0 {
      var lo, hi :| Middles(xs, lo, hi) && c == (lo + hi) / 2.0;
      if lo > hi {
        CountsApart(xs, hi, lo);
        assert false;
      }
      CountsGrow(xs, lo, c);
      CountsGrow(xs, c, hi);
    }
  }

  lemma {:induction false} CountsGrow(xs: seq<real>, v: real, u: real)
    requires v <= u
    ensures AtMost(xs, v) <= AtMost(xs, u) && AtLeast(xs, u) <= AtLeast(xs, v)
  {
    if xs != [] {
      CountsGrow(xs[1..], v, u);
    }
  }

  // ----- counting does not depend on the order -----

  lemma {:induction false} CountsAppend(a: seq<real>, b: seq<real>, v: real)
    ensures AtMost(a + b, v) == AtMost(a, v) + AtMost(b, v) && AtLeast(a + b, v) == AtLeast(a, v) + AtLeast(b, v)
  {
    if a == [] {
      assert a + b == b;
    } else {
      assert (a + b)[1..] == a[1..] + b;
      CountsAppend(a[1..], b, v);
    }
  }

  lemma {:induction false} CountsPermute(a: seq<real>, b: seq<real>, v: real)
    requires multiset(a) == multiset(b)
    ensures AtMost(a, v) == AtMost(b, v) && AtLeast(a, v) == AtLeast(b, v)
  {
    if a == [] {
      EmptyBag(a, b);
    } else {
      var before, after := TakeHead(a, b);
      CountsPermute(a[1..], before + after, v);
      CountsAppend(before, after, v);
      CountsAppend(before, [a[0]] + after, v);
      assert ([a[0]] + after)[1..] == after;
    }
  }

  lemma {:induction false} RanksPermute(a: seq<real>, b: seq<real>, v: real, r: nat)
    requires multiset(a) == multiset(b) && Ranks(a, v, r)
    ensures Ranks(b, v, r) && |a| == |b|
  {
    CountsPermute(a, b, v);
    assert v in multiset(a) && v in multiset(b);
    assert |multiset(a)| == |a| && |multiset(b)| == |b|;
  }

  // ----- in a descending list -----

  lemma {:induction false} FrontCounts(xs: seq<real>, v: real, k: nat)
    requires k <= |xs| && forall i :: 0 <= i < k ==> xs[i] >= v
    ensures AtLeast(xs, v) >= k
  {
    if k > 0 {
      FrontCounts(xs[1..], v, k - 1);
    }
  }

  lemma {:induction false} BackCounts(xs: seq<real>, v: real, k: nat)
    requires k <= |xs| && forall i :: k <= i < |xs| ==> xs[i] <= v
    ensures AtMost(xs, v) >= |xs| - k
  {
    if xs != [] {
      BackCounts(xs[1..], v, if k == 0 then 0 else k - 1);
    }
  }

  lemma {:induction false} DescendingRanks(xs: seq<real>, k: nat)
    requires k < |xs| && forall i, j :: 0 <= i <= j < |xs| ==> xs[i] >= xs[j]
    ensures Ranks(xs, xs[k], |xs| - 1 - k)
  {
    FrontCounts(xs, xs[k], k + 1);
    BackCounts(xs, xs[k], k);
  }

  lemma {:induction false} DescendingMedian(ds: seq<real>, xs: seq<real>)
    requires multiset(ds) == multiset(xs) && forall i, j :: 0 <= i <= j < |ds| ==> ds[i] >= ds[j]
    ensures var n := |ds|;
      IsMedian(if n == 0 then 1.0 else if n % 2 == 1 then ds[n / 2] else (ds[n / 2 - 1] + ds[n / 2]) / 2.0, xs)
  {
    var n := |ds|;
    assert |multiset(ds)| == n && |multiset(xs)| == |xs|;
    hide Ranks;
    if n % 2 == 1 {
      DescendingRanks(ds, n / 2);
      RanksPermute(ds, xs, ds[n / 2], n / 2);
    } else if n > 0 {
      DescendingRanks(ds, n / 2);
      DescendingRanks(ds, n / 2 - 1);
      RanksPermute(ds, xs, ds[n / 2], n / 2 - 1);
      RanksPermute(ds, xs, ds[n / 2 - 1], n / 2);
      assert Middles(xs, ds[n / 2], ds[n / 2 - 1]);
    }
  }
}
