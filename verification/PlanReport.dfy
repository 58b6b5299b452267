/** What the planner reports and in which order it places, said of the tests and the recorded durations alone. */
module PlanReport {
  import opened Bags
  import opened Medians
  import opened ShardPlan

  // ----- names in order -----

  /** A prefix comes first; otherwise the first character that differs decides. */
  ghost predicate Alphabetical(a: string, b: string) {
    a <= b || exists k :: 0 <= k < |a| && k < |b| && a[..k] == b[..k] && a[k] < b[k]
  }

  lemma {:induction false} NameLeIsAlphabetical(a: string, b: string)
    ensures NameLe(a, b) <==> Alphabetical(a, b)
  {
    if a != [] && b != [] && a[0] == b[0] {
      NameLeIsAlphabetical(a[1..], b[1..]);
      SameFirst(a, b);
    } else if a != [] && b != [] && a[0] < b[0] {
      assert a[..0] == b[..0];
    }
  }

  lemma SameFirst(a: string, b: string)
    requires a != [] && b != [] && a[0] == b[0]
    ensures Alphabetical(a, b) <==> Alphabetical(a[1..], b[1..])
  {
    assert a == [a[0]] + a[1..] && b == [b[0]] + b[1..];
    if k :| 0 <= k < |a| && k < |b| && a[..k] == b[..k] && a[k] < b[k] {
      assert a[1..][..k - 1] == a[..k][1..] && b[1..][..k - 1] == b[..k][1..];
      assert a[1..][k - 1] < b[1..][k - 1];
    }
    if k :| 0 <= k < |a[1..]| && k < |b[1..]| && a[1..][..k] == b[1..][..k] && a[1..][k] < b[1..][k] {
      assert a[..k + 1] == [a[0]] + a[1..][..k] && b[..k + 1] == [b[0]] + b[1..][..k];
      assert a[k + 1] < b[k + 1];
    }
  }

  // ----- which tests have no record -----

  function Unrecorded(tests: seq<string>, timings: Timings): seq<string> {
    if tests == [] then [] else (if tests[0] in timings then [] else [tests[0]]) + Unrecorded(tests[1..], timings)
  }

  lemma {:induction false} UnknownAreUnrecorded(tests: seq<string>, timings: Timings)
    ensures Names(Collect(Unknown, tests, timings)) == Unrecorded(tests, timings)
    ensures forall e :: e in Collect(Unknown, tests, timings) ==> e.secs == 0.0
  {
    if tests != [] {
      UnknownAreUnrecorded(tests[1..], timings);
      var first, rest := Unknown.Of(timings, tests[0]), Collect(Unknown, tests[1..], timings);
      assert Names(first + rest) == Names(first) + Names(rest);
    }
  }

  /** The unknown tests are those without a record, each as often as it is listed, in ascending order. */
  lemma {:induction false} UnknownExactly(tests: seq<string>, timings: Timings)
    ensures var u := Names(SortedCollect(Unknown, tests, timings));
      && multiset(u) == multiset(Unrecorded(tests, timings))
      && forall i, j :: 0 <= i <= j < |u| ==> Alphabetical(u[i], u[j])
  {
    var es := Collect(Unknown, tests, timings);
    var sorted := Sort(es);
    UnknownAreUnrecorded(tests, timings);
    SortSorts(es);
    NamesPermute(sorted, es);
    hide Alphabetical;
    forall i, j | 0 <= i <= j < |sorted| ensures Alphabetical(sorted[i].name, sorted[j].name) {
      assert sorted[i] in multiset(sorted) && sorted[j] in multiset(sorted);
      assert Before(sorted[i], sorted[j]);
      NameLeIsAlphabetical(sorted[i].name, sorted[j].name);
    }
  }

  // ----- the order of placing -----

  /** Tests are placed longest first by the time recorded, or the median, and of two that take equally long the
      one whose name comes first. */
  lemma {:induction false} PlacedInOrder(tests: seq<string>, timings: Timings, c: real, i: nat, j: nat)
    requires i < j < |tests| && IsMedian(c, Recorded(tests, timings))
    ensures |Weighted(tests, timings)| == |tests|
    ensures var w := Weighted(tests, timings);
      var x, y := w[i].name, w[j].name;
      var first, second := if x in timings then timings[x] else c, if y in timings then timings[y] else c;
      first > second || (first == second && Alphabetical(x, y))
  {
    MedianIs(c, tests, timings);
    WeightedIsPermutation(tests, timings);
    var w := Weighted(tests, timings);
    hide Alphabetical;
    assert Before(w[i], w[j]);
    NameLeIsAlphabetical(w[i].name, w[j].name);
  }

  // ----- the report -----

  lemma {:induction false} NoneIsLonger(w: seq<Entry>)
    requires w != []
    ensures forall i :: 0 <= i < |w| ==> w[i].secs <= Floor(w)
  {
    if |w| > 1 {
      NoneIsLonger(w[1..]);
      forall i | 0 <= i < |w| ensures w[i].secs <= Floor(w) {
        if i > 0 {
          assert w[i] == w[1..][i - 1];
        }
      }
    }
  }

  lemma {:induction false} SomeTestIsThatLong(w: seq<Entry>) returns (i: nat)
    requires w != []
    ensures i < |w| && w[i].secs == Floor(w)
  {
    if |w| == 1 || w[0].secs >= Floor(w[1..]) {
      i := 0;
    } else {
      i := SomeTestIsThatLong(w[1..]);
      i := i + 1;
    }
  }

  /** The time of the longest test, recorded or charged; none for no tests. */
  ghost predicate IsLongest(longest: real, tests: seq<string>, timings: Timings, c: real) {
    if tests == [] then longest == 0.0
    else
      && (forall x :: x in tests ==> (if x in timings then timings[x] else c) <= longest)
      && (exists x :: x in tests && (if x in timings then timings[x] else c) == longest)
  }

  lemma EntryOf(w: seq<Entry>, tests: seq<string>, x: string) returns (i: nat)
    requires multiset(Names(w)) == multiset(tests) && x in tests
    ensures i < |w| && w[i].name == x
  {
    assert x in multiset(tests) && x in multiset(Names(w));
    i :| 0 <= i < |Names(w)| && Names(w)[i] == x;
  }

  lemma NameOf(w: seq<Entry>, tests: seq<string>, i: nat)
    requires multiset(Names(w)) == multiset(tests) && i < |w|
    ensures w[i].name in tests
  {
    assert Names(w)[i] in multiset(Names(w)) && Names(w)[i] in multiset(tests);
  }

  lemma {:induction false} LongestOf(w: seq<Entry>, tests: seq<string>, timings: Timings, c: real)
    requires w != [] && tests != [] && ChargedBy(w, timings, c) && multiset(Names(w)) == multiset(tests)
    ensures IsLongest(Floor(w), tests, timings, c)
  {
    hide Floor, Names;
    NoneIsLonger(w);
    forall x | x in tests ensures (if x in timings then timings[x] else c) <= Floor(w) {
      var i := EntryOf(w, tests, x);
    }
    var i := SomeTestIsThatLong(w);
    NameOf(w, tests, i);
  }

  lemma {:induction false} FloorIsTheLongest(tests: seq<string>, timings: Timings)
    ensures IsLongest(Floor(Weighted(tests, timings)), tests, timings, Median(tests, timings))
  {
    WeightedIsPermutation(tests, timings);
    if tests == [] {
      assert Weighted(tests, timings) == [];
    } else {
      hide Floor, IsLongest, Weighted, Median, ChargedBy, Names;
      LongestOf(Weighted(tests, timings), tests, timings, Median(tests, timings));
    }
  }

  /** The report: the plan itself, the tests without a record, the median of those with one, and the longest. */
  lemma {:induction false} ReportIsTrue(tests: seq<string>, timings: Timings, m: nat, c: real)
    requires m > 0 && IsMedian(c, Recorded(tests, timings))
    ensures var r := Checked(tests, timings, PlanOf(tests, timings, m));
      && r.Planned? && r.plan == PlanOf(tests, timings, m) && r.median == c
      && multiset(r.unknown) == multiset(Unrecorded(tests, timings))
      && (forall i, j :: 0 <= i <= j < |r.unknown| ==> Alphabetical(r.unknown[i], r.unknown[j]))
      && IsLongest(r.floor, tests, timings, c)
  {
    hide Alphabetical, Recorded, IsMedian, Unrecorded, IsLongest, PlanOf, Weighted, Floor, Median;
    MedianIs(c, tests, timings);
    PlanIsPartition(tests, timings, m);
    UnknownExactly(tests, timings);
    FloorIsTheLongest(tests, timings);
  }
}
