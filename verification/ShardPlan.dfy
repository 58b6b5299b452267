/** `assign` in `scripts/shard-plan.py`: tests to shards, longest measured duration first. */
module ShardPlan {
  import opened Bags
  import opened Graham
  import opened Medians

  datatype Entry = Entry(secs: real, name: string)
  datatype Placement = Placement(buckets: seq<seq<string>>, loads: seq<real>)
  datatype Outcome =
    | Planned(plan: Placement, unknown: seq<string>, median: real, floor: real)
    | MinOfNothing   // Python's ValueError from min([]): tests to place and no shard
    | NotAPartition  // the script's own AssertionError

  // ----- the sort key: duration descending, then name -----

  predicate NameLe(a: string, b: string) {
    a == [] || (b != [] && (a[0] < b[0] || (a[0] == b[0] && NameLe(a[1..], b[1..]))))
  }

  predicate Before(x: Entry, y: Entry) {
    x.secs > y.secs || (x.secs == y.secs && NameLe(x.name, y.name))
  }

  lemma {:induction false} NameOrder(a: string, b: string, c: string)
    ensures NameLe(a, b) || NameLe(b, a)
    ensures NameLe(a, b) && NameLe(b, a) ==> a == b
    ensures NameLe(a, b) && NameLe(b, c) ==> NameLe(a, c)
  {
    if a != [] && b != [] {
      NameOrder(a[1..], b[1..], if c == [] then [] else c[1..]);
      if a[0] == b[0] && a[1..] == b[1..] {
        assert a == [a[0]] + a[1..] && b == [b[0]] + b[1..];
      }
    }
  }

  ghost predicate Sorted(s: seq<Entry>) {
    forall i, j :: 0 <= i <= j < |s| ==> Before(s[i], s[j])
  }

  function Insert(e: Entry, s: seq<Entry>): seq<Entry> {
    if s == [] || Before(e, s[0]) then [e] + s else [s[0]] + Insert(e, s[1..])
  }

  function Sort(s: seq<Entry>): seq<Entry> {
    if s == [] then [] else Insert(s[0], Sort(s[1..]))
  }

  lemma {:induction false} InsertSorts(e: Entry, s: seq<Entry>)
    requires Sorted(s)
    ensures Sorted(Insert(e, s)) && multiset(Insert(e, s)) == multiset{e} + multiset(s)
  {
    hide NameLe;
    NameOrder(e.name, e.name, []);
    if s == [] {
    } else if Before(e, s[0]) {
      forall i | 0 <= i < |s| ensures Before(e, s[i]) {
        NameOrder(e.name, s[0].name, s[i].name);
      }
    } else {
      InsertSorts(e, s[1..]);
      NameOrder(e.name, s[0].name, []);
      NameOrder(s[0].name, s[0].name, []);
      assert s == [s[0]] + s[1..];
      var r := Insert(e, s[1..]);
      forall i | 0 <= i < |r| ensures Before(s[0], r[i]) {
        assert r[i] in multiset(r);
      }
    }
  }

  /** Python's `sorted`: the same entries, in key order. */
  lemma {:induction false} SortSorts(s: seq<Entry>)
    ensures Sorted(Sort(s)) && multiset(Sort(s)) == multiset(s)
  {
    if s != [] {
      SortSorts(s[1..]);
      InsertSorts(s[0], Sort(s[1..]));
      assert s == [s[0]] + s[1..];
    }
  }

  lemma SameHead(a: seq<Entry>, b: seq<Entry>)
    requires Sorted(a) && Sorted(b) && a != [] && b != [] && multiset(a) == multiset(b)
    ensures a[0] == b[0]
  {
    assert a[0] in multiset(a) && a[0] in multiset(b) && b[0] in multiset(b) && b[0] in multiset(a);
    NameOrder(a[0].name, b[0].name, []);
  }

  /** The key leaves no tie between different entries, so there is only one sorted order. */
  lemma {:induction false} SortedIsUnique(a: seq<Entry>, b: seq<Entry>)
    requires Sorted(a) && Sorted(b) && multiset(a) == multiset(b)
    ensures a == b
  {
    if a == [] {
      assert |multiset(b)| == 0;
    } else {
      var before, after := TakeHead(a, b);
      SameHead(a, b);
      SameTail(a, b);
      SortedIsUnique(a[1..], b[1..]);
      assert a == [a[0]] + a[1..] && b == [b[0]] + b[1..];
    }
  }

  // ----- the comprehensions: each test contributes some entries, in order -----

  type Timings = map<string, real>

  /** Which comprehension: recorded durations, unrecorded names, plain names, or every test with its charge. */
  datatype Pick = Known | Unknown | Plain | Charged(median: real) {
    function Of(timings: Timings, t: string): seq<Entry> {
      match this
      case Known => if t in timings then [Entry(timings[t], t)] else []
      case Unknown => if t in timings then [] else [Entry(0.0, t)]
      case Plain => [Entry(0.0, t)]
      case Charged(median) => [Entry(Charge(timings, median, t), t)]
    }
  }

  function Charge(timings: Timings, median: real, t: string): real {
    if t in timings then timings[t] else median
  }

  function Collect(pick: Pick, tests: seq<string>, timings: Timings): seq<Entry> {
    if tests == [] then [] else pick.Of(timings, tests[0]) + Collect(pick, tests[1..], timings)
  }

  function SortedCollect(pick: Pick, tests: seq<string>, timings: Timings): seq<Entry> {
    Sort(Collect(pick, tests, timings))
  }

  lemma {:induction false} CollectAppend(pick: Pick, a: seq<string>, b: seq<string>, timings: Timings)
    ensures Collect(pick, a + b, timings) == Collect(pick, a, timings) + Collect(pick, b, timings)
  {
    if a == [] {
      assert a + b == b;
    } else {
      assert (a + b)[1..] == a[1..] + b;
      CollectAppend(pick, a[1..], b, timings);
    }
  }

  lemma {:induction false} CollectPermutes(pick: Pick, a: seq<string>, b: seq<string>, timings: Timings)
    requires multiset(a) == multiset(b)
    ensures multiset(Collect(pick, a, timings)) == multiset(Collect(pick, b, timings))
  {
    if a == [] {
      EmptyBag(a, b);
    } else {
      var before, after := TakeHead(a, b);
      CollectPermutes(pick, a[1..], before + after, timings);
      CollectTakeOut(pick, before, a[0], after, timings);
    }
  }

  lemma CollectTakeOut(pick: Pick, before: seq<string>, t: string, after: seq<string>, timings: Timings)
    ensures multiset(Collect(pick, before + ([t] + after), timings))
            == multiset(pick.Of(timings, t)) + multiset(Collect(pick, before + after, timings))
  {
    CollectAppend(pick, before, after, timings);
    CollectAppend(pick, before, [t] + after, timings);
    assert ([t] + after)[1..] == after;
  }

  lemma SortedCollectPermutes(pick: Pick, a: seq<string>, b: seq<string>, timings: Timings)
    requires multiset(a) == multiset(b)
    ensures SortedCollect(pick, a, timings) == SortedCollect(pick, b, timings)
  {
    CollectPermutes(pick, a, b, timings);
    SortSorts(Collect(pick, a, timings));
    SortSorts(Collect(pick, b, timings));
    SortedIsUnique(SortedCollect(pick, a, timings), SortedCollect(pick, b, timings));
  }

  /** `statistics.median` of the recorded durations, or 1.0 when none is recorded. */
  function Median(tests: seq<string>, timings: Timings): real {
    var known := SortedCollect(Known, tests, timings);
    var n := |known|;
    if n == 0 then 1.0
    else if n % 2 == 1 then known[n / 2].secs
    else (known[n / 2 - 1].secs + known[n / 2].secs) / 2.0
  }

  function Weighted(tests: seq<string>, timings: Timings): seq<Entry> {
    SortedCollect(Charged(Median(tests, timings)), tests, timings)
  }

  function Names(es: seq<Entry>): (ns: seq<string>)
    ensures |ns| == |es| && forall i :: 0 <= i < |es| ==> ns[i] == es[i].name
  {
    seq(|es|, i requires 0 <= i < |es| => es[i].name)
  }

  function Secs(es: seq<Entry>): (w: seq<real>)
    ensures |w| == |es| && forall i :: 0 <= i < |es| ==> w[i] == es[i].secs
  {
    seq(|es|, i requires 0 <= i < |es| => es[i].secs)
  }

  function SortedNames(tests: seq<string>): seq<string> {
    Names(SortedCollect(Plain, tests, map[]))
  }

  /** `max(..., default=0.0)`. */
  function Floor(w: seq<Entry>): real {
    if w == [] then 0.0
    else if |w| == 1 || w[0].secs >= Floor(w[1..]) then w[0].secs
    else Floor(w[1..])
  }

  // ----- the greedy loop -----

  /** `loads.index(min(loads))`: the first of the lightest shards. */
  function Lightest(loads: seq<real>): (k: nat)
    requires loads != []
    ensures k < |loads|
    ensures forall j :: 0 <= j < |loads| ==> loads[k] <= loads[j]
    ensures forall j :: 0 <= j < k ==> loads[k] < loads[j]
  {
    if |loads| == 1 then 0
    else
      var k := Lightest(loads[..|loads| - 1]);
      if loads[|loads| - 1] < loads[k] then |loads| - 1 else k
  }

  /** `[[] for _ in range(m)]` and `[0.0] * m`. */
  function Nothing(m: nat): (p: Placement)
    ensures |p.buckets| == |p.loads| == m
    ensures forall s :: 0 <= s < m ==> p.buckets[s] == [] && p.loads[s] == 0.0
  {
    if m == 0 then Placement([], []) else Placement(Nothing(m - 1).buckets + [[]], Nothing(m - 1).loads + [0.0])
  }

  function Place(p: Placement, e: Entry): (q: Placement)
    requires |p.buckets| == |p.loads| > 0
    ensures |q.buckets| == |q.loads| == |p.loads|
  {
    var k := Lightest(p.loads);
    Placement(p.buckets[k := p.buckets[k] + [e.name]], p.loads[k := p.loads[k] + e.secs])
  }

  /** The shards after the first `i` entries. */
  function PlaceAll(w: seq<Entry>, m: nat, i: nat): (p: Placement)
    requires m > 0 && i <= |w|
    ensures |p.buckets| == |p.loads| == m
  {
    if i == 0 then Nothing(m) else Place(PlaceAll(w, m, i - 1), w[i - 1])
  }

  method Assign(tests: seq<string>, timings: Timings, shards: int) returns (r: Outcome)
    ensures shards <= 0 && tests != [] ==> r == MinOfNothing
    ensures shards <= 0 && tests == [] ==> r == Planned(Nothing(0), [], 1.0, 0.0)
    ensures shards > 0 ==> r == Checked(tests, timings, PlanOf(tests, timings, shards))
  {
    var median := Median(tests, timings);
    var unknown := Names(SortedCollect(Unknown, tests, timings));
    var weighted := Weighted(tests, timings);
    WeightedIsPermutation(tests, timings);

    var m := if shards > 0 then shards else 0;
    var buckets, loads := Deal(weighted, m);
    if weighted != [] && loads == [] {
      return MinOfNothing;
    }

    var placed := Flatten(buckets);
    if SortedNames(placed) != SortedNames(tests) {
      return NotAPartition;
    }
    r := Planned(Placement(buckets, loads), unknown, median, Floor(weighted));
  }

  /** The loop of `assign`; with no shard it stops at once, where Python raises. */
  method Deal(weighted: seq<Entry>, m: nat) returns (buckets: seq<seq<string>>, loads: seq<real>)
    ensures |buckets| == |loads| == m
    ensures m > 0 ==> Placement(buckets, loads) == PlaceAll(weighted, m, |weighted|)
    ensures m == 0 ==> buckets == [] && loads == []
  {
    buckets, loads := Nothing(m).buckets, Nothing(m).loads;
    if m == 0 {
      return;
    }
    for i := 0 to |weighted|
      invariant |buckets| == |loads| == m
      invariant Placement(buckets, loads) == PlaceAll(weighted, m, i)
    {
      var lightest := Lightest(loads);
      buckets := buckets[lightest := buckets[lightest] + [weighted[i].name]];
      loads := loads[lightest := loads[lightest] + weighted[i].secs];
      assert Placement(buckets, loads) == Place(PlaceAll(weighted, m, i), weighted[i]);
    }
  }

  function PlanOf(tests: seq<string>, timings: Timings, m: nat): (p: Placement)
    requires m > 0
    ensures |p.buckets| == |p.loads| == m
  {
    PlaceAll(Weighted(tests, timings), m, |Weighted(tests, timings)|)
  }

  /** The script's last step: refuse a plan whose names are not the tests', otherwise report it. */
  function Checked(tests: seq<string>, timings: Timings, p: Placement): Outcome {
    if SortedNames(Flatten(p.buckets)) != SortedNames(tests) then NotAPartition
    else Planned(p, Names(SortedCollect(Unknown, tests, timings)), Median(tests, timings),
                 Floor(Weighted(tests, timings)))
  }

  lemma {:induction false} CollectCharged(tests: seq<string>, timings: Timings, median: real)
    ensures |Collect(Charged(median), tests, timings)| == |tests|
    ensures Names(Collect(Charged(median), tests, timings)) == tests
    ensures forall e :: e in Collect(Charged(median), tests, timings) ==>
      e.secs == if e.name in timings then timings[e.name] else median
  {
    if tests != [] {
      CollectCharged(tests[1..], timings, median);
      assert Collect(Charged(median), tests, timings)[1..] == Collect(Charged(median), tests[1..], timings);
    }
  }

  lemma WeightedIsPermutation(tests: seq<string>, timings: Timings)
    ensures |Weighted(tests, timings)| == |tests|
    ensures multiset(Names(Weighted(tests, timings))) == multiset(tests)
    ensures ChargedBy(Weighted(tests, timings), timings, Median(tests, timings))
    ensures Sorted(Weighted(tests, timings))
  {
    var median := Median(tests, timings);
    var es, w := Collect(Charged(median), tests, timings), Weighted(tests, timings);
    CollectCharged(tests, timings, median);
    SortSorts(es);
    assert |multiset(w)| == |multiset(es)|;
    NamesPermute(w, es);
    forall i | 0 <= i < |w| ensures w[i].secs == if w[i].name in timings then timings[w[i].name] else median {
      assert w[i] in multiset(w) && w[i] in multiset(es);
    }
  }

  // ----- the plan is a partition -----

  lemma {:induction false} BucketsHoldPrefix(w: seq<Entry>, m: nat, i: nat)
    requires m > 0 && i <= |w|
    ensures multiset(Flatten(PlaceAll(w, m, i).buckets)) == multiset(Names(w)[..i])
  {
    hide Place, Flatten, Nothing, Names;
    if i == 0 {
      FlattenOfEmpties(Nothing(m).buckets);
    } else {
      BucketsHoldPrefix(w, m, i - 1);
      PlacePushes(PlaceAll(w, m, i - 1), w[i - 1]);
      PrefixGrows(Names(w), i);
    }
  }

  lemma PrefixGrows(names: seq<string>, i: nat)
    requires 0 < i <= |names|
    ensures names[..i] == names[..i - 1] + [names[i - 1]]
    ensures multiset(names[..i]) == multiset(names[..i - 1]) + multiset{names[i - 1]}
    ensures names[i - 1] in multiset(names[..i])
  {
    assert names[..i] == names[..i - 1] + [names[i - 1]];
  }

  lemma PlacePushes(p: Placement, e: Entry)
    requires |p.buckets| == |p.loads| > 0
    ensures multiset(Flatten(Place(p, e).buckets)) == multiset(Flatten(p.buckets)) + multiset{e.name}
  {
    FlattenPush(p.buckets, Lightest(p.loads), e.name);
  }

  lemma {:induction false} NamesPermute(a: seq<Entry>, b: seq<Entry>)
    requires multiset(a) == multiset(b)
    ensures multiset(Names(a)) == multiset(Names(b))
  {
    if a == [] {
      EmptyBag(a, b);
    } else {
      var before, after := TakeHead(a, b);
      NamesPermute(a[1..], before + after);
      NamesTakeOut(before, a[0], after);
      NamesTakeOut([], a[0], a[1..]);
      assert a == [] + ([a[0]] + a[1..]) && a[1..] == [] + a[1..];
    }
  }

  lemma NamesTakeOut(before: seq<Entry>, e: Entry, after: seq<Entry>)
    ensures multiset(Names(before + ([e] + after))) == multiset{e.name} + multiset(Names(before + after))
  {
    assert Names(before + ([e] + after)) == Names(before) + ([e.name] + Names(after));
    assert Names(before + after) == Names(before) + Names(after);
  }

  /** Every test lands in exactly one shard, as often as it was listed; the script never refuses its own plan. */
  lemma PlanIsPartition(tests: seq<string>, timings: Timings, m: nat)
    requires m > 0
    ensures multiset(Flatten(PlanOf(tests, timings, m).buckets)) == multiset(tests)
    ensures Checked(tests, timings, PlanOf(tests, timings, m)).Planned?
  {
    var w := Weighted(tests, timings);
    WeightedIsPermutation(tests, timings);
    BucketsHoldPrefix(w, m, |w|);
    assert Names(w)[..|w|] == Names(w);
    SortedCollectPermutes(Plain, Flatten(PlanOf(tests, timings, m).buckets), tests, map[]);
  }

  /** The plan, the median, the unknown list and the floor depend on the tests, not on their order. */
  lemma PlanIgnoresOrder(tests: seq<string>, tests': seq<string>, timings: Timings, m: nat)
    requires m > 0 && multiset(tests) == multiset(tests')
    ensures Checked(tests, timings, PlanOf(tests, timings, m))
            == Checked(tests', timings, PlanOf(tests', timings, m))
  {
    hide SortedCollect, Names, Floor, Flatten, PlaceAll;
    SortedCollectPermutes(Known, tests, tests', timings);
    SortedCollectPermutes(Unknown, tests, tests', timings);
    SortedCollectPermutes(Plain, tests, tests', map[]);
    SortedCollectPermutes(Charged(Median(tests, timings)), tests, tests', timings);
  }

  // ----- loads and costs -----

  /** The time a bucket takes: what is recorded for each test, and `median` for a test without a record. */
  function Cost(bucket: seq<string>, timings: Timings, median: real): real {
    if bucket == [] then 0.0
    else (if bucket[0] in timings then timings[bucket[0]] else median) + Cost(bucket[1..], timings, median)
  }

  lemma {:induction false} CostAppend(a: seq<string>, b: seq<string>, timings: Timings, median: real)
    ensures Cost(a + b, timings, median) == Cost(a, timings, median) + Cost(b, timings, median)
  {
    if a == [] {
      assert a + b == b;
    } else {
      assert (a + b)[1..] == a[1..] + b;
      CostAppend(a[1..], b, timings, median);
    }
  }

  ghost predicate ChargedBy(w: seq<Entry>, timings: Timings, median: real) {
    forall i :: 0 <= i < |w| ==> w[i].secs == if w[i].name in timings then timings[w[i].name] else median
  }

  /** The shard each of the first `i` entries is given. */
  function Choices(w: seq<Entry>, m: nat, i: nat): (a: seq<nat>)
    requires m > 0 && i <= |w|
    ensures |a| == i
  {
    if i == 0 then [] else Choices(w, m, i - 1) + [Lightest(PlaceAll(w, m, i - 1).loads)]
  }

  lemma PlaceCharges(p: Placement, e: Entry, timings: Timings, median: real, s: nat)
    requires s < |p.buckets| == |p.loads| && e.secs == if e.name in timings then timings[e.name] else median
    requires p.loads[s] == Cost(p.buckets[s], timings, median)
    ensures Place(p, e).loads[s] == Cost(Place(p, e).buckets[s], timings, median)
    ensures Place(p, e).loads[s] == p.loads[s] + if Lightest(p.loads) == s then e.secs else 0.0
  {
    CostAppend(p.buckets[s], [e.name], timings, median);
    assert Cost([e.name], timings, median) == e.secs;
  }

  lemma NothingCosts(timings: Timings, median: real)
    ensures Cost([], timings, median) == 0.0
  {
  }

  lemma {:induction false} LoadsAreCosts(w: seq<Entry>, m: nat, i: nat, timings: Timings, median: real, s: nat)
    requires m > 0 && i <= |w| && s < m && ChargedBy(w, timings, median)
    ensures PlaceAll(w, m, i).loads[s] == Load(Secs(w), Choices(w, m, i), s, i)
    ensures PlaceAll(w, m, i).loads[s] == Cost(PlaceAll(w, m, i).buckets[s], timings, median)
  {
    hide Place, Cost;
    if i == 0 {
      NothingCosts(timings, median);
    } else {
      LoadsAreCosts(w, m, i - 1, timings, median, s);
      PlaceCharges(PlaceAll(w, m, i - 1), w[i - 1], timings, median, s);
      LoadOfPrefix(Secs(w), Choices(w, m, i), Choices(w, m, i - 1), s, i - 1);
    }
  }

  lemma {:induction false} ChoicesPrefix(w: seq<Entry>, m: nat, k: nat, i: nat)
    requires m > 0 && k <= i <= |w|
    ensures Choices(w, m, i)[..k] == Choices(w, m, k)
  {
    if k < i {
      ChoicesPrefix(w, m, k, i - 1);
      assert Choices(w, m, i)[..k] == Choices(w, m, i - 1)[..k];
    }
  }

  lemma ChoiceIsLightest(w: seq<Entry>, m: nat, i: nat)
    requires m > 0 && i < |w|
    ensures Choices(w, m, |w|)[i] == Lightest(PlaceAll(w, m, i).loads)
  {
    ChoicesPrefix(w, m, i + 1, |w|);
    assert Choices(w, m, |w|)[i] == Choices(w, m, |w|)[..i + 1][i];
  }

  lemma LoadSoFar(w: seq<Entry>, m: nat, timings: Timings, median: real, s: nat, i: nat)
    requires m > 0 && ChargedBy(w, timings, median) && i <= |w| && s < m
    ensures Load(Secs(w), Choices(w, m, |w|), s, i) == PlaceAll(w, m, i).loads[s]
  {
    ChoicesPrefix(w, m, i, |w|);
    assert Choices(w, m, i)[..i] == Choices(w, m, i);
    LoadOfPrefix(Secs(w), Choices(w, m, |w|), Choices(w, m, i), s, i);
    LoadsAreCosts(w, m, i, timings, median, s);
  }

  lemma PlanIsGreedy(w: seq<Entry>, m: nat, timings: Timings, median: real)
    requires m > 0 && ChargedBy(w, timings, median)
    ensures Greedy(Secs(w), Choices(w, m, |w|), m)
  {
    var a := Choices(w, m, |w|);
    forall i | 0 <= i < |w| ensures a[i] < m {
      ChoiceIsLightest(w, m, i);
    }
    forall i | 0 <= i < |w| ensures WentToLightest(Secs(w), a, m, i) {
      ChoiceIsLightest(w, m, i);
      forall s: nat | s < m ensures Load(Secs(w), a, s, i) == PlaceAll(w, m, i).loads[s] {
        LoadSoFar(w, m, timings, median, s, i);
      }
    }
  }

  lemma {:induction false} LoadOfPrefix(w: seq<real>, a: seq<nat>, b: seq<nat>, s: nat, i: nat)
    requires i <= |w| && i <= |a| && i <= |b| && a[..i] == b[..i]
    ensures Load(w, a, s, i) == Load(w, b, s, i)
  {
    if i > 0 {
      assert a[i - 1] == a[..i][i - 1] == b[..i][i - 1] == b[i - 1];
      assert a[..i - 1] == a[..i][..i - 1] == b[..i][..i - 1] == b[..i - 1];
      LoadOfPrefix(w, a, b, s, i - 1);
    }
  }

  lemma NothingDealt(w: seq<real>, other: seq<seq<string>>, timings: Timings, median: real)
    requires forall s :: 0 <= s < |other| ==> other[s] == []
    ensures LoadsMatch(w, [], other, timings, median)
  {
  }

  /** Any way of dealing the first `i` names into buckets is some assignment of the first `i` entries. */
  lemma {:induction false} DealIsAssignment(w: seq<Entry>, i: nat, other: seq<seq<string>>, timings: Timings,
                                            median: real)
    returns (b: seq<nat>)
    requires i <= |w| && ChargedBy(w, timings, median) && multiset(Flatten(other)) == multiset(Names(w)[..i])
    ensures |b| == i && forall k :: 0 <= k < i ==> b[k] < |other|
    ensures LoadsMatch(Secs(w), b, other, timings, median)
  {
    hide Cost, Load, Names;
    if i == 0 {
      b := [];
      EmptyBag([], Flatten(other));
      FlattenOfEmpties(other);
      NothingDealt(Secs(w), other, timings, median);
    } else {
      assert Names(w)[..i] == Names(w)[..i - 1] + [w[i - 1].name];
      var s, rest := Undeal(other, Names(w)[..i - 1], w[i - 1].name, timings, median);
      var less := DealIsAssignment(w, i - 1, other[s := rest], timings, median);
      b := less + [s];
      DealOneMore(Secs(w), less, other, s, rest, timings, median);
    }
  }

  ghost predicate LoadsMatch(w: seq<real>, b: seq<nat>, buckets: seq<seq<string>>, timings: Timings, median: real)
    requires |b| <= |w|
  {
    forall s: nat :: s < |buckets| ==> Load(w, b, s, |b|) == Cost(buckets[s], timings, median)
  }

  lemma DealOneMore(w: seq<real>, b: seq<nat>, other: seq<seq<string>>, s: nat, rest: seq<string>,
                    timings: Timings, median: real)
    requires |b| < |w| && s < |other| && LoadsMatch(w, b, other[s := rest], timings, median)
    requires Cost(other[s], timings, median) == Cost(rest, timings, median) + w[|b|]
    ensures LoadsMatch(w, b + [s], other, timings, median)
  {
    hide Cost, Load;
    var less := other[s := rest];
    forall t: nat | t < |other|
      ensures Load(w, b + [s], t, |b| + 1) == Cost(other[t], timings, median)
    {
      LoadPush(w, b, s, t);
      assert Load(w, b, t, |b|) == Cost(less[t], timings, median);
    }
  }

  lemma LoadPush(w: seq<real>, b: seq<nat>, s: nat, t: nat)
    requires |b| < |w|
    ensures Load(w, b + [s], t, |b| + 1) == Load(w, b, t, |b|) + if t == s then w[|b|] else 0.0
  {
    LoadOfPrefix(w, b + [s], b, t, |b|);
  }

  /** Take one name out of the bucket that holds it. */
  lemma Undeal(other: seq<seq<string>>, left: seq<string>, name: string, timings: Timings, median: real)
    returns (s: nat, rest: seq<string>)
    requires multiset(Flatten(other)) == multiset(left + [name])
    ensures s < |other|
    ensures multiset(Flatten(other[s := rest])) == multiset(left)
    ensures Cost(other[s], timings, median)
            == Cost(rest, timings, median) + if name in timings then timings[name] else median
  {
    assert name in multiset(Flatten(other));
    s := Find(other, name);
    var before, after := TakeOut(other[s], name);
    rest := before + after;
    FlattenPull(other, s, before, name, after);
    CostAppend(before, after, timings, median);
    CostAppend(before, [name] + after, timings, median);
    assert ([name] + after)[1..] == after;
  }

  ghost predicate NonNegativeTimings(timings: Timings) {
    forall t :: t in timings ==> timings[t] >= 0.0
  }

  lemma {:induction false} KnownNonNegative(tests: seq<string>, timings: Timings)
    requires NonNegativeTimings(timings)
    ensures forall e :: e in Collect(Known, tests, timings) ==> e.secs >= 0.0
  {
    if tests != [] {
      KnownNonNegative(tests[1..], timings);
    }
  }

  lemma WeightedFacts(tests: seq<string>, timings: Timings)
    requires NonNegativeTimings(timings)
    ensures ChargedBy(Weighted(tests, timings), timings, Median(tests, timings))
    ensures Descending(Secs(Weighted(tests, timings))) && NonNegative(Secs(Weighted(tests, timings)))
    ensures multiset(Names(Weighted(tests, timings))) == multiset(tests)
  {
    WeightedIsPermutation(tests, timings);
    MedianNonNegative(tests, timings);
  }

  lemma MedianNonNegative(tests: seq<string>, timings: Timings)
    requires NonNegativeTimings(timings)
    ensures Median(tests, timings) >= 0.0
  {
    var known := Collect(Known, tests, timings);
    KnownNonNegative(tests, timings);
    SortSorts(known);
    forall e | e in Sort(known) ensures e.secs >= 0.0 {
      assert e in multiset(Sort(known));
    }
  }

  /** The durations on record for the tests. */
  function Recorded(tests: seq<string>, timings: Timings): seq<real> {
    if tests == [] then []
    else (if tests[0] in timings then [timings[tests[0]]] else []) + Recorded(tests[1..], timings)
  }

  lemma {:induction false} KnownAreRecorded(tests: seq<string>, timings: Timings)
    ensures Secs(Collect(Known, tests, timings)) == Recorded(tests, timings)
  {
    if tests != [] {
      KnownAreRecorded(tests[1..], timings);
      var first, rest := Known.Of(timings, tests[0]), Collect(Known, tests[1..], timings);
      assert Secs(first + rest) == Secs(first) + Secs(rest);
    }
  }

  lemma {:induction false} SecsPermute(a: seq<Entry>, b: seq<Entry>)
    requires multiset(a) == multiset(b)
    ensures multiset(Secs(a)) == multiset(Secs(b))
  {
    if a == [] {
      EmptyBag(a, b);
    } else {
      var before, after := TakeHead(a, b);
      SecsPermute(a[1..], before + after);
      SecsTakeOut(before, a[0], after);
      SecsTakeOut([], a[0], a[1..]);
      assert a == [] + ([a[0]] + a[1..]) && a[1..] == [] + a[1..];
    }
  }

  lemma SecsTakeOut(before: seq<Entry>, e: Entry, after: seq<Entry>)
    ensures multiset(Secs(before + ([e] + after))) == multiset{e.secs} + multiset(Secs(before + after))
  {
    assert Secs(before + ([e] + after)) == Secs(before) + ([e.secs] + Secs(after));
    assert Secs(before + after) == Secs(before) + Secs(after);
  }

  lemma SecsDescend(w: seq<Entry>)
    requires Sorted(w)
    ensures Descending(Secs(w))
  {
  }

  /** What an unrecorded test is charged is the median of the recorded durations. */
  lemma {:induction false} MedianIsMedian(tests: seq<string>, timings: Timings)
    ensures IsMedian(Median(tests, timings), Recorded(tests, timings))
  {
    var known, xs := SortedCollect(Known, tests, timings), Recorded(tests, timings);
    KnownAreRecorded(tests, timings);
    SortSorts(Collect(Known, tests, timings));
    SecsPermute(known, Collect(Known, tests, timings));
    SecsDescend(known);
    hide IsMedian, SortedCollect, Collect, Recorded, Before;
    DescendingMedian(Secs(known), xs);
  }

  lemma {:induction false} MedianIs(c: real, tests: seq<string>, timings: Timings)
    requires IsMedian(c, Recorded(tests, timings))
    ensures c == Median(tests, timings)
  {
    MedianIsMedian(tests, timings);
    MedianIsUnique(c, Median(tests, timings), Recorded(tests, timings));
  }

  /** The docstring's 4/3, sharpened to 4/3 − 1/(3m): no dealing of the same tests into m buckets does
      much better than the plan. */
  lemma {:induction false} PlanIsNearOptimal(tests: seq<string>, timings: Timings, m: nat, other: seq<seq<string>>,
                                             c: real, cap: real, s: nat)
    requires m > 0 && s < m && |other| == m && NonNegativeTimings(timings)
    requires multiset(Flatten(other)) == multiset(tests) && IsMedian(c, Recorded(tests, timings))
    requires forall t :: 0 <= t < m ==> Cost(other[t], timings, c) <= cap
    ensures WithinGrahamRatio(m, Cost(PlanOf(tests, timings, m).buckets[s], timings, c), cap)
    ensures PlanOf(tests, timings, m).loads[s] == Cost(PlanOf(tests, timings, m).buckets[s], timings, c)
    ensures Floor(Weighted(tests, timings)) <= cap
  {
    MedianIs(c, tests, timings);
    WeightedFacts(tests, timings);
    LoadsAreCosts(Weighted(tests, timings), m, |Weighted(tests, timings)|, timings, c, s);
    GreedyIsNearOptimal(Weighted(tests, timings), timings, Median(tests, timings), m, other, cap, s);
  }

  lemma {:induction false} GreedyIsNearOptimal(w: seq<Entry>, timings: Timings, median: real, m: nat,
                                               other: seq<seq<string>>, cap: real, s: nat)
    requires s < m && |other| == m && multiset(Flatten(other)) == multiset(Names(w))
    requires ChargedBy(w, timings, median) && Descending(Secs(w)) && NonNegative(Secs(w))
    requires forall t :: 0 <= t < m ==> Cost(other[t], timings, median) <= cap
    ensures WithinGrahamRatio(m, PlaceAll(w, m, |w|).loads[s], cap)
    ensures Floor(w) <= cap
  {
    hide Cost, PlaceAll, Choices, Greedy, Names;
    assert Names(w)[..|w|] == Names(w);
    var b := DealIsAssignment(w, |w|, other, timings, median);
    PlanIsGreedy(w, m, timings, median);
    LoadsAreCosts(w, m, |w|, timings, median, s);
    GrahamBound(Secs(w), Choices(w, m, |w|), b, m, cap, s);
    if w == [] {
      assert Load(Secs(w), b, s, 0) == 0.0;
    } else {
      FloorIsFirst(w);
      MemberLoad(Secs(w), b, 0, |w|);
    }
  }

  lemma {:induction false} FloorIsFirst(w: seq<Entry>)
    requires w != [] && Descending(Secs(w))
    ensures Floor(w) == w[0].secs
  {
    if |w| > 1 {
      assert Secs(w)[0] >= Secs(w)[1];
      forall i, j | 0 <= i <= j < |w[1..]| ensures Secs(w[1..])[i] >= Secs(w[1..])[j] {
        assert Secs(w)[i + 1] >= Secs(w)[j + 1];
      }
      FloorIsFirst(w[1..]);
    }
  }

  /** Reported loads are the buckets' own costs and differ by at most the longest test. */
  lemma PlanIsBalanced(tests: seq<string>, timings: Timings, m: nat, c: real, s: nat, t: nat)
    requires m > 0 && s < m && t < m && NonNegativeTimings(timings) && IsMedian(c, Recorded(tests, timings))
    ensures PlanOf(tests, timings, m).loads[s] == Cost(PlanOf(tests, timings, m).buckets[s], timings, c)
    ensures PlanOf(tests, timings, m).loads[s] - PlanOf(tests, timings, m).loads[t]
            <= Floor(Weighted(tests, timings))
  {
    var w, median := Weighted(tests, timings), Median(tests, timings);
    MedianIs(c, tests, timings);
    WeightedFacts(tests, timings);
    PlanIsGreedy(w, m, timings, median);
    LoadsAreCosts(w, m, |w|, timings, median, s);
    LoadsAreCosts(w, m, |w|, timings, median, t);
    if w != [] {
      FloorIsFirst(w);
    }
    Spread(Secs(w), Choices(w, m, |w|), m, Floor(w), s, t);
  }

  // ----- no empty green run -----

  /** How many tests are charged any time at all. */
  function Positives(tests: seq<string>, timings: Timings, median: real): (p: nat)
    ensures p <= |tests|
  {
    if tests == [] then 0
    else
      var takesTime := if tests[0] in timings then timings[tests[0]] > 0.0 else median > 0.0;
      Positives(tests[1..], timings, median) + if takesTime then 1 else 0
  }

  lemma {:induction false} PositivesAppend(a: seq<string>, b: seq<string>, timings: Timings, median: real)
    ensures Positives(a + b, timings, median) == Positives(a, timings, median) + Positives(b, timings, median)
  {
    if a == [] {
      assert a + b == b;
    } else {
      assert (a + b)[1..] == a[1..] + b;
      PositivesAppend(a[1..], b, timings, median);
    }
  }

  lemma {:induction false} PositivesPermute(a: seq<string>, b: seq<string>, timings: Timings, median: real)
    requires multiset(a) == multiset(b)
    ensures Positives(a, timings, median) == Positives(b, timings, median)
  {
    if a == [] {
      EmptyBag(a, b);
    } else {
      var before, after := TakeHead(a, b);
      PositivesPermute(a[1..], before + after, timings, median);
      PositivesAppend(before, after, timings, median);
      PositivesAppend(before, [a[0]] + after, timings, median);
      assert ([a[0]] + after)[1..] == after;
    }
  }

  lemma {:induction false} PositivesComeFirst(w: seq<Entry>, timings: Timings, median: real)
    requires ChargedBy(w, timings, median) && Descending(Secs(w)) && NonNegative(Secs(w))
    ensures PositiveUpTo(Secs(w), Positives(Names(w), timings, median))
  {
    if w != [] {
      var rest := w[1..];
      assert Names(w)[1..] == Names(rest) && Secs(w)[1..] == Secs(rest);
      assert forall i :: 0 <= i < |rest| ==> Secs(rest)[i] == Secs(w)[i + 1];
      PositivesComeFirst(rest, timings, median);
      forall i | 0 <= i < |w|
        ensures w[i].secs > 0.0 <==> i < Positives(Names(w), timings, median)
      {
        assert Secs(w)[0] >= Secs(w)[i];
        assert i > 0 ==> Secs(rest)[i - 1] == w[i].secs;
      }
    }
  }

  lemma {:induction false} BucketsFilled(w: seq<Entry>, m: nat, i: nat, s: nat)
    requires m > 0 && i <= |w| && s < m
    ensures PlaceAll(w, m, i).buckets[s] != [] <==> s in Choices(w, m, i)
  {
    if i > 0 {
      BucketsFilled(w, m, i - 1, s);
    }
  }

  /** The shards that got a test. */
  function Filled(p: Placement): set<nat> {
    set s: nat | s < |p.buckets| && p.buckets[s] != []
  }

  lemma PlanIsFirstOfLightest(w: seq<Entry>, m: nat, timings: Timings, median: real, i: nat)
    requires m > 0 && ChargedBy(w, timings, median) && i < |w|
    ensures FirstOfLightest(Secs(w), Choices(w, m, |w|), m, i)
  {
    var a := Choices(w, m, |w|);
    PlanIsGreedy(w, m, timings, median);
    ChoiceIsLightest(w, m, i);
    forall s: nat | s < m ensures Load(Secs(w), a, s, i) == PlaceAll(w, m, i).loads[s] {
      LoadSoFar(w, m, timings, median, s, i);
    }
  }

  lemma {:induction false} FilledIsUsed(w: seq<Entry>, m: nat)
    requires m > 0
    ensures Filled(PlaceAll(w, m, |w|)) == ShardsUsed(Choices(w, m, |w|), 0, |w|)
  {
    hide PlaceAll, Choices, ShardsUsed;
    forall s: nat | s < m
      ensures PlaceAll(w, m, |w|).buckets[s] != [] <==> s in ShardsUsed(Choices(w, m, |w|), 0, |w|)
    {
      BucketsFilled(w, m, |w|, s);
    }
    forall s | s in ShardsUsed(Choices(w, m, |w|), 0, |w|) ensures s < m {
      var i :| 0 <= i < |w| && Choices(w, m, |w|)[i] == s;
      ChoiceIsLightest(w, m, i);
    }
  }

  lemma {:induction false} GreedyFills(w: seq<Entry>, m: nat, timings: Timings, median: real)
    requires m > 0 && ChargedBy(w, timings, median) && Descending(Secs(w)) && NonNegative(Secs(w))
    ensures |Filled(PlaceAll(w, m, |w|))| == Min(m, Min(|w|, Positives(Names(w), timings, median) + 1))
  {
    hide PlaceAll, Choices, FirstOfLightest, PositiveUpTo, ShardsUsed, Positives, Greedy, Filled;
    var a := Choices(w, m, |w|);
    PositivesComeFirst(w, timings, median);
    PlanIsGreedy(w, m, timings, median);
    forall i | 0 <= i < |a| ensures FirstOfLightest(Secs(w), a, m, i) {
      PlanIsFirstOfLightest(w, m, timings, median, i);
    }
    ShardsFilled(Secs(w), a, m, Positives(Names(w), timings, median));
    FilledIsUsed(w, m);
  }

  ghost predicate NeverNegative(tests: seq<string>, timings: Timings, c: real) {
    forall x :: x in tests ==> (if x in timings then timings[x] else c) >= 0.0
  }

  /** How many shards get a test: all of them, or as many as there are tests, or one more than there are tests
      that take any time, for those that take none all land on the same shard. */
  lemma {:induction false} FilledExactly(tests: seq<string>, timings: Timings, m: nat, c: real)
    requires m > 0 && IsMedian(c, Recorded(tests, timings)) && NeverNegative(tests, timings, c)
    ensures |Filled(PlanOf(tests, timings, m))| == Min(m, Min(|tests|, Positives(tests, timings, c) + 1))
  {
    hide PlaceAll, Positives, Median, Collect, Filled, IsMedian, Recorded, Sorted, SortedCollect, Names, Secs;
    MedianIs(c, tests, timings);
    var w, median := Weighted(tests, timings), Median(tests, timings);
    WeightedIsPermutation(tests, timings);
    SecsDescend(w);
    forall i | 0 <= i < |w| ensures Secs(w)[i] >= 0.0 {
      assert Names(w)[i] in multiset(Names(w)) && Names(w)[i] in multiset(tests);
    }
    PositivesPermute(Names(w), tests, timings, median);
    GreedyFills(w, m, timings, median);
  }

  /** The check in `main`, no more shards than tests, keeps every shard from being an empty green run exactly if
      at least `m - 1` tests have a duration above zero. */
  lemma PlanFillsEveryShard(tests: seq<string>, timings: Timings, m: nat, c: real)
    requires m > 0 && IsMedian(c, Recorded(tests, timings)) && NeverNegative(tests, timings, c)
    ensures (forall s :: 0 <= s < m ==> PlanOf(tests, timings, m).buckets[s] != [])
            <==> m <= |tests| && m <= Positives(tests, timings, c) + 1
  {
    hide PlanOf, Positives, IsMedian, Recorded;
    var p := PlanOf(tests, timings, m);
    FilledExactly(tests, timings, m, c);
    SubsetSize(Filled(p), Below(m));
    if |Filled(p)| == m {
      Remove(Below(m), Filled(p));
      assert Below(m) - Filled(p) == {};
      forall s | 0 <= s < m ensures p.buckets[s] != [] {
        assert s in Below(m) - (Below(m) - Filled(p));
      }
    }
    if forall s :: 0 <= s < m ==> p.buckets[s] != [] {
      assert Filled(p) == Below(m);
    }
  }

  /** Two tests recorded at 0.00 seconds pass the check for two shards, and the second shard stays empty. */
  lemma ZeroDurationsLeaveAShardEmpty()
    ensures var tests, timings := ["a", "b"], map["a" := 0.0, "b" := 0.0];
      2 <= |tests| && PlanOf(tests, timings, 2).buckets[1] == []
  {
  }
}
