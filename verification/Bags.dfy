/** Sequences as bags: taking an element out, and flattening a sequence of buckets. */
module Bags {
  /** Take one occurrence of `x` out of `s`. */
  lemma TakeOut<T>(s: seq<T>, x: T) returns (before: seq<T>, after: seq<T>)
    requires x in s
    ensures s == before + ([x] + after) && multiset(before + after) == multiset(s) - multiset{x}
  {
    var k :| 0 <= k < |s| && s[k] == x;
    before, after := s[..k], s[k + 1..];
    assert s == before + ([x] + after);
  }

  /** A permutation of a non-empty sequence holds its head, and permutes its tail without it. */
  lemma TakeHead<T>(a: seq<T>, b: seq<T>) returns (before: seq<T>, after: seq<T>)
    requires a != [] && multiset(a) == multiset(b)
    ensures b == before + ([a[0]] + after) && multiset(a[1..]) == multiset(before + after)
  {
    assert a == [a[0]] + a[1..];
    assert a[0] in multiset(a) && a[0] in multiset(b);
    before, after := TakeOut(b, a[0]);
    assert multiset(a[1..]) == multiset(a) - multiset{a[0]};
  }

  lemma SameTail<T>(a: seq<T>, b: seq<T>)
    requires a != [] && b != [] && a[0] == b[0] && multiset(a) == multiset(b)
    ensures multiset(a[1..]) == multiset(b[1..])
  {
    assert a == [a[0]] + a[1..] && b == [b[0]] + b[1..];
    assert multiset(a[1..]) == multiset(a) - multiset{a[0]};
    assert multiset(b[1..]) == multiset(b) - multiset{a[0]};
  }

  lemma EmptyBag<T>(a: seq<T>, b: seq<T>)
    requires a == [] && multiset(a) == multiset(b)
    ensures b == []
  {
    assert |multiset(b)| == |b|;
  }

  function Flatten<T>(buckets: seq<seq<T>>): seq<T> {
    if buckets == [] then [] else buckets[0] + Flatten(buckets[1..])
  }

  lemma {:induction false} FlattenUpdateAt<T>(buckets: seq<seq<T>>, k: nat, bucket: seq<T>, x: T)
    requires k < |buckets|
    ensures multiset(Flatten(buckets[k := bucket]))[x] + multiset(buckets[k])[x]
            == multiset(Flatten(buckets))[x] + multiset(bucket)[x]
  {
    var changed := buckets[k := bucket];
    if k == 0 {
      assert changed[1..] == buckets[1..];
    } else {
      FlattenUpdateAt(buckets[1..], k - 1, bucket, x);
      assert changed[1..] == buckets[1..][k - 1 := bucket];
      assert changed[0] == buckets[0];
    }
  }

  lemma FlattenPush<T(!new)>(buckets: seq<seq<T>>, k: nat, x: T)
    requires k < |buckets|
    ensures multiset(Flatten(buckets[k := buckets[k] + [x]])) == multiset(Flatten(buckets)) + multiset{x}
  {
    var a := multiset(Flatten(buckets[k := buckets[k] + [x]]));
    var b := multiset(Flatten(buckets)) + multiset{x};
    forall y ensures a[y] == b[y] {
      FlattenUpdateAt(buckets, k, buckets[k] + [x], y);
    }
    assert a == b;
  }

  lemma FlattenPull<T(!new)>(buckets: seq<seq<T>>, k: nat, before: seq<T>, x: T, after: seq<T>)
    requires k < |buckets| && buckets[k] == before + ([x] + after)
    ensures multiset(Flatten(buckets[k := before + after])) == multiset(Flatten(buckets)) - multiset{x}
  {
    var a := multiset(Flatten(buckets[k := before + after])) + multiset{x};
    var b := multiset(Flatten(buckets));
    assert multiset(buckets[k]) == multiset(before + after) + multiset{x};
    forall y ensures a[y] == b[y] {
      FlattenUpdateAt(buckets, k, before + after, y);
    }
    assert a == b;
  }

  lemma {:induction false} FlattenOfEmpties<T>(buckets: seq<seq<T>>)
    ensures Flatten(buckets) == [] <==> forall s :: 0 <= s < |buckets| ==> buckets[s] == []
  {
    if buckets != [] {
      FlattenOfEmpties(buckets[1..]);
      if forall s :: 0 <= s < |buckets[1..]| ==> buckets[1..][s] == [] {
        forall s | 1 <= s < |buckets| ensures buckets[s] == [] {
          assert buckets[s] == buckets[1..][s - 1];
        }
      } else {
        var s :| 0 <= s < |buckets[1..]| && buckets[1..][s] != [];
        assert buckets[s + 1] != [];
      }
    }
  }

  lemma {:induction false} Find<T>(buckets: seq<seq<T>>, x: T) returns (s: nat)
    requires x in Flatten(buckets)
    ensures s < |buckets| && x in buckets[s]
  {
    if x in buckets[0] {
      s := 0;
    } else {
      var s' := Find(buckets[1..], x);
      s := s' + 1;
    }
  }
}
