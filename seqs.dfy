/** Generic sequence helpers: the `filter`, `some`, `reduce` and key-sort of the source's arrays and queries. */
module Seqs {

  /** The elements of `s` satisfying `p`, in their original order (`Array.prototype.filter`, or a store query). */
  function Filter<T(!new)>(s: seq<T>, p: T -> bool): (r: seq<T>)
    ensures |r| <= |s|
    ensures forall x :: x in r <==> x in s && p(x)
  {
    if s == [] then [] else (if p(s[0]) then [s[0]] else []) + Filter(s[1..], p)
  }

  lemma {:induction false} FilterConcat<T(!new)>(a: seq<T>, b: seq<T>, p: T -> bool)
    ensures Filter(a + b, p) == Filter(a, p) + Filter(b, p)
  {
    if a == [] {
      assert a + b == b;
    } else {
      assert (a + b)[1..] == a[1..] + b;
      FilterConcat(a[1..], b, p);
    }
  }

  /** Filtering keeps every element that passes and drops every one that does not, so filtering twice changes nothing. */
  lemma {:induction false} FilterIdempotent<T(!new)>(s: seq<T>, p: T -> bool)
    ensures Filter(Filter(s, p), p) == Filter(s, p)
  {
    if s != [] {
      FilterIdempotent(s[1..], p);
      var rest := Filter(s[1..], p);
      if p(s[0]) {
        var once := [s[0]] + rest;
        assert once[0] == s[0] && once[1..] == rest;
        assert Filter(once, p) == [s[0]] + Filter(rest, p);
      } else {
        assert Filter(s, p) == rest;
      }
    }
  }

  lemma {:induction false} FilterAll<T(!new)>(s: seq<T>, p: T -> bool)
    requires forall x :: x in s ==> p(x)
    ensures Filter(s, p) == s
  {
    if s != [] {
      FilterAll(s[1..], p);
    }
  }

  /** Filtering by a predicate and by its complement splits a sequence without loss. */
  lemma {:induction false} FilterPartition<T(!new)>(s: seq<T>, p: T -> bool, q: T -> bool)
    requires forall x :: q(x) == !p(x)
    ensures multiset(Filter(s, p)) + multiset(Filter(s, q)) == multiset(s)
  {
    if s != [] {
      var t := s[1..];
      FilterPartition(t, p, q);
      assert s == [s[0]] + t;
      if p(s[0]) {
        assert !q(s[0]);
      }
      PartitionStep(s[0], Filter(s, p), Filter(s, q), Filter(t, p), Filter(t, q), t);
    }
  }

  /** One element joins one side of a partition of `t` into `a` and `b`. */
  lemma PartitionStep<T>(x: T, a: seq<T>, b: seq<T>, a0: seq<T>, b0: seq<T>, t: seq<T>)
    requires multiset(a0) + multiset(b0) == multiset(t)
    requires (a == [x] + a0 && b == b0) || (a == a0 && b == [x] + b0)
    ensures multiset(a) + multiset(b) == multiset([x] + t)
  {
  }



  /** `s.every(p)`: a scan that stops at the first element failing `p`. */
  function All<T>(s: seq<T>, p: T -> bool): (b: bool)
    ensures b <==> forall i :: 0 <= i < |s| ==> p(s[i])
  {
    if s == [] then true
    else
      assert forall i :: 1 <= i < |s| ==> s[i] == s[1..][i - 1];
      p(s[0]) && All(s[1..], p)
  }

  /** `s.some(p)`: a scan that stops at the first element satisfying `p`. */
  function Any<T>(s: seq<T>, p: T -> bool): (b: bool)
    ensures b <==> exists i :: 0 <= i < |s| && p(s[i])
  {
    if s == [] then false
    else
      assert forall i :: 1 <= i < |s| ==> s[i] == s[1..][i - 1];
      p(s[0]) || Any(s[1..], p)
  }

  /** Number of elements of `s` satisfying `p` (a `countDocuments` query). */
  function Count<T(!new)>(s: seq<T>, p: T -> bool): (n: nat)
    ensures n <= |s|
    ensures n == 0 <==> forall x :: x in s ==> !p(x)
  {
    if s == [] then 0 else (if p(s[0]) then 1 else 0) + Count(s[1..], p)
  }

  lemma {:induction false} CountIsFilterLength<T(!new)>(s: seq<T>, p: T -> bool)
    ensures Count(s, p) == |Filter(s, p)|
  {
    if s != [] {
      CountIsFilterLength(s[1..], p);
    }
  }

  lemma {:induction false} CountConcat<T(!new)>(a: seq<T>, b: seq<T>, p: T -> bool)
    ensures Count(a + b, p) == Count(a, p) + Count(b, p)
  {
    if a == [] {
      assert a + b == b;
    } else {
      assert (a + b)[1..] == a[1..] + b;
      CountConcat(a[1..], b, p);
    }
  }

  /** Filtering out exactly one element that satisfies `p` lowers the count by one. */
  lemma {:induction false} CountFilterDropsOne<T(!new)>(s: seq<T>, keep: T -> bool, p: T -> bool, k: nat)
    requires k < |s| && !keep(s[k]) && p(s[k])
    requires forall i :: 0 <= i < |s| && i != k ==> keep(s[i])
    ensures Count(Filter(s, keep), p) + 1 == Count(s, p)
  {
    if k == 0 {
      var tail := s[1..];
      assert forall i :: 0 <= i < |tail| ==> keep(tail[i]) by {
        forall i | 0 <= i < |tail| ensures keep(tail[i]) {
          assert tail[i] == s[i + 1];
        }
      }
      FilterAll(tail, keep);
      assert Filter(s, keep) == Filter(tail, keep);
    } else {
      var tail := s[1..];
      assert forall i :: 0 <= i < |tail| && i != k - 1 ==> keep(tail[i]) by {
        forall i | 0 <= i < |tail| && i != k - 1 ensures keep(tail[i]) {
          assert tail[i] == s[i + 1];
        }
      }
      assert tail[k - 1] == s[k];
      CountFilterDropsOne(tail, keep, p, k - 1);
      var rest := Filter(tail, keep);
      assert keep(s[0]);
      assert Filter(s, keep) == [s[0]] + rest;
      assert ([s[0]] + rest)[1..] == rest;
    }
  }

  /** Sum of `f` over the elements satisfying `p` (a `$sum` group, or a `reduce`). */
  function SumWhere<T>(s: seq<T>, p: T -> bool, f: T -> int): int
  {
    if s == [] then 0 else (if p(s[0]) then f(s[0]) else 0) + SumWhere(s[1..], p, f)
  }

  lemma {:induction false} SumWhereNone<T(!new)>(s: seq<T>, p: T -> bool, f: T -> int)
    requires forall x :: x in s ==> !p(x)
    ensures SumWhere(s, p, f) == 0
  {
    if s != [] {
      SumWhereNone(s[1..], p, f);
    }
  }

  lemma {:induction false} SumWhereBounds<T(!new)>(s: seq<T>, p: T -> bool, f: T -> int, lo: int, hi: int)
    requires forall x :: x in s && p(x) ==> lo <= f(x) <= hi
    ensures lo * Count(s, p) <= SumWhere(s, p, f) <= hi * Count(s, p)
  {
    if s != [] {
      var t := s[1..];
      assert forall x :: x in t && p(x) ==> lo <= f(x) <= hi by {
        forall x | x in t && p(x) ensures lo <= f(x) <= hi {
          assert x in s;
        }
      }
      SumWhereBounds(t, p, f, lo, hi);
      assert s[0] in s;
      BoundStep(lo, hi, Count(t, p), SumWhere(t, p, f), p(s[0]), f(s[0]), Count(s, p), SumWhere(s, p, f));
    }
  }

  /** Adding one bounded term, or none, keeps a sum of bounded terms within its bounds. */
  lemma BoundStep(lo: int, hi: int, c: nat, m: int, taken: bool, v: int, n: nat, total: int)
    requires lo * c <= m <= hi * c
    requires taken ==> lo <= v <= hi && n == c + 1 && total == v + m
    requires !taken ==> n == c && total == m
    ensures lo * n <= total <= hi * n
  {
    if taken {
      assert lo * n == lo * c + lo;
      assert hi * n == hi * c + hi;
    }
  }



  lemma {:induction false} SumWhereConcat<T>(a: seq<T>, b: seq<T>, p: T -> bool, f: T -> int)
    ensures SumWhere(a + b, p, f) == SumWhere(a, p, f) + SumWhere(b, p, f)
  {
    if a == [] {
      assert a + b == b;
    } else {
      assert (a + b)[1..] == a[1..] + b;
      SumWhereConcat(a[1..], b, p, f);
    }
  }

  /** Two selections that agree on every element give the same sum. */
  lemma {:induction false} SumWhereSame<T(!new)>(s: seq<T>, p: T -> bool, q: T -> bool, f: T -> int)
    requires forall x :: x in s ==> p(x) == q(x)
    ensures SumWhere(s, p, f) == SumWhere(s, q, f)
  {
    if s != [] {
      SumWhereSame(s[1..], p, q, f);
    }
  }

  /** All elements of `s` carry distinct keys (the store's unique `_id`). */
  ghost predicate DistinctBy<T, K>(s: seq<T>, key: T -> K)
  {
    forall i, j :: 0 <= i < j < |s| ==> key(s[i]) != key(s[j])
  }

  lemma {:induction false} FilterKeepsDistinct<T(!new), K>(s: seq<T>, p: T -> bool, key: T -> K)
    requires DistinctBy(s, key)
    ensures DistinctBy(Filter(s, p), key)
  {
    if s != [] {
      FilterKeepsDistinct(s[1..], p, key);
      var rest := Filter(s[1..], p);
      forall x | x in rest ensures key(x) != key(s[0]) {
        var j :| 0 <= j < |s[1..]| && s[1..][j] == x;
        assert s[j + 1] == x;
      }
    }
  }

  /** `s` is ordered by `key` ascending. */
  ghost predicate SortedBy<T>(s: seq<T>, key: T -> int)
  {
    forall i, j :: 0 <= i < j < |s| ==> key(s[i]) <= key(s[j])
  }

  /** Insert `x` before the first element with a strictly larger key (stable). */
  function InsertByKey<T>(x: T, s: seq<T>, key: T -> int): seq<T>
  {
    if s == [] then [x]
    else if key(x) < key(s[0]) then [x] + s
    else [s[0]] + InsertByKey(x, s[1..], key)
  }

  /** The store's `.sort(field)`: a stable sort by `key` ascending. */
  function SortByKey<T>(s: seq<T>, key: T -> int): seq<T>
  {
    if s == [] then [] else InsertByKey(s[0], SortByKey(s[1..], key), key)
  }

  lemma {:induction false} InsertByKeyMultiset<T>(x: T, s: seq<T>, key: T -> int)
    ensures multiset(InsertByKey(x, s, key)) == multiset(s) + multiset{x}
  {
    if s != [] && key(x) >= key(s[0]) {
      InsertByKeyMultiset(x, s[1..], key);
      assert s == [s[0]] + s[1..];
    }
  }

  lemma {:induction false} InsertByKeyMembers<T>(x: T, s: seq<T>, key: T -> int)
    ensures forall y :: y in InsertByKey(x, s, key) ==> y == x || y in s
  {
    if s != [] && key(x) >= key(s[0]) {
      InsertByKeyMembers(x, s[1..], key);
      assert forall y :: y in s[1..] ==> y in s;
    }
  }

  lemma {:induction false} InsertByKeySorted<T>(x: T, s: seq<T>, key: T -> int)
    requires SortedBy(s, key)
    ensures SortedBy(InsertByKey(x, s, key), key)
  {
    if s != [] && key(x) >= key(s[0]) {
      var t := s[1..];
      assert SortedBy(t, key) by {
        forall i, j | 0 <= i < j < |t| ensures key(t[i]) <= key(t[j]) {
          assert t[i] == s[i + 1] && t[j] == s[j + 1];
        }
      }
      var tail := InsertByKey(x, t, key);
      InsertByKeySorted(x, t, key);
      InsertByKeyMembers(x, t, key);
      forall j | 0 <= j < |tail| ensures key(s[0]) <= key(tail[j]) {
        if tail[j] != x {
          assert tail[j] in tail;
          assert tail[j] in t;
          var k :| 0 <= k < |t| && t[k] == tail[j];
          assert t[k] == s[k + 1];
        }
      }
      var r := [s[0]] + tail;
      assert InsertByKey(x, s, key) == r;
      forall i, j | 0 <= i < j < |r| ensures key(r[i]) <= key(r[j]) {
        assert r[j] == tail[j - 1];
        if i > 0 {
          assert r[i] == tail[i - 1];
        }
      }
    }
  }


  lemma SortByKeyMembers<T(!new)>(s: seq<T>, key: T -> int)
    ensures forall x :: x in SortByKey(s, key) <==> x in s
  {
    SortByKeyCorrect(s, key);
    assert forall x :: x in SortByKey(s, key) <==> x in multiset(SortByKey(s, key));
    assert forall x :: x in s <==> x in multiset(s);
  }

  /** SortByKey is a permutation of its input, ordered by `key`. */
  lemma {:induction false} SortByKeyCorrect<T>(s: seq<T>, key: T -> int)
    ensures multiset(SortByKey(s, key)) == multiset(s)
    ensures SortedBy(SortByKey(s, key), key)
  {
    if s != [] {
      SortByKeyCorrect(s[1..], key);
      InsertByKeyMultiset(s[0], SortByKey(s[1..], key), key);
      InsertByKeySorted(s[0], SortByKey(s[1..], key), key);
      assert s == [s[0]] + s[1..];
    }
  }

  /** `s.map((y) => (key(y) === key(x) ? x : y))`: every element with `x`'s key becomes `x`. */
  function ReplaceByKey<T, K(==)>(s: seq<T>, key: T -> K, x: T): (r: seq<T>)
    ensures |r| == |s|
    ensures forall i :: 0 <= i < |s| ==> r[i] == (if key(s[i]) == key(x) then x else s[i])
  {
    if s == [] then [] else [if key(s[0]) == key(x) then x else s[0]] + ReplaceByKey(s[1..], key, x)
  }

  /** The replacement appears exactly where its key was, and replacing again changes nothing. */
  lemma {:induction false} ReplaceByKeyLaws<T(!new), K>(s: seq<T>, key: T -> K, x: T)
    ensures x in ReplaceByKey(s, key, x) <==> exists y :: y in s && key(y) == key(x)
    ensures ReplaceByKey(ReplaceByKey(s, key, x), key, x) == ReplaceByKey(s, key, x)
  {
    var r := ReplaceByKey(s, key, x);
    if x in r {
      var i :| 0 <= i < |r| && r[i] == x;
      assert s[i] in s;
    }
    if exists y :: y in s && key(y) == key(x) {
      var y :| y in s && key(y) == key(x);
      var i :| 0 <= i < |s| && s[i] == y;
      assert r[i] == x;
    }
  }
}
