/**
 * The meaning of `list.sort` for the stores of this project.
 *
 * Python's sort is stable: records with equal keys keep their order. A sorted
 * list is therefore determined by its records taken key by key (its buckets),
 * and everything the stores promise follows from that one fact.
 * A descending sort (`reverse=True`) is also stable, so it is this sort with
 * the key negated.
 */
module StableSort {
  import opened Lists

  ghost predicate Sorted<T>(s: seq<T>, key: T -> real) {
    forall i, j :: 0 <= i < j < |s| ==> key(s[i]) <= key(s[j])
  }

  /** `[x for x in s if p(x)]` */
  function Filter<T>(s: seq<T>, p: T -> bool): seq<T> {
    if s == [] then [] else
      var last := |s| - 1;
      Filter(s[..last], p) + if p(s[last]) then [s[last]] else []
  }

  /** The records of `s` with key `k`, in order. */
  ghost function Bucket<T>(s: seq<T>, key: T -> real, k: real): seq<T> {
    if s == [] then [] else
      var last := |s| - 1;
      Bucket(s[..last], key, k) + if key(s[last]) == k then [s[last]] else []
  }

  ghost predicate SameBuckets<T>(s: seq<T>, t: seq<T>, key: T -> real) {
    forall k: real :: Bucket(s, key, k) == Bucket(t, key, k)
  }

  /** Inserts `x` after every record whose key is at most its own. */
  function Insert<T>(s: seq<T>, x: T, key: T -> real): seq<T> {
    if s == [] || key(s[|s| - 1]) <= key(x) then s + [x]
    else Insert(s[..|s| - 1], x, key) + [s[|s| - 1]]
  }

  /** `sorted(s, key=key)` */
  function Sort<T>(s: seq<T>, key: T -> real): seq<T> {
    if s == [] then [] else Insert(Sort(s[..|s| - 1], key), s[|s| - 1], key)
  }

  /** `s[:n]`, for any integer `n`: a negative bound counts from the end. */
  function TakeSlice<T>(s: seq<T>, n: int): seq<T> {
    if n < 0 then s[..if |s| + n < 0 then 0 else |s| + n]
    else s[..if n < |s| then n else |s|]
  }

  /** `s[-n:]`, for any integer `n`: a negated bound of zero or more counts from the front. */
  function LastSlice<T>(s: seq<T>, n: int): seq<T> {
    if n <= 0 then s[if -n < |s| then -n else |s|..]
    else s[if n < |s| then |s| - n else 0..]
  }

  // Buckets

  lemma {:induction false} BucketConcat<T>(a: seq<T>, b: seq<T>, key: T -> real, k: real)
    ensures Bucket(a + b, key, k) == Bucket(a, key, k) + Bucket(b, key, k)
  {
    if b == [] {
      assert a + b == a;
    } else {
      var last := |b| - 1;
      assert (a + b)[..|a + b| - 1] == a + b[..last];
      BucketConcat(a, b[..last], key, k);
    }
  }

  lemma BucketSnoc<T>(s: seq<T>, x: T, key: T -> real, k: real)
    ensures key(x) == k ==> Bucket(s + [x], key, k) == Bucket(s, key, k) + [x]
    ensures key(x) != k ==> Bucket(s + [x], key, k) == Bucket(s, key, k)
  {
    assert (s + [x])[..|s|] == s;
  }

  lemma {:induction false} BucketMember<T>(s: seq<T>, key: T -> real, i: nat)
    requires i < |s|
    ensures s[i] in Bucket(s, key, key(s[i]))
  {
    if i < |s| - 1 {
      BucketMember(s[..|s| - 1], key, i);
    }
  }

  lemma {:induction false} BucketSource<T>(s: seq<T>, key: T -> real, k: real)
    ensures Bucket(s, key, k) != [] ==> exists i :: 0 <= i < |s| && key(s[i]) == k
  {
    if s != [] {
      var last := |s| - 1;
      BucketSource(s[..last], key, k);
      if Bucket(s, key, k) != [] {
        if key(s[last]) == k {
        } else {
          var i :| 0 <= i < last && key(s[..last][i]) == k;
          assert key(s[i]) == k;
        }
      }
    }
  }

  lemma {:induction false} BucketCount<T>(s: seq<T>, key: T -> real, x: T)
    ensures multiset(s)[x] == multiset(Bucket(s, key, key(x)))[x]
  {
    if s != [] {
      var last := |s| - 1;
      assert s == s[..last] + [s[last]];
      BucketCount(s[..last], key, x);
    }
  }

  /** Same buckets, same records with the same multiplicities. */
  lemma SameBucketsSameRecords<T>(s: seq<T>, t: seq<T>, key: T -> real)
    requires SameBuckets(s, t, key)
    ensures multiset(s) == multiset(t)
    ensures |s| == |t|
  {
    forall x: T ensures multiset(s)[x] == multiset(t)[x] {
      BucketCount(s, key, x);
      BucketCount(t, key, x);
    }
    assert |multiset(s)| == |s| && |multiset(t)| == |t|;
  }

  // The sort is a stable sort ...

  lemma SnocSorted<T>(r: seq<T>, z: T, key: T -> real)
    requires Sorted(r, key)
    requires forall y :: y in r ==> key(y) <= key(z)
    ensures Sorted(r + [z], key)
  {
  }

  /** Moving `x` across a record with another key changes no bucket. */
  lemma SwapDifferentKeys<T>(front: seq<T>, z: T, x: T, r: seq<T>, key: T -> real, k: real)
    requires key(z) != key(x)
    requires Bucket(r, key, k) == Bucket(front + [x], key, k)
    ensures Bucket(r + [z], key, k) == Bucket(front + [z] + [x], key, k)
  {
  }

  lemma {:induction false} InsertCorrect<T>(s: seq<T>, x: T, key: T -> real)
    requires Sorted(s, key)
    ensures Sorted(Insert(s, x, key), key)
    ensures SameBuckets(Insert(s, x, key), s + [x], key)
    ensures forall y :: y in Insert(s, x, key) ==> y in s || y == x
  {
    hide Bucket;
    if s == [] || key(s[|s| - 1]) <= key(x) {
      SnocSorted(s, x, key);
    } else {
      var front, z := s[..|s| - 1], s[|s| - 1];
      InsertCorrect(front, x, key);
      var r := Insert(front, x, key);
      SnocSorted(r, z, key);
      assert front + [z] == s;
      forall k: real ensures Bucket(r + [z], key, k) == Bucket(s + [x], key, k) {
        SwapDifferentKeys(front, z, x, r, key, k);
      }
    }
  }

  lemma {:induction false} SortCorrect<T>(s: seq<T>, key: T -> real)
    ensures Sorted(Sort(s, key), key)
    ensures SameBuckets(Sort(s, key), s, key)
  {
    if s != [] {
      var front, x := s[..|s| - 1], s[|s| - 1];
      SortCorrect(front, key);
      var r := Sort(front, key);
      InsertCorrect(r, x, key);
      forall k: real ensures Bucket(Sort(s, key), key, k) == Bucket(s, key, k) {
        assert s == front + [x];
        BucketConcat(r, [x], key, k);
        BucketConcat(front, [x], key, k);
      }
    }
  }

  // ... and the only one.

  lemma LastOfTopBucket<T>(s: seq<T>, t: seq<T>, key: T -> real)
    requires s != [] && t != [] && Sorted(t, key) && SameBuckets(s, t, key)
    ensures key(s[|s| - 1]) <= key(t[|t| - 1])
  {
    hide Bucket;
    var m := key(s[|s| - 1]);
    BucketMember(s, key, |s| - 1);
    assert Bucket(t, key, m) == Bucket(s, key, m);
    BucketSource(t, key, m);
    var i :| 0 <= i < |t| && key(t[i]) == m;
  }

  lemma SnocInjective<T>(b: seq<T>, x: T, c: seq<T>, y: T)
    requires b + [x] == c + [y]
    ensures b == c && x == y
  {
    assert |b + [x]| == |c + [y]|;
    assert b == (b + [x])[..|b|] && c == (c + [y])[..|c|];
    assert (b + [x])[|b|] == (c + [y])[|b|];
  }

  lemma SameBucketsWithoutLast<T>(s: seq<T>, x: T, t: seq<T>, y: T, key: T -> real, k: real)
    requires key(x) == key(y)
    requires Bucket(s + [x], key, k) == Bucket(t + [y], key, k)
    ensures Bucket(s, key, k) == Bucket(t, key, k)
    ensures k == key(x) ==> x == y
  {
    BucketSnoc(s, x, key, k);
    BucketSnoc(t, y, key, k);
    if k == key(x) {
      SnocInjective(Bucket(s, key, k), x, Bucket(t, key, k), y);
    }
  }

  lemma {:induction false} StableSortUnique<T>(s: seq<T>, t: seq<T>, key: T -> real)
    requires Sorted(s, key) && Sorted(t, key) && SameBuckets(s, t, key)
    ensures s == t
  {
    SameBucketsSameRecords(s, t, key);
    if s != [] {
      LastOfTopBucket(s, t, key);
      LastOfTopBucket(t, s, key);
      var n := |s| - 1;
      var m := key(s[n]);
      assert s == s[..n] + [s[n]] && t == t[..n] + [t[n]];
      forall k: real ensures Bucket(s[..n], key, k) == Bucket(t[..n], key, k) {
        SameBucketsWithoutLast(s[..n], s[n], t[..n], t[n], key, k);
      }
      StableSortUnique(s[..n], t[..n], key);
      assert Bucket(s, key, m) == Bucket(t, key, m);
      SameBucketsWithoutLast(s[..n], s[n], t[..n], t[n], key, m);
    }
  }

  /** Sorting forgets everything but the buckets. */
  lemma SortByBuckets<T>(s: seq<T>, t: seq<T>, key: T -> real)
    requires SameBuckets(s, t, key)
    ensures Sort(s, key) == Sort(t, key)
  {
    SortCorrect(s, key);
    SortCorrect(t, key);
    StableSortUnique(Sort(s, key), Sort(t, key), key);
  }

  /** Appending to a sorted list and sorting again is sorting everything once. */
  lemma SortAfterAppend<T>(a: seq<T>, b: seq<T>, key: T -> real)
    ensures Sort(Sort(a, key) + b, key) == Sort(a + b, key)
  {
    SortCorrect(a, key);
    forall k: real ensures Bucket(Sort(a, key) + b, key, k) == Bucket(a + b, key, k) {
      BucketConcat(Sort(a, key), b, key, k);
      BucketConcat(a, b, key, k);
    }
    SortByBuckets(Sort(a, key) + b, a + b, key);
  }

  // Filtering

  lemma {:induction false} FilterConcat<T>(a: seq<T>, b: seq<T>, p: T -> bool)
    ensures Filter(a + b, p) == Filter(a, p) + Filter(b, p)
  {
    if b == [] {
      assert a + b == a;
    } else {
      var last := |b| - 1;
      assert (a + b)[..|a + b| - 1] == a + b[..last];
      FilterConcat(a, b[..last], p);
    }
  }

  /** A record is kept as often as it occurs, or not at all ... */
  lemma {:induction false} FilterCount<T>(s: seq<T>, p: T -> bool, x: T)
    ensures multiset(Filter(s, p))[x] == if p(x) then multiset(s)[x] else 0
  {
    if s != [] {
      FilterCount(s[..|s| - 1], p, x);
      assert s == s[..|s| - 1] + [s[|s| - 1]];
    }
  }

  /** ... and in its place. */
  lemma {:induction false} FilterKeepsOrder<T>(s: seq<T>, p: T -> bool)
    ensures Subsequence(Filter(s, p), s)
  {
    if s != [] {
      var front, x := s[..|s| - 1], s[|s| - 1];
      FilterKeepsOrder(front, p);
      assert Filter(front, p) + [] == Filter(front, p);
      assert (Filter(front, p) + [x])[..|Filter(front, p)|] == Filter(front, p);
    }
  }

  lemma {:induction false} FilterMembers<T>(s: seq<T>, p: T -> bool, x: T)
    ensures x in Filter(s, p) <==> x in s && p(x)
  {
    if s != [] {
      FilterMembers(s[..|s| - 1], p, x);
      assert s == s[..|s| - 1] + [s[|s| - 1]];
    }
  }

  lemma {:induction false} FilterKeepsSorted<T>(s: seq<T>, p: T -> bool, key: T -> real)
    requires Sorted(s, key)
    ensures Sorted(Filter(s, p), key)
  {
    if s != [] {
      var front, x := s[..|s| - 1], s[|s| - 1];
      FilterKeepsSorted(front, p, key);
      forall i | 0 <= i < |Filter(front, p)| ensures key(Filter(front, p)[i]) <= key(x) {
        FilterMembers(front, p, Filter(front, p)[i]);
      }
    }
  }

  lemma {:induction false} BucketOfFilter<T>(s: seq<T>, p: T -> bool, key: T -> real, k: real)
    ensures Bucket(Filter(s, p), key, k) == Filter(Bucket(s, key, k), p)
  {
    if s != [] {
      var front, x := s[..|s| - 1], s[|s| - 1];
      BucketOfFilter(front, p, key, k);
      BucketConcat(Filter(front, p), if p(x) then [x] else [], key, k);
      FilterConcat(Bucket(front, key, k), if key(x) == k then [x] else [], p);
      assert Filter([x], p) == if p(x) then [x] else [];
      assert Bucket([x], key, k) == if key(x) == k then [x] else [];
    }
  }

  /** Selecting records and sorting them commute. */
  lemma SortFilter<T>(s: seq<T>, p: T -> bool, key: T -> real)
    ensures Sort(Filter(s, p), key) == Filter(Sort(s, key), p)
  {
    SortCorrect(s, key);
    SortCorrect(Filter(s, p), key);
    FilterKeepsSorted(Sort(s, key), p, key);
    forall k: real
      ensures Bucket(Sort(Filter(s, p), key), key, k) == Bucket(Filter(Sort(s, key), p), key, k)
    {
      BucketOfFilter(s, p, key, k);
      BucketOfFilter(Sort(s, key), p, key, k);
    }
    StableSortUnique(Sort(Filter(s, p), key), Filter(Sort(s, key), p), key);
  }

  /** Filtering lists with the same buckets gives lists with the same buckets. */
  lemma FilterSameBuckets<T>(s: seq<T>, t: seq<T>, p: T -> bool, key: T -> real)
    requires SameBuckets(s, t, key)
    ensures SameBuckets(Filter(s, p), Filter(t, p), key)
  {
    forall k: real ensures Bucket(Filter(s, p), key, k) == Bucket(Filter(t, p), key, k) {
      BucketOfFilter(s, p, key, k);
      BucketOfFilter(t, p, key, k);
    }
  }

  /** One filter after another. */
  function Select<T>(s: seq<T>, stages: seq<T -> bool>): seq<T> {
    if stages == [] then s
    else Filter(Select(s, stages[..|stages| - 1]), stages[|stages| - 1])
  }

  lemma {:induction false} FilterAll<T>(s: seq<T>, p: T -> bool)
    requires forall x: T :: p(x)
    ensures Filter(s, p) == s
  {
    if s != [] {
      FilterAll(s[..|s| - 1], p);
    }
  }

  lemma {:induction false} SelectCount<T>(s: seq<T>, stages: seq<T -> bool>, x: T)
    ensures multiset(Select(s, stages))[x] ==
            if forall i :: 0 <= i < |stages| ==> stages[i](x) then multiset(s)[x] else 0
  {
    if stages != [] {
      var n := |stages| - 1;
      SelectCount(s, stages[..n], x);
      FilterCount(Select(s, stages[..n]), stages[n], x);
      assert forall i :: 0 <= i < n ==> stages[..n][i] == stages[i];
    }
  }

  lemma {:induction false} SelectKeepsOrder<T>(s: seq<T>, stages: seq<T -> bool>)
    ensures Subsequence(Select(s, stages), s)
  {
    if stages == [] {
      SubsequenceOfItself(s);
    } else {
      var front := Select(s, stages[..|stages| - 1]);
      SelectKeepsOrder(s, stages[..|stages| - 1]);
      FilterKeepsOrder(front, stages[|stages| - 1]);
      SubsequenceTransitive(Select(s, stages), front, s);
    }
  }

  lemma {:induction false} SortSelect<T>(s: seq<T>, stages: seq<T -> bool>, key: T -> real)
    ensures Sort(Select(s, stages), key) == Select(Sort(s, key), stages)
  {
    if stages != [] {
      var n := |stages| - 1;
      SortFilter(Select(s, stages[..n]), stages[n], key);
      SortSelect(s, stages[..n], key);
    }
  }

  // Cutting a list

  /** `s[:n]` and `s[n:]` make up the list, and so do `s[:-n]` and `s[-n:]`, for every length. */
  lemma SlicesMakeUpList<T>(s: seq<T>, n: int)
    requires n >= 0
    ensures var length := if n < |s| then n else |s|;
            && TakeSlice(s, n) + LastSlice(s, -n) == s && |TakeSlice(s, n)| == length
            && (n == 0 ==> TakeSlice(s, n) == [] && LastSlice(s, n) == s)
            && (n > 0 ==> TakeSlice(s, -n) + LastSlice(s, n) == s && |LastSlice(s, n)| == length)
  {
    var m := if n < |s| then n else |s|;
    assert s == s[..m] + s[m..];
    var k := if n < |s| then |s| - n else 0;
    assert s == s[..k] + s[k..];
  }

  /**
   * `sorted(s)[:n]` for `n >= 0`: the `n` records with the least keys, sorted.
   * Nothing left out has a smaller key than anything returned.
   */
  lemma TopOfSort<T>(s: seq<T>, key: T -> real, n: nat)
    ensures var top := TakeSlice(Sort(s, key), n);
            var rest := Sort(s, key)[|top|..];
            && multiset(top) + multiset(rest) == multiset(s)
            && |top| == (if n < |s| then n else |s|)
            && Sorted(top, key)
            && (forall x, y :: x in top && y in rest ==> key(x) <= key(y))
  {
    SortCorrect(s, key);
    SameBucketsSameRecords(Sort(s, key), s, key);
    var t := Sort(s, key);
    var top := TakeSlice(t, n);
    assert t == top + t[|top|..];
  }

  /** `sorted(s)[-n:]` for `n >= 1`: the `n` records with the greatest keys, sorted. */
  lemma BottomOfSort<T>(s: seq<T>, key: T -> real, n: int)
    requires n >= 1
    ensures var last := LastSlice(Sort(s, key), n);
            var rest := Sort(s, key)[..|Sort(s, key)| - |last|];
            && multiset(rest) + multiset(last) == multiset(s)
            && |last| == (if n < |s| then n else |s|)
            && Sorted(last, key)
            && (forall x, y :: x in rest && y in last ==> key(x) <= key(y))
  {
    SortCorrect(s, key);
    SameBucketsSameRecords(Sort(s, key), s, key);
    var t := Sort(s, key);
    var last := LastSlice(t, n);
    assert t == t[..|t| - |last|] + last;
  }
}
