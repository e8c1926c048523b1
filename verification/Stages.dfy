/**
 * The aggregation-pipeline stages the report uses, as pure functions over
 * sequences: `$group` with a `$sum` accumulator, `$sort` descending on one
 * numeric key, and `$limit`.
 */
module Stages {
  /** One input row of a `$group`: the grouping key and the amount to sum. */
  datatype Entry<K> = Entry(key: K, amount: real)

  /** One output document of a `$group`: `_id` and its `$sum`. */
  datatype Bucket<K> = Bucket(key: K, total: real)

  function TotalOf<K(!new)>(b: Bucket<K>): real {
    b.total
  }

  /** Sum of every row's amount. */
  function SumAll<K(!new)>(rows: seq<Entry<K>>): real {
    if |rows| == 0 then 0.0 else rows[0].amount + SumAll(rows[1..])
  }

  /** Sum of the amounts of the rows whose key is `k`. */
  function SumFor<K(==,!new)>(rows: seq<Entry<K>>, k: K): real {
    if |rows| == 0 then 0.0
    else (if rows[0].key == k then rows[0].amount else 0.0) + SumFor(rows[1..], k)
  }

  /** The keys that `key` reads off the elements of `xs`. */
  function Keys<T, K(!new)>(xs: seq<T>, key: T -> K): (ks: set<K>)
    ensures forall k :: k in ks <==> exists i :: 0 <= i < |xs| && key(xs[i]) == k
  {
    set i | 0 <= i < |xs| :: key(xs[i])
  }

  /** The keys of a sequence with one more element in front. */
  lemma KeysCons<T, K(!new)>(x: T, xs: seq<T>, key: T -> K)
    ensures Keys([x] + xs, key) == {key(x)} + Keys(xs, key)
  {
    var ys := [x] + xs;
    forall k | k in Keys(xs, key) ensures k in Keys(ys, key) {
      var i :| 0 <= i < |xs| && key(xs[i]) == k;
      assert ys[i + 1] == xs[i];
    }
    forall k | k in Keys(ys, key) && k != key(x) ensures k in Keys(xs, key) {
      var i :| 0 <= i < |ys| && key(ys[i]) == k;
      assert i > 0 && ys[i] == xs[i - 1];
    }
    assert key(ys[0]) == key(x);
  }

  function EntryKey<K>(e: Entry<K>): K { e.key }

  function BucketKey<K>(b: Bucket<K>): K { b.key }

  /** The keys that occur among the rows. */
  function RowKeys<K(!new)>(rows: seq<Entry<K>>): set<K> {
    Keys(rows, EntryKey)
  }

  /** The keys of a sequence of buckets. */
  function KeySet<K(!new)>(bs: seq<Bucket<K>>): set<K> {
    Keys(bs, BucketKey)
  }

  /** Each key occurs in at most one bucket. */
  ghost predicate DistinctKeys<K(!new)>(bs: seq<Bucket<K>>) {
    forall i, j :: 0 <= i < j < |bs| ==> bs[i].key != bs[j].key
  }

  /** The total of the first bucket whose key is `k`, or 0 when there is none. */
  function TotalFor<K(==,!new)>(bs: seq<Bucket<K>>, k: K): real {
    if |bs| == 0 then 0.0
    else if bs[0].key == k then bs[0].total
    else TotalFor(bs[1..], k)
  }

  /** Sum of every bucket's total. */
  function SumTotals<K(!new)>(bs: seq<Bucket<K>>): real {
    if |bs| == 0 then 0.0 else bs[0].total + SumTotals(bs[1..])
  }

  lemma DistinctCons<K(!new)>(b: Bucket<K>, bs: seq<Bucket<K>>)
    ensures DistinctKeys([b] + bs) <==> b.key !in KeySet(bs) && DistinctKeys(bs)
  {
    var s := [b] + bs;
    if DistinctKeys(s) {
      forall i, j | 0 <= i < j < |bs| ensures bs[i].key != bs[j].key {
        assert s[i + 1] == bs[i] && s[j + 1] == bs[j];
      }
      forall i | 0 <= i < |bs| ensures bs[i].key != b.key {
        assert s[0] == b && s[i + 1] == bs[i];
      }
    }
    if b.key !in KeySet(bs) && DistinctKeys(bs) {
      forall i, j | 0 <= i < j < |s| ensures s[i].key != s[j].key {
        if i > 0 {
          assert s[i] == bs[i - 1] && s[j] == bs[j - 1];
        } else {
          assert s[j] == bs[j - 1];
          assert bs[j - 1].key != b.key;
        }
      }
      assert DistinctKeys(s);
    }
  }

  /** With distinct keys, `TotalFor` finds every bucket's own total. */
  lemma {:induction false} TotalForAt<K(!new)>(bs: seq<Bucket<K>>)
    requires DistinctKeys(bs)
    ensures forall i :: 0 <= i < |bs| ==> TotalFor(bs, bs[i].key) == bs[i].total
  {
    if |bs| > 0 {
      DistinctCons(bs[0], bs[1..]);
      assert [bs[0]] + bs[1..] == bs;
      TotalForAt(bs[1..]);
      forall i | 0 < i < |bs| ensures TotalFor(bs, bs[i].key) == bs[i].total {
        assert bs[i] == bs[1..][i - 1];
        assert bs[i].key != bs[0].key;
      }
    }
  }

  /** With distinct keys there are exactly as many buckets as keys. */
  lemma {:induction false} DistinctKeysCount<K(!new)>(bs: seq<Bucket<K>>)
    requires DistinctKeys(bs)
    ensures |KeySet(bs)| == |bs|
  {
    if |bs| > 0 {
      DistinctCons(bs[0], bs[1..]);
      assert [bs[0]] + bs[1..] == bs;
      KeysCons(bs[0], bs[1..], BucketKey);
      DistinctKeysCount(bs[1..]);
    }
  }

  /**
   * Adds one row to the running groups: the bucket of the row's key gets the
   * amount added, or a new bucket is opened for an unseen key.
   */
  function AddTo<K(==,!new)>(bs: seq<Bucket<K>>, e: Entry<K>): (r: seq<Bucket<K>>)
    ensures KeySet(r) == KeySet(bs) + {e.key}
    ensures forall k :: TotalFor(r, k) == TotalFor(bs, k) + (if k == e.key then e.amount else 0.0)
    ensures SumTotals(r) == SumTotals(bs) + e.amount
    ensures DistinctKeys(bs) ==> DistinctKeys(r)
    ensures |r| <= |bs| + 1
  {
    if |bs| == 0 then
      KeysCons(Bucket(e.key, e.amount), [], BucketKey);
      assert [Bucket(e.key, e.amount)] + [] == [Bucket(e.key, e.amount)];
      [Bucket(e.key, e.amount)]
    else if bs[0].key == e.key then
      var r := [Bucket(e.key, bs[0].total + e.amount)] + bs[1..];
      KeysCons(r[0], bs[1..], BucketKey);
      KeysCons(bs[0], bs[1..], BucketKey);
      assert [bs[0]] + bs[1..] == bs;
      assert DistinctKeys(bs) ==> DistinctKeys(r) by {
        if DistinctKeys(bs) {
          DistinctCons(bs[0], bs[1..]);
          assert [bs[0]] + bs[1..] == bs;
          DistinctCons(r[0], bs[1..]);
        }
      }
      assert r[1..] == bs[1..];
      r
    else
      var rest := AddTo(bs[1..], e);
      var r := [bs[0]] + rest;
      KeysCons(bs[0], rest, BucketKey);
      KeysCons(bs[0], bs[1..], BucketKey);
      assert [bs[0]] + bs[1..] == bs;
      assert r[1..] == rest;
      assert DistinctKeys(bs) ==> DistinctKeys(r) by {
        if DistinctKeys(bs) {
          DistinctCons(bs[0], bs[1..]);
          assert [bs[0]] + bs[1..] == bs;
          DistinctCons(bs[0], rest);
        }
      }
      r
  }

  /**
   * `$group` with a `$sum` accumulator: one bucket per key that occurs in the
   * rows, holding the sum of that key's amounts; nothing is lost or added.
   */
  function GroupSum<K(==,!new)>(rows: seq<Entry<K>>): (r: seq<Bucket<K>>)
    ensures DistinctKeys(r)
    ensures KeySet(r) == RowKeys(rows)
    ensures forall k :: TotalFor(r, k) == SumFor(rows, k)
    ensures forall i :: 0 <= i < |r| ==> r[i].total == SumFor(rows, r[i].key)
    ensures SumTotals(r) == SumAll(rows)
    ensures |r| <= |rows|
  {
    if |rows| == 0 then []
    else
      var r := AddTo(GroupSum(rows[1..]), rows[0]);
      TotalForAt(r);
      r
  }

  /** The sequence is ordered by `key`, largest first. */
  ghost predicate NonIncreasing<T>(s: seq<T>, key: T -> real) {
    forall i, j :: 0 <= i < j < |s| ==> key(s[i]) >= key(s[j])
  }

  /** Sequences holding the same elements as multisets hold the same elements. */
  lemma SameMembers<T(!new)>(a: seq<T>, b: seq<T>)
    requires multiset(a) == multiset(b)
    ensures forall x :: x in a <==> x in b
  {
    forall x ensures x in a <==> x in b {
      assert x in a <==> x in multiset(a);
      assert x in b <==> x in multiset(b);
    }
  }

  /** Putting an element in front of an ordered sequence whose keys it bounds keeps it ordered. */
  lemma PrependOrdered<T>(h: T, rest: seq<T>, key: T -> real)
    requires NonIncreasing(rest, key)
    requires forall i :: 0 <= i < |rest| ==> key(rest[i]) <= key(h)
    ensures NonIncreasing([h] + rest, key)
  {
    var r := [h] + rest;
    forall i, j | 0 <= i < j < |r| ensures key(r[i]) >= key(r[j]) {
      assert r[j] == rest[j - 1];
      if i > 0 {
        assert r[i] == rest[i - 1];
      }
    }
  }

  /** A bound on the keys of `t` and on `key(x)` bounds every element of a permutation of `t` plus `x`. */
  lemma PermutationBounded<T>(rest: seq<T>, t: seq<T>, x: T, key: T -> real, bound: real)
    requires multiset(rest) == multiset(t) + multiset{x}
    requires forall i :: 0 <= i < |t| ==> key(t[i]) <= bound
    requires key(x) <= bound
    ensures forall i :: 0 <= i < |rest| ==> key(rest[i]) <= bound
  {
    forall i | 0 <= i < |rest| ensures key(rest[i]) <= bound {
      assert rest[i] in multiset(rest);
      if rest[i] != x {
        assert rest[i] in multiset(t);
        var m :| 0 <= m < |t| && t[m] == rest[i];
      }
    }
  }

  /** The step of insertion behind the head: the head still bounds everything after it. */
  lemma InsertBehindHead<T>(x: T, s: seq<T>, rest: seq<T>, key: T -> real)
    requires NonIncreasing(s, key) && |s| > 0 && key(x) < key(s[0])
    requires NonIncreasing(rest, key) && multiset(rest) == multiset(s[1..]) + multiset{x}
    ensures NonIncreasing([s[0]] + rest, key)
  {
    assert forall i :: 0 <= i < |s[1..]| ==> key(s[1..][i]) <= key(s[0]) by {
      forall i | 0 <= i < |s[1..]| ensures key(s[1..][i]) <= key(s[0]) {
        assert s[1..][i] == s[i + 1];
      }
    }
    PermutationBounded(rest, s[1..], x, key, key(s[0]));
    PrependOrdered(s[0], rest, key);
  }

  /** Inserts `x` before the first element with a smaller key. */
  function InsertDesc<T>(x: T, s: seq<T>, key: T -> real): (r: seq<T>)
    ensures multiset(r) == multiset(s) + multiset{x}
    ensures |r| == |s| + 1
    ensures r[0] == x || (|s| > 0 && r[0] == s[0])
    ensures NonIncreasing(s, key) ==> NonIncreasing(r, key)
  {
    if |s| == 0 || key(x) >= key(s[0]) then
      assert NonIncreasing(s, key) ==> NonIncreasing([x] + s, key) by {
        if NonIncreasing(s, key) {
          PrependOrdered(x, s, key);
        }
      }
      [x] + s
    else
      var rest := InsertDesc(x, s[1..], key);
      assert s == [s[0]] + s[1..];
      assert NonIncreasing(s, key) ==> NonIncreasing([s[0]] + rest, key) by {
        if NonIncreasing(s, key) {
          InsertBehindHead(x, s, rest, key);
        }
      }
      [s[0]] + rest
  }

  /**
   * `$sort` on one key, descending: a permutation of the input, ordered
   * largest first. (The order among equal keys is this model's own.)
   */
  function SortDesc<T(!new)>(s: seq<T>, key: T -> real): (r: seq<T>)
    ensures multiset(r) == multiset(s)
    ensures |r| == |s|
    ensures forall x :: x in r <==> x in s
    ensures NonIncreasing(r, key)
  {
    if |s| == 0 then []
    else
      assert s == [s[0]] + s[1..];
      var r := InsertDesc(s[0], SortDesc(s[1..], key), key);
      SameMembers(r, s);
      r
  }

  function Min(a: int, b: int): int {
    if a <= b then a else b
  }

  /** `$limit`: the first `n` elements, or all of them when there are fewer. */
  function Take<T>(s: seq<T>, n: nat): (r: seq<T>)
    ensures |r| == Min(n, |s|)
    ensures r == s[..|r|]
  {
    s[..Min(n, |s|)]
  }

  /**
   * Sorting then limiting keeps the largest: nothing left out has a larger
   * key than anything kept.
   */
  lemma TakeOfSortedKeepsLargest<T(!new)>(s: seq<T>, key: T -> real, n: nat)
    requires NonIncreasing(s, key)
    ensures forall i, j :: 0 <= i < |Take(s, n)| <= j < |s| ==> key(s[j]) <= key(Take(s, n)[i])
  {
  }

  /**
   * What a `$limit` after a `$sort` leaves out: a sub-multiset of the input
   * none of whose elements has a larger key than a kept one.
   */
  lemma TakeOfSortedOmitsSmaller<T(!new)>(s: seq<T>, key: T -> real, n: nat)
    requires NonIncreasing(s, key)
    ensures multiset(Take(s, n)) <= multiset(s)
    ensures forall x, y :: x in Take(s, n) && y in multiset(s) - multiset(Take(s, n)) ==> key(y) <= key(x)
  {
    var r := Take(s, n);
    var omitted := s[|r|..];
    assert s == r + omitted;
    assert multiset(s) == multiset(r) + multiset(omitted);
    forall x, y | x in r && y in multiset(s) - multiset(r) ensures key(y) <= key(x) {
      assert y in multiset(omitted);
      var i :| 0 <= i < |r| && r[i] == x;
      var j :| 0 <= j < |omitted| && omitted[j] == y;
      assert s[i] == x && s[|r| + j] == y;
    }
  }

  /** Inserting a bucket adds its total to the sum of totals. */
  lemma {:induction false} InsertSum<K(!new)>(x: Bucket<K>, s: seq<Bucket<K>>)
    ensures SumTotals(InsertDesc(x, s, TotalOf)) == x.total + SumTotals(s)
  {
    if |s| == 0 || TotalOf(x) >= TotalOf(s[0]) {
      assert ([x] + s)[1..] == s;
    } else {
      InsertSum(x, s[1..]);
      assert ([s[0]] + InsertDesc(x, s[1..], TotalOf))[1..] == InsertDesc(x, s[1..], TotalOf);
    }
  }

  /** Inserting a bucket whose key is new keeps the keys distinct. */
  lemma {:induction false} InsertDistinct<K(!new)>(x: Bucket<K>, s: seq<Bucket<K>>)
    requires DistinctKeys(s) && x.key !in KeySet(s)
    ensures DistinctKeys(InsertDesc(x, s, TotalOf))
    ensures KeySet(InsertDesc(x, s, TotalOf)) == KeySet(s) + {x.key}
  {
    assert s == [] || s == [s[0]] + s[1..];
    if |s| == 0 || TotalOf(x) >= TotalOf(s[0]) {
      DistinctCons(x, s);
      KeysCons(x, s, BucketKey);
    } else {
      DistinctCons(s[0], s[1..]);
      InsertDistinct(x, s[1..]);
      var rest := InsertDesc(x, s[1..], TotalOf);
      DistinctCons(s[0], rest);
      KeysCons(s[0], rest, BucketKey);
      KeysCons(s[0], s[1..], BucketKey);
      assert ([s[0]] + rest)[1..] == rest;
    }
  }

  /** Sorting buckets keeps the sum of their totals. */
  lemma {:induction false} SortSum<K(!new)>(bs: seq<Bucket<K>>)
    ensures SumTotals(SortDesc(bs, TotalOf)) == SumTotals(bs)
  {
    if |bs| > 0 {
      SortSum(bs[1..]);
      var rest := SortDesc(bs[1..], TotalOf);
      assert SortDesc(bs, TotalOf) == InsertDesc(bs[0], rest, TotalOf);
      InsertSum(bs[0], rest);
    }
  }

  /** Sorting buckets with distinct keys keeps the keys distinct and loses none. */
  lemma {:induction false} SortDistinct<K(!new)>(bs: seq<Bucket<K>>)
    requires DistinctKeys(bs)
    ensures DistinctKeys(SortDesc(bs, TotalOf))
    ensures KeySet(SortDesc(bs, TotalOf)) == KeySet(bs)
  {
    if |bs| > 0 {
      DistinctCons(bs[0], bs[1..]);
      assert [bs[0]] + bs[1..] == bs;
      SortDistinct(bs[1..]);
      var rest := SortDesc(bs[1..], TotalOf);
      assert SortDesc(bs, TotalOf) == InsertDesc(bs[0], rest, TotalOf);
      InsertDistinct(bs[0], rest);
      KeysCons(bs[0], bs[1..], BucketKey);
    }
  }
}
