/**
  Sequence operations that stand for the query shapes of the store:
  `WHERE` (Filter), `ORDER BY ... DESC` (SortDesc) and `LIMIT ... OFFSET ...` (Page),
  plus the "no two rows share a key" predicate behind primary keys and unique columns.
 */
module Seqs {
  import opened Wrappers

  function Min(a: int, b: int): int {
    if a <= b then a else b
  }

  /** The rows of `s` that satisfy `p`, in table order. */
  function Filter<T(!new)>(s: seq<T>, p: T -> bool): (r: seq<T>)
    ensures |r| <= |s|
    ensures forall x :: x in r <==> x in s && p(x)
  {
    if s == [] then []
    else
      assert s == [s[0]] + s[1..];
      if p(s[0]) then [s[0]] + Filter(s[1..], p) else Filter(s[1..], p)
  }

  /** Filtering never repeats a row: each occurs at most as often as in the table. */
  lemma {:induction false} FilterSubMultiset<T(!new)>(s: seq<T>, p: T -> bool)
    ensures multiset(Filter(s, p)) <= multiset(s)
  {
    if s != [] {
      var t := s[1..];
      FilterSubMultiset(t, p);
      assert multiset(s) == multiset{s[0]} + multiset(t) by { assert s == [s[0]] + t; }
      if p(s[0]) {
        assert multiset(Filter(s, p)) == multiset{s[0]} + multiset(Filter(t, p));
      }
    }
  }

  /** Filtering with a predicate every row satisfies keeps the whole table. */
  lemma {:induction false} FilterKeepsAll<T(!new)>(s: seq<T>, p: T -> bool)
    requires forall i :: 0 <= i < |s| ==> p(s[i])
    ensures Filter(s, p) == s
  {
    if s != [] {
      var t := s[1..];
      assert forall i :: 0 <= i < |t| ==> t[i] == s[i + 1];
      FilterKeepsAll(t, p);
      assert s == [s[0]] + t;
    }
  }

  /** Filtering removes nothing exactly when every row satisfies `p`. */
  lemma {:induction false} FilterCount<T(!new)>(s: seq<T>, p: T -> bool)
    ensures |Filter(s, p)| == |s| <==> forall i :: 0 <= i < |s| ==> p(s[i])
  {
    if s != [] {
      var t := s[1..];
      FilterCount(t, p);
      assert forall i :: 0 <= i < |t| ==> t[i] == s[i + 1];
      if p(s[0]) {
        assert Filter(s, p) == [s[0]] + Filter(t, p);
        assert (forall i :: 0 <= i < |s| ==> p(s[i])) <==> (forall i :: 0 <= i < |t| ==> p(t[i]));
      } else {
        assert Filter(s, p) == Filter(t, p);
      }
    }
  }

  /** No two positions of `s` share a key: a primary key or unique column. */
  predicate DistinctBy<T, K(==)>(s: seq<T>, key: T -> K) {
    forall i, j :: 0 <= i < j < |s| ==> key(s[i]) != key(s[j])
  }

  /** Deleting rows never creates a duplicate key. */
  lemma {:induction false} FilterKeepsDistinct<T(!new), K>(s: seq<T>, p: T -> bool, key: T -> K)
    requires DistinctBy(s, key)
    ensures DistinctBy(Filter(s, p), key)
  {
    if s != [] {
      var tail := Filter(s[1..], p);
      assert DistinctBy(s[1..], key) by {
        forall i, j | 0 <= i < j < |s[1..]| ensures key(s[1..][i]) != key(s[1..][j]) {
          assert s[1..][i] == s[i + 1] && s[1..][j] == s[j + 1];
        }
      }
      FilterKeepsDistinct(s[1..], p, key);
      if p(s[0]) {
        var r := [s[0]] + tail;
        forall j | 0 <= j < |tail| ensures key(tail[j]) != key(s[0]) {
          assert tail[j] in s[1..];
          var k :| 0 <= k < |s[1..]| && s[1..][k] == tail[j];
          assert s[k + 1] == tail[j];
        }
        forall i, j | 0 <= i < j < |r| ensures key(r[i]) != key(r[j]) {
          assert r[j] == tail[j - 1];
          if i > 0 {
            assert r[i] == tail[i - 1];
          }
        }
      }
    }
  }

  /** The first row whose key is `k` (`SELECT ... WHERE key = k`, first row of the result). */
  function Find<T, K(==)>(s: seq<T>, key: T -> K, k: K): (r: Option<T>)
    ensures r.Some? <==> exists i :: 0 <= i < |s| && key(s[i]) == k
    ensures r.Some? ==> key(r.value) == k && r.value in s
  {
    if s == [] then None
    else if key(s[0]) == k then Some(s[0])
    else
      var r := Find(s[1..], key, k);
      assert forall i :: 1 <= i < |s| ==> s[i] == s[1..][i - 1];
      r
  }

  /** Under a unique key, looking up a row's key finds that row. */
  lemma {:induction false} FindDistinct<T, K>(s: seq<T>, key: T -> K, i: nat)
    requires DistinctBy(s, key)
    requires i < |s|
    ensures Find(s, key, key(s[i])) == Some(s[i])
  {
    if i > 0 {
      assert key(s[0]) != key(s[i]);
      var t := s[1..];
      assert DistinctBy(t, key) by {
        forall a, b | 0 <= a < b < |t| ensures key(t[a]) != key(t[b]) {
          assert t[a] == s[a + 1] && t[b] == s[b + 1];
        }
      }
      assert t[i - 1] == s[i];
      FindDistinct(t, key, i - 1);
    }
  }

  /** Appending a row under a key no other row has makes it the row found under that key. */
  lemma {:induction false} FindAppended<T, K>(s: seq<T>, key: T -> K, x: T, k: K)
    requires forall i :: 0 <= i < |s| ==> key(s[i]) != key(x)
    ensures Find(s + [x], key, k) == if k == key(x) then Some(x) else Find(s, key, k)
  {
    if s != [] {
      assert (s + [x])[1..] == s[1..] + [x];
      assert (s + [x])[0] == s[0];
      FindAppended(s[1..], key, x, k);
    }
  }

  /** A page of a sorted table is sorted, and holds rows of the table. */
  lemma PageOfSorted<T>(s: seq<T>, key: T -> int, offset: nat, limit: nat)
    requires SortedDescBy(s, key)
    ensures SortedDescBy(Page(s, offset, limit), key)
    ensures forall i :: 0 <= i < |Page(s, offset, limit)| ==> Page(s, offset, limit)[i] in s
  {
    var r := Page(s, offset, limit);
    forall i, j | 0 <= i < j < |r| ensures key(r[i]) >= key(r[j]) {
      assert r[i] == s[offset + i] && r[j] == s[offset + j];
    }
  }

  /** Keys never increase from left to right: the result of `ORDER BY key DESC`. */
  predicate SortedDescBy<T>(s: seq<T>, key: T -> int) {
    forall i, j :: 0 <= i < j < |s| ==> key(s[i]) >= key(s[j])
  }

  /** Places `x` before the first element whose key is not larger than its own. */
  function InsertDesc<T>(x: T, s: seq<T>, key: T -> int): (r: seq<T>)
    requires SortedDescBy(s, key)
    ensures |r| == |s| + 1
    ensures r[0] == x || (s != [] && r[0] == s[0])
    ensures SortedDescBy(r, key)
    ensures multiset(r) == multiset(s) + multiset{x}
  {
    if s == [] || key(x) >= key(s[0]) then
      SortedCons(x, s, key);
      [x] + s
    else
      SortedTail(s, key);
      var rest := InsertDesc(x, s[1..], key);
      InsertBehindHead(x, s, key, rest);
      [s[0]] + rest
  }

  /** The tail of a sorted sequence is sorted. */
  lemma SortedTail<T>(s: seq<T>, key: T -> int)
    requires s != [] && SortedDescBy(s, key)
    ensures SortedDescBy(s[1..], key)
  {
    var t := s[1..];
    forall i, j | 0 <= i < j < |t| ensures key(t[i]) >= key(t[j]) {
      assert t[i] == s[i + 1] && t[j] == s[j + 1];
    }
  }

  /** A head whose key is at least the first key of a sorted sequence keeps it sorted. */
  lemma SortedCons<T>(h: T, s: seq<T>, key: T -> int)
    requires SortedDescBy(s, key)
    requires s != [] ==> key(h) >= key(s[0])
    ensures SortedDescBy([h] + s, key)
  {
    var r := [h] + s;
    forall i, j | 0 <= i < j < |r| ensures key(r[i]) >= key(r[j]) {
      assert r[j] == s[j - 1];
      if i > 0 {
        assert r[i] == s[i - 1];
      } else if j > 1 {
        assert key(s[0]) >= key(s[j - 1]);
      }
    }
  }

  /** Inserting `x` into the tail, behind a head with a larger key, gives the insertion into the whole. */
  lemma InsertBehindHead<T>(x: T, s: seq<T>, key: T -> int, rest: seq<T>)
    requires s != [] && SortedDescBy(s, key) && key(x) < key(s[0])
    requires |rest| == |s| && (rest[0] == x || (|s| > 1 && rest[0] == s[1]))
    requires SortedDescBy(rest, key)
    requires multiset(rest) == multiset(s[1..]) + multiset{x}
    ensures SortedDescBy([s[0]] + rest, key)
    ensures multiset([s[0]] + rest) == multiset(s) + multiset{x}
  {
    SortedCons(s[0], rest, key);
    assert s == [s[0]] + s[1..];
  }

  /**
    A stable descending sort by `key`: the order `ORDER BY key DESC` yields.
    Rows with equal keys keep their table order.
   */
  function SortDesc<T>(s: seq<T>, key: T -> int): (r: seq<T>)
    ensures SortedDescBy(r, key)
    ensures multiset(r) == multiset(s)
    ensures |r| == |s|
  {
    if s == [] then []
    else
      assert s == [s[0]] + s[1..];
      InsertDesc(s[0], SortDesc(s[1..], key), key)
  }

  /** `LIMIT limit OFFSET offset`: at most `limit` rows, starting after the first `offset`. */
  function Page<T>(s: seq<T>, offset: nat, limit: nat): (r: seq<T>)
    ensures |r| <= limit
    ensures |r| == if offset >= |s| then 0 else Min(limit, |s| - offset)
    ensures forall i :: 0 <= i < |r| ==> r[i] == s[offset + i]
  {
    if offset >= |s| then [] else s[offset..offset + Min(limit, |s| - offset)]
  }

  /** The first `k` pages of size `limit`, one after the other. */
  function FirstPages<T>(s: seq<T>, limit: nat, k: nat): seq<T> {
    if k == 0 then [] else FirstPages(s, limit, k - 1) + Page(s, (k - 1) * limit, limit)
  }

  /** The first `k` pages are the first `k - 1` pages, then page `k`. */
  lemma FirstPagesStep<T>(s: seq<T>, limit: nat, k: nat)
    requires k > 0
    ensures FirstPages(s, limit, k) == FirstPages(s, limit, k - 1) + Page(s, (k - 1) * limit, limit)
  {
  }

  /**
    Paging tiles the table: the first `k` pages together are exactly the first
    `k * limit` rows, so every row is on exactly one page and none is skipped.
   */
  lemma {:induction false} FirstPagesArePrefix<T>(s: seq<T>, limit: nat, k: nat)
    requires limit > 0
    ensures FirstPages(s, limit, k) == s[..Min(k * limit, |s|)]
  {
    if k > 0 {
      FirstPagesArePrefix(s, limit, k - 1);
      var lo: nat := (k - 1) * limit;
      MulStep(k, limit);
      PageIsSlice(s, lo, limit);
      ConcatSlices(s, Min(lo, |s|), Min(lo + limit, |s|));
    }
  }

  lemma PageIsSlice<T>(s: seq<T>, lo: nat, limit: nat)
    ensures Page(s, lo, limit) == s[Min(lo, |s|)..Min(lo + limit, |s|)]
  {
  }

  lemma ConcatSlices<T>(s: seq<T>, a: nat, b: nat)
    requires a <= b <= |s|
    ensures s[..a] + s[a..b] == s[..b]
  {
  }

  lemma MulStep(k: nat, limit: nat)
    requires k > 0
    ensures (k - 1) * limit + limit == k * limit
  {
  }
}
