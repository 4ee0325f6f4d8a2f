/**
 * A stable insertion sort by a caller-given order, standing for PHP's `usort`
 * and `sort` (both stable since PHP 8). Its result is a permutation of its
 * input, and it is sorted whenever the order is total and transitive.
 */
module Sorting {

  ghost predicate Sorted<T>(s: seq<T>, le: (T, T) -> bool) {
    forall i, j :: 0 <= i < j < |s| ==> le(s[i], s[j])
  }

  ghost predicate TotalPreorder<T(!new)>(le: (T, T) -> bool) {
    && (forall a, b :: le(a, b) || le(b, a))
    && (forall a, b, c :: le(a, b) && le(b, c) ==> le(a, c))
  }

  /** A slice of a sorted sequence is sorted, and its elements come from the sequence. */
  lemma SortedSlice<T>(s: seq<T>, lo: int, hi: int, le: (T, T) -> bool)
    requires 0 <= lo <= hi <= |s|
    ensures Sorted(s, le) ==> Sorted(s[lo..hi], le)
    ensures forall x :: x in s[lo..hi] ==> x in s
  {
    if Sorted(s, le) {
      forall i, j | 0 <= i < j < hi - lo ensures le(s[lo..hi][i], s[lo..hi][j]) {
        assert s[lo..hi][i] == s[lo + i] && s[lo..hi][j] == s[lo + j];
      }
    }
  }

  /** A prefix of a sorted sequence comes no later than anything left after it. */
  lemma SortedPrefixFirst<T>(s: seq<T>, cut: int, le: (T, T) -> bool)
    requires 0 <= cut <= |s| && Sorted(s, le)
    ensures forall a, b :: a in s[..cut] && b in multiset(s) - multiset(s[..cut]) ==> le(a, b)
    ensures multiset(s[..cut]) <= multiset(s)
  {
    assert s == s[..cut] + s[cut..];
    assert multiset(s) - multiset(s[..cut]) == multiset(s[cut..]);
    forall a, b | a in s[..cut] && b in multiset(s) - multiset(s[..cut]) ensures le(a, b) {
      assert b in s[cut..];
      var i :| 0 <= i < cut && s[..cut][i] == a;
      var j :| 0 <= j < |s| - cut && s[cut..][j] == b;
      assert s[i] == a && s[cut + j] == b;
    }
  }

  /** Inserts x before the first element it is not after. */
  function Insert<T>(x: T, s: seq<T>, le: (T, T) -> bool): (r: seq<T>)
    ensures |r| == |s| + 1
    ensures multiset(r) == multiset(s) + multiset{x}
  {
    if s == [] then [x]
    else if le(x, s[0]) then [x] + s
    else assert s == [s[0]] + s[1..]; [s[0]] + Insert(x, s[1..], le)
  }

  function SortBy<T>(s: seq<T>, le: (T, T) -> bool): (r: seq<T>)
    ensures |r| == |s|
    ensures multiset(r) == multiset(s)
  {
    if s == [] then [] else assert s == [s[0]] + s[1..]; Insert(s[0], SortBy(s[1..], le), le)
  }

  lemma {:induction false} InsertSorted<T(!new)>(x: T, s: seq<T>, le: (T, T) -> bool)
    requires TotalPreorder(le)
    requires Sorted(s, le)
    ensures Sorted(Insert(x, s, le), le)
  {
    if s != [] && !le(x, s[0]) {
      assert Sorted(s[1..], le);
      InsertSorted(x, s[1..], le);
      var r := Insert(x, s[1..], le);
      assert le(s[0], x);
      forall k | 0 <= k < |r| ensures le(s[0], r[k]) {
        assert r[k] in multiset(r);
        assert r[k] in multiset(s[1..]) + multiset{x};
        if r[k] != x {
          assert r[k] in s[1..];
          var m :| 0 <= m < |s[1..]| && s[1..][m] == r[k];
          assert s[m + 1] == r[k];
        }
      }
    }
  }

  /** The result of SortBy is ordered by le. */
  lemma {:induction false} SortBySorted<T(!new)>(s: seq<T>, le: (T, T) -> bool)
    requires TotalPreorder(le)
    ensures Sorted(SortBy(s, le), le)
  {
    if s != [] {
      SortBySorted(s[1..], le);
      InsertSorted(s[0], SortBy(s[1..], le), le);
    }
  }
}
