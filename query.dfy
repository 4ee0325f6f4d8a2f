/**
 * Query parameters as PHP holds them: an ordered array with string keys, each
 * key at most once. `Set` is `$q[$k] = $v` (an existing key keeps its place,
 * a new one goes last), `Remove` is `unset`, and `Build` is
 * `http_build_query` without percent-encoding.
 */
module Query {
  import opened Wrappers
  import opened Strings

  type Params = seq<(string, string)>

  function Keys(q: Params): (ks: seq<string>)
    ensures |ks| == |q| && forall i :: 0 <= i < |q| ==> ks[i] == q[i].0
  {
    seq(|q|, i requires 0 <= i < |q| => q[i].0)
  }

  /** No key occurs twice. */
  predicate UniqueKeys(q: Params) {
    forall i, j :: 0 <= i < j < |q| ==> q[i].0 != q[j].0
  }

  /** The position of key k, or |q| when it is absent. */
  function KeyIndex(q: Params, k: string): (i: nat)
    ensures i <= |q|
    ensures i < |q| ==> q[i].0 == k
    ensures forall j :: 0 <= j < i ==> q[j].0 != k
  {
    if q == [] then 0
    else if q[0].0 == k then 0
    else 1 + KeyIndex(q[1..], k)
  }

  /** `$q[$k] ?? null`. */
  function Lookup(q: Params, k: string): (r: Option<string>)
    ensures r.None? <==> k !in Keys(q)
    ensures r.Some? ==> (k, r.value) in q
    ensures UniqueKeys(q) ==> forall v :: (k, v) in q ==> r == Some(v)
  {
    var i := KeyIndex(q, k);
    assert forall j :: 0 <= j < |q| && q[j].0 == k ==> j >= i;
    if i < |q| then Some(q[i].1) else None
  }

  /** `$q[$k] = $v`. */
  function Set(q: Params, k: string, v: string): (r: Params)
    requires UniqueKeys(q)
    ensures UniqueKeys(r)
    ensures Lookup(r, k) == Some(v)
    ensures forall k' :: k' != k ==> Lookup(r, k') == Lookup(q, k')
    // an existing key keeps its position; a new key is appended
    ensures k in Keys(q) ==> Keys(r) == Keys(q)
    ensures k !in Keys(q) ==> r == q + [(k, v)]
  {
    var i := KeyIndex(q, k);
    if i < |q| then
      var r := q[i := (k, v)];
      assert Keys(r) == Keys(q);
      assert forall k' :: k' != k ==> Lookup(r, k') == Lookup(q, k') by {
        forall k' | k' != k ensures Lookup(r, k') == Lookup(q, k') {
          assert forall p: (string, string) :: p.0 == k' ==> (p in r <==> p in q) by {
            forall p: (string, string) | p.0 == k' ensures p in r <==> p in q {
              if p in q { var j :| 0 <= j < |q| && q[j] == p; assert r[j] == p; }
              if p in r { var j :| 0 <= j < |r| && r[j] == p; assert q[j] == p; }
            }
          }
        }
      }
      r
    else
      var r := q + [(k, v)];
      assert Keys(r) == Keys(q) + [k];
      assert forall k' :: k' != k ==> Lookup(r, k') == Lookup(q, k') by {
        forall k' | k' != k ensures Lookup(r, k') == Lookup(q, k') {
          assert forall p: (string, string) :: p.0 == k' ==> (p in r <==> p in q);
        }
      }
      r
  }

  /** Setting a key twice is setting it once to the later value. */
  lemma SetTwice(q: Params, k: string, x: string, y: string)
    requires UniqueKeys(q)
    ensures Set(Set(q, k, x), k, y) == Set(q, k, y)
  {
    var i := KeyIndex(q, k);
    if i < |q| {
      KeyIndexAt(q[i := (k, x)], k, i);
    } else {
      KeyIndexAt(q + [(k, x)], k, |q|);
      assert (q + [(k, x)])[|q| := (k, y)] == q + [(k, y)];
    }
  }

  /** The first position holding k is the one before which k does not occur. */
  lemma KeyIndexAt(q: Params, k: string, i: nat)
    requires i <= |q| && (i < |q| ==> q[i].0 == k)
    requires forall j :: 0 <= j < i ==> q[j].0 != k
    ensures KeyIndex(q, k) == i
  {
  }

  /** `unset($q[$k])`. */
  function Remove(q: Params, k: string): (r: Params)
    requires UniqueKeys(q)
    ensures UniqueKeys(r)
    ensures forall p :: p in r <==> p in q && p.0 != k
    ensures k !in Keys(r)
    ensures forall k' :: k' != k ==> Lookup(r, k') == Lookup(q, k')
  {
    if q == [] then []
    else
      UniqueTail(q);
      var rest := Remove(q[1..], k);
      if q[0].0 == k then
        assert forall p :: p in q <==> p == q[0] || p in q[1..];
        rest
      else
        UniqueCons(q[0], rest);
        [q[0]] + rest
  }

  /** The tail of an array with unique keys has unique keys, none of them the first key. */
  lemma UniqueTail(q: Params)
    requires UniqueKeys(q) && q != []
    ensures UniqueKeys(q[1..])
    ensures forall p :: p in q[1..] ==> p.0 != q[0].0
  {
    forall p | p in q[1..] ensures p.0 != q[0].0 {
      var j :| 0 <= j < |q[1..]| && q[1..][j] == p;
      assert q[j + 1] == p;
    }
  }

  /** A pair whose key is new, put before an array with unique keys, keeps the keys unique. */
  lemma UniqueCons(x: (string, string), rest: Params)
    requires UniqueKeys(rest) && forall p :: p in rest ==> p.0 != x.0
    ensures UniqueKeys([x] + rest)
  {
    var r := [x] + rest;
    forall i, j | 0 <= i < j < |r| ensures r[i].0 != r[j].0 {
      if i == 0 { assert r[j] in rest; }
      else { assert r[i] == rest[i - 1]; assert r[j] == rest[j - 1]; }
    }
  }

  /** A pair put in front does not change the lookup of another key. */
  lemma LookupCons(x: (string, string), rest: Params, k: string)
    requires k != x.0
    ensures Lookup([x] + rest, k) == Lookup(rest, k)
  {
    assert ([x] + rest)[1..] == rest;
  }

  /** Unsetting a key that is not there changes nothing. */
  lemma {:induction false} RemoveAbsent(q: Params, k: string)
    requires UniqueKeys(q) && k !in Keys(q)
    ensures Remove(q, k) == q
  {
    if q != [] {
      assert UniqueKeys(q[1..]) by {
        forall i, j | 0 <= i < j < |q[1..]| ensures q[1..][i].0 != q[1..][j].0 {
          assert q[1..][i] == q[i + 1] && q[1..][j] == q[j + 1];
        }
      }
      assert k !in Keys(q[1..]) by {
        forall i | 0 <= i < |q[1..]| ensures Keys(q[1..])[i] != k {
          assert Keys(q)[i + 1] == q[i + 1].0;
        }
      }
      assert Keys(q)[0] == q[0].0;
      RemoveAbsent(q[1..], k);
    }
  }

  /** Unsetting the first key leaves the rest of the array, in order. */
  lemma RemoveFirst(q: Params)
    requires UniqueKeys(q) && q != []
    ensures Remove(q, q[0].0) == q[1..]
  {
    assert UniqueKeys(q[1..]) by {
      forall i, j | 0 <= i < j < |q[1..]| ensures q[1..][i].0 != q[1..][j].0 {
        assert q[1..][i] == q[i + 1] && q[1..][j] == q[j + 1];
      }
    }
    assert q[0].0 !in Keys(q[1..]) by {
      forall i | 0 <= i < |q[1..]| ensures Keys(q[1..])[i] != q[0].0 {
        assert q[1..][i] == q[i + 1];
      }
    }
    RemoveAbsent(q[1..], q[0].0);
  }

  /** A PHP array whose values may be null. */
  type NullableParams = seq<(string, Option<string>)>

  predicate UniqueNullableKeys(q: NullableParams) {
    forall i, j :: 0 <= i < j < |q| ==> q[i].0 != q[j].0
  }

  /**
   * `unset` of the keys in `drop`, then `array_filter` with the callback
   * `$v !== null && $v !== ''`: the pairs that remain, in order.
   */
  function Present(q: NullableParams, drop: set<string>): (r: Params)
    ensures forall p :: p in r ==> (p.0, Some(p.1)) in q && p.1 != "" && p.0 !in drop
    ensures forall k, v :: (k, Some(v)) in q && v != "" && k !in drop ==> (k, v) in r
    ensures |r| <= |q|
  {
    if q == [] then []
    else
      var keep := q[0].1.Some? && q[0].1.value != "" && q[0].0 !in drop;
      assert forall p :: p in q ==> p == q[0] || p in q[1..];
      (if keep then [(q[0].0, q[0].1.value)] else []) + Present(q[1..], drop)
  }

  /** Filtering keeps keys unique. */
  lemma {:induction false} PresentUnique(q: NullableParams, drop: set<string>)
    requires UniqueNullableKeys(q)
    ensures UniqueKeys(Present(q, drop))
  {
    if q != [] {
      var tail := q[1..];
      UniqueNullableTail(q);
      PresentUnique(tail, drop);
      var rest := Present(tail, drop);
      if q[0].1.Some? && q[0].1.value != "" && q[0].0 !in drop {
        assert forall p :: p in rest ==> (p.0, Some(p.1)) in tail;
        UniqueCons((q[0].0, q[0].1.value), rest);
        assert Present(q, drop) == [(q[0].0, q[0].1.value)] + rest;
      }
    }
  }

  /** The tail of an array with unique keys has unique keys, none of them the first key. */
  lemma UniqueNullableTail(q: NullableParams)
    requires UniqueNullableKeys(q) && q != []
    ensures UniqueNullableKeys(q[1..])
    ensures forall p :: p in q[1..] ==> p.0 != q[0].0
  {
    forall p | p in q[1..] ensures p.0 != q[0].0 {
      var j :| 0 <= j < |q[1..]| && q[1..][j] == p;
      assert q[j + 1] == p;
    }
  }

  function Pair(p: (string, string)): string {
    p.0 + "=" + p.1
  }

  /** `http_build_query`: k=v pairs joined by '&' (percent-encoding is not modelled). */
  function Build(q: Params): (s: string)
    ensures q == [] <==> s == ""
  {
    if q == [] then ""
    else
      var parts := seq(|q|, i requires 0 <= i < |q| => Pair(q[i]));
      assert parts[0] == Pair(q[0]);
      assert |Pair(q[0])| > 0;
      JoinNonEmpty(parts, "&");
      Join(parts, "&")
  }

  lemma JoinNonEmpty(parts: seq<string>, sep: string)
    requires parts != [] && parts[0] != ""
    ensures Join(parts, sep) != ""
  {
    if |parts| > 1 {
      assert Join(parts, sep) == parts[0] + sep + Join(parts[1..], sep);
    }
  }
}
