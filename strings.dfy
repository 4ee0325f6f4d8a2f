/**
 * The string primitives of PHP (and of the browser script) that the catalog code
 * relies on, over `string` = `seq<char>`: `trim` with a character list,
 * `str_starts_with`, `str_contains`, `explode`/`implode`, `str_replace` of one
 * character, PHP's notion of an "empty" string and the `(int)` cast.
 */
module Strings {
  import opened Wrappers
  import opened Ints

  /** The characters PHP's `trim` removes when no list is given. */
  const Whitespace: set<char> := {' ', '\t', '\n', '\r', '\0', '\U{000B}'}

  /** PHP's `empty()` and `!$x` on a string: "" and "0" are falsy. */
  predicate Falsy(s: string) {
    s == "" || s == "0"
  }

  /** `empty($x)` on a value that is either null or a string. */
  predicate EmptyOpt(o: Option<string>) {
    o.None? || Falsy(o.value)
  }

  /** A value that is set and not PHP-falsy (`$x` used as a condition). */
  predicate Truthy(o: Option<string>) {
    o.Some? && !Falsy(o.value)
  }

  /** `strtolower` / `strtoupper`: ASCII letters only. */
  function AsciiLower(s: string): (r: string)
    ensures |r| == |s|
    ensures forall i :: 0 <= i < |s| ==> r[i] == if 'A' <= s[i] <= 'Z' then (s[i] as int + 32) as char else s[i]
  {
    seq(|s|, i requires 0 <= i < |s| => if 'A' <= s[i] <= 'Z' then (s[i] as int + 32) as char else s[i])
  }

  function AsciiUpper(s: string): (r: string)
    ensures |r| == |s|
    ensures forall i :: 0 <= i < |s| ==> r[i] == if 'a' <= s[i] <= 'z' then (s[i] as int - 32) as char else s[i]
  {
    seq(|s|, i requires 0 <= i < |s| => if 'a' <= s[i] <= 'z' then (s[i] as int - 32) as char else s[i])
  }

  /** `filter_var($s, FILTER_VALIDATE_BOOLEAN)`: "1", "true", "on" and "yes", in any case and trimmed, are true. */
  predicate ValidateBool(s: string) {
    AsciiLower(Trim(s)) in {"1", "true", "on", "yes"}
  }

  /** `ltrim($s, $chars)`. */
  function TrimLeft(s: string, cs: set<char>): (r: string)
    ensures |r| <= |s| && r == s[|s| - |r|..]
    ensures forall i :: 0 <= i < |s| - |r| ==> s[i] in cs
    ensures r == [] || r[0] !in cs
  {
    if s != [] && s[0] in cs then TrimLeft(s[1..], cs) else s
  }

  /** `rtrim($s, $chars)`. */
  function TrimRight(s: string, cs: set<char>): (r: string)
    ensures |r| <= |s| && r == s[..|r|]
    ensures forall i :: |r| <= i < |s| ==> s[i] in cs
    ensures r == [] || r[|r| - 1] !in cs
  {
    if s != [] && s[|s| - 1] in cs then TrimRight(s[..|s| - 1], cs) else s
  }

  /** `trim($s, $chars)`. */
  function TrimBy(s: string, cs: set<char>): string {
    TrimRight(TrimLeft(s, cs), cs)
  }

  /** `trim($s)` with PHP's default character list. */
  function Trim(s: string): string {
    TrimBy(s, Whitespace)
  }

  /** A string that `trim($s, $cs)` leaves unchanged has no character of cs at either end. */
  lemma TrimByIdentity(s: string, cs: set<char>)
    requires s == [] || (s[0] !in cs && s[|s| - 1] !in cs)
    ensures TrimBy(s, cs) == s
  {
  }

  /** `trim` removes one character of cs on each side of a string whose own ends are not in cs. */
  lemma TrimByWrapped(q: char, s: string, cs: set<char>)
    requires q in cs
    requires s == [] || (s[0] !in cs && s[|s| - 1] !in cs)
    ensures TrimBy([q] + s + [q], cs) == s
  {
    var w := [q] + s + [q];
    assert w[1..] == s + [q];
    if s == [] {
      assert [q][1..] == [];
    } else {
      assert (s + [q])[0] == s[0];
      assert TrimLeft(s + [q], cs) == s + [q];
      assert (s + [q])[..|s|] == s;
    }
  }

  /** Trimming keeps only characters of the string. */
  lemma TrimByWithin(s: string, cs: set<char>)
    ensures forall c :: c in TrimBy(s, cs) ==> c in s
  {
    var l := TrimLeft(s, cs);
    var r := TrimRight(l, cs);
    assert forall i :: 0 <= i < |r| ==> r[i] == l[i];
    assert forall i :: 0 <= i < |l| ==> l[i] == s[|s| - |l| + i];
  }

  /** What `trim($s, $cs)` leaves has no character of cs at either end. */
  lemma TrimByEnds(s: string, cs: set<char>)
    ensures var r := TrimBy(s, cs); r == [] || (r[0] !in cs && r[|r| - 1] !in cs)
  {
    var l := TrimLeft(s, cs);
    var r := TrimRight(l, cs);
    if r != [] {
      assert r[0] == l[0];
    }
  }

  /** Trimming twice trims nothing more. */
  lemma TrimByIdempotent(s: string, cs: set<char>)
    ensures TrimBy(TrimBy(s, cs), cs) == TrimBy(s, cs)
  {
    var l := TrimLeft(s, cs);
    var r := TrimRight(l, cs);
    if r != [] {
      assert r[0] == l[0];
    }
    TrimByIdentity(r, cs);
  }

  predicate StartsWith(s: string, prefix: string) {
    |prefix| <= |s| && s[..|prefix|] == prefix
  }

  predicate EndsWith(s: string, suffix: string) {
    |suffix| <= |s| && s[|s| - |suffix|..] == suffix
  }

  /** Putting a string in front keeps the suffix and extends the prefix. */
  lemma PrependAffixes(base: string, s: string, prefix: string, suffix: string)
    requires StartsWith(s, prefix) && EndsWith(s, suffix)
    ensures StartsWith(base + s, base + prefix) && EndsWith(base + s, suffix)
  {
    var u := base + s;
    assert u[..|base| + |prefix|] == base + s[..|prefix|];
    assert u[|u| - |suffix|..] == s[|s| - |suffix|..];
  }

  /** `str_contains($hay, $needle)`, computed by scanning. */
  predicate Contains(hay: string, needle: string)
    decreases |hay|
  {
    StartsWith(hay, needle) || (hay != [] && Contains(hay[1..], needle))
  }

  /** Substring occurrence stated directly. */
  ghost predicate OccursAt(hay: string, needle: string, i: int) {
    0 <= i && i + |needle| <= |hay| && hay[i..i + |needle|] == needle
  }

  /** The scan finds the needle exactly when it occurs somewhere in the haystack. */
  lemma {:induction false} ContainsIff(hay: string, needle: string)
    ensures Contains(hay, needle) <==> exists i :: OccursAt(hay, needle, i)
    decreases |hay|
  {
    if StartsWith(hay, needle) {
      assert OccursAt(hay, needle, 0);
    } else if hay != [] {
      ContainsIff(hay[1..], needle);
      if exists i :: OccursAt(hay[1..], needle, i) {
        var i :| OccursAt(hay[1..], needle, i);
        assert hay[1..][i..i + |needle|] == hay[i + 1..i + 1 + |needle|];
        assert OccursAt(hay, needle, i + 1);
      }
      if exists i :: OccursAt(hay, needle, i) {
        var i :| OccursAt(hay, needle, i);
        if i > 0 {
          assert hay[1..][i - 1..i - 1 + |needle|] == hay[i..i + |needle|];
          assert OccursAt(hay[1..], needle, i - 1);
        }
      }
    }
  }

  /** `str_replace($needle, '', $s)`: every occurrence removed, scanning left to right; an empty needle changes nothing. */
  function RemoveAll(s: string, needle: string): (r: string)
    ensures |r| <= |s|
    decreases |s|
  {
    if needle == "" || s == "" then s
    else if StartsWith(s, needle) then RemoveAll(s[|needle|..], needle)
    else [s[0]] + RemoveAll(s[1..], needle)
  }

  /** A string without the needle is left as it is. */
  lemma {:induction false} RemoveAllAbsent(s: string, needle: string)
    requires !Contains(s, needle)
    ensures RemoveAll(s, needle) == s
    decreases |s|
  {
    if s != "" && needle != "" {
      RemoveAllAbsent(s[1..], needle);
      assert s == [s[0]] + s[1..];
    }
  }

  /** `str_replace($from, $to, $s)` for one-character search and replacement. */
  function ReplaceChar(s: string, from: char, to: char): (r: string)
    ensures |r| == |s|
    ensures forall i :: 0 <= i < |s| ==> r[i] == (if s[i] == from then to else s[i])
  {
    seq(|s|, i requires 0 <= i < |s| => if s[i] == from then to else s[i])
  }

  /** Replacing a character that does not occur changes nothing. */
  lemma ReplaceCharAbsent(s: string, from: char, to: char)
    requires from !in s
    ensures ReplaceChar(s, from, to) == s
  {
  }

  /** The two halves of a concatenation. */
  lemma ConcatHalves<T>(a: seq<T>, b: seq<T>)
    ensures (a + b)[..|a|] == a && (a + b)[|a|..] == b
  {
  }

  /** A prefix one longer is the prefix and the next element. */
  lemma PrefixStep<T>(xs: seq<T>, i: int)
    requires 0 <= i < |xs|
    ensures xs[..i + 1] == xs[..i] + [xs[i]]
    ensures xs[..i + 1][..i] == xs[..i]
  {
  }

  /** Index of the first occurrence of c in s, or |s| when there is none. */
  function IndexOf(s: string, c: char): (k: nat)
    ensures k <= |s|
    ensures k < |s| ==> s[k] == c
    ensures forall i :: 0 <= i < k ==> s[i] != c
  {
    if s == [] then 0 else if s[0] == c then 0 else 1 + IndexOf(s[1..], c)
  }

  /** `explode($sep, $s)` for a one-character separator. */
  function Split(s: string, sep: char): (parts: seq<string>)
    ensures |parts| >= 1
    ensures forall p :: p in parts ==> sep !in p
    decreases |s|
  {
    var k := IndexOf(s, sep);
    if k == |s| then [s] else [s[..k]] + Split(s[k + 1..], sep)
  }

  /** `implode($sep, $parts)`. */
  function Join(parts: seq<string>, sep: string): string {
    if parts == [] then ""
    else if |parts| == 1 then parts[0]
    else parts[0] + sep + Join(parts[1..], sep)
  }

  /** Splitting and joining again gives back the original string. */
  lemma {:induction false} JoinSplit(s: string, sep: char)
    ensures Join(Split(s, sep), [sep]) == s
    decreases |s|
  {
    var k := IndexOf(s, sep);
    if k < |s| {
      var rest := Split(s[k + 1..], sep);
      JoinSplit(s[k + 1..], sep);
      assert Split(s, sep) == [s[..k]] + rest;
      JoinCons(s[..k], rest, [sep]);
      assert s == s[..k] + [sep] + s[k + 1..];
    }
  }

  /** Joining a first part before at least one other puts the separator between them. */
  lemma JoinCons(p: string, rest: seq<string>, sep: string)
    requires rest != []
    ensures Join([p] + rest, sep) == p + sep + Join(rest, sep)
  {
    assert ([p] + rest)[1..] == rest;
  }

  /** Joining parts that do not contain the separator and splitting again gives the parts back. */
  lemma {:induction false} SplitJoin(parts: seq<string>, sep: char)
    requires parts != [] && forall p :: p in parts ==> sep !in p
    ensures Split(Join(parts, [sep]), sep) == parts
  {
    var s := Join(parts, [sep]);
    if |parts| == 1 {
      assert IndexOf(s, sep) == |s| by {
        assert sep !in parts[0];
      }
    } else {
      var rest := Join(parts[1..], [sep]);
      assert s == parts[0] + [sep] + rest;
      assert parts[0] in parts;
      var k := IndexOf(s, sep);
      assert s[|parts[0]|] == sep;
      assert k == |parts[0]|;
      assert s[..k] == parts[0] && s[k + 1..] == rest;
      SplitJoin(parts[1..], sep);
    }
  }

  /** Byte-wise string order, as PHP's `<=>` and `strcmp` compare non-numeric strings. */
  predicate LexLe(s: string, t: string) {
    s == [] || (t != [] && (s[0] < t[0] || (s[0] == t[0] && LexLe(s[1..], t[1..]))))
  }

  lemma {:induction false} LexLeTotal(s: string, t: string)
    ensures LexLe(s, t) || LexLe(t, s)
  {
    if s != [] && t != [] && s[0] == t[0] {
      LexLeTotal(s[1..], t[1..]);
    }
  }

  lemma {:induction false} LexLeTransitive(a: string, b: string, c: string)
    requires LexLe(a, b) && LexLe(b, c)
    ensures LexLe(a, c)
  {
    if a != [] && b != [] && c != [] && a[0] == b[0] && b[0] == c[0] {
      LexLeTransitive(a[1..], b[1..], c[1..]);
    }
  }

  /** `explode($sep, $s, 2)` padded to two parts with "" (`array_pad(..., 2, '')`). */
  function SplitFirst(s: string, sep: char): (r: (string, string))
    ensures sep !in r.0
    ensures r.0 == s || r.0 + [sep] + r.1 == s
    ensures r.0 == s ==> r.1 == ""
  {
    var k := IndexOf(s, sep);
    if k == |s| then (s, "") else (s[..k], s[k + 1..])
  }

  /** Keeps the elements that are not PHP-falsy (`array_filter` without a callback). */
  function FilterTruthy(xs: seq<string>): (r: seq<string>)
    ensures forall x :: x in r <==> x in xs && !Falsy(x)
    ensures |r| <= |xs|
  {
    if xs == [] then [] else (if Falsy(xs[0]) then [] else [xs[0]]) + FilterTruthy(xs[1..])
  }

  /** `array_map('trim', $xs)`. */
  function TrimAll(xs: seq<string>): (r: seq<string>)
    ensures |r| == |xs| && forall i :: 0 <= i < |xs| ==> r[i] == Trim(xs[i])
  {
    seq(|xs|, i requires 0 <= i < |xs| => Trim(xs[i]))
  }

  // ---------------------------------------------------------------------------
  // Integers as decimal text

  function DigitChar(d: nat): char
    requires d < 10
  {
    "0123456789"[d]
  }

  predicate IsDigit(c: char) {
    '0' <= c <= '9'
  }

  function DigitValue(c: char): nat
    requires IsDigit(c)
  {
    (c as int - '0' as int) as nat
  }

  /** Decimal text of a natural number, without leading zeros. */
  function NatToString(n: nat): (s: string)
    ensures |s| >= 1 && forall i :: 0 <= i < |s| ==> IsDigit(s[i])
    decreases n
  {
    if n < 10 then [DigitChar(n)] else NatToString(n / 10) + [DigitChar(n % 10)]
  }

  /** Decimal text of an integer, as PHP's string conversion of an int writes it. */
  function IntToString(i: int): string {
    if i < 0 then "-" + NatToString(-i) else NatToString(i)
  }

  /** The value of the longest run of digits at the start of s, and its length. */
  function LeadingDigits(s: string): (r: (nat, nat))
    ensures r.1 <= |s|
    ensures forall i :: 0 <= i < r.1 ==> IsDigit(s[i])
    ensures r.1 < |s| ==> !IsDigit(s[r.1])
  {
    LeadingDigitsFrom(s, 0, 0)
  }

  function LeadingDigitsFrom(s: string, i: nat, acc: nat): (r: (nat, nat))
    requires i <= |s|
    requires forall k :: 0 <= k < i ==> IsDigit(s[k])
    ensures i <= r.1 <= |s|
    ensures forall k :: 0 <= k < r.1 ==> IsDigit(s[k])
    ensures r.1 < |s| ==> !IsDigit(s[r.1])
    decreases |s| - i
  {
    if i < |s| && IsDigit(s[i]) then LeadingDigitsFrom(s, i + 1, acc * 10 + DigitValue(s[i])) else (acc, i)
  }

  /** Value of a string of decimal digits. */
  function DigitsValue(s: string): nat
    requires forall i :: 0 <= i < |s| ==> IsDigit(s[i])
  {
    if s == [] then 0 else DigitsValue(s[..|s| - 1]) * 10 + DigitValue(s[|s| - 1])
  }

  /**
   * PHP's `(int)` cast of a string: leading whitespace, an optional sign, then
   * the leading decimal digits; anything after them is ignored, a string
   * with no leading digits is 0, and a value beyond the 64-bit range
   * saturates at `PHP_INT_MAX` or `PHP_INT_MIN`.
   */
  function ToInt(s: string): (n: int)
    ensures PhpIntMin <= n <= PhpIntMax
  {
    var t := TrimLeft(s, {' ', '\t', '\n', '\r', '\U{000B}', '\U{000C}'});
    var v := if t != [] && t[0] == '-' then -(LeadingDigits(t[1..]).0 as int)
      else if t != [] && t[0] == '+' then LeadingDigits(t[1..]).0
      else LeadingDigits(t).0;
    Clamp(v, PhpIntMin, PhpIntMax)
  }

  lemma {:induction false} LeadingDigitsFromValue(s: string, i: nat, acc: nat)
    requires i <= |s|
    requires forall k :: 0 <= k < |s| ==> IsDigit(s[k])
    requires acc == DigitsValue(s[..i])
    ensures LeadingDigitsFrom(s, i, acc) == (DigitsValue(s), |s|)
    decreases |s| - i
  {
    if i < |s| {
      assert s[..i + 1][..i] == s[..i];
      LeadingDigitsFromValue(s, i + 1, acc * 10 + DigitValue(s[i]));
    } else {
      assert s[..i] == s;
    }
  }

  lemma {:induction false} NatToStringValue(n: nat)
    ensures DigitsValue(NatToString(n)) == n
    decreases n
  {
    if n >= 10 {
      NatToStringValue(n / 10);
      var s := NatToString(n / 10) + [DigitChar(n % 10)];
      assert s[..|s| - 1] == NatToString(n / 10);
    }
  }

  /** A string that does not start with a character of cs is left alone by `ltrim`. */
  lemma TrimLeftNoop(s: string, cs: set<char>)
    requires s == [] || s[0] !in cs
    ensures TrimLeft(s, cs) == s
  {
  }

  lemma LeadingDigitsAll(s: string)
    requires forall k :: 0 <= k < |s| ==> IsDigit(s[k])
    ensures LeadingDigits(s).0 == DigitsValue(s)
  {
    assert s[..0] == [];
    LeadingDigitsFromValue(s, 0, 0);
  }

  /** `(int)` cast of the decimal text of a natural number, saturated at `PHP_INT_MAX`. */
  lemma ToIntOfNatToString(n: nat)
    ensures ToInt(NatToString(n)) == Min(n, PhpIntMax)
  {
    var d := NatToString(n);
    NatToStringValue(n);
    LeadingDigitsAll(d);
    TrimLeftNoop(d, {' ', '\t', '\n', '\r', '\U{000B}', '\U{000C}'});
  }

  /** `(int)` cast of a minus sign before the decimal text of a natural number, saturated at `PHP_INT_MIN`. */
  lemma ToIntOfNegative(n: nat)
    ensures ToInt("-" + NatToString(n)) == Max(-(n as int), PhpIntMin)
  {
    var d := NatToString(n);
    var s := "-" + d;
    NatToStringValue(n);
    LeadingDigitsAll(d);
    TrimLeftNoop(s, {' ', '\t', '\n', '\r', '\U{000B}', '\U{000C}'});
    assert s[1..] == d;
  }

  /** `(int)` cast undoes integer-to-string conversion of any PHP integer, and saturates beyond. */
  lemma ToIntOfIntToString(i: int)
    ensures ToInt(IntToString(i)) == Clamp(i, PhpIntMin, PhpIntMax)
    ensures PhpIntMin <= i <= PhpIntMax ==> ToInt(IntToString(i)) == i
  {
    if i < 0 {
      ToIntOfNegative(-i);
    } else {
      ToIntOfNatToString(i);
    }
  }
}
