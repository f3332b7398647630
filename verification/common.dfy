/** Small value types and JavaScript string/array semantics shared by every
    component of the client: optional values, JavaScript truthiness of
    strings, `toLowerCase`, `includes`, `trim`, `Array.filter`, `slice` and
    decimal rendering of counts. */
module Common {

  /** `null`/`undefined` versus a present value. */
  datatype Option<+T> = None | Some(value: T)

  /** A computation that either yields a value or throws an `Error` with a message. */
  datatype Result<+T> = Success(value: T) | Failure(error: string)

  /** JavaScript truthiness of an optional string: `null`, `undefined` and `""` are falsy. */
  predicate Truthy(s: Option<string>) {
    s.Some? && s.value != ""
  }

  /** JavaScript truthiness of an optional number: `undefined` and `0` are falsy. */
  predicate TruthyId(id: Option<int>) {
    id.Some? && id.value != 0
  }

  /** `String(v)` for a value that is a string or `undefined`. */
  function JsString(v: Option<string>): (r: string)
    ensures v.Some? ==> r == v.value
    ensures v.None? ==> r == "undefined"
  {
    match v
    case Some(s) => s
    case None => "undefined"
  }

  // ---------------------------------------------------------------------------
  // Case mapping and substring search

  /** Lower-cases an ASCII capital letter and leaves every other character alone. */
  function LowerChar(c: char): char {
    if 'A' <= c <= 'Z' then (c as int + 32) as char else c
  }

  /** `s.toLowerCase()`, restricted to ASCII letters. */
  function Lower(s: string): string {
    seq(|s|, i requires 0 <= i < |s| => LowerChar(s[i]))
  }

  /** Lower-casing twice is lower-casing once. */
  lemma LowerIdempotent(s: string)
    ensures Lower(Lower(s)) == Lower(s)
  {
  }

  /** `needle` occurs in `hay` starting at offset `i`. */
  predicate OccursAt(hay: string, needle: string, i: int) {
    0 <= i <= |hay| - |needle| && hay[i..i + |needle|] == needle
  }

  /** `hay.includes(needle)`: `needle` occurs in `hay` at some offset. */
  predicate Includes(hay: string, needle: string) {
    exists i :: 0 <= i <= |hay| && OccursAt(hay, needle, i)
  }

  /** Every string includes the empty string. */
  lemma IncludesEmpty(hay: string)
    ensures Includes(hay, "")
  {
    assert OccursAt(hay, "", 0);
  }

  // ---------------------------------------------------------------------------
  // String.prototype.trim

  /** The characters `trim` removes: ECMAScript WhiteSpace and LineTerminator. */
  predicate IsJsWhitespace(c: char) {
    || c == '\t' || c == '\n' || c == '\U{000B}' || c == '\U{000C}' || c == '\r'
    || c == ' ' || c == '\U{00A0}' || c == '\U{1680}'
    || ('\U{2000}' <= c <= '\U{200A}')
    || c == '\U{2028}' || c == '\U{2029}' || c == '\U{202F}' || c == '\U{205F}'
    || c == '\U{3000}' || c == '\U{FEFF}'
  }

  predicate AllWhitespace(s: string) {
    forall k :: 0 <= k < |s| ==> IsJsWhitespace(s[k])
  }

  /** Drops leading whitespace: the result is a suffix of `s` that does not
      start with whitespace, and everything dropped was whitespace. */
  function TrimStart(s: string): (r: string)
    ensures |r| <= |s| && r == s[|s| - |r|..]
    ensures AllWhitespace(s[..|s| - |r|])
    ensures r != [] ==> !IsJsWhitespace(r[0])
  {
    if s != [] && IsJsWhitespace(s[0]) then TrimStart(s[1..]) else s
  }

  /** Drops trailing whitespace: the result is a prefix of `s` that does not
      end with whitespace, and everything dropped was whitespace. */
  function TrimEnd(s: string): (r: string)
    ensures |r| <= |s| && r == s[..|r|]
    ensures AllWhitespace(s[|r|..])
    ensures r != [] ==> !IsJsWhitespace(r[|r| - 1])
  {
    if s != [] && IsJsWhitespace(s[|s| - 1]) then TrimEnd(s[..|s| - 1]) else s
  }

  /** `s.trim()`. */
  function Trim(s: string): string {
    TrimEnd(TrimStart(s))
  }

  /** A string trims to `""` exactly when it consists of whitespace only. */
  lemma TrimEmptyIffAllWhitespace(s: string)
    ensures Trim(s) == "" <==> AllWhitespace(s)
  {
    var a := TrimStart(s);
    if Trim(s) == "" {
      assert AllWhitespace(a[0..]);
      assert a == s[|s| - |a|..];
      forall k | 0 <= k < |s|
        ensures IsJsWhitespace(s[k])
      {
        if k < |s| - |a| {
          assert s[..|s| - |a|][k] == s[k];
        } else {
          assert a[k - (|s| - |a|)] == s[k];
        }
      }
    } else {
      var t := Trim(s);
      assert t == a[..|t|];
      assert a != [] && !IsJsWhitespace(a[0]);
      assert a[0] == s[|s| - |a|];
    }
  }

  // ---------------------------------------------------------------------------
  // Arrays

  /** `xs.filter(keep)`. */
  function Filter<T(!new)>(xs: seq<T>, keep: T -> bool): (r: seq<T>)
    ensures |r| <= |xs|
    ensures forall x :: x in r <==> x in xs && keep(x)
  {
    if xs == [] then []
    else if keep(xs[0]) then [xs[0]] + Filter(xs[1..], keep)
    else Filter(xs[1..], keep)
  }

  /** `sub` is obtained from `xs` by deleting elements, so it keeps their relative order. */
  predicate IsSubsequence<T(==)>(sub: seq<T>, xs: seq<T>)
    decreases |xs|
  {
    if sub == [] then true
    else if xs == [] then false
    else (sub[0] == xs[0] && IsSubsequence(sub[1..], xs[1..])) || IsSubsequence(sub, xs[1..])
  }

  /** `Filter` keeps the surviving elements in their original order. */
  lemma {:induction false} FilterIsSubsequence<T(!new)>(xs: seq<T>, keep: T -> bool)
    ensures IsSubsequence(Filter(xs, keep), xs)
    decreases |xs|
  {
    if xs != [] {
      FilterIsSubsequence(xs[1..], keep);
      var r := Filter(xs, keep);
      if keep(xs[0]) {
        assert r[1..] == Filter(xs[1..], keep);
      }
    }
  }

  /** Filtering with a predicate every element satisfies changes nothing. */
  lemma {:induction false} FilterKeepsAll<T(!new)>(xs: seq<T>, keep: T -> bool)
    requires forall k :: 0 <= k < |xs| ==> keep(xs[k])
    ensures Filter(xs, keep) == xs
  {
    if xs != [] {
      FilterKeepsAll(xs[1..], keep);
    }
  }

  /** Filtering a concatenation filters each part. */
  lemma {:induction false} FilterAppend<T(!new)>(xs: seq<T>, ys: seq<T>, keep: T -> bool)
    ensures Filter(xs + ys, keep) == Filter(xs, keep) + Filter(ys, keep)
    decreases |xs|
  {
    if xs != [] {
      assert (xs + ys)[1..] == xs[1..] + ys;
      FilterAppend(xs[1..], ys, keep);
    } else {
      assert xs + ys == ys;
    }
  }

  /** `Filter` keeps every occurrence of a kept element and none of a
      dropped one: each element occurs in the result as often as in the
      input when it passes the test, and not at all otherwise. */
  lemma {:induction false} FilterCounts<T(!new)>(xs: seq<T>, keep: T -> bool)
    ensures forall x :: multiset(Filter(xs, keep))[x] == if keep(x) then multiset(xs)[x] else 0
    decreases |xs|
  {
    if xs != [] {
      FilterCounts(xs[1..], keep);
      assert xs == [xs[0]] + xs[1..];
      assert multiset(xs) == multiset([xs[0]]) + multiset(xs[1..]);
    }
  }

  /** Two tests that agree on every element keep the same elements. */
  lemma {:induction false} FilterExtensional<T(!new)>(xs: seq<T>, f: T -> bool, g: T -> bool)
    requires forall k :: 0 <= k < |xs| ==> f(xs[k]) == g(xs[k])
    ensures Filter(xs, f) == Filter(xs, g)
    decreases |xs|
  {
    if xs != [] {
      FilterExtensional(xs[1..], f, g);
    }
  }

  /** No element occurs twice. */
  predicate Distinct<T(==)>(xs: seq<T>) {
    forall i, j :: 0 <= i < j < |xs| ==> xs[i] != xs[j]
  }

  /** Filtering a duplicate-free array leaves it duplicate-free. */
  lemma {:induction false} FilterKeepsDistinct<T(!new)>(xs: seq<T>, keep: T -> bool)
    requires Distinct(xs)
    ensures Distinct(Filter(xs, keep))
    decreases |xs|
  {
    if xs != [] {
      assert Distinct(xs[1..]) by {
        forall i, j | 0 <= i < j < |xs[1..]|
          ensures xs[1..][i] != xs[1..][j]
        {
          assert xs[1..][i] == xs[i + 1] && xs[1..][j] == xs[j + 1];
        }
      }
      FilterKeepsDistinct(xs[1..], keep);
      var rest := Filter(xs[1..], keep);
      if keep(xs[0]) {
        assert xs[0] !in xs[1..] by {
          forall k | 0 <= k < |xs[1..]|
            ensures xs[1..][k] != xs[0]
          {
            assert xs[1..][k] == xs[k + 1];
          }
        }
        var r := [xs[0]] + rest;
        forall i, j | 0 <= i < j < |r|
          ensures r[i] != r[j]
        {
          if i == 0 {
            assert r[j] == rest[j - 1];
          } else {
            assert r[i] == rest[i - 1] && r[j] == rest[j - 1];
          }
        }
      }
    }
  }

  /** `xs.slice(0, -1)`: every element but the last (nothing for an empty array). */
  function DropLast<T>(xs: seq<T>): (r: seq<T>)
    ensures xs != [] ==> xs == r + [xs[|xs| - 1]]
    ensures xs == [] ==> r == []
  {
    if xs == [] then [] else xs[..|xs| - 1]
  }

  /** `xs.slice(0, n)`: the first `n` elements, or all of them when there are fewer. */
  function Take<T>(xs: seq<T>, n: nat): (r: seq<T>)
    ensures |r| == if |xs| < n then |xs| else n
    ensures r == xs[..|r|]
  {
    if |xs| <= n then xs else xs[..n]
  }

  // ---------------------------------------------------------------------------
  // Decimal rendering of counts

  function DigitChar(d: nat): (c: char)
    requires d < 10
    ensures '0' <= c <= '9'
  {
    ('0' as int + d) as char
  }

  /** A count as JavaScript renders it in a template string. */
  function NatToString(n: nat): (r: string)
    ensures r != []
    ensures forall k :: 0 <= k < |r| ==> '0' <= r[k] <= '9'
  {
    if n < 10 then [DigitChar(n)] else NatToString(n / 10) + [DigitChar(n % 10)]
  }

  /** Reads a string of decimal digits back as a number. */
  function ParseDigits(s: string): nat
    requires forall k :: 0 <= k < |s| ==> '0' <= s[k] <= '9'
  {
    if s == [] then 0 else 10 * ParseDigits(s[..|s| - 1]) + (s[|s| - 1] as int - '0' as int)
  }

  /** The rendered count reads back as the count. */
  lemma {:induction false} NatToStringRoundTrip(n: nat)
    ensures ParseDigits(NatToString(n)) == n
  {
    if n >= 10 {
      NatToStringRoundTrip(n / 10);
      var r := NatToString(n);
      assert r[..|r| - 1] == NatToString(n / 10);
    }
  }

  /** `${n} noun${n === 1 ? '' : 's'}` and its variants: the count, a space,
      the noun, and a plural `s` unless the count is exactly one. */
  function CountLabel(n: nat, noun: string): string {
    NatToString(n) + " " + noun + (if n == 1 then "" else "s")
  }

  /** The label names its count in decimal, then the noun, and ends in the
      plural `s` exactly when the count is not one. */
  lemma CountLabelReadsBack(n: nat, noun: string)
    ensures var text := CountLabel(n, noun);
            var digits := |NatToString(n)|;
            && text[..digits] == NatToString(n)
            && ParseDigits(text[..digits]) == n
            && text[digits] == ' '
            && text[digits + 1..digits + 1 + |noun|] == noun
            && text[digits + 1 + |noun|..] == (if n == 1 then "" else "s")
            && (|text| == digits + 1 + |noun| + 1 <==> n != 1)
            && (n != 1 ==> text[|text| - 1] == 's')
  {
    NatToStringRoundTrip(n);
    var text := CountLabel(n, noun);
    var digits := |NatToString(n)|;
    assert text[..digits] == NatToString(n);
  }
}
