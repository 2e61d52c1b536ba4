/**
 * The parts of Kotlin's standard library that the game relies on, with
 * Kotlin's semantics: 32-bit `Int` arithmetic that wraps around, `%` that
 * truncates toward zero, `Char.isWhitespace`, `String.trim`,
 * `String.isBlank` and `Int.toString`.
 */
module Kotlin {

  const MIN_INT: int := -0x8000_0000
  const MAX_INT: int := 0x7FFF_FFFF
  const INT_RANGE: int := 0x1_0000_0000

  /** A Kotlin `Int`. */
  type Int32 = x: int | -0x8000_0000 <= x <= 0x7FFF_FFFF

  /** Two's-complement wrap-around of an exact result into an `Int`. */
  function Wrap(x: int): (r: Int32)
    ensures (x - r) % INT_RANGE == 0
    ensures MIN_INT <= x <= MAX_INT ==> r == x
  {
    (x - MIN_INT) % INT_RANGE + MIN_INT
  }

  /** Two exact results that differ by a multiple of 2^32 wrap to the same `Int`. */
  lemma {:induction false} WrapCongruent(x: int, y: int)
    requires (x - y) % INT_RANGE == 0
    ensures Wrap(x) == Wrap(y)
  {
    var k := (x - y) / INT_RANGE;
    assert x - MIN_INT == (y - MIN_INT) + k * INT_RANGE;
    ModShift(y - MIN_INT, k);
  }

  lemma {:induction false} ModShift(a: int, k: int)
    ensures (a + k * INT_RANGE) % INT_RANGE == a % INT_RANGE
    decreases if k < 0 then -k else k
  {
    if k > 0 {
      ModShift(a, k - 1);
      assert a + k * INT_RANGE == (a + (k - 1) * INT_RANGE) + INT_RANGE;
    } else if k < 0 {
      ModShift(a, k + 1);
      assert a + k * INT_RANGE == (a + (k + 1) * INT_RANGE) - INT_RANGE;
    }
  }

  /** Kotlin's `a + b` on `Int`. */
  function Add(a: Int32, b: Int32): (r: Int32)
    ensures (a + b - r) % INT_RANGE == 0
  {
    Wrap(a + b)
  }

  /** Adding in `Int` step by step wraps to the same value as adding exactly and wrapping once. */
  lemma {:induction false} WrapAddAssociates(x: int, y: int)
    ensures Wrap(Wrap(x) + y) == Wrap(x + y)
  {
    var w := Wrap(x);
    var k := (x - w) / INT_RANGE;
    assert (x - w) % INT_RANGE == 0;
    assert (w + y) - (x + y) == -k * INT_RANGE;
    ModShift(0, -k);
    WrapCongruent(w + y, x + y);
  }

  /** `Int` addition is associative, wrap-around included. */
  lemma AddAssociates(x: Int32, y: Int32, z: Int32)
    ensures Add(Add(x, y), z) == Add(x, Add(y, z))
  {
    var sum := x + y + z;
    assert Add(Add(x, y), z) == Wrap(sum) by {
      WrapAddAssociates(x + y, z);
    }
    assert Add(x, Add(y, z)) == Wrap(sum) by {
      var w := Wrap(y + z);
      assert x + w == w + x;
      WrapAddAssociates(y + z, x);
    }
  }

  /**
   * Kotlin's `a % b` for a positive divisor: the remainder of a division
   * truncated toward zero, so a negative dividend gives a remainder <= 0.
   */
  function Rem(a: int, b: int): (r: int)
    requires b > 0
    ensures a >= 0 ==> r == a % b && r <= a
    ensures a < 0 ==> -b < r <= 0 && a <= r
    ensures a == (if a >= 0 then a / b else -((-a) / b)) * b + r
  {
    if a >= 0 then
      ModAtMost(a, b);
      a % b
    else
      ModAtMost(-a, b);
      var q := (-a) / b;
      assert -a == q * b + (-a) % b;
      assert (-q) * b == -(q * b);
      -((-a) % b)
  }

  /**
   * `(i + 1) % n` in `Int` arithmetic: the index after `i` in a ring of `n`
   * entries, which wraps from the last entry back to the first.
   */
  function RingSuccessor(i: Int32, n: int): (r: Int32)
    requires n > 0
    ensures -1 <= i < MAX_INT ==> r == (i + 1) % n && 0 <= r < n
    ensures -1 <= i < MAX_INT && i + 1 < n ==> r == i + 1
    ensures -1 <= i < MAX_INT && i + 1 == n ==> r == 0
  {
    var next := Wrap(i + 1);
    RingSuccessorFacts(i, n, next);
    Rem(next, n)
  }

  lemma RingSuccessorFacts(i: Int32, n: int, next: Int32)
    requires n > 0 && next == Wrap(i + 1)
    ensures -1 <= i < MAX_INT ==> Rem(next, n) == (i + 1) % n
    ensures -1 <= i < MAX_INT && i + 1 < n ==> (i + 1) % n == i + 1
    ensures i + 1 == n ==> (i + 1) % n == 0
  {
  }

  lemma ModAtMost(a: int, b: int)
    requires a >= 0 && b > 0
    ensures 0 <= a % b <= a && a % b < b
  {
    if a < b {
      assert a % b == a;
    }
  }

  /**
   * Kotlin's `Char.isWhitespace`: Java's `Character.isWhitespace` together
   * with `Character.isSpaceChar` (the Unicode space, line and paragraph
   * separators, the non-breaking ones included).
   */
  predicate IsWhitespace(c: char) {
    || ('\t' <= c <= '\r')
    || ('\U{1C}' <= c <= ' ')
    || c == '\U{A0}'
    || c == '\U{1680}'
    || ('\U{2000}' <= c <= '\U{200A}')
    || c == '\U{2028}'
    || c == '\U{2029}'
    || c == '\U{202F}'
    || c == '\U{205F}'
    || c == '\U{3000}'
  }

  /** Kotlin's `isBlank()`: empty or made of whitespace only. */
  predicate IsBlank(s: string) {
    forall i :: 0 <= i < |s| ==> IsWhitespace(s[i])
  }

  /** Drops the leading whitespace. */
  function TrimStart(s: string): (r: string)
    ensures |r| <= |s|
  {
    if s != [] && IsWhitespace(s[0]) then TrimStart(s[1..]) else s
  }

  /** `TrimStart` keeps a suffix that does not start with whitespace, and drops only whitespace. */
  lemma {:induction false} TrimStartFacts(s: string)
    ensures var r := TrimStart(s);
      && r == s[|s| - |r|..]
      && IsBlank(s[..|s| - |r|])
      && (r != [] ==> !IsWhitespace(r[0]))
  {
    if s != [] && IsWhitespace(s[0]) {
      TrimStartFacts(s[1..]);
      var r := TrimStart(s);
      var k := |s| - |r|;
      assert s[1..][k - 1..] == s[k..];
      assert forall i :: 1 <= i < k ==> s[..k][i] == s[1..][..k - 1][i - 1];
    } else {
      assert s[..0] == [];
    }
  }

  /** Drops the trailing whitespace. */
  function TrimEnd(s: string): (r: string)
    ensures |r| <= |s|
  {
    if s != [] && IsWhitespace(s[|s| - 1]) then TrimEnd(s[..|s| - 1]) else s
  }

  /** `TrimEnd` keeps a prefix that does not end with whitespace, and drops only whitespace. */
  lemma {:induction false} TrimEndFacts(s: string)
    ensures var r := TrimEnd(s);
      && r == s[..|r|]
      && IsBlank(s[|r|..])
      && (r != [] ==> !IsWhitespace(r[|r| - 1]))
  {
    if s != [] && IsWhitespace(s[|s| - 1]) {
      var t := s[..|s| - 1];
      TrimEndFacts(t);
      var r := TrimEnd(t);
      assert t[..|r|] == s[..|r|];
      assert forall i :: 0 <= i < |t| - |r| ==> s[|r|..][i] == t[|r|..][i];
      assert s[|r|..][|s| - 1 - |r|] == s[|s| - 1];
    } else {
      assert s[|s|..] == [];
    }
  }

  /** No whitespace at either end. */
  predicate IsTrimmed(s: string) {
    s != [] ==> !IsWhitespace(s[0]) && !IsWhitespace(s[|s| - 1])
  }

  /** Kotlin's `String.trim()`: drops leading and trailing whitespace. */
  function Trim(s: string): (r: string)
    ensures IsTrimmed(r)
  {
    var t := TrimStart(s);
    TrimStartFacts(s);
    TrimEndFacts(t);
    TrimEnd(t)
  }

  /** The strings `trim` leaves alone are exactly those with no whitespace at either end. */
  lemma TrimmedIffUnchanged(s: string)
    ensures IsTrimmed(s) <==> Trim(s) == s
  {
    if IsTrimmed(s) && s != [] {
      assert TrimStart(s) == s;
      assert TrimEnd(s) == s;
    }
  }

  /**
   * What `trim` keeps is the one slice of the input that has whitespace
   * only around it, and nothing but whitespace is dropped.
   */
  lemma TrimIsSlice(s: string) returns (i: nat)
    ensures i + |Trim(s)| <= |s|
    ensures Trim(s) == s[i..i + |Trim(s)|]
    ensures IsBlank(s[..i]) && IsBlank(s[i + |Trim(s)|..])
  {
    var t := TrimStart(s);
    i := |s| - |t|;
    var r := TrimEnd(t);
    TrimStartFacts(s);
    TrimEndFacts(t);
    SliceOfSuffix(s, i, t, r);
  }

  /** A prefix `r` of the suffix `t` of `s` from `i` is a slice of `s`, and what follows it in `t` follows it in `s`. */
  lemma SliceOfSuffix(s: string, i: nat, t: string, r: string)
    requires i <= |s| && t == s[i..]
    requires |r| <= |t| && r == t[..|r|] && IsBlank(t[|r|..])
    ensures r == s[i..i + |r|]
    ensures IsBlank(s[i + |r|..])
  {
    assert t[|r|..] == s[i + |r|..];
  }

  /** A string is blank exactly when trimming leaves nothing. */
  lemma BlankIffTrimEmpty(s: string)
    ensures IsBlank(s) <==> Trim(s) == []
  {
    var i := TrimIsSlice(s);
    if Trim(s) == [] {
      assert s[..i] + s[i..] == s;
      assert forall k :: 0 <= k < |s| ==> s[k] == if k < i then s[..i][k] else s[i..][k - i];
    } else {
      assert !IsWhitespace(s[i]);
    }
  }

  /** Trimming twice is trimming once. */
  lemma TrimIdempotent(s: string)
    ensures Trim(Trim(s)) == Trim(s)
  {
    TrimmedIffUnchanged(Trim(s));
  }

  /** The decimal digit for `d`. */
  function DigitChar(d: nat): (c: char)
    requires d < 10
    ensures '0' <= c <= '9' && c as int - '0' as int == d
  {
    ('0' as int + d) as char
  }

  predicate IsDigit(c: char) {
    '0' <= c <= '9'
  }

  /** The decimal numeral of `n`, most significant digit first, no leading zeros. */
  function Digits(n: nat): (r: string)
    ensures r != [] && forall i :: 0 <= i < |r| ==> IsDigit(r[i])
    ensures |r| > 1 ==> r[0] != '0'
  {
    if n < 10 then [DigitChar(n)] else Digits(n / 10) + [DigitChar(n % 10)]
  }

  function DigitValue(c: char): nat
    requires IsDigit(c)
  {
    c as int - '0' as int
  }

  /** The number a string of decimal digits denotes. */
  function DigitsValue(s: string): nat
    requires forall i :: 0 <= i < |s| ==> IsDigit(s[i])
  {
    if s == [] then 0 else DigitsValue(s[..|s| - 1]) * 10 + DigitValue(s[|s| - 1])
  }

  /** Reading back the numeral of `n` gives `n`. */
  lemma {:induction false} DigitsRoundTrip(n: nat)
    ensures DigitsValue(Digits(n)) == n
  {
    if n >= 10 {
      DigitsRoundTrip(n / 10);
      var s := Digits(n);
      assert s[..|s| - 1] == Digits(n / 10);
    }
  }

  /** Kotlin's `Int.toString()`: a minus sign for negatives, then the digits. */
  function IntToString(x: int): (r: string)
    ensures r != []
    ensures r[0] == '-' <==> x < 0
    ensures x >= 0 ==> r == Digits(x)
    ensures x < 0 ==> r[1..] == Digits(-x)
  {
    if x < 0 then "-" + Digits(-x) else Digits(x)
  }

  /** Different numbers have different numerals. */
  lemma IntToStringInjective(x: int, y: int)
    requires IntToString(x) == IntToString(y)
    ensures x == y
  {
    if x < 0 {
      DigitsRoundTrip(-x);
      DigitsRoundTrip(-y);
    } else {
      DigitsRoundTrip(x);
      DigitsRoundTrip(y);
    }
  }
}
