/**
 * The few pieces of JavaScript string and number semantics that the
 * scraper's post-processing relies on: `String.prototype.trim`,
 * `Number.prototype.toString` on non-negative integers, and the `Number(...)`
 * conversion that the top-10 filters apply to a ranking.
 */
module JsText {

  datatype Option<T> = None | Some(value: T)

  /** `Math.max` and `Math.min` on lengths. */
  function Max(a: nat, b: nat): (m: nat)
    ensures m >= a && m >= b && (m == a || m == b)
  {
    if a >= b then a else b
  }

  function Min(a: nat, b: nat): (m: nat)
    ensures m <= a && m <= b && (m == a || m == b)
  {
    if a <= b then a else b
  }

  /** JavaScript's WhiteSpace and LineTerminator characters, the set `trim` removes. */
  predicate IsWhiteSpace(c: char) {
    || c == '\t' || c == '\n' || c == '\U{B}' || c == '\U{C}' || c == '\r'
    || c == ' ' || c == '\U{A0}' || c == '\U{1680}'
    || ('\U{2000}' <= c <= '\U{200A}')
    || c == '\U{2028}' || c == '\U{2029}' || c == '\U{202F}' || c == '\U{205F}'
    || c == '\U{3000}' || c == '\U{FEFF}'
  }

  /** Drops leading whitespace. */
  function TrimStart(s: string): string {
    if s != [] && IsWhiteSpace(s[0]) then TrimStart(s[1..]) else s
  }

  /** Drops trailing whitespace. */
  function TrimEnd(s: string): string {
    if s != [] && IsWhiteSpace(s[|s| - 1]) then TrimEnd(s[..|s| - 1]) else s
  }

  /** `s.trim()`. */
  function Trim(s: string): string {
    TrimEnd(TrimStart(s))
  }

  /** What `TrimStart` drops is a run of whitespace, and what it keeps does not start with one. */
  lemma {:induction false} TrimStartSpec(s: string)
    ensures |TrimStart(s)| <= |s| && TrimStart(s) == s[|s| - |TrimStart(s)|..]
    ensures TrimStart(s) == [] || !IsWhiteSpace(TrimStart(s)[0])
    ensures forall k :: 0 <= k < |s| - |TrimStart(s)| ==> IsWhiteSpace(s[k])
  {
    if s != [] && IsWhiteSpace(s[0]) {
      var t := TrimStart(s[1..]);
      TrimStartSpec(s[1..]);
      assert TrimStart(s) == t;
      assert s[1..][|s| - 1 - |t|..] == s[|s| - |t|..];
      forall k | 0 <= k < |s| - |t| ensures IsWhiteSpace(s[k]) {
        if k > 0 { assert s[k] == s[1..][k - 1]; }
      }
    }
  }

  /** What `TrimEnd` drops is a run of whitespace, and what it keeps does not end with one. */
  lemma {:induction false} TrimEndSpec(s: string)
    ensures |TrimEnd(s)| <= |s| && TrimEnd(s) == s[..|TrimEnd(s)|]
    ensures TrimEnd(s) == [] || !IsWhiteSpace(TrimEnd(s)[|TrimEnd(s)| - 1])
    ensures forall k :: |TrimEnd(s)| <= k < |s| ==> IsWhiteSpace(s[k])
  {
    if s != [] && IsWhiteSpace(s[|s| - 1]) {
      var t := TrimEnd(s[..|s| - 1]);
      TrimEndSpec(s[..|s| - 1]);
      assert TrimEnd(s) == t;
      assert s[..|s| - 1][..|t|] == s[..|t|];
      forall k | |t| <= k < |s| ensures IsWhiteSpace(s[k]) {
        if k < |s| - 1 { assert s[k] == s[..|s| - 1][k]; }
      }
    }
  }

  /**
   * `s.trim()` is the infix `s[i..j]` left after removing whitespace from
   * both ends: everything before `i` and from `j` on is whitespace, and the
   * result neither starts nor ends with whitespace.
   */
  lemma TrimSpec(s: string)
    ensures Trim(s) == [] || (!IsWhiteSpace(Trim(s)[0]) && !IsWhiteSpace(Trim(s)[|Trim(s)| - 1]))
    ensures exists i, j :: (0 <= i <= j <= |s| && Trim(s) == s[i..j]
      && (forall k :: 0 <= k < i ==> IsWhiteSpace(s[k]))
      && (forall k :: j <= k < |s| ==> IsWhiteSpace(s[k])))
  {
    var t := TrimStart(s);
    TrimStartSpec(s);
    TrimEndSpec(t);
    var i := |s| - |t|;
    var j := i + |Trim(s)|;
    assert Trim(s) == s[i..j];
    forall k | j <= k < |s| ensures IsWhiteSpace(s[k]) {
      assert s[k] == t[k - i];
    }
  }

  /** A string with no whitespace at either end is its own trim. */
  lemma TrimKeepsTrimmed(s: string)
    requires s == [] || (!IsWhiteSpace(s[0]) && !IsWhiteSpace(s[|s| - 1]))
    ensures Trim(s) == s
  {
    assert TrimStart(s) == s;
    assert TrimEnd(s) == s;
  }

  /** Trimming twice is trimming once. */
  lemma TrimIdempotent(s: string)
    ensures Trim(Trim(s)) == Trim(s)
  {
    TrimSpec(s);
    TrimKeepsTrimmed(Trim(s));
  }

  predicate IsDigit(c: char) {
    '0' <= c <= '9'
  }

  predicate AllDigits(s: string) {
    forall k :: 0 <= k < |s| ==> IsDigit(s[k])
  }

  function DigitChar(d: nat): (c: char)
    requires d < 10
    ensures IsDigit(c) && (c as int) - ('0' as int) == d
  {
    ('0' as int + d) as char
  }

  /** The value of a string of decimal digits, most significant first. */
  function DigitsValue(s: string): nat
    requires AllDigits(s)
  {
    if s == [] then 0
    else DigitsValue(s[..|s| - 1]) * 10 + ((s[|s| - 1] as int) - ('0' as int))
  }

  /** `n.toString()` for a non-negative integer `n`. */
  function NatToString(n: nat): (r: string)
    ensures |r| >= 1 && AllDigits(r)
    ensures r[0] == '0' ==> n == 0 && r == "0"
  {
    if n < 10 then [DigitChar(n)] else NatToString(n / 10) + [DigitChar(n % 10)]
  }

  /** `n.toString()` for any integer `n`: a minus sign before the digits when negative. */
  function IntToString(n: int): string {
    if n < 0 then "-" + NatToString(-n) else NatToString(n)
  }

  /** Reading back the digits of `n.toString()` gives `n`. */
  lemma {:induction false} NatToStringValue(n: nat)
    ensures DigitsValue(NatToString(n)) == n
  {
    var r := NatToString(n);
    if n >= 10 {
      NatToStringValue(n / 10);
      assert r[..|r| - 1] == NatToString(n / 10);
    }
  }

  /** The value `Number(...)` produces, with NaN and the infinities kept apart. */
  datatype JsNumber = NaN | PosInfinity | NegInfinity | Finite(value: real)

  function Pow10(k: nat): (p: nat)
    ensures p >= 1
  {
    if k == 0 then 1 else 10 * Pow10(k - 1)
  }

  /** Index of the first `'.'` in `s`, if any. */
  function DotIndex(s: string): (r: Option<nat>)
    ensures r.Some? ==> r.value < |s| && s[r.value] == '.' && '.' !in s[..r.value]
    ensures r.None? ==> '.' !in s
  {
    if s == [] then None
    else if s[0] == '.' then Some(0)
    else match DotIndex(s[1..])
      case None => None
      case Some(k) => Some(k + 1)
  }

  /**
   * An unsigned decimal literal: `digits`, `digits.`, `digits.digits` or
   * `.digits`, or the word `Infinity`.
   */
  function UnsignedNumber(t: string): JsNumber {
    if t == "Infinity" then PosInfinity
    else match DotIndex(t)
      case None =>
        if t != [] && AllDigits(t) then Finite(DigitsValue(t) as real) else NaN
      case Some(k) =>
        var whole, fraction := t[..k], t[k + 1..];
        if |whole| + |fraction| >= 1 && AllDigits(whole) && AllDigits(fraction)
        then Finite(DigitsValue(whole) as real
                    + (DigitsValue(fraction) as real) / (Pow10(|fraction|) as real))
        else NaN
  }

  function Negate(x: JsNumber): JsNumber {
    match x
    case NaN => NaN
    case PosInfinity => NegInfinity
    case NegInfinity => PosInfinity
    case Finite(v) => Finite(-v)
  }

  /**
   * `Number(s)` for a string: surrounding whitespace is ignored, the empty
   * string is zero, an optional sign precedes an unsigned decimal literal, and
   * anything else is NaN.
   */
  function StringToNumber(s: string): JsNumber {
    var t := Trim(s);
    if t == [] then Finite(0.0)
    else if t[0] == '+' then UnsignedNumber(t[1..])
    else if t[0] == '-' then Negate(UnsignedNumber(t[1..]))
    else UnsignedNumber(t)
  }

  /** `Number(x) <= 10`: false for NaN, as every comparison with NaN is. */
  predicate AtMostTen(x: JsNumber) {
    match x
    case NaN => false
    case PosInfinity => false
    case NegInfinity => true
    case Finite(v) => v <= 10.0
  }

  /** `Number(n.toString())` is `n` again. */
  lemma NumberOfNatString(n: nat)
    ensures StringToNumber(NatToString(n)) == Finite(n as real)
  {
    var r := NatToString(n);
    assert !IsWhiteSpace(r[0]) && !IsWhiteSpace(r[|r| - 1]) by {
      assert IsDigit(r[0]) && IsDigit(r[|r| - 1]);
    }
    TrimKeepsTrimmed(r);
    assert '.' !in r by {
      forall k | 0 <= k < |r| ensures r[k] != '.' {
        assert IsDigit(r[k]);
      }
    }
    assert DotIndex(r) == None;
    assert r != "Infinity" by { assert IsDigit(r[0]); }
    NatToStringValue(n);
    assert UnsignedNumber(r) == Finite(n as real);
    assert r[0] != '+' && r[0] != '-' by { assert IsDigit(r[0]); }
  }
}
