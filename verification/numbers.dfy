/** The token grammar of Python's `int()` and `float()`, the decimal
    rendering of `str(int)` and `f'{n:02}'`, sequence indexing, and Python's
    `round()`.

    `int()` is taken as: surrounding white space stripped, an optional sign,
    then one or more ASCII digits (leading zeros allowed). `float()` is taken
    as: surrounding white space stripped, an optional sign, then digits with at
    most one decimal point and at least one digit. */
module Numbers {
  import opened Results
  import opened Text

  predicate IsDigit(c: char) {
    '0' <= c <= '9'
  }

  predicate AllDigits(s: string) {
    forall i :: 0 <= i < |s| ==> IsDigit(s[i])
  }

  function DigitValue(c: char): nat
    requires IsDigit(c)
  {
    (c as int) - ('0' as int)
  }

  function DigitChar(d: nat): (c: char)
    requires d < 10
    ensures IsDigit(c) && DigitValue(c) == d
  {
    (('0' as int) + d) as char
  }

  /** The value of a string of decimal digits. */
  function DigitsValue(s: string): nat
    requires AllDigits(s)
  {
    if |s| == 0 then 0 else 10 * DigitsValue(s[..|s| - 1]) + DigitValue(s[|s| - 1])
  }

  function Pow10(k: nat): (p: nat)
    ensures p >= 1
  {
    if k == 0 then 1 else 10 * Pow10(k - 1)
  }

  predicate IsSign(c: char) {
    c == '+' || c == '-'
  }

  /** `int(s)`: `Some(n)` when Python returns `n`, `None` when it raises `ValueError`. */
  function ToInt(s: string): Option<int> {
    var t := Strip(s);
    if |t| > 0 && AllDigits(t) then Some(DigitsValue(t))
    else if |t| > 1 && IsSign(t[0]) && AllDigits(t[1..]) then
      Some(if t[0] == '-' then -(DigitsValue(t[1..]) as int) else DigitsValue(t[1..]))
    else None
  }

  /** The value of an unsigned decimal mantissa `a.b`, `a.`, `.b` or `a`. */
  function MantissaValue(m: string): Option<real> {
    var parts := Split(m, '.');
    if |parts| == 1 && |m| > 0 && AllDigits(m) then Some(DigitsValue(m) as real)
    else if |parts| == 2 && |parts[0]| + |parts[1]| > 0 && AllDigits(parts[0]) && AllDigits(parts[1]) then
      Some(DigitsValue(parts[0]) as real + DigitsValue(parts[1]) as real / Pow10(|parts[1]|) as real)
    else None
  }

  /** `float(s)`: `Some(x)` when Python returns `x`, `None` when it raises `ValueError`. */
  function ToFloat(s: string): Option<real> {
    var t := Strip(s);
    if |t| > 0 && IsSign(t[0]) then
      match MantissaValue(t[1..])
      case Some(v) => Some(if t[0] == '-' then -v else v)
      case None => None
    else MantissaValue(t)
  }

  /** `int(s)` with its `ValueError`. */
  function ParseInt(s: string): (r: Result<int>)
    ensures r.Ok? <==> IsIntToken(s)
    ensures r.Ok? ==> Some(r.value) == ToInt(s)
  {
    match ToInt(s)
    case Some(n) => Ok(n)
    case None => Err(RuntimeValueError)
  }

  predicate IsIntToken(s: string) {
    ToInt(s).Some?
  }

  predicate IsFloatToken(s: string) {
    ToFloat(s).Some?
  }

  /** Every token `int()` accepts, `float()` accepts with the same value. */
  lemma IntTokenIsFloatToken(s: string)
    ensures ToInt(s).Some? ==> ToFloat(s) == Some(ToInt(s).value as real)
  {
    var t := Strip(s);
    if |t| > 0 && AllDigits(t) {
      DigitsHaveNoSpace(t);
      SplitWithout(t, '.');
      assert !IsSign(t[0]);
      assert MantissaValue(t) == Some(DigitsValue(t) as real);
    } else if |t| > 1 && IsSign(t[0]) && AllDigits(t[1..]) {
      var m := t[1..];
      DigitsHaveNoSpace(m);
      SplitWithout(m, '.');
      assert MantissaValue(m) == Some(DigitsValue(m) as real);
    }
  }

  /** `float('<a>.<b>')` for digit strings `a` and `b`: `a` plus `b`
      tenths, hundredths, ... */
  lemma DecimalToken(a: string, b: string)
    requires |a| > 0 && |b| > 0 && AllDigits(a) && AllDigits(b)
    ensures ToFloat(a + "." + b) == Some(DigitsValue(a) as real + DigitsValue(b) as real / Pow10(|b|) as real)
  {
    DecimalStripped(a, b);
    DigitsHaveNoSpace(a);
    DigitsHaveNoSpace(b);
    Split2(a, b, '.');
    assert a + "." + b == a + ['.'] + b;
    MantissaOfParts(a + "." + b, a, b);
  }

  /** A mantissa that splits at its point into two digit strings. */
  lemma MantissaOfParts(t: string, a: string, b: string)
    requires Split(t, '.') == [a, b] && |a| > 0 && AllDigits(a) && AllDigits(b)
    requires Strip(t) == t && !IsSign(t[0])
    ensures ToFloat(t) == Some(DigitsValue(a) as real + DigitsValue(b) as real / Pow10(|b|) as real)
  {
    var parts := Split(t, '.');
    assert |parts| == 2 && parts[0] == a && parts[1] == b;
    assert |parts[0]| + |parts[1]| > 0;
    assert MantissaValue(t) == Some(DigitsValue(a) as real + DigitsValue(b) as real / Pow10(|b|) as real);
    assert ToFloat(t) == MantissaValue(t);
  }

  /** A decimal token has no surrounding blank and no sign. */
  lemma DecimalStripped(a: string, b: string)
    requires |a| > 0 && |b| > 0 && AllDigits(a) && AllDigits(b)
    ensures Strip(a + "." + b) == a + "." + b && !IsSign((a + "." + b)[0])
  {
    var t := a + "." + b;
    assert t[0] == a[0] && t[|t| - 1] == b[|b| - 1];
    assert LStrip(t) == t;
    assert RStrip(t) == t;
  }

  // ---------------------------------------------------------------------
  // Rendering

  lemma DigitsValueAppend(s: string, c: char)
    requires AllDigits(s) && IsDigit(c)
    ensures AllDigits(s + [c]) && DigitsValue(s + [c]) == 10 * DigitsValue(s) + DigitValue(c)
  {
    assert (s + [c])[..|s|] == s;
  }

  /** `str(n)` for `n >= 0`: digits whose value is `n`. */
  function NatToString(n: nat): (r: string)
    ensures |r| >= 1 && AllDigits(r) && DigitsValue(r) == n
    ensures n >= 10 ==> |r| >= 2
  {
    if n < 10 then
      var r := [DigitChar(n)];
      assert r[..0] == [];
      r
    else
      var p := NatToString(n / 10);
      DigitsValueAppend(p, DigitChar(n % 10));
      p + [DigitChar(n % 10)]
  }

  /** `str(n)`. */
  function IntToString(n: int): string {
    if n < 0 then "-" + NatToString(-n) else NatToString(n)
  }

  /** `f'{n:02}'`: zero-padded to two characters; a sign counts towards the width. */
  function Pad2(n: int): string {
    if 0 <= n < 10 then "0" + NatToString(n) else IntToString(n)
  }

  lemma DigitsHaveNoSpace(s: string)
    requires AllDigits(s)
    ensures LStrip(s) == s && Strip(s) == s
    ensures '.' !in s && ':' !in s
  {
    assert forall i :: 0 <= i < |s| ==> s[i] != '.' && s[i] != ':';
    assert |s| == 0 || !IsSpace(s[0]);
    assert LStrip(s) == s;
    assert |s| == 0 || !IsSpace(s[|s| - 1]);
  }

  /** `int(str(n)) == n`. */
  lemma {:induction false} IntToStringRoundTrip(n: int)
    ensures ToInt(IntToString(n)) == Some(n)
    ensures ':' !in IntToString(n) && |IntToString(n)| >= 1
  {
    var r := IntToString(n);
    if n < 0 {
      var p := NatToString(-n);
      DigitsHaveNoSpace(p);
      assert r == "-" + p && r[1..] == p;
      assert !IsSpace(r[0]) && !IsDigit(r[0]) && IsSign(r[0]);
      assert LStrip(r) == r;
      assert r[|r| - 1] == p[|p| - 1] && IsDigit(p[|p| - 1]);
      assert RStrip(r) == r;
      assert Strip(r) == r;
    } else {
      DigitsHaveNoSpace(r);
    }
  }

  /** Different integers are written differently, even after a common prefix. */
  lemma PrefixedIntsDiffer(prefix: string, a: int, b: int)
    requires a != b
    ensures prefix + IntToString(a) != prefix + IntToString(b)
  {
    IntToStringRoundTrip(a);
    IntToStringRoundTrip(b);
    assert (prefix + IntToString(a))[|prefix|..] == IntToString(a);
    assert (prefix + IntToString(b))[|prefix|..] == IntToString(b);
  }

  /** `int(f'{n:02}') == n`, the field is at least two characters wide and
      holds no colon. */
  lemma {:induction false} Pad2RoundTrip(n: int)
    ensures ToInt(Pad2(n)) == Some(n)
    ensures |Pad2(n)| >= 2 && ':' !in Pad2(n)
  {
    if 0 <= n < 10 {
      var p := NatToString(n);
      var r := "0" + p;
      assert r[..|r| - 1] == "0" && r[|r| - 1] == p[0];
      assert AllDigits(r);
      DigitsHaveNoSpace(r);
      assert DigitsValue("0") == 0 by { assert "0"[..0] == []; }
    } else {
      IntToStringRoundTrip(n);
      if n < 0 {
        assert |IntToString(n)| >= 2;
      }
    }
  }

  /** A number below 100 is padded to exactly two digits, which read back
      as the number under both `int()` and `float()`. */
  lemma Pad2TwoDigits(n: nat)
    requires n < 100
    ensures |Pad2(n)| == 2 && AllDigits(Pad2(n))
    ensures ToInt(Pad2(n)) == Some(n) && ToFloat(Pad2(n)) == Some(n as real)
  {
    Pad2RoundTrip(n);
    IntTokenIsFloatToken(Pad2(n));
    if n < 10 {
      var r := "0" + NatToString(n);
      assert r[..|r| - 1] == "0" && r[|r| - 1] == NatToString(n)[0];
    } else {
      assert |NatToString(n / 10)| == 1;
    }
  }

  // ---------------------------------------------------------------------
  // Indexing

  /** Python's (and numpy's) reading of an index into a sequence of length
      `n`: a negative index counts from the end; outside `-n .. n-1` it
      raises `IndexError`. */
  function PyIndex(i: int, n: nat): (r: Option<nat>)
    ensures r.Some? <==> -(n as int) <= i < n
    ensures r.Some? ==> r.value < n && (i >= 0 ==> r.value == i) && (i < 0 ==> r.value == n + i)
  {
    if 0 <= i < n then Some(i)
    else if -(n as int) <= i < 0 then Some(n + i)
    else None
  }

  // ---------------------------------------------------------------------
  // Rounding

  /** Python's `round(x)` on a float: the nearest integer, ties to even. */
  function RoundHalfEven(x: real): (r: int)
    ensures x - 1.0 / 2.0 <= r as real <= x + 1.0 / 2.0
    ensures (r as real - x == 1.0 / 2.0 || x - r as real == 1.0 / 2.0) ==> r % 2 == 0
  {
    var f := x.Floor;
    var d := x - f as real;
    if d < 1.0 / 2.0 then f
    else if d > 1.0 / 2.0 then f + 1
    else if f % 2 == 0 then f else f + 1
  }
}
