/**
 * The numeric field parsers of the loader: `parse_float`, `parse_int` and
 * `parse_depth` (ingest.py:168-181, 256-272).  Python's `float()` is modelled
 * as a decimal grammar whose value is an exact `real`: optional sign, digits
 * with an optional fractional part, optional exponent, surrounding whitespace
 * ignored.  Binary floating-point rounding is not modelled.
 */
module Numbers {
  import opened Wrappers
  import opened Text

  // ---------------------------------------------------------------------------
  // Decimal digits
  // ---------------------------------------------------------------------------

  predicate AllDigits(s: string) {
    forall i :: 0 <= i < |s| ==> IsDigit(s[i])
  }

  function DigitValue(c: char): nat
    requires IsDigit(c)
  {
    c as int - '0' as int
  }

  function Pow10(n: nat): (r: nat)
    ensures r >= 1
  {
    if n == 0 then 1 else 10 * Pow10(n - 1)
  }

  /** The value of a run of decimal digits, most significant first. */
  function DigitsValue(s: string): nat
    requires AllDigits(s)
  {
    if s == [] then 0 else DigitsValue(s[..|s| - 1]) * 10 + DigitValue(s[|s| - 1])
  }

  /** Length of the longest all-digit prefix of `s`. */
  function SpanDigits(s: string): (n: nat)
    ensures n <= |s| && AllDigits(s[..n])
    ensures n == |s| || !IsDigit(s[n])
  {
    if s == [] || !IsDigit(s[0]) then 0 else 1 + SpanDigits(s[1..])
  }

  /** The real number `m * 10^e`, one decimal place at a time. */
  function Scale(m: real, e: int): real
    decreases if e >= 0 then e else -e
  {
    if e == 0 then m
    else if e > 0 then Scale(m, e - 1) * 10.0
    else Scale(m, e + 1) / 10.0
  }

  // ---------------------------------------------------------------------------
  // Python float()
  // ---------------------------------------------------------------------------

  /** An optional sign, then a non-empty digit run and nothing else. */
  function ParseExponent(s: string): Option<int> {
    var neg := s != [] && s[0] == '-';
    var body := if s != [] && (s[0] == '+' || s[0] == '-') then s[1..] else s;
    if body == [] || !AllDigits(body) then None
    else Some(if neg then -(DigitsValue(body) as int) else DigitsValue(body) as int)
  }

  /** An unsigned decimal: `d+`, `d+.`, `d+.d+` or `.d+`, then an optional exponent. */
  function ParseUnsigned(u: string): Option<real> {
    var i := SpanDigits(u);
    var intPart := u[..i];
    var rest := u[i..];
    var hasDot := rest != [] && rest[0] == '.';
    var f := if hasDot then SpanDigits(rest[1..]) else 0;
    var frac := if hasDot then rest[1..1 + f] else [];
    var after := if hasDot then rest[1 + f..] else rest;
    if |intPart| + |frac| == 0 then None
    else
      var exp :=
        if after == [] then Some(0)
        else if after[0] == 'e' || after[0] == 'E' then ParseExponent(after[1..])
        else None;
      if exp.None? then None
      else
        assert AllDigits(frac) by { if hasDot { assert frac == rest[1..][..f]; } }
        assert AllDigits(intPart + frac);
        var m := Scale(DigitsValue(intPart + frac) as real, -|frac|);
        Some(Scale(m, exp.value))
  }

  /** An optionally signed decimal. */
  function ParseSigned(s: string): Option<real> {
    var body := if s != [] && (s[0] == '-' || s[0] == '+') then s[1..] else s;
    var v := ParseUnsigned(body);
    if s != [] && s[0] == '-' then Negate(v) else v
  }

  function Negate(v: Option<real>): Option<real> {
    match v
    case Some(x) => Some(-x)
    case None => None
  }

  /** Python's `float(t)` on the text forms modelled here; it ignores surrounding whitespace. */
  function PyFloat(t: string): Option<real> {
    ParseSigned(Strip(t))
  }

  // ---------------------------------------------------------------------------
  // parse_float, parse_int, parse_depth
  // ---------------------------------------------------------------------------

  /** The texts `parse_float` reads as a missing value. */
  predicate IsFloatSentinel(s: string) {
    s in ["", "NA", "N/A", "-", "null", "NULL"]
  }

  /** `parse_float`: sentinels and unparsable text give None; commas are dropped. */
  function ParseFloat(value: string): Option<real> {
    if value == [] || IsFloatSentinel(Strip(value)) then None
    else PyFloat(RemoveChar(Strip(value), ','))
  }

  /** Python's `int(x)` on a float: truncation toward zero. */
  function Truncate(x: real): (n: int)
    ensures x >= 0.0 ==> 0 <= n && n as real <= x < n as real + 1.0
    ensures x < 0.0 ==> n <= 0 && n as real - 1.0 < x <= n as real
  {
    if x >= 0.0 then x.Floor else -((-x).Floor)
  }

  /** `parse_int`: `parse_float` followed by truncation toward zero. */
  function ParseInt(value: string): Option<int> {
    match ParseFloat(value)
    case Some(f) => Some(Truncate(f))
    case None => None
  }

  /** An integer exactly when `parse_float` gives a number, and then that number truncated toward zero. */
  lemma ParseIntTruncates(value: string)
    ensures var r := ParseInt(value);
      (r.Some? <==> ParseFloat(value).Some?)
      && (r.Some? ==> var v := ParseFloat(value).value;
        (v >= 0.0 ==> 0 <= r.value && r.value as real <= v < r.value as real + 1.0)
        && (v < 0.0 ==> r.value <= 0 && r.value as real - 1.0 < v <= r.value as real))
  {
  }

  /** `depth_str.split('-')[0]`: the text before the first hyphen. */
  function BeforeHyphen(s: string): (r: string)
    ensures |r| <= |s| && r == s[..|r|] && '-' !in r
    ensures |r| < |s| ==> s[|r|] == '-'
  {
    if s == [] || s[0] == '-' then [] else [s[0]] + BeforeHyphen(s[1..])
  }

  predicate IsDepthSentinel(s: string) {
    s in ["", "NA", "N/A", "-", "surface"]
  }

  /** `parse_depth`: for a range such as `10-20` the top value, else the single value. */
  function ParseDepth(depthStr: string): Option<real> {
    if depthStr == [] || IsDepthSentinel(Strip(depthStr)) then None
    else
      var d := Lower(Strip(depthStr));
      if '-' in d then
        var top := ParseFloat(BeforeHyphen(d));
        if top.Some? then top else ParseFloat(d)
      else ParseFloat(d)
  }

  // ---------------------------------------------------------------------------
  // Decimal rendering, the partner of the parsers
  // ---------------------------------------------------------------------------

  function DigitChar(d: nat): (c: char)
    requires d < 10
    ensures IsDigit(c) && DigitValue(c) == d
  {
    ('0' as int + d) as char
  }

  /** The decimal digits of `n`, without leading zeros. */
  function NatText(n: nat): (s: string)
    ensures s != [] && AllDigits(s)
  {
    if n < 10 then [DigitChar(n)] else NatText(n / 10) + [DigitChar(n % 10)]
  }

  /** Exactly three digits, with leading zeros. */
  function Pad3(r: nat): (s: string)
    requires r < 1000
    ensures |s| == 3 && AllDigits(s)
  {
    [DigitChar(r / 100), DigitChar(r / 10 % 10), DigitChar(r % 10)]
  }

  /** The decimal text of `n` with a comma between thousands groups, as in `1,234,567`. */
  function GroupedText(n: nat): (s: string)
    ensures s != [] && IsDigit(s[0]) && IsDigit(s[|s| - 1])
  {
    if n < 1000 then NatText(n)
    else GroupedText(n / 1000) + "," + Pad3(n % 1000)
  }

  lemma AllDigitsConcat(a: string, b: string)
    requires AllDigits(a) && AllDigits(b)
    ensures AllDigits(a + b)
  {
    forall i | 0 <= i < |a + b| ensures IsDigit((a + b)[i]) {
      if i < |a| { assert (a + b)[i] == a[i]; } else { assert (a + b)[i] == b[i - |a|]; }
    }
  }

  lemma ShiftDigit(va: nat, p: nat, vb: nat, last: nat)
    ensures (va * p + vb) * 10 + last == va * (10 * p) + (vb * 10 + last)
  {
  }

  lemma {:induction false} DigitsValueAppend(a: string, b: string)
    requires AllDigits(a) && AllDigits(b)
    ensures AllDigits(a + b)
    ensures DigitsValue(a + b) == DigitsValue(a) * Pow10(|b|) + DigitsValue(b)
    decreases |b|
  {
    AllDigitsConcat(a, b);
    if b == [] {
      assert a + b == a;
    } else {
      var b' := b[..|b| - 1];
      assert AllDigits(b');
      var c := b[|b| - 1];
      assert a + b == (a + b') + [c];
      DigitsValueAppend(a, b');
      assert DigitsValue(a + b) == DigitsValue(a + b') * 10 + DigitValue(c) by {
        var ab := a + b;
        assert ab[..|ab| - 1] == a + b';
        assert ab[|ab| - 1] == c;
      }
      assert DigitsValue(b) == DigitsValue(b') * 10 + DigitValue(c);
      ShiftDigit(DigitsValue(a), Pow10(|b'|), DigitsValue(b'), DigitValue(c));
    }
  }

  /** `NatText` and `DigitsValue` are inverse. */
  lemma {:induction false} NatTextValue(n: nat)
    ensures DigitsValue(NatText(n)) == n
  {
    if n >= 10 {
      NatTextValue(n / 10);
      var s := NatText(n);
      assert s[..|s| - 1] == NatText(n / 10);
    }
  }

  /** The value of a three-digit run. */
  lemma DigitsValue3(x: char, y: char, z: char)
    requires IsDigit(x) && IsDigit(y) && IsDigit(z)
    ensures AllDigits([x, y, z])
    ensures DigitsValue([x, y, z]) == (DigitValue(x) * 10 + DigitValue(y)) * 10 + DigitValue(z)
  {
    var s := [x, y, z];
    assert [x][..0] == [];
    assert DigitsValue([x]) == DigitValue(x);
    assert [x, y][..1] == [x];
    assert DigitsValue([x, y]) == DigitValue(x) * 10 + DigitValue(y);
    assert s[..2] == [x, y];
  }

  lemma ThreeDigits(r: nat)
    requires r < 1000
    ensures (r / 100 * 10 + r / 10 % 10) * 10 + r % 10 == r
  {
    assert r / 100 * 10 + r / 10 % 10 == r / 10;
  }

  lemma Pad3Value(r: nat)
    requires r < 1000
    ensures DigitsValue(Pad3(r)) == r
  {
    DigitsValue3(DigitChar(r / 100), DigitChar(r / 10 % 10), DigitChar(r % 10));
    ThreeDigits(r);
  }

  /** A digit run contains no character other than digits. */
  lemma DigitsExclude(s: string, c: char)
    requires AllDigits(s) && !IsDigit(c)
    ensures c !in s
  {
  }

  /** Without its commas, `GroupedText(n)` is a digit run whose value is `n`. */
  lemma {:induction false} GroupedDigits(n: nat)
    ensures AllDigits(RemoveChar(GroupedText(n), ','))
    ensures DigitsValue(RemoveChar(GroupedText(n), ',')) == n
  {
    if n < 1000 {
      DigitsExclude(NatText(n), ',');
      RemoveCharAbsent(NatText(n), ',');
      NatTextValue(n);
    } else {
      var hi := GroupedText(n / 1000);
      var lo := Pad3(n % 1000);
      GroupedDigits(n / 1000);
      var d := RemoveChar(hi, ',');
      assert GroupedText(n) == hi + ("," + lo);
      RemoveCharConcat(hi, "," + lo, ',');
      assert RemoveChar("," + lo, ',') == lo by {
        assert ("," + lo)[1..] == lo;
        DigitsExclude(lo, ',');
        RemoveCharAbsent(lo, ',');
      }
      assert RemoveChar(GroupedText(n), ',') == d + lo;
      DigitsValueAppend(d, lo);
      Pad3Value(n % 1000);
      assert Pow10(3) == 1000;
    }
  }

  lemma {:induction false} SpanAllDigits(s: string)
    requires AllDigits(s)
    ensures SpanDigits(s) == |s|
  {
    if s != [] {
      SpanAllDigits(s[1..]);
    }
  }

  /** A plain digit run is read as its integer value. */
  lemma ParseUnsignedDigits(s: string)
    requires s != [] && AllDigits(s)
    ensures ParseUnsigned(s) == Some(DigitsValue(s) as real)
  {
    SpanAllDigits(s);
    assert s[..|s|] == s;
    assert s[|s|..] == [];
    assert s + [] == s;
    var m := Scale(DigitsValue(s) as real, 0);
    assert m == DigitsValue(s) as real;
    assert Scale(m, 0) == m;
  }

  /** Text that is neither blank nor one of the sentinels, with no commas, goes straight to `float()`. */
  lemma ParseFloatPlain(t: string)
    requires t != [] && !IsSpace(t[0]) && !IsSpace(t[|t| - 1])
    requires ',' !in t && !IsFloatSentinel(t)
    ensures ParseFloat(t) == PyFloat(t)
  {
    StripUnchanged(t);
    RemoveCharAbsent(t, ',');
  }

  lemma PyFloatDigits(d: string, v: nat)
    requires d != [] && AllDigits(d) && DigitsValue(d) == v
    ensures PyFloat(d) == Some(v as real)
  {
    assert IsDigit(d[0]) && IsDigit(d[|d| - 1]);
    StripUnchanged(d);
    ParseUnsignedDigits(d);
  }

  lemma StripSigned(d: string)
    requires d != [] && AllDigits(d)
    ensures Strip("-" + d) == "-" + d
  {
    var t := "-" + d;
    assert t[|t| - 1] == d[|d| - 1] && IsDigit(d[|d| - 1]);
    StripUnchanged(t);
  }

  lemma ParseSignedMinus(d: string)
    ensures ParseSigned("-" + d) == Negate(ParseUnsigned(d))
  {
    assert ("-" + d)[1..] == d;
  }

  lemma PyFloatMinus(d: string)
    requires d != [] && AllDigits(d)
    ensures PyFloat("-" + d) == ParseSigned("-" + d)
  {
    StripSigned(d);
  }

  lemma ParseSignedNegDigits(d: string, v: nat)
    requires d != [] && AllDigits(d) && DigitsValue(d) == v
    ensures ParseSigned("-" + d) == Some(-(v as real))
  {
    ParseUnsignedDigits(d);
    ParseSignedNegOf(d, v as real);
  }

  lemma ParseSignedNegOf(d: string, v: real)
    requires ParseUnsigned(d) == Some(v)
    ensures ParseSigned("-" + d) == Some(-v)
  {
    ParseSignedMinus(d);
  }

  lemma PyFloatNegDigits(d: string, v: nat)
    requires d != [] && AllDigits(d) && DigitsValue(d) == v
    ensures PyFloat("-" + d) == Some(-(v as real))
  {
    PyFloatMinus(d);
    ParseSignedNegDigits(d, v);
  }

  /** A digit run is not one of the `parse_float` sentinels. */
  lemma DigitsNotSentinel(d: string)
    requires d != [] && AllDigits(d)
    ensures !IsFloatSentinel(d) && !IsFloatSentinel("-" + d)
  {
    assert IsDigit(d[0]);
    assert ("-" + d)[1] == d[0];
  }

  lemma DigitsEnds(d: string)
    requires d != [] && AllDigits(d)
    ensures !IsSpace(d[0]) && !IsSpace(d[|d| - 1])
  {
    assert IsDigit(d[0]) && IsDigit(d[|d| - 1]);
  }

  lemma ParseFloatDigitsPlain(d: string)
    requires d != [] && AllDigits(d)
    ensures ParseFloat(d) == PyFloat(d)
  {
    DigitsNotSentinel(d);
    DigitsEnds(d);
    DigitsExclude(d, ',');
    ParseFloatPlain(d);
  }

  lemma ParseFloatNegPlain(d: string)
    requires d != [] && AllDigits(d)
    ensures ParseFloat("-" + d) == PyFloat("-" + d)
  {
    var t := "-" + d;
    DigitsNotSentinel(d);
    DigitsEnds(d);
    assert t[|t| - 1] == d[|d| - 1];
    DigitsExclude(d, ',');
    ParseFloatPlain(t);
  }

  /** `parse_float` reads a digit run as its value. */
  lemma ParseFloatDigits(d: string, v: nat)
    requires d != [] && AllDigits(d) && DigitsValue(d) == v
    ensures ParseFloat(d) == Some(v as real)
  {
    ParseFloatDigitsPlain(d);
    PyFloatDigits(d, v);
  }

  /** `parse_float` reads `-` followed by a digit run as the negated value. */
  lemma ParseFloatNegDigits(d: string, v: nat)
    requires d != [] && AllDigits(d) && DigitsValue(d) == v
    ensures ParseFloat("-" + d) == Some(-(v as real))
  {
    ParseFloatNegPlain(d);
    PyFloatNegDigits(d, v);
  }

  /** Grouped text is neither blank, padded nor a sentinel. */
  lemma GroupedPlain(n: nat)
    ensures GroupedText(n) != [] && Strip(GroupedText(n)) == GroupedText(n)
    ensures !IsFloatSentinel(GroupedText(n))
  {
    var t := GroupedText(n);
    assert !IsSpace(t[0]) && !IsSpace(t[|t| - 1]);
    StripUnchanged(t);
    assert !IsFloatSentinel(t) by { assert IsDigit(t[0]); }
  }

  /** Without its commas, grouped text is a non-empty digit run. */
  lemma GroupedRun(n: nat)
    ensures RemoveChar(GroupedText(n), ',') != []
    ensures AllDigits(RemoveChar(GroupedText(n), ','))
    ensures DigitsValue(RemoveChar(GroupedText(n), ',')) == n
  {
    GroupedDigits(n);
    var t := GroupedText(n);
    if n < 1000 {
      DigitsExclude(NatText(n), ',');
      RemoveCharAbsent(t, ',');
    } else {
      assert DigitsValue(RemoveChar(t, ',')) != 0;
    }
  }

  /** `parse_float` treats commas as thousands separators: `1,234,567` reads as 1234567. */
  lemma ParseFloatGrouped(n: nat)
    ensures ParseFloat(GroupedText(n)) == Some(n as real)
  {
    GroupedPlain(n);
    GroupedRun(n);
    PyFloatDigits(RemoveChar(GroupedText(n), ','), n);
  }

  /** A negative exponent divides by that power of ten. */
  lemma {:induction false} ScaleDown(m: real, k: nat)
    ensures Scale(m, -(k as int)) == m / Pow10(k) as real
  {
    if k > 0 {
      ScaleDown(m, k - 1);
      var p := Pow10(k - 1) as real;
      assert Pow10(k) as real == 10.0 * p;
      assert m / p / 10.0 == m / (10.0 * p);
    }
  }

  /** The leading digit run of `d + rest` is `d` when `rest` does not begin with a digit. */
  lemma {:induction false} SpanDigitsRun(d: string, rest: string)
    requires AllDigits(d) && (rest == [] || !IsDigit(rest[0]))
    ensures SpanDigits(d + rest) == |d|
    decreases |d|
  {
    if d == [] {
      assert d + rest == rest;
    } else {
      assert (d + rest)[1..] == d[1..] + rest;
      SpanDigitsRun(d[1..], rest);
    }
  }

  lemma {:induction false} SplitFraction(x: nat, p: nat, y: nat)
    requires p >= 1
    ensures (x * p + y) as real / p as real == x as real + y as real / p as real
  {
    assert (x * p + y) as real == x as real * p as real + y as real;
  }

  /** The pieces `float()` sees in `a.b`. */
  lemma {:induction false} ParseUnsignedPoint(a: string, b: string)
    requires a != [] && AllDigits(a) && b != [] && AllDigits(b)
    ensures AllDigits(a + b)
    ensures ParseUnsigned(a + "." + b) == Some(Scale(Scale(DigitsValue(a + b) as real, -|b|), 0))
  {
    var u := a + "." + b;
    var rest := "." + b;
    SpanDigitsRun(a, rest);
    assert u == a + rest;
    assert u[..|a|] == a;
    assert u[|a|..] == rest;
    assert rest[1..] == b;
    SpanAllDigits(b);
    assert rest[1..1 + |b|] == b;
    assert rest[1 + |b|..] == [];
    AllDigitsConcat(a, b);
  }

  /** `float()` reads `a.b` as `a + b / 10^|b|`. */
  lemma {:induction false} ParseUnsignedDecimal(a: string, b: string)
    requires a != [] && AllDigits(a) && b != [] && AllDigits(b)
    ensures ParseUnsigned(a + "." + b)
      == Some(DigitsValue(a) as real + DigitsValue(b) as real / Pow10(|b|) as real)
  {
    ParseUnsignedPoint(a, b);
    DigitsValueAppend(a, b);
    var m := Scale(DigitsValue(a + b) as real, -|b|);
    assert Scale(m, 0) == m;
    ScaleDown(DigitsValue(a + b) as real, |b|);
    SplitFraction(DigitsValue(a), Pow10(|b|), DigitsValue(b));
  }

  /** `a.b` is neither padded, a sentinel nor grouped with commas. */
  lemma {:induction false} DecimalPlain(a: string, b: string)
    requires a != [] && AllDigits(a) && b != [] && AllDigits(b)
    ensures ParseFloat(a + "." + b) == PyFloat(a + "." + b)
  {
    var t := a + "." + b;
    assert t[0] == a[0] && t[|t| - 1] == b[|b| - 1];
    DigitsEnds(a);
    DigitsEnds(b);
    DigitsExclude(a, ',');
    DigitsExclude(b, ',');
    assert ',' !in t by { assert t == a + ['.'] + b; }
    assert !IsFloatSentinel(t) by { assert IsDigit(t[0]); }
    ParseFloatPlain(t);
  }

  lemma {:induction false} PyFloatUnsigned(t: string)
    requires t != [] && IsDigit(t[0]) && IsDigit(t[|t| - 1])
    ensures PyFloat(t) == ParseUnsigned(t)
  {
    StripUnchanged(t);
  }

  /** `parse_float` reads a decimal point: `a.b` is `a + b / 10^|b|`. */
  lemma {:induction false} ParseFloatDecimal(a: string, b: string)
    requires a != [] && AllDigits(a) && b != [] && AllDigits(b)
    ensures ParseFloat(a + "." + b)
      == Some(DigitsValue(a) as real + DigitsValue(b) as real / Pow10(|b|) as real)
  {
    var t := a + "." + b;
    assert t[0] == a[0] && t[|t| - 1] == b[|b| - 1];
    DecimalPlain(a, b);
    PyFloatUnsigned(t);
    ParseUnsignedDecimal(a, b);
  }

  /** When `parse_float` gives an integral value, `parse_int` gives that integer. */
  lemma ParseIntOfWhole(k: int, t: string)
    requires ParseFloat(t) == Some(k as real)
    ensures ParseInt(t) == Some(k)
  {
    assert Truncate(k as real) == k by {
      if k < 0 { assert ((-k) as real).Floor == -k; }
    }
  }

  /** `parse_int` reads a digit run as its value. */
  lemma ParseIntDigits(d: string, v: nat)
    requires d != [] && AllDigits(d) && DigitsValue(d) == v
    ensures ParseInt(d) == Some(v)
  {
    ParseFloatDigits(d, v);
    ParseIntOfWhole(v, d);
  }

  lemma {:induction false} BeforeHyphenOf(a: string, rest: string)
    requires '-' !in a
    ensures BeforeHyphen(a + "-" + rest) == a
  {
    var s := a + "-" + rest;
    if a == [] {
      assert s[0] == '-';
    } else {
      assert s[0] == a[0];
      assert s[1..] == a[1..] + "-" + rest;
      BeforeHyphenOf(a[1..], rest);
    }
  }

  /** Once the sentinel test and normalisation are out of the way, a range yields its top part. */
  lemma ParseDepthTop(s: string)
    requires s != [] && !IsDepthSentinel(s)
    requires Strip(s) == s && Lower(s) == s && '-' in s
    requires ParseFloat(BeforeHyphen(s)).Some?
    ensures ParseDepth(s) == ParseFloat(BeforeHyphen(s))
  {
  }

  lemma NoUpperConcat(a: string, b: string)
    requires forall i :: 0 <= i < |a| ==> !IsUpperLetter(a[i])
    requires forall i :: 0 <= i < |b| ==> !IsUpperLetter(b[i])
    ensures forall i :: 0 <= i < |a + b| ==> !IsUpperLetter((a + b)[i])
  {
    forall i | 0 <= i < |a + b| ensures !IsUpperLetter((a + b)[i]) {
      if i < |a| { assert (a + b)[i] == a[i]; } else { assert (a + b)[i] == b[i - |a|]; }
    }
  }

  /** Text that starts with a digit is not a depth sentinel. */
  lemma DigitLedNotDepthSentinel(s: string)
    requires s != [] && IsDigit(s[0])
    ensures !IsDepthSentinel(s)
  {
  }

  lemma DigitRangeStrip(da: string, db: string)
    requires da != [] && AllDigits(da) && db != [] && AllDigits(db)
    ensures Strip(da + "-" + db) == da + "-" + db
    ensures !IsDepthSentinel(da + "-" + db)
  {
    var s := da + "-" + db;
    assert s[0] == da[0] && IsDigit(da[0]);
    assert s[|s| - 1] == db[|db| - 1] && IsDigit(db[|db| - 1]);
    assert !IsSpace(s[0]) && !IsSpace(s[|s| - 1]);
    StripUnchanged(s);
    DigitLedNotDepthSentinel(s);
  }

  lemma DigitRangeLower(da: string, db: string)
    requires AllDigits(da) && AllDigits(db)
    ensures Lower(da + "-" + db) == da + "-" + db
  {
    NoUpperConcat(da, "-");
    NoUpperConcat(da + "-", db);
    LowerNoUpper(da + "-" + db);
  }

  lemma DigitRangeShape(da: string, db: string)
    requires da != [] && AllDigits(da) && db != [] && AllDigits(db)
    ensures var s := da + "-" + db;
      s != [] && !IsDepthSentinel(s) && Strip(s) == s && Lower(s) == s && '-' in s
      && BeforeHyphen(s) == da
  {
    var s := da + "-" + db;
    DigitRangeStrip(da, db);
    DigitRangeLower(da, db);
    assert '-' in s by { assert s[|da|] == '-'; }
    DigitsExclude(da, '-');
    BeforeHyphenOf(da, db);
  }

  /** A depth range of two digit runs is read as the value of the first. */
  lemma ParseDepthDigitRange(da: string, db: string)
    requires da != [] && AllDigits(da) && db != [] && AllDigits(db)
    requires ParseFloat(da).Some?
    ensures ParseDepth(da + "-" + db) == ParseFloat(da)
  {
    DigitRangeShape(da, db);
    ParseDepthTop(da + "-" + db);
  }

  /** A depth range `a-b` of digit runs yields its top value `a`. */
  lemma ParseDepthRange(da: string, db: string, v: nat)
    requires da != [] && AllDigits(da) && db != [] && AllDigits(db) && DigitsValue(da) == v
    ensures ParseDepth(da + "-" + db) == Some(v as real)
  {
    ParseFloatDigits(da, v);
    ParseDepthDigitRange(da, db);
  }

  // ---------------------------------------------------------------------------
  // Counters written into text, and read back
  // ---------------------------------------------------------------------------

  /** `labels[0] + str(values[0]) + labels[1] + ... + labels[|values|]`: an f-string of counters. */
  function FillCounts(labels: seq<string>, values: seq<nat>): string
    requires |labels| == |values| + 1
    decreases |values|
  {
    if values == [] then labels[0]
    else labels[0] + NatText(values[0]) + FillCounts(labels[1..], values[1..])
  }

  /** The counters of text laid out as `FillCounts(labels, _)`, or None when it is not. */
  function ReadCounts(labels: seq<string>, text: string): Option<seq<nat>>
    requires labels != []
    decreases |labels|
  {
    if |labels| == 1 then (if text == labels[0] then Some([]) else None)
    else if !StartsWith(text, labels[0]) then None
    else
      var rest := text[|labels[0]|..];
      var n := SpanDigits(rest);
      if n == 0 then None
      else
        match ReadCounts(labels[1..], rest[n..])
        case None => None
        case Some(vs) => Some([DigitsValue(rest[..n])] + vs)
  }

  /** Labels after the first each begin with a character that is not a digit. */
  predicate Separating(labels: seq<string>) {
    forall i :: 1 <= i < |labels| ==> labels[i] != [] && !IsDigit(labels[i][0])
  }

  lemma {:induction false} FillCountsStart(labels: seq<string>, values: seq<nat>)
    requires |labels| == |values| + 1
    ensures StartsWith(FillCounts(labels, values), labels[0])
  {
    var t := FillCounts(labels, values);
    if values != [] {
      assert t == labels[0] + (NatText(values[0]) + FillCounts(labels[1..], values[1..]));
    }
    assert t[..|labels[0]|] == labels[0];
  }

  /** One label and one counter are read off the front. */
  lemma {:induction false} ReadCountsStep(labels: seq<string>, d: string, rest: string)
    requires |labels| >= 2 && d != [] && AllDigits(d) && (rest == [] || !IsDigit(rest[0]))
    ensures ReadCounts(labels[1..], rest).Some? ==>
      ReadCounts(labels, labels[0] + (d + rest)) == Some([DigitsValue(d)] + ReadCounts(labels[1..], rest).value)
  {
    var t := labels[0] + (d + rest);
    assert t[..|labels[0]|] == labels[0];
    assert t[|labels[0]|..] == d + rest;
    SpanDigitsRun(d, rest);
    assert (d + rest)[..|d|] == d;
    assert (d + rest)[|d|..] == rest;
  }

  lemma SeparatingTail(labels: seq<string>)
    requires labels != [] && Separating(labels)
    ensures Separating(labels[1..])
  {
    forall i | 1 <= i < |labels[1..]| ensures labels[1..][i] != [] && !IsDigit(labels[1..][i][0]) {
      assert labels[1..][i] == labels[i + 1];
    }
  }

  /** Text filled in with counters reads back as those counters. */
  lemma {:induction false} ReadCountsFill(labels: seq<string>, values: seq<nat>)
    requires |labels| == |values| + 1 && Separating(labels)
    ensures ReadCounts(labels, FillCounts(labels, values)) == Some(values)
    decreases |values|
  {
    if values != [] {
      var tail := FillCounts(labels[1..], values[1..]);
      var d := NatText(values[0]);
      assert FillCounts(labels, values) == labels[0] + (d + tail);
      FillCountsStart(labels[1..], values[1..]);
      assert labels[1..][0] == labels[1];
      assert tail[0] == labels[1][0];
      SeparatingTail(labels);
      ReadCountsFill(labels[1..], values[1..]);
      ReadCountsStep(labels, d, tail);
      NatTextValue(values[0]);
      assert [values[0]] + values[1..] == values;
    }
  }
}
