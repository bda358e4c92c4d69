// Filter numbers. A number is a decimal coeff / 10^scale in canonical form, which is what
// strconv.ParseFloat and strconv.FormatFloat(v, 'f', -1, 64) agree on; binary rounding is not modelled.
module Numbers {
  import opened Text

  datatype Decimal = Decimal(coeff: int, scale: nat) {
    // The shortest form: no trailing zero after the decimal point.
    predicate Canonical() { scale == 0 || coeff % 10 != 0 }
  }

  function Pow10(n: nat): (r: nat)
    ensures r >= 1
  {
    if n == 0 then 1 else 10 * Pow10(n - 1)
  }

  function Value(d: Decimal): real {
    d.coeff as real / Pow10(d.scale) as real
  }

  function Abs(n: int): nat { if n < 0 then -n else n }

  // ----- decimal digits -----

  predicate AllDigits(s: string) { forall i :: 0 <= i < |s| ==> IsDigit(s[i]) }

  function DigitChar(n: nat): (c: char)
    requires n < 10
    ensures IsDigit(c)
  {
    ((n as int) + ('0' as int)) as char
  }

  function DigitVal(c: char): (n: nat)
    requires IsDigit(c)
    ensures n < 10
  {
    c as int - '0' as int
  }

  function Digits(n: nat): (s: string)
    ensures |s| >= 1 && AllDigits(s)
  {
    if n < 10 then [DigitChar(n)] else Digits(n / 10) + [DigitChar(n % 10)]
  }

  function DigitsValue(s: string): nat
    requires AllDigits(s)
  {
    if s == [] then 0 else 10 * DigitsValue(s[..|s| - 1]) + DigitVal(s[|s| - 1])
  }

  lemma {:induction false} DigitsInverse(n: nat)
    ensures DigitsValue(Digits(n)) == n
  {
    if n < 10 {
      assert [DigitChar(n)][..0] == [];
    } else {
      DigitsInverse(n / 10);
      assert Digits(n)[..|Digits(n)| - 1] == Digits(n / 10);
    }
  }

  lemma {:induction false} LeadingZeros(k: nat, s: string)
    requires AllDigits(s)
    ensures DigitsValue(Repeat('0', k) + s) == DigitsValue(s)
  {
    var z := Repeat('0', k) + s;
    if s != [] {
      LeadingZeros(k, s[..|s| - 1]);
      assert z[..|z| - 1] == Repeat('0', k) + s[..|s| - 1];
    } else if k > 0 {
      LeadingZeros(k - 1, s);
      assert z[..|z| - 1] == Repeat('0', k - 1) + s;
    }
  }

  // The leading run of digits of s, and what follows it.
  function TakeDigits(s: string): (r: (string, string))
    ensures s == r.0 + r.1 && AllDigits(r.0)
    ensures r.1 == "" || !IsDigit(r.1[0])
  {
    if s != "" && IsDigit(s[0]) then
      var (ds, rest) := TakeDigits(s[1..]);
      assert s == [s[0]] + (ds + rest) == ([s[0]] + ds) + rest;
      ([s[0]] + ds, rest)
    else ("", s)
  }

  lemma {:induction false} TakeDigitsSplit(ds: string, rest: string)
    requires AllDigits(ds) && (rest == "" || !IsDigit(rest[0]))
    ensures TakeDigits(ds + rest) == (ds, rest)
  {
    if ds == "" {
      assert ds + rest == rest;
    } else {
      TakeDigitsSplit(ds[1..], rest);
      assert (ds + rest)[1..] == ds[1..] + rest;
      assert [ds[0]] + ds[1..] == ds;
    }
  }

  // ----- scanning and reading a number -----

  // The parts of a JSON-style number literal, and the text after it.
  datatype Scan = Scan(neg: bool, ints: string, fracs: string, hasExp: bool, expNeg: bool, exp: string, rest: string)

  function ScanNumber(s: string): (r: Scan)
    ensures AllDigits(r.ints) && AllDigits(r.fracs) && AllDigits(r.exp)
    ensures |r.rest| <= |s|
  {
    var neg := s != "" && s[0] == '-';
    var (ints, s2) := TakeDigits(if neg then s[1..] else s);
    var (fracs, s3) := TakeFraction(s2);
    ScanExponent(neg, ints, fracs, s3)
  }

  function TakeFraction(s: string): (r: (string, string))
    ensures |r.1| <= |s| && AllDigits(r.0)
  {
    if s != "" && s[0] == '.' then TakeDigits(s[1..]) else ("", s)
  }

  function ScanExponent(neg: bool, ints: string, fracs: string, s: string): (r: Scan)
    requires AllDigits(ints) && AllDigits(fracs)
    ensures r.neg == neg && r.ints == ints && r.fracs == fracs && AllDigits(r.exp)
    ensures |r.rest| <= |s|
  {
    if s != "" && (s[0] == 'e' || s[0] == 'E') then
      var signed := |s| > 1 && (s[1] == '+' || s[1] == '-');
      var (exp, rest) := TakeDigits(if signed then s[2..] else s[1..]);
      Scan(neg, ints, fracs, true, signed && s[1] == '-', exp, rest)
    else Scan(neg, ints, fracs, false, false, "", s)
  }

  // Removes trailing zeros after the decimal point.
  function Strip(c: int, scale: nat): (d: Decimal)
    ensures d.Canonical()
    ensures c % 10 != 0 ==> d == Decimal(c, scale)
    decreases scale
  {
    if scale > 0 && c % 10 == 0 then Strip(c / 10, scale - 1) else Decimal(c, scale)
  }

  // The number c / 10^scale is kept.
  lemma {:induction false} StripKeepsValue(c: int, scale: nat)
    ensures Strip(c, scale).coeff * Pow10(scale) == c * Pow10(Strip(c, scale).scale)
    decreases scale
  {
    if scale > 0 && c % 10 == 0 {
      var d := Strip(c / 10, scale - 1);
      StripKeepsValue(c / 10, scale - 1);
      Tenfold(d.coeff, Pow10(scale - 1), c / 10, Pow10(d.scale));
      assert Strip(c, scale) == d && 10 * (c / 10) == c;
    }
  }

  lemma Tenfold(a: int, p: nat, b: int, q: nat)
    requires a * p == b * q
    ensures a * (10 * p) == (10 * b) * q
  {
    assert a * (10 * p) == 10 * (a * p) && (10 * b) * q == 10 * (b * q);
  }

  lemma {:induction false} PowSum(a: nat, b: nat)
    ensures Pow10(a + b) == Pow10(a) * Pow10(b)
  {
    if b > 0 {
      PowSum(a, b - 1);
      assert Pow10(a + b) == 10 * Pow10(a + (b - 1));
    }
  }

  lemma CrossMultiplied(a: real, p: real, b: real, q: real)
    requires p > 0.0 && q > 0.0 && a / p == b / q
    ensures a * q == b * p
  {
    assert a == (a / p) * p && b == (b / q) * q;
    assert a * q == (a / p) * (p * q) && b * p == (b / q) * (p * q);
  }

  lemma ProductPositive(x: int, p: int)
    requires x > 0 && p > 0
    ensures x * p > 0
  {
  }

  lemma CommonFactor(a: int, b: int, p: nat)
    requires p > 0 && a * p == b * p
    ensures a == b
  {
    assert (a - b) * p == a * p - b * p && (b - a) * p == b * p - a * p;
    if a > b { ProductPositive(a - b, p); }
    if a < b { ProductPositive(b - a, p); }
  }

  lemma TenDivides(c: int, k: nat)
    requires k > 0
    ensures (c * Pow10(k)) % 10 == 0
  {
    var p := Pow10(k - 1);
    assert c * (10 * p) == 10 * (c * p);
    TenTimes(c * p);
  }

  lemma TenTimes(n: int)
    ensures (10 * n) % 10 == 0
  {
  }

  lemma LessScale(d: Decimal, e: Decimal)
    requires e.Canonical() && d.scale < e.scale
    ensures d.coeff * Pow10(e.scale) != e.coeff * Pow10(d.scale)
  {
    var k := e.scale - d.scale;
    PowSum(d.scale, k);
    TenDivides(d.coeff, k);
    assert (d.coeff * Pow10(k)) * Pow10(d.scale) == d.coeff * Pow10(e.scale);
    if d.coeff * Pow10(e.scale) == e.coeff * Pow10(d.scale) {
      CommonFactor(d.coeff * Pow10(k), e.coeff, Pow10(d.scale));
    }
  }

  // A value has one canonical form.
  lemma OneCanonicalForm(d: Decimal, e: Decimal)
    requires d.Canonical() && e.Canonical() && Value(d) == Value(e)
    ensures d == e
  {
    CrossMultiplied(d.coeff as real, Pow10(d.scale) as real, e.coeff as real, Pow10(e.scale) as real);
    CrossInts(d.coeff, Pow10(e.scale), e.coeff, Pow10(d.scale));
    if d.scale < e.scale { LessScale(d, e); }
    if e.scale < d.scale { LessScale(e, d); }
    if d.scale == e.scale { CommonFactor(d.coeff, e.coeff, Pow10(d.scale)); }
  }

  lemma CrossInts(a: int, q: int, b: int, p: int)
    requires a as real * q as real == b as real * p as real
    ensures a * q == b * p
  {
    assert (a * q) as real == a as real * q as real && (b * p) as real == b as real * p as real;
  }

  // strconv.ParseFloat on a text the scanner accepted: some digit is needed before the exponent,
  // and some digit in the exponent when there is one.
  function ParseFloat(t: string): (r: Option<Decimal>)
    ensures r.Some? ==> r.value.Canonical()
  {
    var s := ScanNumber(t);
    if s.rest != "" || (s.ints == "" && s.fracs == "") || (s.hasExp && s.exp == "") then None
    else Some(Scaled(Coefficient(s), Places(s)))
  }

  function Coefficient(s: Scan): int
    requires AllDigits(s.ints) && AllDigits(s.fracs)
  {
    if s.neg then -(DigitsValue(s.ints + s.fracs) as int) else DigitsValue(s.ints + s.fracs)
  }

  function Places(s: Scan): int
    requires AllDigits(s.exp)
  {
    if s.expNeg then |s.fracs| + DigitsValue(s.exp) else |s.fracs| - DigitsValue(s.exp)
  }

  // The canonical form of c / 10^scale, where the scale may be negative.
  function Scaled(c: int, scale: int): (d: Decimal)
    ensures d.Canonical()
  {
    if scale >= 0 then Strip(c, scale) else Decimal(c * Pow10(-scale), 0)
  }

  // ----- printing -----

  // strconv.FormatFloat(v, 'f', -1, 64).
  function FormatNumber(d: Decimal): string {
    var ds := PaddedDigits(Abs(d.coeff), d.scale + 1);
    NumberText(d.coeff < 0, ds[..|ds| - d.scale], ds[|ds| - d.scale..])
  }

  function PaddedDigits(n: nat, width: nat): (s: string)
    ensures |s| >= width && |s| >= 1 && AllDigits(s)
  {
    var ds := Digits(n);
    if |ds| < width then Repeat('0', width - |ds|) + ds else ds
  }

  // A text that cannot continue a number literal.
  predicate EndsNumber(rest: string) {
    rest == "" || !(IsDigit(rest[0]) || rest[0] == '.' || rest[0] == 'e' || rest[0] == 'E')
  }

  // The text of a number with the given digits.
  function NumberText(neg: bool, ints: string, fracs: string): string {
    (if neg then "-" else "") + ints + (if fracs == "" then "" else "." + fracs)
  }

  // Scanning such a text stops exactly at its end, whatever follows.
  lemma ScanText(neg: bool, ints: string, fracs: string, rest: string)
    requires ints != "" && AllDigits(ints) && AllDigits(fracs) && EndsNumber(rest)
    ensures ScanNumber(NumberText(neg, ints, fracs) + rest) == Scan(neg, ints, fracs, false, false, "", rest)
  {
    var tail := (if fracs == "" then "" else "." + fracs) + rest;
    var s := NumberText(neg, ints, fracs) + rest;
    assert s == (if neg then "-" else "") + (ints + tail);
    assert (if neg then s[1..] else s) == ints + tail;
    assert s[0] == if neg then '-' else ints[0];
    TakeDigitsSplit(ints, tail);
    TakeFractionSplit(fracs, rest);
  }

  lemma TakeFractionSplit(fracs: string, rest: string)
    requires AllDigits(fracs) && (rest == "" || !(IsDigit(rest[0]) || rest[0] == '.'))
    ensures TakeFraction((if fracs == "" then "" else "." + fracs) + rest) == (fracs, rest)
  {
    if fracs != "" {
      assert ("." + fracs + rest)[1..] == fracs + rest;
      TakeDigitsSplit(fracs, rest);
    } else {
      assert "" + rest == rest;
    }
  }

  lemma FormatParts(d: Decimal) returns (ints: string, fracs: string)
    ensures FormatNumber(d) == NumberText(d.coeff < 0, ints, fracs)
    ensures ints != "" && AllDigits(ints) && AllDigits(fracs) && |fracs| == d.scale
    ensures DigitsValue(ints + fracs) == Abs(d.coeff)
  {
    var ds := PaddedDigits(Abs(d.coeff), d.scale + 1);
    ints, fracs := ds[..|ds| - d.scale], ds[|ds| - d.scale..];
    assert ints + fracs == ds;
    PaddedValue(Abs(d.coeff), d.scale + 1);
  }

  lemma ScanPrinted(d: Decimal, rest: string)
    requires EndsNumber(rest)
    ensures ScanNumber(FormatNumber(d) + rest).rest == rest
  {
    var ints, fracs := FormatParts(d);
    ScanText(d.coeff < 0, ints, fracs, rest);
  }

  lemma ScaledCanonical(d: Decimal)
    requires d.Canonical()
    ensures Scaled(d.coeff, d.scale) == d
  {
  }

  lemma ParseScanned(t: string, d: Decimal, ints: string, fracs: string)
    requires d.Canonical() && ints != "" && AllDigits(ints) && AllDigits(fracs) && |fracs| == d.scale
    requires DigitsValue(ints + fracs) == Abs(d.coeff)
    requires ScanNumber(t) == Scan(d.coeff < 0, ints, fracs, false, false, "", "")
    ensures ParseFloat(t) == Some(d)
  {
    ScaledCanonical(d);
  }

  lemma ParsePrinted(d: Decimal)
    requires d.Canonical()
    ensures ParseFloat(FormatNumber(d)) == Some(d)
  {
    var ints, fracs := FormatParts(d);
    ScanText(d.coeff < 0, ints, fracs, "");
    NothingAfter(NumberText(d.coeff < 0, ints, fracs));
    ParseScanned(FormatNumber(d), d, ints, fracs);
  }

  lemma NothingAfter(s: string)
    ensures s + "" == s
  {
  }

  lemma PaddedValue(n: nat, width: nat)
    ensures DigitsValue(PaddedDigits(n, width)) == n
  {
    DigitsInverse(n);
    if |Digits(n)| < width { LeadingZeros(width - |Digits(n)|, Digits(n)); }
  }

  lemma WholeNumber(n: nat)
    ensures FormatNumber(Decimal(n, 0)) == Digits(n)
  {
    var ds := PaddedDigits(n, 1);
    assert ds == Digits(n) && ds[..|ds|] == ds && ds[|ds|..] == "";
    assert "" + ds + "" == ds;
  }

  // ----- exponents -----

  lemma ScaledKeepsValue(c: int, scale: int)
    ensures var d := Scaled(c, scale);
            if scale >= 0 then d.coeff * Pow10(scale) == c * Pow10(d.scale)
            else d.scale == 0 && d.coeff == c * Pow10(-scale)
  {
    if scale >= 0 { StripKeepsValue(c, scale); }
  }

  // A literal with an exponent: its digits shifted by as many places.
  lemma ExponentShifts(neg: bool, ints: string, fracs: string, letter: char, sign: string, exp: string)
    requires ints != "" && AllDigits(ints) && AllDigits(fracs) && exp != "" && AllDigits(exp)
    requires (letter == 'e' || letter == 'E') && (sign == "" || sign == "+" || sign == "-")
    ensures var s := Scan(neg, ints, fracs, true, sign == "-", exp, "");
            ParseFloat(NumberText(neg, ints, fracs) + ([letter] + (sign + exp)))
            == Some(Scaled(Coefficient(s), Places(s)))
            && Coefficient(s) == (if neg then -(DigitsValue(ints + fracs) as int) else DigitsValue(ints + fracs))
            && Places(s) == if sign == "-" then |fracs| + DigitsValue(exp) else |fracs| - DigitsValue(exp)
  {
    var tail := [letter] + (sign + exp);
    ScanWithTail(neg, ints, fracs, tail);
    ExponentScanned(neg, ints, fracs, letter, sign, exp);
    ParsedAs(NumberText(neg, ints, fracs) + tail, Scan(neg, ints, fracs, true, sign == "-", exp, ""));
  }

  lemma ParsedAs(t: string, s: Scan)
    requires ScanNumber(t) == s && s.rest == "" && s.ints != "" && s.exp != ""
    ensures ParseFloat(t) == Some(Scaled(Coefficient(s), Places(s)))
  {
  }

  lemma ExponentScanned(neg: bool, ints: string, fracs: string, letter: char, sign: string, exp: string)
    requires AllDigits(ints) && AllDigits(fracs) && exp != "" && AllDigits(exp)
    requires (letter == 'e' || letter == 'E') && (sign == "" || sign == "+" || sign == "-")
    ensures ScanExponent(neg, ints, fracs, [letter] + (sign + exp))
            == Scan(neg, ints, fracs, true, sign == "-", exp, "")
  {
    var s := [letter] + (sign + exp);
    AllTaken(exp);
    if sign == "" {
      assert s[1..] == exp && IsDigit(s[1]);
    } else {
      assert s[1] == sign[0] && s[2..] == exp;
    }
  }

  lemma AllTaken(ds: string)
    requires AllDigits(ds)
    ensures TakeDigits(ds) == (ds, "")
  {
    TakeDigitsSplit(ds, "");
    assert ds + "" == ds;
  }

  // The digits of a number text before an exponent.
  lemma ScanWithTail(neg: bool, ints: string, fracs: string, tail: string)
    requires ints != "" && AllDigits(ints) && AllDigits(fracs) && tail != "" && (tail[0] == 'e' || tail[0] == 'E')
    ensures ScanNumber(NumberText(neg, ints, fracs) + tail) == ScanExponent(neg, ints, fracs, tail)
  {
    var after := (if fracs == "" then "" else "." + fracs) + tail;
    NumberTextSplit(neg, ints, fracs, tail);
    TakeDigitsSplit(ints, after);
    TakeFractionSplit(fracs, tail);
  }

  lemma NumberTextSplit(neg: bool, ints: string, fracs: string, tail: string)
    requires ints != "" && AllDigits(ints)
    ensures var s := NumberText(neg, ints, fracs) + tail;
            s != "" && (s[0] == '-' <==> neg)
            && (if neg then s[1..] else s) == ints + ((if fracs == "" then "" else "." + fracs) + tail)
  {
    var after := (if fracs == "" then "" else "." + fracs) + tail;
    var s := NumberText(neg, ints, fracs) + tail;
    assert s == (if neg then "-" else "") + (ints + after);
    assert (if neg then s[1..] else s) == ints + after;
    assert s[0] == if neg then '-' else ints[0];
  }
}
