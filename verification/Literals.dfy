// String literals: json.Marshal writes them, strconv.Unquote reads them back.
module Literals {
  import opened Text

  // ----- writing: encoding/json with HTML escaping -----

  function HexDigit(n: nat): (c: char)
    requires n < 16
    ensures c != '"' && c != '\\'
  {
    if n < 10 then (n + '0' as int) as char else (n - 10 + 'a' as int) as char
  }

  function UnicodeEscape(n: nat): (s: string)
    requires n < 0x10000
  {
    ['\\', 'u', HexDigit(n / 4096), HexDigit(n / 256 % 16), HexDigit(n / 16 % 16), HexDigit(n % 16)]
  }

  function EscapeChar(c: char): (s: string) {
    if c == '"' then "\\\""
    else if c == '\\' then "\\\\"
    else if c == '\n' then "\\n"
    else if c == '\r' then "\\r"
    else if c == '\t' then "\\t"
    else if c as int == 8 then "\\b"
    else if c as int == 12 then "\\f"
    else if (c as int) < 0x20 || c == '<' || c == '>' || c == '&' || c as int == 0x2028 || c as int == 0x2029 then
      UnicodeEscape(c as int)
    else [c]
  }

  function Escape(s: string): string {
    if s == "" then "" else EscapeChar(s[0]) + Escape(s[1..])
  }

  function Quote(s: string): string { "\"" + Escape(s) + "\"" }

  // ----- finding the end of a literal -----

  // What follows the literal whose body starts at s: a backslash hides the next character.
  function AfterLiteral(s: string): (r: Option<string>)
    ensures r.Some? ==> |r.value| < |s| && r.value == s[|s| - |r.value|..] && s[|s| - |r.value| - 1] == '"'
  {
    if s == "" then None
    else if s[0] == '\\' then (if |s| < 2 then None else AfterLiteral(s[2..]))
    else if s[0] == '"' then Some(s[1..])
    else AfterLiteral(s[1..])
  }

  // ----- reading: strconv.Unquote of a double-quoted text -----

  function HexVal(c: char): Option<nat> {
    if '0' <= c <= '9' then Some(c as int - '0' as int)
    else if 'a' <= c <= 'f' then Some(c as int - 'a' as int + 10)
    else if 'A' <= c <= 'F' then Some(c as int - 'A' as int + 10)
    else None
  }

  // The value of the digits of s in a base of at most 16.
  function BaseValue(s: string, base: nat): Option<nat> {
    if s == "" then Some(0)
    else
      var hi := BaseValue(s[..|s| - 1], base);
      var lo := HexVal(s[|s| - 1]);
      if hi.None? || lo.None? || lo.value >= base then None else Some(base * hi.value + lo.value)
  }

  predicate ValidRune(n: int) { 0 <= n < 0xD800 || 0xE000 <= n < 0x11_0000 }

  // A numeric escape whose digits are the first n characters of s. A byte escape names an ASCII
  // character here; bytes from 0x80 up are not characters and are refused.
  function NumericEscape(s: string, n: nat, base: nat, byte: bool): (r: Option<(char, string)>)
    ensures r.Some? ==> |r.value.1| <= |s|
  {
    if |s| < n then None
    else
      var v := BaseValue(s[..n], base);
      if v.None? || !ValidRune(v.value) || (byte && v.value >= 0x80) then None
      else Some((v.value as char, s[n..]))
  }

  // The character an escape stands for, given the text after the backslash.
  function UnescapeOne(s: string): (r: Option<(char, string)>)
    ensures r.Some? ==> |r.value.1| <= |s|
  {
    if s == "" then None
    else match s[0]
      case 'a' => Some((7 as char, s[1..]))
      case 'b' => Some((8 as char, s[1..]))
      case 'f' => Some((12 as char, s[1..]))
      case 'n' => Some(('\n', s[1..]))
      case 'r' => Some(('\r', s[1..]))
      case 't' => Some(('\t', s[1..]))
      case 'v' => Some((11 as char, s[1..]))
      case '\\' => Some(('\\', s[1..]))
      case '"' => Some(('"', s[1..]))
      case 'x' => NumericEscape(s[1..], 2, 16, true)
      case 'u' => NumericEscape(s[1..], 4, 16, false)
      case 'U' => NumericEscape(s[1..], 8, 16, false)
      case _ => if '0' <= s[0] <= '7' then NumericEscape(s, 3, 8, true) else None
  }

  function Unescape(s: string): Option<string>
    decreases |s|
  {
    if s == "" then Some("")
    else if s[0] == '"' || s[0] == '\n' then None
    else if s[0] == '\\' then
      var one := UnescapeOne(s[1..]);
      if one.None? then None
      else
        var rest := Unescape(one.value.1);
        if rest.None? then None else Some([one.value.0] + rest.value)
    else
      var rest := Unescape(s[1..]);
      if rest.None? then None else Some([s[0]] + rest.value)
  }

  // raw is a quote, a body and a closing quote.
  function Unquote(raw: string): Option<string>
    requires |raw| >= 2
  {
    Unescape(raw[1..|raw| - 1])
  }

  // ----- round trip -----

  lemma HexValOfDigit(n: nat)
    requires n < 16
    ensures HexVal(HexDigit(n)) == Some(n)
  {
  }

  lemma Base16Step(s: string, n: nat)
    requires |s| > 0 && n < 16 && s[|s| - 1] == HexDigit(n) && BaseValue(s[..|s| - 1], 16).Some?
    ensures BaseValue(s, 16) == Some(16 * BaseValue(s[..|s| - 1], 16).value + n)
  {
    HexValOfDigit(n);
  }

  lemma BaseValueOfEscape(n: nat)
    requires n < 0x10000
    ensures BaseValue(UnicodeEscape(n)[2..], 16) == Some(n)
  {
    var q := n / 16;
    var p := q / 16;
    var h := UnicodeEscape(n)[2..];
    assert h == [HexDigit(p / 16), HexDigit(p % 16), HexDigit(q % 16), HexDigit(n % 16)];
    HexPrefixes(h, p / 16, p % 16, q % 16, n % 16);
  }

  lemma HexPrefixes(h: string, a: nat, b: nat, c: nat, d: nat)
    requires a < 16 && b < 16 && c < 16 && d < 16
    requires h == [HexDigit(a), HexDigit(b), HexDigit(c), HexDigit(d)]
    ensures BaseValue(h, 16) == Some(16 * (16 * (16 * a + b) + c) + d)
  {
    assert h[..3][..2] == h[..2] && h[..2][..1] == h[..1] && h[..1][..0] == "";
    assert BaseValue("", 16) == Some(0);
    Base16Step(h[..1], a);
    Base16Step(h[..2], b);
    Base16Step(h[..3], c);
    Base16Step(h, d);
  }

  lemma UnescapeCons(s: string, c: char, rest: string)
    requires Unescape(rest).Some? && s != "" && s[0] != '"' && s[0] != '\n'
    requires if s[0] == '\\' then UnescapeOne(s[1..]) == Some((c, rest)) else c == s[0] && s[1..] == rest
    ensures Unescape(s) == Some([c] + Unescape(rest).value)
  {
  }

  lemma UnescapeShort(e: char, c: char, rest: string)
    requires Unescape(rest).Some? && UnescapeOne([e] + rest) == Some((c, rest))
    ensures Unescape(['\\', e] + rest) == Some([c] + Unescape(rest).value)
  {
    assert (['\\', e] + rest)[1..] == [e] + rest;
    UnescapeCons(['\\', e] + rest, c, rest);
  }

  lemma UnescapeUnicode(c: char, rest: string)
    requires Unescape(rest).Some? && (c as int) < 0x10000
    ensures Unescape(UnicodeEscape(c as int) + rest) == Some([c] + Unescape(rest).value)
  {
    var e := UnicodeEscape(c as int);
    var s := e + rest;
    BaseValueOfEscape(c as int);
    assert s[1..][1..][..4] == e[2..];
    assert s[1..][1..][4..] == rest;
    UnescapeCons(s, c, rest);
  }

  lemma ShortEscape(c: char, rest: string)
    requires |EscapeChar(c)| == 2
    ensures EscapeChar(c)[0] == '\\' && UnescapeOne([EscapeChar(c)[1]] + rest) == Some((c, rest))
  {
    var s := [EscapeChar(c)[1]] + rest;
    assert s[1..] == rest;
  }

  lemma PlainChar(c: char, rest: string)
    requires Unescape(rest).Some? && |EscapeChar(c)| == 1
    ensures Unescape(EscapeChar(c) + rest) == Some([c] + Unescape(rest).value)
  {
    assert EscapeChar(c) == [c];
    assert ([c] + rest)[1..] == rest;
    UnescapeCons([c] + rest, c, rest);
  }

  lemma ShortChar(c: char, rest: string)
    requires Unescape(rest).Some? && |EscapeChar(c)| == 2
    ensures Unescape(EscapeChar(c) + rest) == Some([c] + Unescape(rest).value)
  {
    ShortEscape(c, rest);
    UnescapeShort(EscapeChar(c)[1], c, rest);
    assert EscapeChar(c) == ['\\', EscapeChar(c)[1]];
  }

  lemma EscapeLengths(c: char)
    ensures |EscapeChar(c)| == 1 || |EscapeChar(c)| == 2
        || (EscapeChar(c) == UnicodeEscape(c as int) && |EscapeChar(c)| == 6)
  {
  }

  // Reading one written character gives it back and leaves the rest.
  lemma UnescapeChar(c: char, rest: string)
    requires Unescape(rest).Some?
    ensures Unescape(EscapeChar(c) + rest) == Some([c] + Unescape(rest).value)
  {
    EscapeLengths(c);
    if |EscapeChar(c)| == 1 {
      PlainChar(c, rest);
    } else if |EscapeChar(c)| == 2 {
      ShortChar(c, rest);
    } else {
      UnescapeUnicode(c, rest);
    }
  }

  lemma {:induction false} UnescapeEscape(s: string)
    ensures Unescape(Escape(s)) == Some(s)
  {
    if s != "" {
      UnescapeEscape(s[1..]);
      UnescapeChar(s[0], Escape(s[1..]));
      assert s == [s[0]] + s[1..];
    }
  }

  lemma AfterEscapedChar(c: char, rest: string)
    ensures AfterLiteral(EscapeChar(c) + rest) == AfterLiteral(rest)
  {
    var e := EscapeChar(c);
    var s := e + rest;
    if |e| == 1 {
      assert s[1..] == rest;
    } else if |e| == 2 {
      assert s[2..] == rest;
    } else {
      assert s[2..] == e[2..] + rest;
      AfterPlain(e[2..], rest);
    }
  }

  lemma {:induction false} AfterPlain(p: string, rest: string)
    requires '"' !in p && '\\' !in p
    ensures AfterLiteral(p + rest) == AfterLiteral(rest)
  {
    if p == "" {
      assert p + rest == rest;
    } else {
      assert (p + rest)[1..] == p[1..] + rest;
      AfterPlain(p[1..], rest);
    }
  }

  lemma {:induction false} AfterEscaped(s: string, rest: string)
    ensures AfterLiteral(Escape(s) + "\"" + rest) == Some(rest)
  {
    if s == "" {
      assert Escape(s) + "\"" + rest == "\"" + rest;
      assert ("\"" + rest)[1..] == rest;
    } else {
      AfterEscaped(s[1..], rest);
      AfterEscapedChar(s[0], Escape(s[1..]) + "\"" + rest);
      assert Escape(s) + "\"" + rest == EscapeChar(s[0]) + (Escape(s[1..]) + "\"" + rest);
    }
  }

  lemma UnquoteQuote(s: string)
    ensures Unquote(Quote(s)) == Some(s)
  {
    assert Quote(s)[1..|Quote(s)| - 1] == Escape(s);
    UnescapeEscape(s);
  }
}
