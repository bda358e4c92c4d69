// The filter parser itself: one object whose position advances over the text and rolls back after a
// keyword that does not match. Every method reads what the grammar in Filters reads from the rest of the text.
module FilterParsing {
  import opened Text
  import opened Numbers
  import opened Values
  import opened Literals
  import opened Paths
  import opened Filters

  // The token at a position ends where the scan for a delimiter stops.
  lemma {:induction false} TokenSpan(input: string, start: nat, end: nat)
    requires start <= end <= |input| && (end == |input| || IsDelimiter(input[end]))
    requires forall i :: start <= i < end ==> !IsDelimiter(input[i])
    ensures Token(input[start..]) == (input[start..end], input[end..])
    decreases end - start
  {
    if start < end {
      TokenSpan(input, start + 1, end);
      assert input[start..][1..] == input[start + 1..];
      assert input[start..end] == [input[start]] + input[start + 1..end];
    } else {
      assert input[start..end] == "";
    }
  }

  class FilterParser {
    const input: string
    var pos: nat

    constructor (s: string)
      ensures input == s && pos == 0
    {
      input, pos := s, 0;
    }

    // A failing literal can leave the position past the end, so this holds on success only.
    ghost predicate InRange()
      reads this
    {
      pos <= |input|
    }

    ghost function Rest(): string
      reads this
      requires InRange()
    {
      input[pos..]
    }

    // The outcome r agrees with the grammar, and the position is where the grammar stops.
    ghost predicate Follows(r: Option<Filter>, want: Parsed<Filter>)
      reads this
    {
      r.Some? == want.Some? && (r.Some? ==> InRange() && want.value == (r.value, Rest()))
    }

    ghost predicate FollowsValue(r: Option<Json>, want: Parsed<Json>)
      reads this
    {
      r.Some? == want.Some? && (r.Some? ==> InRange() && want.value == (r.value, Rest()))
    }

    // The next character is c.
    predicate At(c: char)
      requires InRange()
      reads this
      ensures At(c) == (Rest() != "" && Rest()[0] == c)
    {
      pos < |input| && input[pos] == c
    }

    method Advance()
      requires pos < |input|
      modifies this`pos
      ensures InRange() && Rest() == old(Rest())[1..]
    {
      pos := pos + 1;
    }

    method SkipWS()
      requires InRange()
      modifies this`pos
      ensures InRange() && old(pos) <= pos && Rest() == SkipBlanks(old(Rest()))
    {
      while pos < |input| && IsBlank(input[pos])
        invariant old(pos) <= pos <= |input|
        invariant SkipBlanks(input[pos..]) == SkipBlanks(old(Rest()))
      {
        assert input[pos..][1..] == input[pos + 1..];
        pos := pos + 1;
      }
    }

    method TokenText() returns (tok: string)
      requires InRange()
      modifies this`pos
      ensures InRange() && old(pos) <= pos && (tok, Rest()) == Token(old(Rest()))
    {
      var start := pos;
      while pos < |input| && !IsDelimiter(input[pos])
        invariant start <= pos <= |input|
        invariant forall i :: start <= i < pos ==> !IsDelimiter(input[i])
      {
        pos := pos + 1;
      }
      tok := input[start..pos];
      TokenSpan(input, start, pos);
    }

    method TryKeyword(kw: string) returns (matched: bool)
      requires InRange()
      modifies this`pos
      ensures InRange() && matched == MatchKeyword(old(Rest()), kw).Some?
      ensures if matched then Rest() == MatchKeyword(old(Rest()), kw).value && pos >= old(pos) + |kw|
              else pos == old(pos)
    {
      var saved := pos;
      SkipWS();
      if pos + |kw| > |input| {
        pos := saved;
        return false;
      }
      var candidate := input[pos..pos + |kw|];
      assert candidate == Rest()[..|kw|];
      if !EqualFold(candidate, kw) {
        pos := saved;
        return false;
      }
      var afterPos := pos + |kw|;
      assert input[afterPos..] == Rest()[|kw|..];
      if !WordBoundary(input[afterPos..]) && afterPos < |input| {
        if IsNameChar(input[afterPos]) {
          pos := saved;
          return false;
        }
      }
      pos := afterPos;
      SkipWS();
      matched := true;
    }

    method ReadOr() returns (r: Option<Filter>)
      requires InRange()
      modifies this`pos
      ensures Follows(r, ParseOr(old(Rest())))
      decreases |input| - pos, 7
    {
      var first := ReadAnd();
      if first.None? { return None; }
      var left := first.value;
      ghost var start := old(Rest());
      while true
        invariant InRange() && ParseOr(start) == OrRest(left, Rest())
        invariant |Rest()| <= |start|
        decreases |input| - pos
      {
        SkipWS();
        var found := TryKeyword("or");
        if !found { break; }
        var right := ReadAnd();
        if right.None? { return None; }
        left := Logical(left, Or, right.value);
      }
      r := Some(left);
    }

    method ReadAnd() returns (r: Option<Filter>)
      requires InRange()
      modifies this`pos
      ensures Follows(r, ParseAnd(old(Rest())))
      decreases |input| - pos, 5
    {
      var first := ReadNot();
      if first.None? { return None; }
      var left := first.value;
      ghost var start := old(Rest());
      while true
        invariant InRange() && ParseAnd(start) == AndRest(left, Rest())
        invariant |Rest()| <= |start|
        decreases |input| - pos
      {
        SkipWS();
        var found := TryKeyword("and");
        if !found { break; }
        var right := ReadNot();
        if right.None? { return None; }
        left := Logical(left, And, right.value);
      }
      r := Some(left);
    }

    method ReadNot() returns (r: Option<Filter>)
      requires InRange()
      modifies this`pos
      ensures Follows(r, ParseNot(old(Rest())))
      decreases |input| - pos, 4
    {
      SkipWS();
      var found := TryKeyword("not");
      if found {
        var inner := ReadGroup();
        if inner.None? { return None; }
        return Some(Not(inner.value));
      }
      r := ReadPrimary();
    }

    method ReadGroup() returns (r: Option<Filter>)
      requires InRange()
      modifies this`pos
      ensures Follows(r, ParseGroup(old(Rest())))
      decreases |input| - pos, 2
    {
      SkipWS();
      if !At('(') { return None; }
      Advance();
      r := ReadClosed(')');
    }

    method ReadPrimary() returns (r: Option<Filter>)
      requires InRange()
      modifies this`pos
      ensures Follows(r, ParsePrimary(old(Rest())))
      decreases |input| - pos, 3
    {
      SkipWS();
      if At('(') {
        Advance();
        r := ReadClosed(')');
        return;
      }
      r := ReadAttrOrValuePath();
    }

    // The text up to a closing bracket, which all three bracketed forms read the same way.
    method ReadClosed(c: char) returns (r: Option<Filter>)
      requires InRange()
      modifies this`pos
      ensures Follows(r, ParseClosed(old(Rest()), c))
      decreases |input| - pos, 8
    {
      r := ReadOr();
      if r.None? { return None; }
      SkipWS();
      if !At(c) { return None; }
      Advance();
    }

    method ReadAttrOrValuePath() returns (r: Option<Filter>)
      requires InRange()
      modifies this`pos
      ensures Follows(r, ParseAttrOrValuePath(old(Rest())))
      decreases |input| - pos, 2
    {
      var p := ReadAttrPath();
      if p.None? { return None; }
      SkipWS();
      if At('[') {
        Advance();
        var inner := ReadClosed(']');
        if inner.None? { return None; }
        return Some(ValuePath(p.value, inner.value));
      }
      r := ReadComparison(p.value);
    }

    method ReadAttrPath() returns (r: Option<AttributePath>)
      requires InRange()
      modifies this`pos
      ensures var want := ParseAttrPath(old(Rest()));
              r.Some? == want.Some? && (r.Some? ==> InRange() && want.value == (r.value, Rest()))
    {
      SkipWS();
      var raw := TokenText();
      if raw == "" { return None; }
      r := ParsePath(raw);
    }

    method ReadComparison(p: AttributePath) returns (r: Option<Filter>)
      requires InRange()
      modifies this`pos
      ensures Follows(r, ParseComparison(p, old(Rest())))
    {
      SkipWS();
      var tok := TokenText();
      var op := ParseOp(tok);
      if op.None? { return None; }
      if op.value == Pr { return Some(Compare(p, Pr, Null)); }
      SkipWS();
      var v := ReadValue();
      if v.None? { return None; }
      r := Some(Compare(p, op.value, v.value));
    }

    method ReadValue() returns (r: Option<Json>)
      requires InRange()
      modifies this`pos
      ensures FollowsValue(r, ParseValue(old(Rest())))
    {
      if pos >= |input| { return None; }
      var remaining := input[pos..];
      if input[pos] == '"' {
        r := ReadString();
      } else if "null" <= remaining {
        r := ReadWord("null", Null);
      } else if "true" <= remaining {
        r := ReadWord("true", Bool(true));
      } else if "false" <= remaining {
        r := ReadWord("false", Bool(false));
      } else if input[pos] == '-' || IsDigit(input[pos]) {
        r := ReadNumber();
      } else {
        r := None;
      }
    }

    method ReadWord(word: string, v: Json) returns (r: Option<Json>)
      requires InRange() && |word| <= |Rest()|
      modifies this`pos
      ensures FollowsValue(r, ParseWord(old(Rest()), word, v))
    {
      assert Rest()[|word|..] == input[pos + |word|..];
      if !WordBoundary(input[pos + |word|..]) { return None; }
      pos := pos + |word|;
      r := Some(v);
    }

    // Moves past the closing quote of the literal body at pos. A backslash hides the next character,
    // so the position can jump past the end of the text, but only when there is no closing quote.
    method SkipLiteral() returns (closed: bool)
      requires InRange()
      modifies this`pos
      ensures closed == AfterLiteral(old(Rest())).Some?
      ensures closed ==> InRange() && old(pos) < pos && Rest() == AfterLiteral(old(Rest())).value
      ensures pos <= |input| + 1
    {
      while pos < |input|
        invariant old(pos) <= pos <= |input| + 1
        invariant (if pos <= |input| then AfterLiteral(input[pos..]) else None) == AfterLiteral(old(Rest()))
        decreases |input| + 1 - pos
      {
        ghost var rest := input[pos..];
        if input[pos] == '\\' {
          assert |rest| >= 2 ==> rest[2..] == input[pos + 2..];
          assert AfterLiteral(rest) == if |rest| < 2 then None else AfterLiteral(rest[2..]);
          pos := pos + 2;
        } else if input[pos] == '"' {
          assert rest[1..] == input[pos + 1..];
          pos := pos + 1;
          return true;
        } else {
          assert rest[1..] == input[pos + 1..];
          assert AfterLiteral(rest) == AfterLiteral(rest[1..]);
          pos := pos + 1;
        }
      }
      closed := false;
    }

    method ReadString() returns (r: Option<Json>)
      requires InRange() && pos < |input| && input[pos] == '"'
      modifies this`pos
      ensures FollowsValue(r, ParseString(old(Rest())))
    {
      var start := pos;
      Advance();
      var closed := SkipLiteral();
      if !closed { return None; }
      var raw := input[start..pos];
      TextBetween(input, start, pos);
      var s := Unquote(raw);
      r := if s.None? then None else Some(Str(s.value));
    }

    method SkipDigits()
      requires InRange()
      modifies this`pos
      ensures InRange() && old(pos) <= pos && Rest() == TakeDigits(old(Rest())).1
    {
      while pos < |input| && IsDigit(input[pos])
        invariant old(pos) <= pos <= |input|
        invariant TakeDigits(input[pos..]).1 == TakeDigits(old(Rest())).1
      {
        assert input[pos..][1..] == input[pos + 1..];
        pos := pos + 1;
      }
    }

    method SkipFraction()
      requires InRange()
      modifies this`pos
      ensures InRange() && old(pos) <= pos && Rest() == TakeFraction(old(Rest())).1
    {
      if At('.') {
        Advance();
        SkipDigits();
      }
    }

    method SkipExponent()
      requires InRange()
      modifies this`pos
      ensures InRange() && old(pos) <= pos && Rest() == ScanExponent(false, "", "", old(Rest())).rest
    {
      if pos < |input| && (input[pos] == 'e' || input[pos] == 'E') {
        ghost var start := pos;
        pos := pos + 1;
        if pos < |input| && (input[pos] == '+' || input[pos] == '-') { pos := pos + 1; }
        assert Rest() == input[start..][pos - start..];
        SkipDigits();
      }
    }

    method SkipSign()
      requires InRange()
      modifies this`pos
      ensures InRange() && old(pos) <= pos
      ensures Rest() == if old(Rest()) != "" && old(Rest())[0] == '-' then old(Rest())[1..] else old(Rest())
    {
      if At('-') { Advance(); }
    }

    method NumberLiteral() returns (numStr: string)
      requires InRange()
      modifies this`pos
      ensures InRange() && Rest() == ScanNumber(old(Rest())).rest
      ensures old(pos) <= pos && numStr == input[old(pos)..pos]
    {
      var start := pos;
      ghost var s := Rest();
      SkipSign();
      ghost var s1 := Rest();
      SkipDigits();
      ghost var s2 := Rest();
      SkipFraction();
      NumberRest(s, s1, s2, Rest());
      SkipExponent();
      numStr := input[start..pos];
    }

    method ReadNumber() returns (r: Option<Json>)
      requires InRange()
      modifies this`pos
      ensures FollowsValue(r, ParseNumber(old(Rest())))
    {
      var numStr := NumberLiteral();
      TextBetween(input, old(pos), pos);
      NumberValue(old(Rest()), numStr);
      var f := ParseFloat(numStr);
      r := if f.None? then None else Some(Num(f.value));
    }
  }

  lemma TextBetween(input: string, start: nat, pos: nat)
    requires start <= pos <= |input|
    ensures input[start..pos] == input[start..][..|input[start..]| - |input[pos..]|]
  {
  }

  lemma NumberValue(s: string, numStr: string)
    requires numStr == s[..|s| - |ScanNumber(s).rest|]
    ensures ParseNumber(s)
            == if ParseFloat(numStr).None? then None else Some((Num(ParseFloat(numStr).value), ScanNumber(s).rest))
  {
  }

  // Skipping the sign, the digits, the fraction and the exponent in turn skips the number.
  lemma NumberRest(s: string, s1: string, s2: string, s3: string)
    requires s1 == if s != "" && s[0] == '-' then s[1..] else s
    requires s2 == TakeDigits(s1).1 && s3 == TakeFraction(s2).1
    ensures ScanNumber(s).rest == ScanExponent(false, "", "", s3).rest
  {
  }

  method Parse(s: string) returns (r: Option<Filter>)
    ensures r == ParseFilter(s)
  {
    var p := new FilterParser(s);
    assert s[0..] == s;
    var expr := p.ReadOr();
    if expr.None? { return None; }
    p.SkipWS();
    if p.pos != |p.input| { return None; }
    r := expr;
  }
}
