// What the proxy prints, the parser reads back; what the parser returns can be printed; and chains of
// and/or group to the left with `and` binding tighter.
module FilterRoundTrip {
  import opened Text
  import opened Numbers
  import opened Values
  import opened Literals
  import opened Paths
  import opened Filters

  // A text that may follow a complete expression.
  predicate Follow(rest: string) {
    rest == "" || IsBlank(rest[0]) || rest[0] == ')' || rest[0] == ']'
  }

  // ----- tokens and keywords -----

  lemma {:induction false} TokenSplit(tok: string, rest: string)
    requires NoDelimiters(tok) && (rest == "" || IsDelimiter(rest[0]))
    ensures Token(tok + rest) == (tok, rest)
  {
    if tok == "" {
      assert tok + rest == rest;
    } else {
      TokenSplit(tok[1..], rest);
      assert (tok + rest)[1..] == tok[1..] + rest;
      assert tok == [tok[0]] + tok[1..];
    }
  }

  predicate Blanks(s: string) { forall i :: 0 <= i < |s| ==> IsBlank(s[i]) }

  lemma NotBlank(s: string)
    requires s == "" || !IsBlank(s[0])
    ensures SkipBlanks(s) == s
  {
  }

  lemma {:induction false} SkipBlanksBefore(blanks: string, s: string)
    requires Blanks(blanks) && (s == "" || !IsBlank(s[0]))
    ensures SkipBlanks(blanks + s) == s
  {
    if blanks == "" {
      assert blanks + s == s;
      NotBlank(s);
    } else {
      assert (blanks + s)[0] == blanks[0] && (blanks + s)[1..] == blanks[1..] + s;
      SkipBlanksBefore(blanks[1..], s);
    }
  }

  lemma SplitAfter(a: string, b: string)
    ensures (a + b)[..|a|] == a && (a + b)[|a|..] == b && (a != "" ==> (a + b)[0] == a[0])
  {
  }

  // A keyword in any casing, with blanks before and after it.
  lemma KeywordSpelled(kw: string, before: string, word: string, after: string, u: string)
    requires Blanks(before) && Blanks(after) && after != "" && EqualFold(word, kw)
    requires word != "" && !IsBlank(word[0]) && u != "" && !IsBlank(u[0])
    ensures MatchKeyword(before + (word + (after + u)), kw) == Some(u)
  {
    var rest := after + u;
    SplitAfter(word, rest);
    SplitAfter(after, u);
    SkipBlanksBefore(before, word + rest);
    SkipBlanksBefore(after, u);
    assert |Lower(word)| == |Lower(kw)|;
    assert WordBoundary(rest);
  }

  lemma KeywordRead(kw: string, u: string)
    requires kw != "" && !IsBlank(kw[0]) && u != "" && !IsBlank(u[0])
    ensures MatchKeyword(kw + " " + u, kw) == Some(u)
  {
    KeywordSpelled(kw, "", kw, " ", u);
    assert "" + (kw + (" " + u)) == kw + " " + u;
  }

  lemma NoKeyword(s: string, kw: string)
    requires kw != ""
    requires s == "" || (!IsBlank(s[0]) && LowerChar(s[0]) != LowerChar(kw[0]))
    ensures MatchKeyword(s, kw) == None
  {
    if |kw| <= |s| {
      assert Lower(s[..|kw|])[0] == LowerChar(s[0]);
      assert Lower(kw)[0] == LowerChar(kw[0]);
    }
  }

  lemma NoNotWhenNameEnds(name: string, rest: string)
    requires ValidName(name) && !EqualFold(name, "not")
    requires rest != "" && !IsAlpha(rest[0])
    ensures MatchKeyword(name + rest, "not") == None
  {
    var s := name + rest;
    if |name| >= 4 {
      assert s[3..][0] == name[3];
    } else if |name| == 3 {
      assert s[..3] == name;
    } else if |s| >= 3 {
      var i := |name|;
      assert Lower(s[..3])[i] == LowerChar(rest[0]) == rest[0];
      assert IsAlpha(Lower("not")[i]);
    }
  }

  lemma PathIsNotKeyword(p: AttributePath, rest: string)
    requires FilterPath(p) && rest != "" && IsDelimiter(rest[0])
    ensures MatchKeyword(PathText(p) + rest, "not") == None
  {
    FirstChar(p);
    if p.schema == "" {
      var tail := (if p.sub == "" then "" else "." + p.sub) + rest;
      assert PathText(p) + rest == p.name + tail;
      NoNotWhenNameEnds(p.name, tail);
    } else {
      NoKeyword(PathText(p) + rest, "not");
    }
  }

  lemma PathHasNoDelimiters(p: AttributePath)
    requires FilterPath(p)
    ensures NoDelimiters(PathText(p))
  {
  }

  lemma PathRead(p: AttributePath, rest: string)
    requires FilterPath(p) && (rest == "" || IsDelimiter(rest[0]))
    ensures ParseAttrPath(PathText(p) + rest) == Some((p, rest))
  {
    FirstChar(p);
    PathHasNoDelimiters(p);
    TokenSplit(PathText(p), rest);
    ParsePathText(p);
  }

  // ----- operators and values -----

  lemma OpRead(op: CompareOp)
    ensures ParseOp(OpText(op)) == Some(op) && NoDelimiters(OpText(op)) && |OpText(op)| == 2
  {
    assert Lower(OpText(op)) == OpText(op);
  }

  lemma StringRead(s: string, rest: string)
    ensures ParseString(Quote(s) + rest) == Some((Str(s), rest))
  {
    var t := Quote(s) + rest;
    assert t[1..] == Escape(s) + "\"" + rest;
    AfterEscaped(s, rest);
    assert t[..|t| - |rest|] == Quote(s);
    UnquoteQuote(s);
  }

  lemma NumberRead(d: Decimal, rest: string)
    requires d.Canonical() && Follow(rest)
    ensures ParseNumber(FormatNumber(d) + rest) == Some((Num(d), rest))
  {
    var t := FormatNumber(d) + rest;
    ScanPrinted(d, rest);
    assert t[..|t| - |rest|] == FormatNumber(d);
    ParsePrinted(d);
  }

  lemma NumberStart(d: Decimal)
    ensures FormatNumber(d) != "" && (FormatNumber(d)[0] == '-' || IsDigit(FormatNumber(d)[0]))
  {
    var ints, fracs := FormatParts(d);
  }

  lemma WordRead(word: string, v: Json, rest: string)
    requires Follow(rest)
    ensures ParseWord(word + rest, word, v) == Some((v, rest))
  {
    assert (word + rest)[|word|..] == rest;
  }

  lemma StringDispatch(s: string)
    requires s != "" && s[0] == '"'
    ensures ParseValue(s) == ParseString(s)
  {
  }

  lemma NumberDispatch(s: string)
    requires s != "" && (s[0] == '-' || IsDigit(s[0]))
    ensures ParseValue(s) == ParseNumber(s)
  {
    assert !("null" <= s) && !("true" <= s) && !("false" <= s);
  }

  lemma WordDispatch(s: string)
    ensures "null" <= s ==> ParseValue(s) == ParseWord(s, "null", Null)
    ensures "true" <= s ==> ParseValue(s) == ParseWord(s, "true", Bool(true))
    ensures "false" <= s ==> ParseValue(s) == ParseWord(s, "false", Bool(false))
  {
  }

  lemma ValueRead(v: Json, rest: string)
    requires Literal(v) && Follow(rest)
    ensures ParseValue(ValueText(v) + rest) == Some((v, rest))
  {
    match v
    case Str(x) =>
      StringDispatch(Quote(x) + rest);
      StringRead(x, rest);
    case Num(d) =>
      NumberStart(d);
      NumberDispatch(FormatNumber(d) + rest);
      NumberRead(d, rest);
    case _ =>
      WordDispatch(ValueText(v) + rest);
      WordRead(ValueText(v), v, rest);
  }

  lemma ValueStart(v: Json)
    requires Literal(v)
    ensures ValueText(v) != "" && !IsBlank(ValueText(v)[0])
  {
    if v.Num? { NumberStart(v.n); }
  }

  lemma ComparisonRead(p: AttributePath, op: CompareOp, v: Json, rest: string)
    requires op != Pr && Literal(v) && Follow(rest)
    ensures ParseComparison(p, OpText(op) + (" " + (ValueText(v) + rest))) == Some((Compare(p, op, v), rest))
  {
    var u := ValueText(v) + rest;
    OpRead(op);
    assert OpText(op) != "" && !IsBlank(OpText(op)[0]);
    TokenSplit(OpText(op), " " + u);
    ValueStart(v);
    ValueRead(v, rest);
    assert (" " + u)[1..] == u;
    assert SkipBlanks(" " + u) == u;
    OperatorDispatch(p, OpText(op) + (" " + u), OpText(op), " " + u);
  }

  lemma OperatorDispatch(p: AttributePath, s: string, tok: string, rest: string)
    requires s != "" && !IsBlank(s[0]) && Token(s) == (tok, rest) && ParseOp(tok).Some? && ParseOp(tok) != Some(Pr)
    ensures var v := ParseValue(SkipBlanks(rest));
            ParseComparison(p, s) == if v.None? then None
              else Some((Compare(p, ParseOp(tok).value, v.value.0), v.value.1))
  {
  }

  lemma PresentRead(p: AttributePath, rest: string)
    requires Follow(rest)
    ensures ParseComparison(p, "pr" + rest) == Some((Compare(p, Pr, Null), rest))
  {
    OpRead(Pr);
    PresentToken(rest);
    PresentDispatch(p, "pr" + rest, rest);
  }

  lemma PresentToken(rest: string)
    requires Follow(rest)
    ensures Token("pr" + rest) == ("pr", rest) && ("pr" + rest)[0] == 'p'
  {
    TokenSplit("pr", rest);
  }

  lemma PresentDispatch(p: AttributePath, s: string, rest: string)
    requires s != "" && !IsBlank(s[0]) && Token(s) == ("pr", rest) && ParseOp("pr") == Some(Pr)
    ensures ParseComparison(p, s) == Some((Compare(p, Pr, Null), rest))
  {
    assert SkipBlanks(s) == s;
  }

  // ----- connectives -----

  // A connective as it may be written: in any casing, between blanks.
  datatype Joint = Joint(before: string, word: string, after: string)

  predicate Spells(j: Joint, kw: string) {
    j.before != "" && Blanks(j.before) && EqualFold(j.word, kw) && j.after != "" && Blanks(j.after)
  }

  function JointText(j: Joint, u: string): string { j.before + (j.word + (j.after + u)) }

  // As printed.
  function Plain(kw: string): Joint { Joint(" ", kw, " ") }

  lemma PlainText(kw: string, u: string)
    ensures JointText(Plain(kw), u) == " " + kw + " " + u
    ensures Spells(Plain("and"), "and") && Spells(Plain("or"), "or")
  {
  }

  lemma PrintedAnd(u: string)
    ensures JointText(Plain("and"), u) == " and " + u
  {
    PlainText("and", u);
    assert " " + "and" + " " == " and ";
  }

  lemma JointStart(j: Joint, kw: string, u: string)
    requires Spells(j, kw) && (kw == "and" || kw == "or")
    ensures j.word != "" && LowerChar(j.word[0]) == kw[0] && !IsBlank(j.word[0])
    ensures SkipBlanks(JointText(j, u)) == j.word + (j.after + u)
    ensures JointText(j, u) != "" && IsBlank(JointText(j, u)[0])
  {
    assert Lower(j.word) == Lower(kw) == kw;
    assert Lower(j.word)[0] == kw[0];
    SkipBlanksBefore(j.before, j.word + (j.after + u));
  }

  lemma JointRead(j: Joint, kw: string, u: string)
    requires Spells(j, kw) && (kw == "and" || kw == "or") && u != "" && !IsBlank(u[0])
    ensures MatchKeyword(SkipBlanks(JointText(j, u)), kw) == Some(u)
  {
    JointStart(j, kw, u);
    KeywordSpelled(kw, "", j.word, j.after, u);
    assert "" + (j.word + (j.after + u)) == j.word + (j.after + u);
  }

  lemma AndStep(left: Filter, j: Joint, u: string, right: Filter, rest: string)
    requires Spells(j, "and") && u != "" && !IsBlank(u[0]) && ParseNot(u) == Some((right, rest))
    ensures AndRest(left, JointText(j, u)) == AndRest(Logical(left, And, right), rest)
  {
    JointRead(j, "and", u);
  }

  lemma OrStep(left: Filter, j: Joint, u: string, right: Filter, rest: string)
    requires Spells(j, "or") && u != "" && !IsBlank(u[0]) && ParseAnd(u) == Some((right, rest))
    ensures OrRest(left, SkipBlanks(JointText(j, u))) == OrRest(Logical(left, Or, right), rest)
  {
    JointRead(j, "or", u);
    NotBlank(SkipBlanks(JointText(j, u)));
  }

  // A text where a chain of `and` stops: its end, a closing bracket or an `or`.
  predicate EndsAnd(rest: string) {
    var t := SkipBlanks(rest);
    Follow(rest) && (t == "" || LowerChar(t[0]) != 'a')
  }

  lemma AndStop(left: Filter, rest: string)
    requires EndsAnd(rest)
    ensures AndRest(left, rest) == Some((left, SkipBlanks(rest)))
  {
    NoKeyword(SkipBlanks(rest), "and");
  }

  // A single expression before a closing bracket or the end.
  lemma Alone(s: string, e: Filter, rest: string)
    requires ParseNot(s) == Some((e, rest)) && (rest == "" || rest[0] == ')' || rest[0] == ']')
    ensures ParseOr(s) == Some((e, rest))
  {
    NotBlank(rest);
    AndStop(e, rest);
    NoKeyword(rest, "or");
  }

  // Two expressions and a connective before a closing bracket.
  lemma Pair(s: string, l: Filter, op: LogicalOp, u: string, r: Filter, rest: string)
    requires ParseNot(s) == Some((l, LogicalText(op) + u)) && ParseNot(u) == Some((r, rest))
    requires u != "" && !IsBlank(u[0]) && rest != "" && rest[0] == ')'
    ensures ParseOr(s) == Some((Logical(l, op, r), rest))
  {
    NotBlank(rest);
    AndStop(r, rest);
    NoKeyword(rest, "or");
    if op == And {
      PairAnd(l, u, r, rest);
    } else {
      PairOr(l, u, r, rest);
    }
  }

  lemma LastStop(e: Filter, rest: string)
    requires rest != "" && rest[0] == ')'
    ensures AndRest(e, rest) == Some((e, rest))
  {
    NotBlank(rest);
    AndStop(e, rest);
  }

  lemma PairAnd(l: Filter, u: string, r: Filter, rest: string)
    requires ParseNot(u) == Some((r, rest)) && u != "" && !IsBlank(u[0]) && rest != "" && rest[0] == ')'
    ensures AndRest(l, " and " + u) == Some((Logical(l, And, r), rest))
  {
    PrintedAnd(u);
    PlainText("and", u);
    AndStep(l, Plain("and"), u, r, rest);
    LastStop(Logical(l, And, r), rest);
  }

  lemma PairOr(l: Filter, u: string, r: Filter, rest: string)
    requires ParseAnd(u) == Some((r, rest)) && u != "" && !IsBlank(u[0]) && rest != "" && rest[0] == ')'
    ensures AndRest(l, " or " + u) == Some((l, SkipBlanks(" or " + u)))
    ensures OrRest(l, SkipBlanks(" or " + u)) == Some((Logical(l, Or, r), rest))
  {
    PlainText("or", u);
    JointStart(Plain("or"), "or", u);
    AndStop(l, " or " + u);
    OrStep(l, Plain("or"), u, r, rest);
    NotBlank(rest);
    NoKeyword(rest, "or");
  }

  lemma Closed(s: string, e: Filter, c: char, rest: string)
    requires ParseOr(s) == Some((e, [c] + rest)) && !IsBlank(c)
    ensures ParseClosed(s, c) == Some((e, rest))
  {
    assert ([c] + rest)[1..] == rest;
  }

  lemma TextStart(e: Filter)
    requires WellFormed(e)
    ensures FilterText(e) != "" && !IsBlank(FilterText(e)[0])
  {
    if e.Compare? || e.ValuePath? { FirstChar(e.path); }
  }

  // ----- the round trip -----

  // Wherever an expression may stand, its printed text reads back as that expression.
  lemma {:induction false} ReadBack(e: Filter, rest: string)
    requires WellFormed(e) && Follow(rest)
    ensures ParseNot(FilterText(e) + rest) == Some((e, rest))
    decreases e
  {
    match e
    case Compare(p, op, v) => ReadComparison(p, op, v, rest);
    case Logical(l, op, r) =>
      var u := FilterText(r) + (")" + rest);
      ReadBack(l, LogicalText(op) + u);
      ReadBack(r, ")" + rest);
      ReadLogical(l, op, r, rest);
      LogicalTextIs(l, op, r, rest);
    case Not(f) =>
      ReadBack(f, ")" + rest);
      ReadNegation(f, rest);
    case ValuePath(p, f) =>
      ReadBack(f, "]" + rest);
      ReadValuePath(p, f, rest);
  }

  // Which rule reads a text that starts with an attribute path.
  lemma PathDispatch(s: string, p: AttributePath, rest: string)
    requires s != "" && IsAlpha(s[0]) && MatchKeyword(s, "not") == None && ParseAttrPath(s) == Some((p, rest))
    ensures var t := SkipBlanks(rest);
            ParseNot(s) == if t != "" && t[0] == '[' then
                             (var f := ParseClosed(t[1..], ']');
                              if f.None? then None else Some((ValuePath(p, f.value.0), f.value.1)))
                           else ParseComparison(p, t)
  {
    assert ParseNot(s) == ParsePrimary(s) == ParseAttrOrValuePath(s);
  }

  lemma GroupDispatch(body: string)
    ensures ParseNot("(" + body) == ParseClosed(body, ')')
  {
    var s := "(" + body;
    assert s[1..] == body;
    NoKeyword(s, "not");
    assert ParseNot(s) == ParsePrimary(s);
  }

  lemma ReadComparison(p: AttributePath, op: CompareOp, v: Json, rest: string)
    requires WellFormed(Compare(p, op, v)) && Follow(rest)
    ensures ParseNot(FilterText(Compare(p, op, v)) + rest) == Some((Compare(p, op, v), rest))
  {
    var tail := ComparisonTail(op, v, rest);
    var s := PathText(p) + (" " + tail);
    ComparisonTextIs(p, op, v, rest);
    FirstChar(p);
    PathIsNotKeyword(p, " " + tail);
    PathRead(p, " " + tail);
    PathDispatch(s, p, " " + tail);
    OpStart(op, tail);
    if op == Pr { PresentRead(p, rest); } else { ComparisonRead(p, op, v, rest); }
  }

  function ComparisonTail(op: CompareOp, v: Json, rest: string): string {
    if op == Pr then "pr" + rest else OpText(op) + (" " + (ValueText(v) + rest))
  }

  lemma ComparisonTextIs(p: AttributePath, op: CompareOp, v: Json, rest: string)
    ensures FilterText(Compare(p, op, v)) + rest == PathText(p) + (" " + ComparisonTail(op, v, rest))
  {
    assert (" " + "pr") + rest == " " + ("pr" + rest);
  }

  lemma OpStart(op: CompareOp, tail: string)
    requires OpText(op) <= tail
    ensures SkipBlanks(" " + tail) == tail && tail != "" && tail[0] != '['
  {
    assert (" " + tail)[1..] == tail;
    assert tail[0] == OpText(op)[0];
  }

  function LogicalBody(l: Filter, op: LogicalOp, r: Filter, rest: string): string {
    FilterText(l) + (LogicalText(op) + (FilterText(r) + (")" + rest)))
  }

  lemma LogicalTextIs(l: Filter, op: LogicalOp, r: Filter, rest: string)
    ensures FilterText(Logical(l, op, r)) + rest == "(" + LogicalBody(l, op, r, rest)
  {
    RegroupSix("(", FilterText(l), LogicalText(op), FilterText(r), ")", rest);
  }

  lemma RegroupSix(a: string, b: string, c: string, d: string, e: string, f: string)
    ensures a + b + c + d + e + f == a + (b + (c + (d + (e + f))))
  {
  }

  lemma ReadLogical(l: Filter, op: LogicalOp, r: Filter, rest: string)
    requires WellFormed(l) && WellFormed(r)
    requires var u := FilterText(r) + (")" + rest);
             ParseNot(LogicalBody(l, op, r, rest)) == Some((l, LogicalText(op) + u))
               && ParseNot(u) == Some((r, ")" + rest))
    ensures ParseNot("(" + LogicalBody(l, op, r, rest)) == Some((Logical(l, op, r), rest))
  {
    var u := FilterText(r) + (")" + rest);
    var body := LogicalBody(l, op, r, rest);
    TextStart(r);
    Pair(body, l, op, u, r, ")" + rest);
    Closed(body, Logical(l, op, r), ')', rest);
    GroupDispatch(body);
  }

  lemma NotDispatch(s: string, body: string)
    requires s != "" && !IsBlank(s[0]) && MatchKeyword(s, "not") == Some("(" + body)
    ensures var inner := ParseClosed(body, ')');
            ParseNot(s) == if inner.None? then None else Some((Not(inner.value.0), inner.value.1))
  {
    assert ("(" + body)[1..] == body;
    assert SkipBlanks(s) == s;
  }

  lemma NegationText(f: Filter, rest: string)
    ensures FilterText(Not(f)) + rest == "not" + " " + ("(" + (FilterText(f) + (")" + rest)))
  {
  }

  lemma ReadNegation(f: Filter, rest: string)
    requires ParseNot(FilterText(f) + (")" + rest)) == Some((f, ")" + rest))
    ensures ParseNot(FilterText(Not(f)) + rest) == Some((Not(f), rest))
  {
    var body := FilterText(f) + (")" + rest);
    NegationText(f, rest);
    Alone(body, f, ")" + rest);
    Closed(body, f, ')', rest);
    KeywordRead("not", "(" + body);
    NotDispatch("not" + " " + ("(" + body), body);
  }

  lemma ValuePathText(p: AttributePath, f: Filter, rest: string)
    ensures FilterText(ValuePath(p, f)) + rest == PathText(p) + ("[" + (FilterText(f) + ("]" + rest)))
  {
  }

  lemma BracketDispatch(s: string, p: AttributePath, body: string)
    requires s != "" && IsAlpha(s[0]) && MatchKeyword(s, "not") == None && ParseAttrPath(s) == Some((p, "[" + body))
    ensures var f := ParseClosed(body, ']');
            ParseNot(s) == if f.None? then None else Some((ValuePath(p, f.value.0), f.value.1))
  {
    assert ("[" + body)[1..] == body;
    PathDispatch(s, p, "[" + body);
  }

  lemma ReadValuePath(p: AttributePath, f: Filter, rest: string)
    requires FilterPath(p) && ParseNot(FilterText(f) + ("]" + rest)) == Some((f, "]" + rest))
    ensures ParseNot(FilterText(ValuePath(p, f)) + rest) == Some((ValuePath(p, f), rest))
  {
    var body := FilterText(f) + ("]" + rest);
    ValuePathText(p, f, rest);
    Alone(body, f, "]" + rest);
    Closed(body, f, ']', rest);
    FirstChar(p);
    PathIsNotKeyword(p, "[" + body);
    PathRead(p, "[" + body);
    BracketDispatch(PathText(p) + ("[" + body), p, body);
  }

  // Printing then parsing gives back the same tree.
  lemma PrintParse(e: Filter)
    requires WellFormed(e)
    ensures ParseFilter(FilterText(e)) == Some(e)
  {
    ReadBack(e, "");
    assert FilterText(e) + "" == FilterText(e);
    Alone(FilterText(e), e, "");
  }

  // ----- what the parser returns -----

  // A token that is the name `not`, alone or before a dot, reads as the keyword.
  lemma NotIsKeyword(name: string, rest: string)
    requires EqualFold(name, "not") && (rest == "" || !IsNameChar(rest[0])) && IsAlpha(name[0])
    ensures MatchKeyword(name + rest, "not").Some?
  {
    var s := name + rest;
    assert |name| == |Lower("not")| == 3;
    assert s[0] == name[0];
    assert s[..3] == name && s[3..] == rest;
  }

  // What a path without a schema prints after its name.
  lemma NameFirst(p: AttributePath, rest: string)
    requires p.schema == ""
    ensures PathText(p) + rest == p.name + ((if p.sub == "" then "" else "." + p.sub) + rest)
  {
  }

  lemma NotAPath(p: AttributePath, rest: string)
    requires ValidPath(p) && p.schema == "" && EqualFold(p.name, "not") && (rest == "" || !IsNameChar(rest[0]))
    ensures MatchKeyword(PathText(p) + rest, "not").Some?
  {
    var after := (if p.sub == "" then "" else "." + p.sub) + rest;
    NameFirst(p, rest);
    assert p.sub == "" ==> after == rest;
    NotIsKeyword(p.name, after);
  }

  lemma SchemaOfToken(p: AttributePath, tok: string)
    requires PathText(p) == tok && NoDelimiters(tok)
    ensures NoDelimiters(p.schema)
  {
    assert forall i :: 0 <= i < |p.schema| ==> p.schema[i] == tok[i];
  }

  lemma TokenPath(tok: string, rest: string)
    requires NoDelimiters(tok) && (rest == "" || !IsNameChar(rest[0]))
    requires ParsePath(tok).Some? && MatchKeyword(tok + rest, "not") == None
    ensures FilterPath(ParsePath(tok).value)
  {
    var p := ParsePath(tok).value;
    PathTextOfParse(tok);
    SchemaOfToken(p, tok);
    if p.schema == "" && EqualFold(p.name, "not") { NotAPath(p, rest); }
  }

  lemma ParsedPath(s: string)
    requires ParseAttrPath(s).Some? && (s == "" || !IsBlank(s[0])) && MatchKeyword(s, "not") == None
    ensures FilterPath(ParseAttrPath(s).value.0)
  {
    var (tok, rest) := Token(s);
    TokenPath(tok, rest);
  }

  lemma ParsedValue(s: string)
    requires ParseValue(s).Some?
    ensures Literal(ParseValue(s).value.0)
  {
  }

  lemma {:induction false} ParsedOr(s: string)
    requires ParseOr(s).Some?
    ensures WellFormed(ParseOr(s).value.0)
    decreases |s|, 7
  {
    ParsedAnd(s);
    ParsedOrRest(ParseAnd(s).value.0, ParseAnd(s).value.1);
  }

  lemma {:induction false} ParsedOrRest(left: Filter, s: string)
    requires WellFormed(left) && OrRest(left, s).Some?
    ensures WellFormed(OrRest(left, s).value.0)
    decreases |s|, 6
  {
    var u := MatchKeyword(SkipBlanks(s), "or");
    if u.Some? {
      ParsedAnd(u.value);
      var right := ParseAnd(u.value).value;
      ParsedOrRest(Logical(left, Or, right.0), right.1);
    }
  }

  lemma {:induction false} ParsedAnd(s: string)
    requires ParseAnd(s).Some?
    ensures WellFormed(ParseAnd(s).value.0)
    decreases |s|, 5
  {
    ParsedNot(s);
    ParsedAndRest(ParseNot(s).value.0, ParseNot(s).value.1);
  }

  lemma {:induction false} ParsedAndRest(left: Filter, s: string)
    requires WellFormed(left) && AndRest(left, s).Some?
    ensures WellFormed(AndRest(left, s).value.0)
    decreases |s|, 4
  {
    var u := MatchKeyword(SkipBlanks(s), "and");
    if u.Some? {
      ParsedNot(u.value);
      var right := ParseNot(u.value).value;
      ParsedAndRest(Logical(left, And, right.0), right.1);
    }
  }

  lemma {:induction false} ParsedNot(s: string)
    requires ParseNot(s).Some?
    ensures WellFormed(ParseNot(s).value.0)
    decreases |s|, 3
  {
    var t := SkipBlanks(s);
    var u := MatchKeyword(t, "not");
    if u.Some? {
      var body := SkipBlanks(u.value)[1..];
      ClosedIsOr(body, ')');
      ParsedOr(body);
    } else if t != "" && t[0] == '(' {
      ClosedIsOr(t[1..], ')');
      ParsedOr(t[1..]);
    } else {
      ParsedAttr(t);
    }
  }

  lemma ClosedIsOr(s: string, c: char)
    requires ParseClosed(s, c).Some?
    ensures ParseOr(s).Some? && ParseClosed(s, c).value.0 == ParseOr(s).value.0
  {
  }

  lemma {:induction false} ParsedAttr(t: string)
    requires ParseAttrOrValuePath(t).Some? && (t == "" || !IsBlank(t[0])) && MatchKeyword(t, "not") == None
    ensures WellFormed(ParseAttrOrValuePath(t).value.0)
    decreases |t|, 1
  {
    ParsedPath(t);
    var p := ParseAttrPath(t).value;
    var v := SkipBlanks(p.1);
    if v != "" && v[0] == '[' {
      ClosedIsOr(v[1..], ']');
      ParsedOr(v[1..]);
    } else {
      ParsedComparison(p.0, v);
    }
  }

  lemma ParsedComparison(p: AttributePath, s: string)
    requires FilterPath(p) && ParseComparison(p, s).Some?
    ensures WellFormed(ParseComparison(p, s).value.0)
  {
    var rest := Token(SkipBlanks(s)).1;
    if ParseValue(SkipBlanks(rest)).Some? { ParsedValue(SkipBlanks(rest)); }
  }

  // The well-formed trees are exactly those the parser can return.
  lemma PrintableLanguage(e: Filter)
    ensures WellFormed(e) <==> exists s :: ParseFilter(s) == Some(e)
  {
    if WellFormed(e) { PrintParse(e); }
    forall s | ParseFilter(s) == Some(e) ensures WellFormed(e) { ParsedOr(s); }
  }

  // Every accepted text can be printed and parsed again with the same result.
  lemma ParsePrintParse(s: string)
    requires ParseFilter(s).Some?
    ensures ParseFilter(FilterText(ParseFilter(s).value)) == ParseFilter(s)
  {
    ParsedOr(s);
    PrintParse(ParseFilter(s).value);
  }

  // ----- precedence and associativity -----

  // Members of a chain of `and`, and groups of a chain of `or`, each with the connective before it.
  datatype Link = Link(joint: Joint, e: Filter)

  datatype Group = Group(first: Filter, links: seq<Link>)

  datatype Branch = Branch(joint: Joint, group: Group)

  predicate GoodLinks(links: seq<Link>) {
    forall i :: 0 <= i < |links| ==> Spells(links[i].joint, "and") && WellFormed(links[i].e)
  }

  predicate GoodGroup(g: Group) { WellFormed(g.first) && GoodLinks(g.links) }

  predicate GoodBranches(bs: seq<Branch>) {
    forall i :: 0 <= i < |bs| ==> Spells(bs[i].joint, "or") && GoodGroup(bs[i].group)
  }

  // The texts, each before a rest.
  function AndText(links: seq<Link>, rest: string): string {
    if links == [] then rest else JointText(links[0].joint, FilterText(links[0].e) + AndText(links[1..], rest))
  }

  function GroupText(g: Group, rest: string): string { FilterText(g.first) + AndText(g.links, rest) }

  function OrText(bs: seq<Branch>, rest: string): string {
    if bs == [] then rest else JointText(bs[0].joint, GroupText(bs[0].group, OrText(bs[1..], rest)))
  }

  // The trees: left folds.
  function AndTree(left: Filter, links: seq<Link>): Filter
    decreases |links|
  {
    if links == [] then left else AndTree(Logical(left, And, links[0].e), links[1..])
  }

  function GroupTree(g: Group): Filter { AndTree(g.first, g.links) }

  function OrTree(left: Filter, bs: seq<Branch>): Filter
    decreases |bs|
  {
    if bs == [] then left else OrTree(Logical(left, Or, GroupTree(bs[0].group)), bs[1..])
  }

  lemma AndTextFollows(links: seq<Link>, rest: string)
    requires GoodLinks(links) && Follow(rest)
    ensures Follow(AndText(links, rest))
  {
    if links != [] { JointStart(links[0].joint, "and", FilterText(links[0].e) + AndText(links[1..], rest)); }
  }

  // A printed expression at the start of a text.
  lemma MemberRead(e: Filter, tail: string)
    requires WellFormed(e) && Follow(tail)
    ensures var u := FilterText(e) + tail;
            u != "" && !IsBlank(u[0]) && ParseNot(u) == Some((e, tail))
  {
    TextStart(e);
    ReadBack(e, tail);
  }

  lemma {:induction false} AndChain(left: Filter, links: seq<Link>, rest: string)
    requires GoodLinks(links) && Follow(rest)
    ensures AndRest(left, AndText(links, rest)) == AndRest(AndTree(left, links), rest)
    decreases |links|
  {
    if links != [] {
      var tail := AndText(links[1..], rest);
      AndTextFollows(links[1..], rest);
      MemberRead(links[0].e, tail);
      AndStep(left, links[0].joint, FilterText(links[0].e) + tail, links[0].e, tail);
      AndChain(Logical(left, And, links[0].e), links[1..], rest);
    }
  }

  lemma GroupRead(g: Group, rest: string)
    requires GoodGroup(g) && EndsAnd(rest)
    ensures ParseAnd(GroupText(g, rest)) == Some((GroupTree(g), SkipBlanks(rest)))
    ensures GroupText(g, rest) != "" && !IsBlank(GroupText(g, rest)[0])
  {
    AndTextFollows(g.links, rest);
    MemberRead(g.first, AndText(g.links, rest));
    AndChain(g.first, g.links, rest);
    AndStop(GroupTree(g), rest);
  }

  lemma OrTextEndsAnd(bs: seq<Branch>, trail: string)
    requires GoodBranches(bs) && Blanks(trail)
    ensures EndsAnd(OrText(bs, trail))
  {
    if bs == [] {
      BlanksSkipped(trail);
    } else {
      JointStart(bs[0].joint, "or", GroupText(bs[0].group, OrText(bs[1..], trail)));
    }
  }

  lemma BlanksSkipped(trail: string)
    requires Blanks(trail)
    ensures SkipBlanks(trail) == ""
  {
    SkipBlanksBefore(trail, "");
    assert trail + "" == trail;
  }

  lemma {:induction false} OrChain(left: Filter, bs: seq<Branch>, trail: string)
    requires GoodBranches(bs) && Blanks(trail)
    ensures OrRest(left, SkipBlanks(OrText(bs, trail))) == Some((OrTree(left, bs), ""))
    decreases |bs|
  {
    if bs == [] {
      BlanksSkipped(trail);
      NoKeyword("", "or");
    } else {
      var tail := OrText(bs[1..], trail);
      OrTextEndsAnd(bs[1..], trail);
      GroupRead(bs[0].group, tail);
      OrStep(left, bs[0].joint, GroupText(bs[0].group, tail), GroupTree(bs[0].group), SkipBlanks(tail));
      OrChain(Logical(left, Or, GroupTree(bs[0].group)), bs[1..], trail);
    }
  }

  lemma LeadSkipped(lead: string, u: string)
    requires Blanks(lead) && u != "" && !IsBlank(u[0])
    ensures ParseAnd(lead + u) == ParseAnd(u)
  {
    SkipBlanksBefore(lead, u);
    NotBlank(u);
    assert ParseNot(lead + u) == ParseNot(u);
  }

  // Unparenthesised chains, with any blanks and any casing of the connectives: a left fold of `or` over left
  // folds of `and`. The members are printed expressions, so a connective inside one carries the parentheses
  // that override the grouping.
  lemma Precedence(lead: string, g: Group, bs: seq<Branch>, trail: string)
    requires Blanks(lead) && GoodGroup(g) && GoodBranches(bs) && Blanks(trail)
    ensures ParseFilter(lead + GroupText(g, OrText(bs, trail))) == Some(OrTree(GroupTree(g), bs))
  {
    var tail := OrText(bs, trail);
    OrTextEndsAnd(bs, trail);
    GroupRead(g, tail);
    LeadSkipped(lead, GroupText(g, tail));
    OrChain(GroupTree(g), bs, trail);
  }
}
