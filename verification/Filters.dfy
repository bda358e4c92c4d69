// Filter expressions: the tree, the text the proxy prints for it, and the grammar the parser follows,
// written as functions from the remaining text to a tree and the text left over.
module Filters {
  import opened Text
  import opened Numbers
  import opened Values
  import opened Literals
  import opened Paths

  datatype CompareOp = Eq | Ne | Co | Sw | Ew | Gt | Ge | Lt | Le | Pr

  datatype LogicalOp = And | Or

  datatype Filter =
    | Compare(path: AttributePath, op: CompareOp, value: Json)
    | Logical(left: Filter, lop: LogicalOp, right: Filter)
    | Not(inner: Filter)
    | ValuePath(path: AttributePath, filter: Filter)

  // ----- printing -----

  function OpText(op: CompareOp): string {
    match op
    case Eq => "eq"
    case Ne => "ne"
    case Co => "co"
    case Sw => "sw"
    case Ew => "ew"
    case Gt => "gt"
    case Ge => "ge"
    case Lt => "lt"
    case Le => "le"
    case Pr => "pr"
  }

  function ValueText(v: Json): string {
    match v
    case Null => "null"
    case Str(s) => Quote(s)
    case Bool(b) => if b then "true" else "false"
    case Num(n) => FormatNumber(n)
    case _ => FormatV(v)
  }

  function LogicalText(op: LogicalOp): string { if op == Or then " or " else " and " }

  function FilterText(e: Filter): string {
    match e
    case Compare(p, Pr, _) => PathText(p) + " pr"
    case Compare(p, op, v) => PathText(p) + " " + OpText(op) + " " + ValueText(v)
    case Logical(l, op, r) => "(" + FilterText(l) + LogicalText(op) + FilterText(r) + ")"
    case Not(f) => "not (" + FilterText(f) + ")"
    case ValuePath(p, f) => PathText(p) + "[" + FilterText(f) + "]"
  }

  // ----- well-formed trees -----

  predicate IsBlank(c: char) { c == ' ' || c == '\t' }

  predicate IsDelimiter(c: char) {
    IsBlank(c) || c == '[' || c == ']' || c == '(' || c == ')'
  }

  predicate NoDelimiters(s: string) { forall i :: 0 <= i < |s| ==> !IsDelimiter(s[i]) }

  // An unqualified attribute called "not" reads as the keyword.
  predicate FilterPath(p: AttributePath) {
    ValidPath(p) && NoDelimiters(p.schema) && !(p.schema == "" && EqualFold(p.name, "not"))
  }

  predicate Literal(v: Json) {
    v.Null? || v.Bool? || v.Str? || (v.Num? && v.n.Canonical())
  }

  predicate WellFormed(e: Filter) {
    match e
    case Compare(p, op, v) => FilterPath(p) && if op == Pr then v == Null else Literal(v)
    case Logical(l, _, r) => WellFormed(l) && WellFormed(r)
    case Not(f) => WellFormed(f)
    case ValuePath(p, f) => FilterPath(p) && WellFormed(f)
  }

  // ----- scanning -----

  function SkipBlanks(s: string): (r: string)
    ensures |r| <= |s|
    ensures r == "" || !IsBlank(r[0])
  {
    if s != "" && IsBlank(s[0]) then SkipBlanks(s[1..]) else s
  }

  // The longest prefix without delimiters, and the rest.
  function Token(s: string): (r: (string, string))
    ensures s == r.0 + r.1 && NoDelimiters(r.0)
    ensures r.1 == "" || IsDelimiter(r.1[0])
  {
    if s == "" || IsDelimiter(s[0]) then ("", s)
    else
      var (tok, rest) := Token(s[1..]);
      assert s == [s[0]] + (tok + rest) == ([s[0]] + tok) + rest;
      ([s[0]] + tok, rest)
  }

  predicate WordBoundary(s: string) {
    s == "" || IsBlank(s[0]) || s[0] == ')' || s[0] == ']'
  }

  // The text after the keyword and the blanks around it, or None when s does not start with it.
  function MatchKeyword(s: string, kw: string): (r: Option<string>)
    ensures r.Some? ==> |r.value| <= |s| - |kw|
  {
    var t := SkipBlanks(s);
    if |kw| > |t| || !EqualFold(t[..|kw|], kw) then None
    else
      var after := t[|kw|..];
      if !WordBoundary(after) && IsNameChar(after[0]) then None else Some(SkipBlanks(after))
  }

  // ----- the grammar -----

  type Parsed<T> = Option<(T, string)>

  function ParseOp(tok: string): Option<CompareOp> {
    var t := Lower(tok);
    if t == "eq" then Some(Eq)
    else if t == "ne" then Some(Ne)
    else if t == "co" then Some(Co)
    else if t == "sw" then Some(Sw)
    else if t == "ew" then Some(Ew)
    else if t == "gt" then Some(Gt)
    else if t == "ge" then Some(Ge)
    else if t == "lt" then Some(Lt)
    else if t == "le" then Some(Le)
    else if t == "pr" then Some(Pr)
    else None
  }

  function ParseString(s: string): (r: Parsed<Json>)
    requires s != "" && s[0] == '"'
    ensures r.Some? ==> |r.value.1| <= |s|
  {
    var rest := AfterLiteral(s[1..]);
    if rest.None? then None
    else
      var v := Unquote(s[..|s| - |rest.value|]);
      if v.None? then None else Some((Str(v.value), rest.value))
  }

  function ParseNumber(s: string): (r: Parsed<Json>)
    ensures r.Some? ==> |r.value.1| <= |s|
  {
    var rest := ScanNumber(s).rest;
    var v := ParseFloat(s[..|s| - |rest|]);
    if v.None? then None else Some((Num(v.value), rest))
  }

  function ParseWord(s: string, word: string, v: Json): (r: Parsed<Json>)
    requires |word| <= |s|
    ensures r.Some? ==> |r.value.1| <= |s|
  {
    if WordBoundary(s[|word|..]) then Some((v, s[|word|..])) else None
  }

  // What follows the operator, blanks already skipped.
  function ParseValue(s: string): (r: Parsed<Json>)
    ensures r.Some? ==> |r.value.1| <= |s|
  {
    if s == "" then None
    else if s[0] == '"' then ParseString(s)
    else if "null" <= s then ParseWord(s, "null", Null)
    else if "true" <= s then ParseWord(s, "true", Bool(true))
    else if "false" <= s then ParseWord(s, "false", Bool(false))
    else if s[0] == '-' || IsDigit(s[0]) then ParseNumber(s)
    else None
  }

  function ParseAttrPath(s: string): (r: Parsed<AttributePath>)
    ensures r.Some? ==> |r.value.1| < |s|
  {
    var (tok, rest) := Token(SkipBlanks(s));
    if tok == "" then None
    else
      var p := ParsePath(tok);
      if p.None? then None else Some((p.value, rest))
  }

  function ParseOr(s: string): (r: Parsed<Filter>)
    decreases |s|, 7
    ensures r.Some? ==> |r.value.1| <= |s|
  {
    var left := ParseAnd(s);
    if left.None? then None else OrRest(left.value.0, left.value.1)
  }

  function OrRest(left: Filter, s: string): (r: Parsed<Filter>)
    decreases |s|, 6
    ensures r.Some? ==> |r.value.1| <= |s|
  {
    var t := SkipBlanks(s);
    var u := MatchKeyword(t, "or");
    if u.None? then Some((left, t))
    else
      var right := ParseAnd(u.value);
      if right.None? then None else OrRest(Logical(left, Or, right.value.0), right.value.1)
  }

  function ParseAnd(s: string): (r: Parsed<Filter>)
    decreases |s|, 5
    ensures r.Some? ==> |r.value.1| <= |s|
  {
    var left := ParseNot(s);
    if left.None? then None else AndRest(left.value.0, left.value.1)
  }

  function AndRest(left: Filter, s: string): (r: Parsed<Filter>)
    decreases |s|, 4
    ensures r.Some? ==> |r.value.1| <= |s|
  {
    var t := SkipBlanks(s);
    var u := MatchKeyword(t, "and");
    if u.None? then Some((left, t))
    else
      var right := ParseNot(u.value);
      if right.None? then None else AndRest(Logical(left, And, right.value.0), right.value.1)
  }

  function ParseNot(s: string): (r: Parsed<Filter>)
    decreases |s|, 3
    ensures r.Some? ==> |r.value.1| <= |s|
  {
    var t := SkipBlanks(s);
    var u := MatchKeyword(t, "not");
    if u.None? then ParsePrimary(t)
    else
      var inner := ParseGroup(u.value);
      if inner.None? then None else Some((Not(inner.value.0), inner.value.1))
  }

  function ParseGroup(s: string): (r: Parsed<Filter>)
    decreases |s|, 1
    ensures r.Some? ==> |r.value.1| <= |s|
  {
    var t := SkipBlanks(s);
    if t == "" || t[0] != '(' then None else ParseClosed(t[1..], ')')
  }

  function ParsePrimary(s: string): (r: Parsed<Filter>)
    decreases |s|, 2
    ensures r.Some? ==> |r.value.1| <= |s|
  {
    var t := SkipBlanks(s);
    if t != "" && t[0] == '(' then ParseClosed(t[1..], ')') else ParseAttrOrValuePath(t)
  }

  // A disjunction followed by the closing bracket c.
  function ParseClosed(s: string, c: char): (r: Parsed<Filter>)
    decreases |s|, 8
    ensures r.Some? ==> |r.value.1| <= |s|
  {
    var inner := ParseOr(s);
    if inner.None? then None
    else
      var t := SkipBlanks(inner.value.1);
      if t == "" || t[0] != c then None else Some((inner.value.0, t[1..]))
  }

  function ParseAttrOrValuePath(s: string): (r: Parsed<Filter>)
    decreases |s|, 1
    ensures r.Some? ==> |r.value.1| <= |s|
  {
    var p := ParseAttrPath(s);
    if p.None? then None
    else
      var t := SkipBlanks(p.value.1);
      if t != "" && t[0] == '[' then
        var inner := ParseClosed(t[1..], ']');
        if inner.None? then None else Some((ValuePath(p.value.0, inner.value.0), inner.value.1))
      else
        ParseComparison(p.value.0, t)
  }

  // The operator and the value after an attribute path.
  function ParseComparison(p: AttributePath, s: string): (r: Parsed<Filter>)
    ensures r.Some? ==> |r.value.1| <= |s|
  {
    var (tok, rest) := Token(SkipBlanks(s));
    var op := ParseOp(tok);
    if op.None? then None
    else if op.value == Pr then Some((Compare(p, Pr, Null), rest))
    else
      var v := ParseValue(SkipBlanks(rest));
      if v.None? then None else Some((Compare(p, op.value, v.value.0), v.value.1))
  }

  function ParseFilter(s: string): Option<Filter> {
    var r := ParseOr(s);
    if r.None? || SkipBlanks(r.value.1) != "" then None else Some(r.value.0)
  }
}
