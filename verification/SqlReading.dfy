// The database's side of a translated filter: a condition read from the tokens by the words of SQL alone. The
// tokens of a clause have one reading, in both dialects.
module SqlReading {
  import opened Text
  import opened Values
  import opened Filters
  import opened SqlFilter

  // ----- conditions -----

  // A part of a LIKE pattern: the literal '%' or the k-th argument.
  datatype Piece = Percent | Bound(k: nat)

  datatype Condition =
    | Present(col: ColumnRef)
    | Relation(col: ColumnRef, rel: string, k: nat)
    | Pattern(col: ColumnRef, pieces: seq<Piece>)
    | AllOf(left: Condition, right: Condition)
    | OneOf(left: Condition, right: Condition)
    | NotOf(inner: Condition)
    | AnyRow(table: string, alias: string, first: ColumnRef, second: ColumnRef, cond: Condition)

  predicate IsRelation(w: string) { w == "=" || w == "!=" || w == "<" || w == "<=" || w == ">" || w == ">=" }

  // ----- reading -----

  // What was read, the tokens after it, and how many placeholders have been met.
  type Reading<T> = Option<(T, seq<Token>, nat)>

  predicate StartsWith(ts: seq<Token>, w: string) { ts != [] && ts[0] == Word(w) }

  // $k is argument k; a question mark is the next one.
  function ReadBound(ts: seq<Token>, used: nat): (r: Reading<nat>)
    ensures r.Some? ==> |r.value.1| < |ts|
  {
    if ts == [] then None
    else
      match ts[0]
      case Param(n) => Some((n, ts[1..], used + 1))
      case Anonymous => Some((used + 1, ts[1..], used + 1))
      case _ => None
  }

  function ReadPiece(ts: seq<Token>, used: nat): (r: Reading<Piece>)
    ensures r.Some? ==> |r.value.1| < |ts|
  {
    if StartsWith(ts, "'%'") then Some((Percent, ts[1..], used))
    else
      var b := ReadBound(ts, used);
      if b.None? then None else Some((Bound(b.value.0), b.value.1, b.value.2))
  }

  // Pieces with a separator between them.
  function ReadPieces(ts: seq<Token>, used: nat, separator: string): (r: Reading<seq<Piece>>)
    decreases |ts|
    ensures r.Some? ==> |r.value.1| < |ts|
  {
    var p := ReadPiece(ts, used);
    if p.None? then None
    else if !StartsWith(p.value.1, separator) then Some(([p.value.0], p.value.1, p.value.2))
    else
      var rest := ReadPieces(p.value.1[1..], p.value.2, separator);
      if rest.None? then None else Some(([p.value.0] + rest.value.0, rest.value.1, rest.value.2))
  }

  // A string: pieces joined by ||, or the arguments of CONCAT.
  function ReadString(ts: seq<Token>, used: nat): (r: Reading<seq<Piece>>)
    ensures r.Some? ==> |r.value.1| < |ts|
  {
    if StartsWith(ts, "CONCAT(") then
      var inner := ReadPieces(ts[1..], used, ",");
      if inner.None? || !StartsWith(inner.value.1, ")") then None
      else Some((inner.value.0, inner.value.1[1..], inner.value.2))
    else ReadPieces(ts, used, "||")
  }

  // What follows a column.
  function ReadTest(col: ColumnRef, ts: seq<Token>, used: nat): (r: Reading<Condition>)
    ensures r.Some? ==> |r.value.1| < |ts|
  {
    if ts == [] || !ts[0].Word? then None
    else if ts[0].s == "IS NOT NULL" then Some((Present(col), ts[1..], used))
    else if ts[0].s == "LIKE" then
      var pieces := ReadString(ts[1..], used);
      if pieces.None? then None else Some((Pattern(col, pieces.value.0), pieces.value.1, pieces.value.2))
    else if IsRelation(ts[0].s) then
      var b := ReadBound(ts[1..], used);
      if b.None? then None else Some((Relation(col, ts[0].s, b.value.0), b.value.1, b.value.2))
    else None
  }

  // EXISTS ( SELECT 1 FROM table alias WHERE column = column AND, then the condition on the row.
  predicate StartsSubquery(ts: seq<Token>) {
    |ts| > 10 && ts[0] == Word("EXISTS") && ts[1] == Word("(") && ts[2] == Word("SELECT 1 FROM")
    && ts[3].Name? && ts[4].Name? && ts[5] == Word("WHERE") && ts[6].Name? && ts[7] == Word("=") && ts[8].Name?
    && ts[9] == Word("AND")
  }

  function RefOf(t: Token): ColumnRef
    requires t.Name?
  {
    ColumnRef(t.table, t.column)
  }

  function ReadCondition(ts: seq<Token>, used: nat): (r: Reading<Condition>)
    decreases |ts|
    ensures r.Some? ==> |r.value.1| < |ts|
  {
    if ts == [] then None
    else if ts[0].Name? then ReadTest(RefOf(ts[0]), ts[1..], used)
    else if StartsWith(ts, "(") then
      var l := ReadCondition(ts[1..], used);
      if l.None? || !(StartsWith(l.value.1, "AND") || StartsWith(l.value.1, "OR")) then None
      else
        var r := ReadCondition(l.value.1[1..], l.value.2);
        if r.None? || !StartsWith(r.value.1, ")") then None
        else
          var both := if StartsWith(l.value.1, "AND") then AllOf(l.value.0, r.value.0) else OneOf(l.value.0, r.value.0);
          Some((both, r.value.1[1..], r.value.2))
    else if StartsWith(ts, "NOT") && StartsWith(ts[1..], "(") then
      var f := ReadCondition(ts[2..], used);
      if f.None? || !StartsWith(f.value.1, ")") then None else Some((NotOf(f.value.0), f.value.1[1..], f.value.2))
    else if StartsSubquery(ts) then
      var f := ReadCondition(ts[10..], used);
      if f.None? || !StartsWith(f.value.1, ")") then None
      else
        Some((AnyRow(ts[3].column, ts[4].column, RefOf(ts[6]), RefOf(ts[8]), f.value.0), f.value.1[1..], f.value.2))
    else None
  }

  // The condition a whole text states.
  function ReadText(ts: seq<Token>): Option<Condition> {
    var r := ReadCondition(ts, 0);
    if r.Some? && r.value.1 == [] then Some(r.value.0) else None
  }

  // ----- the condition of a clause -----

  function ComparisonCondition(col: ColumnRef, op: CompareOp, k: nat): Condition {
    match op
    case Eq => Relation(col, "=", k)
    case Ne => Relation(col, "!=", k)
    case Gt => Relation(col, ">", k)
    case Ge => Relation(col, ">=", k)
    case Lt => Relation(col, "<", k)
    case Le => Relation(col, "<=", k)
    case Co => Pattern(col, [Percent, Bound(k), Percent])
    case Sw => Pattern(col, [Bound(k), Percent])
    case Ew => Pattern(col, [Percent, Bound(k)])
    case Pr => Present(col)
  }

  function ConditionOf(c: Clause): Condition {
    match c
    case IsNotNull(col) => Present(col)
    case Comparison(col, op, k) => ComparisonCondition(col, op, k)
    case Junction(l, And, r) => AllOf(ConditionOf(l), ConditionOf(r))
    case Junction(l, Or, r) => OneOf(ConditionOf(l), ConditionOf(r))
    case Negation(f) => NotOf(ConditionOf(f))
    case Exists(table, alias, parent, f) =>
      AnyRow(table, alias, ColumnRef(alias, "resource_id"), parent, ConditionOf(f))
  }

  // ----- reading back -----

  // What can follow a clause does not go on with a pattern.
  predicate Follows(x: seq<Token>) { !StartsWith(x, "||") }

  lemma OneToken(t: Token, x: seq<Token>)
    ensures ([t] + x)[0] == t && ([t] + x)[1..] == x
  {
  }

  lemma BoundRead(d: Dialect, n: nat, x: seq<Token>)
    ensures ReadBound([Placeholder(d, n + 1)] + x, n) == Some((n + 1, x, n + 1))
    ensures ReadPiece([Placeholder(d, n + 1)] + x, n) == Some((Bound(n + 1), x, n + 1))
  {
    OneToken(Placeholder(d, n + 1), x);
  }

  lemma PercentRead(n: nat, x: seq<Token>)
    ensures ReadPiece([Word("'%'")] + x, n) == Some((Percent, x, n))
  {
    OneToken(Word("'%'"), x);
  }

  // The last piece, and a piece with a separator after it.
  lemma LastPiece(ts: seq<Token>, n: nat, separator: string, p: Piece, x: seq<Token>, after: nat)
    requires ReadPiece(ts, n) == Some((p, x, after)) && !StartsWith(x, separator)
    ensures ReadPieces(ts, n, separator) == Some(([p], x, after))
  {
  }

  lemma NextPiece(ts: seq<Token>, n: nat, separator: string, p: Piece, more: seq<Token>, middle: nat, ps: seq<Piece>,
                  x: seq<Token>, after: nat)
    requires ReadPiece(ts, n) == Some((p, [Word(separator)] + more, middle))
    requires ReadPieces(more, middle, separator) == Some((ps, x, after))
    ensures ReadPieces(ts, n, separator) == Some(([p] + ps, x, after))
  {
    OneToken(Word(separator), more);
  }

  function ClosingToken(d: Dialect, x: seq<Token>): seq<Token> { if d == MySQL then [Word(")")] + x else x }

  function Separator(d: Dialect): string { if d == MySQL then "," else "||" }

  lemma EndRead(d: Dialect, n: nat, x: seq<Token>)
    requires Follows(x)
    ensures ReadPieces([Placeholder(d, n + 1)] + ClosingToken(d, x), n, Separator(d))
            == Some(([Bound(n + 1)], ClosingToken(d, x), n + 1))
    ensures ReadPieces([Word("'%'")] + ClosingToken(d, x), n, Separator(d)) == Some(([Percent], ClosingToken(d, x), n))
  {
    var y := ClosingToken(d, x);
    BoundRead(d, n, y);
    PercentRead(n, y);
    LastPiece([Placeholder(d, n + 1)] + y, n, Separator(d), Bound(n + 1), y, n + 1);
    LastPiece([Word("'%'")] + y, n, Separator(d), Percent, y, n);
  }

  // The pieces of the three patterns, up to the closing bracket.
  lemma StartPieces(d: Dialect, n: nat, x: seq<Token>)
    requires Follows(x)
    ensures ReadPieces([Placeholder(d, n + 1)] + ([Word(Separator(d))] + ([Word("'%'")] + ClosingToken(d, x))), n,
                       Separator(d))
            == Some(([Bound(n + 1), Percent], ClosingToken(d, x), n + 1))
  {
    var more := [Word("'%'")] + ClosingToken(d, x);
    EndRead(d, n + 1, x);
    BoundRead(d, n, [Word(Separator(d))] + more);
    assert [Bound(n + 1)] + [Percent] == [Bound(n + 1), Percent];
    NextPiece([Placeholder(d, n + 1)] + ([Word(Separator(d))] + more), n, Separator(d), Bound(n + 1), more, n + 1,
              [Percent], ClosingToken(d, x), n + 1);
  }

  lemma EndPieces(d: Dialect, n: nat, x: seq<Token>)
    requires Follows(x)
    ensures ReadPieces([Word("'%'")] + ([Word(Separator(d))] + ([Placeholder(d, n + 1)] + ClosingToken(d, x))), n,
                       Separator(d))
            == Some(([Percent, Bound(n + 1)], ClosingToken(d, x), n + 1))
  {
    var more := [Placeholder(d, n + 1)] + ClosingToken(d, x);
    EndRead(d, n, x);
    PercentRead(n, [Word(Separator(d))] + more);
    assert [Percent] + [Bound(n + 1)] == [Percent, Bound(n + 1)];
    NextPiece([Word("'%'")] + ([Word(Separator(d))] + more), n, Separator(d), Percent, more, n, [Bound(n + 1)],
              ClosingToken(d, x), n + 1);
  }

  lemma InnerPieces(d: Dialect, n: nat, x: seq<Token>)
    requires Follows(x)
    ensures var more := [Placeholder(d, n + 1)] + ([Word(Separator(d))] + ([Word("'%'")] + ClosingToken(d, x)));
            ReadPieces([Word("'%'")] + ([Word(Separator(d))] + more), n, Separator(d))
            == Some(([Percent, Bound(n + 1), Percent], ClosingToken(d, x), n + 1))
  {
    var more := [Placeholder(d, n + 1)] + ([Word(Separator(d))] + ([Word("'%'")] + ClosingToken(d, x)));
    StartPieces(d, n, x);
    PercentRead(n, [Word(Separator(d))] + more);
    assert [Percent] + [Bound(n + 1), Percent] == [Percent, Bound(n + 1), Percent];
    NextPiece([Word("'%'")] + ([Word(Separator(d))] + more), n, Separator(d), Percent, more, n,
              [Bound(n + 1), Percent], ClosingToken(d, x), n + 1);
  }

  // A string from its pieces: with CONCAT in MySQL.
  lemma StringRead(d: Dialect, n: nat, ts: seq<Token>, ps: seq<Piece>, x: seq<Token>, after: nat)
    requires ReadPieces(ts, n, Separator(d)) == Some((ps, ClosingToken(d, x), after))
    requires d == Postgres ==> !StartsWith(ts, "CONCAT(")
    ensures ReadString((if d == MySQL then [Word("CONCAT(")] else []) + ts, n) == Some((ps, x, after))
  {
    if d == MySQL {
      OneToken(Word("CONCAT("), ts);
      OneToken(Word(")"), x);
    } else {
      assert [] + ts == ts;
    }
  }

  function PieceTokens(op: CompareOp, d: Dialect, n: nat, x: seq<Token>): seq<Token> {
    var s, p, c := [Word(Separator(d))], [Placeholder(d, n + 1)], ClosingToken(d, x);
    match op
    case Co => [Word("'%'")] + (s + (p + (s + ([Word("'%'")] + c))))
    case Sw => p + (s + ([Word("'%'")] + c))
    case _ => [Word("'%'")] + (s + (p + c))
  }

  lemma PatternTokens(op: CompareOp, d: Dialect, n: nat, x: seq<Token>)
    requires op == Co || op == Sw || op == Ew
    ensures OperatorTokens(op, Placeholder(d, n + 1), d) + x
            == [Word("LIKE")] + ((if d == MySQL then [Word("CONCAT(")] else []) + PieceTokens(op, d, n, x))
  {
  }

  lemma PatternRead(op: CompareOp, d: Dialect, n: nat, col: ColumnRef, x: seq<Token>)
    requires (op == Co || op == Sw || op == Ew) && Follows(x)
    ensures ReadTest(col, OperatorTokens(op, Placeholder(d, n + 1), d) + x, n)
            == Some((ComparisonCondition(col, op, n + 1), x, n + 1))
  {
    var ts := PieceTokens(op, d, n, x);
    PatternTokens(op, d, n, x);
    OneToken(Word("LIKE"), (if d == MySQL then [Word("CONCAT(")] else []) + ts);
    InnerPieces(d, n, x);
    StartPieces(d, n, x);
    EndPieces(d, n, x);
    var pieces := ComparisonCondition(col, op, n + 1).pieces;
    StringRead(d, n, ts, pieces, x, n + 1);
  }

  lemma RelationRead(op: CompareOp, d: Dialect, n: nat, col: ColumnRef, x: seq<Token>)
    requires op != Co && op != Sw && op != Ew && op != Pr
    ensures ReadTest(col, OperatorTokens(op, Placeholder(d, n + 1), d) + x, n)
            == Some((ComparisonCondition(col, op, n + 1), x, n + 1))
  {
    var w := OperatorTokens(op, Placeholder(d, n + 1), d)[0];
    var more := [Placeholder(d, n + 1)] + x;
    assert OperatorTokens(op, Placeholder(d, n + 1), d) + x == [w] + more;
    OneToken(w, more);
    BoundRead(d, n, x);
  }

  // The clause of a comparison.
  lemma ComparisonRead(c: Clause, d: Dialect, n: nat, x: seq<Token>)
    requires (c.IsNotNull? || (c.Comparison? && c.op != Pr && c.k == n + 1)) && Follows(x)
    ensures ReadCondition(Tokens(c, d) + x, n) == Some((ConditionOf(c), x, if c.IsNotNull? then n else n + 1))
  {
    if c.IsNotNull? {
      assert Tokens(c, d) + x == [ColumnName(c.col)] + ([Word("IS NOT NULL")] + x);
      OneToken(ColumnName(c.col), [Word("IS NOT NULL")] + x);
      OneToken(Word("IS NOT NULL"), x);
    } else {
      var more := OperatorTokens(c.op, Placeholder(d, c.k), d) + x;
      assert Tokens(c, d) + x == [ColumnName(c.col)] + more;
      OneToken(ColumnName(c.col), more);
      if c.op == Co || c.op == Sw || c.op == Ew {
        PatternRead(c.op, d, n, c.col, x);
      } else {
        RelationRead(c.op, d, n, c.col, x);
      }
    }
  }

  function Connective(op: LogicalOp): Token { Word(if op == Or then "OR" else "AND") }

  function Head(c: Clause): seq<Token>
    requires c.Exists?
  {
    [Word("EXISTS"), Word("("), Word("SELECT 1 FROM"), Name("", c.table), Name("", c.alias), Word("WHERE"),
     Name(c.alias, "resource_id"), Word("="), ColumnName(c.parent), Word("AND")]
  }

  // The tokens of a clause followed by x.
  function Then(c: Clause, d: Dialect, x: seq<Token>): seq<Token> {
    match c
    case Junction(l, op, r) => [Word("(")] + Then(l, d, [Connective(op)] + Then(r, d, [Word(")")] + x))
    case Negation(f) => [Word("NOT")] + ([Word("(")] + Then(f, d, [Word(")")] + x))
    case Exists(_, _, _, f) => Head(c) + Then(f, d, [Word(")")] + x)
    case _ => Tokens(c, d) + x
  }

  lemma Regroup<T>(a: seq<T>, b: seq<T>, c: seq<T>, e: seq<T>, f: seq<T>, x: seq<T>)
    ensures a + b + c + e + f + x == a + (b + (c + (e + (f + x))))
    ensures a + b + f + x == a + (b + (f + x))
  {
  }

  lemma {:induction false} TokensThen(c: Clause, d: Dialect, x: seq<Token>)
    ensures Then(c, d, x) == Tokens(c, d) + x
    decreases c
  {
    var close := [Word(")")];
    match c
    case Junction(l, op, r) =>
      TokensThen(r, d, close + x);
      TokensThen(l, d, [Connective(op)] + Then(r, d, close + x));
      Regroup([Word("(")], Tokens(l, d), [Connective(op)], Tokens(r, d), close, x);
    case Negation(f) =>
      TokensThen(f, d, close + x);
      Regroup([Word("NOT"), Word("(")], Tokens(f, d), [], [], close, x);
      assert [Word("NOT"), Word("(")] + (Tokens(f, d) + (close + x))
          == [Word("NOT")] + ([Word("(")] + (Tokens(f, d) + (close + x)));
    case Exists(_, _, _, f) =>
      TokensThen(f, d, close + x);
      Regroup(Head(c), Tokens(f, d), [], [], close, x);
    case _ =>
  }

  lemma JunctionRead(l: Condition, op: LogicalOp, r: Condition, a: seq<Token>, b: seq<Token>, x: seq<Token>, n: nat,
                     middle: nat, after: nat)
    requires ReadCondition(a, n) == Some((l, [Connective(op)] + b, middle))
    requires ReadCondition(b, middle) == Some((r, [Word(")")] + x, after))
    ensures ReadCondition([Word("(")] + a, n) == Some((if op == And then AllOf(l, r) else OneOf(l, r), x, after))
  {
    OneToken(Word("("), a);
    OneToken(Connective(op), b);
    OneToken(Word(")"), x);
  }

  lemma NegationRead(f: Condition, a: seq<Token>, x: seq<Token>, n: nat, after: nat)
    requires ReadCondition(a, n) == Some((f, [Word(")")] + x, after))
    ensures ReadCondition([Word("NOT")] + ([Word("(")] + a), n) == Some((NotOf(f), x, after))
  {
    var ts := [Word("NOT")] + ([Word("(")] + a);
    OneToken(Word("NOT"), [Word("(")] + a);
    OneToken(Word("("), a);
    OneToken(Word(")"), x);
    assert ts[2..] == a;
  }

  lemma HeadTokens(c: Clause, a: seq<Token>)
    requires c.Exists? && a != []
    ensures var ts := Head(c) + a;
            StartsSubquery(ts) && ts[10..] == a && !StartsWith(ts, "(") && !StartsWith(ts, "NOT")
            && ts[3] == Name("", c.table) && ts[4] == Name("", c.alias) && ts[6] == Name(c.alias, "resource_id")
            && ts[8] == ColumnName(c.parent)
  {
    var ts := Head(c) + a;
    assert forall i :: 0 <= i < 10 ==> ts[i] == Head(c)[i];
    assert "EXISTS"[0] != "("[0] && "EXISTS"[0] != "NOT"[0];
  }

  lemma ExistsRead(c: Clause, f: Condition, a: seq<Token>, x: seq<Token>, n: nat, after: nat)
    requires c.Exists? && ReadCondition(a, n) == Some((f, [Word(")")] + x, after))
    ensures ReadCondition(Head(c) + a, n)
            == Some((AnyRow(c.table, c.alias, ColumnRef(c.alias, "resource_id"), c.parent, f), x, after))
  {
    HeadTokens(c, a);
    OneToken(Word(")"), x);
  }

  // How many placeholders a clause has.
  function Count(c: Clause): nat {
    match c
    case IsNotNull(_) => 0
    case Comparison(_, _, _) => 1
    case Junction(l, _, r) => Count(l) + Count(r)
    case Negation(f) => Count(f)
    case Exists(_, _, _, f) => Count(f)
  }

  // Its placeholders have the numbers after n, from left to right. A presence test has its own form, so no
  // comparison uses the operator `pr`.
  predicate NumberedFrom(c: Clause, n: nat) {
    match c
    case IsNotNull(_) => true
    case Comparison(_, op, k) => op != Pr && k == n + 1
    case Junction(l, _, r) => NumberedFrom(l, n) && NumberedFrom(r, n + Count(l))
    case Negation(f) => NumberedFrom(f, n)
    case Exists(_, _, _, f) => NumberedFrom(f, n)
  }

  lemma {:induction false} TranslatedIsNumbered(e: Filter, m: Mapper, alias: string, n: nat)
    requires NamedPaths(e) && ClauseOf(e, m, alias, n).Some?
    ensures var c := ClauseOf(e, m, alias, n).value; NumberedFrom(c, n) && Count(c) == |ComparedValues(e)|
  {
    match e
    case Compare(_, _, _) =>
    case Logical(l, _, r) =>
      TranslatedIsNumbered(l, m, alias, n);
      TranslatedIsNumbered(r, m, alias, n + |ComparedValues(l)|);
    case Not(f) => TranslatedIsNumbered(f, m, alias, n);
    case ValuePath(p, f) => TranslatedIsNumbered(f, m, Lower(p.name)[..1], n);
  }

  // c, followed by x, is read as its condition, and the placeholders after the first n as its own.
  ghost predicate ReadAs(c: Clause, d: Dialect, x: seq<Token>, n: nat, after: nat) {
    forall ts :: ts == Then(c, d, x) ==> ReadCondition(ts, n) == Some((ConditionOf(c), x, after))
  }

  lemma ConnectiveFollows(op: LogicalOp, x: seq<Token>)
    ensures Follows([Connective(op)] + x)
  {
    OneToken(Connective(op), x);
    assert Connective(op).s[0] != "||"[0];
  }

  lemma BracketFollows(x: seq<Token>)
    ensures Follows([Word(")")] + x)
  {
    OneToken(Word(")"), x);
    assert ")"[0] != "||"[0];
  }

  lemma JunctionBack(c: Clause, d: Dialect, x: seq<Token>, b: seq<Token>, n: nat, middle: nat, after: nat)
    requires c.Junction? && b == Then(c.right, d, [Word(")")] + x)
    requires ReadAs(c.left, d, [Connective(c.lop)] + b, n, middle)
    requires ReadAs(c.right, d, [Word(")")] + x, middle, after)
    ensures ReadAs(c, d, x, n, after)
  {
    JunctionRead(ConditionOf(c.left), c.lop, ConditionOf(c.right), Then(c.left, d, [Connective(c.lop)] + b), b, x, n,
                 middle, after);
  }

  // The tokens of a clause are read as its condition, whatever follows; and each placeholder is taken for its
  // own argument.
  lemma {:induction false} ReadBack(c: Clause, n: nat, d: Dialect, x: seq<Token>)
    requires NumberedFrom(c, n) && Follows(x)
    ensures ReadAs(c, d, x, n, n + Count(c))
    decreases c, 2
  {
    if c.Junction? {
      ReadBackJunction(c, n, d, x);
    } else if c.Negation? {
      ReadBackNegation(c, n, d, x);
    } else if c.Exists? {
      ReadBackExists(c, n, d, x);
    } else {
      ComparisonRead(c, d, n, x);
    }
  }

  lemma {:induction false} ReadBackLeft(c: Clause, n: nat, d: Dialect, b: seq<Token>)
    requires c.Junction? && NumberedFrom(c.left, n)
    ensures ReadAs(c.left, d, [Connective(c.lop)] + b, n, n + Count(c.left))
    decreases c, 0
  {
    ConnectiveFollows(c.lop, b);
    ReadBack(c.left, n, d, [Connective(c.lop)] + b);
  }

  lemma {:induction false} ReadBackRight(c: Clause, n: nat, d: Dialect, x: seq<Token>)
    requires c.Junction? && NumberedFrom(c.right, n)
    ensures ReadAs(c.right, d, [Word(")")] + x, n, n + Count(c.right))
    decreases c, 0
  {
    BracketFollows(x);
    ReadBack(c.right, n, d, [Word(")")] + x);
  }

  lemma {:induction false} ReadBackJunction(c: Clause, n: nat, d: Dialect, x: seq<Token>)
    requires c.Junction? && NumberedFrom(c, n)
    ensures ReadAs(c, d, x, n, n + Count(c))
    decreases c, 1
  {
    var b := Then(c.right, d, [Word(")")] + x);
    ReadBackLeft(c, n, d, b);
    ReadBackRight(c, n + Count(c.left), d, x);
    JunctionBack(c, d, x, b, n, n + Count(c.left), n + Count(c));
  }

  lemma {:induction false} ReadBackNegation(c: Clause, n: nat, d: Dialect, x: seq<Token>)
    requires c.Negation? && NumberedFrom(c, n)
    ensures ReadAs(c, d, x, n, n + Count(c))
    decreases c, 0
  {
    BracketFollows(x);
    ReadBack(c.inner, n, d, [Word(")")] + x);
    NegationRead(ConditionOf(c.inner), Then(c.inner, d, [Word(")")] + x), x, n, n + Count(c));
  }

  lemma {:induction false} ReadBackExists(c: Clause, n: nat, d: Dialect, x: seq<Token>)
    requires c.Exists? && NumberedFrom(c, n)
    ensures ReadAs(c, d, x, n, n + Count(c))
    decreases c, 0
  {
    BracketFollows(x);
    ReadBack(c.cond, n, d, [Word(")")] + x);
    ExistsRead(c, ConditionOf(c.cond), Then(c.cond, d, [Word(")")] + x), x, n, n + Count(c));
  }

  lemma ReadFollowed(c: Clause, n: nat, d: Dialect, x: seq<Token>, ts: seq<Token>)
    requires NumberedFrom(c, n) && Follows(x) && ts == Tokens(c, d) + x
    ensures ReadCondition(ts, n) == Some((ConditionOf(c), x, n + Count(c)))
  {
    TokensThen(c, d, x);
    ReadBack(c, n, d, x);
    ReadAsIs(c, d, x, n, n + Count(c), ts);
  }

  lemma ReadClause(c: Clause, n: nat, d: Dialect, ts: seq<Token>)
    requires NumberedFrom(c, n) && ts == Tokens(c, d)
    ensures ReadCondition(ts, n) == Some((ConditionOf(c), [], n + Count(c)))
  {
    assert ts + [] == ts;
    ReadFollowed(c, n, d, [], ts);
  }

  lemma ReadAsIs(c: Clause, d: Dialect, x: seq<Token>, n: nat, after: nat, ts: seq<Token>)
    requires ReadAs(c, d, x, n, after) && ts == Then(c, d, x)
    ensures ReadCondition(ts, n) == Some((ConditionOf(c), x, after))
  {
  }

  // The whole text states the condition of the clause.
  lemma TextRead(e: Filter, m: Mapper, alias: string, d: Dialect)
    requires NamedPaths(e) && ClauseOf(e, m, alias, 0).Some?
    ensures ReadText(Tokens(ClauseOf(e, m, alias, 0).value, d)) == Some(ConditionOf(ClauseOf(e, m, alias, 0).value))
  {
    var c := ClauseOf(e, m, alias, 0).value;
    TranslatedIsNumbered(e, m, alias, 0);
    ReadClause(c, 0, d, Tokens(c, d));
  }

  // ----- one clause for a text -----

  lemma {:induction false} ConditionDecides(c: Clause, c': Clause, n: nat)
    requires NumberedFrom(c, n) && NumberedFrom(c', n) && ConditionOf(c) == ConditionOf(c')
    ensures c == c'
  {
    match c
    case IsNotNull(_) =>
    case Comparison(col, op, k) => SameComparison(c, c');
    case Junction(l, op, r) =>
      assert c'.Junction? && c'.lop == op;
      ConditionDecides(l, c'.left, n);
      ConditionDecides(r, c'.right, n + Count(l));
    case Negation(f) => ConditionDecides(f, c'.inner, n);
    case Exists(_, _, _, f) => ConditionDecides(f, c'.cond, n);
  }

  lemma SameComparison(c: Clause, c': Clause)
    requires c.Comparison? && c.op != Pr && (c'.Comparison? ==> c'.op != Pr) && ConditionOf(c) == ConditionOf(c')
    ensures c == c'
  {
    assert c'.Comparison?;
    var pieces := if c.op == Co || c.op == Sw || c.op == Ew then ConditionOf(c).pieces else [];
    assert c.op == Co ==> |pieces| == 3 && pieces[1] == Bound(c.k);
    assert c.op == Sw ==> |pieces| == 2 && pieces[0] == Bound(c.k);
    assert c.op == Ew ==> |pieces| == 2 && pieces[0] == Percent && pieces[1] == Bound(c.k);
    var pieces' := if c'.op == Co || c'.op == Sw || c'.op == Ew then ConditionOf(c').pieces else [];
    assert c'.op == Co ==> |pieces'| == 3 && pieces'[1] == Bound(c'.k);
    assert c'.op == Sw ==> |pieces'| == 2 && pieces'[0] == Bound(c'.k);
    assert c'.op == Ew ==> |pieces'| == 2 && pieces'[0] == Percent && pieces'[1] == Bound(c'.k);
  }

  // Filters whose translations have the same tokens, in either dialect, have the same clause, hence the same
  // meaning.
  lemma TextDeterminesClause(e: Filter, f: Filter, m: Mapper, alias: string, n: nat, d: Dialect)
    requires NamedPaths(e) && NamedPaths(f) && ClauseOf(e, m, alias, n).Some? && ClauseOf(f, m, alias, n).Some?
    requires Tokens(ClauseOf(e, m, alias, n).value, d) == Tokens(ClauseOf(f, m, alias, n).value, d)
    ensures ClauseOf(e, m, alias, n) == ClauseOf(f, m, alias, n)
  {
    var c, c' := ClauseOf(e, m, alias, n).value, ClauseOf(f, m, alias, n).value;
    TranslatedIsNumbered(e, m, alias, n);
    TranslatedIsNumbered(f, m, alias, n);
    ReadClause(c, n, d, Tokens(c, d));
    ReadClause(c', n, d, Tokens(c', d));
    ConditionDecides(c, c', n);
  }
}
