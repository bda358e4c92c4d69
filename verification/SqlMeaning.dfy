// What the text of a condition means under SQL's three-valued logic, and that it means what its clause does.
// Comparing two values that are not NULL is taken to agree with the evaluator.
module SqlMeaning {
  import opened Text
  import opened Values
  import opened Filters
  import opened FilterEval
  import opened Comparisons
  import opened SqlFilter
  import opened SqlLike
  import opened SqlReading

  datatype Truth = Yes | No | Unknown

  function Both(a: Truth, b: Truth): Truth {
    if a == No || b == No then No else if a == Yes && b == Yes then Yes else Unknown
  }

  function Either(a: Truth, b: Truth): Truth {
    if a == Yes || b == Yes then Yes else if a == No && b == No then No else Unknown
  }

  function Opposite(a: Truth): Truth { match a case Yes => No case No => Yes case Unknown => Unknown }

  function Known(b: bool): Truth { if b then Yes else No }

  // What column names stand for; NULL is Null. Names without a table are those of the resource's own table.
  type Row = ColumnRef -> Json

  // A row of another table, and all rows of each table.
  type TableRow = string -> Json

  type Tables = string -> seq<TableRow>

  // Inside a sub-query its alias stands for a row of its table, and hides any other of that name.
  function Inside(row: Row, alias: string, r: TableRow): Row {
    (c: ColumnRef) => if c.table == alias then r(c.column) else row(c)
  }

  // The k-th argument; Null when there is none.
  function Argument(args: seq<Json>, k: nat): Json { if 0 < k <= |args| then args[k - 1] else Null }

  // ----- the meaning of a condition -----

  // A comparison by the database's equality and order.
  function RelationTruth(rel: string, x: Json, y: Json): Truth {
    if x == Null || y == Null then Unknown
    else if rel == "=" then Known(CompareValues(Eq, x, y))
    else if rel == "!=" then Known(!CompareValues(Eq, x, y))
    else if rel == "<" then Known(CompareValues(Lt, x, y))
    else if rel == ">" then Known(CompareValues(Lt, y, x))
    else if rel == "<=" then Known(!CompareValues(Lt, y, x))
    else if rel == ">=" then Known(!CompareValues(Lt, x, y))
    else Unknown
  }

  // The pattern the pieces make, in lower case; letters match in any case.
  function PatternText(pieces: seq<Piece>, args: seq<Json>): string {
    if pieces == [] then ""
    else
      (match pieces[0] case Percent => "%" case Bound(k) => Lower(FormatV(Argument(args, k))))
      + PatternText(pieces[1..], args)
  }

  predicate HasNull(pieces: seq<Piece>, args: seq<Json>) {
    exists i :: 0 <= i < |pieces| && pieces[i].Bound? && Argument(args, pieces[i].k) == Null
  }

  function PatternTruth(x: Json, pieces: seq<Piece>, args: seq<Json>): Truth {
    if x == Null || HasNull(pieces, args) then Unknown
    else Known(SqlLike.Like(Lower(FormatV(x)), PatternText(pieces, args)))
  }

  function ConditionMeaning(c: Condition, args: seq<Json>, row: Row, db: Tables): Truth
    decreases c, 0
  {
    match c
    case Present(col) => Known(row(col) != Null)
    case Relation(col, rel, k) => RelationTruth(rel, row(col), Argument(args, k))
    case Pattern(col, pieces) => PatternTruth(row(col), pieces, args)
    case AllOf(l, r) => Both(ConditionMeaning(l, args, row, db), ConditionMeaning(r, args, row, db))
    case OneOf(l, r) => Either(ConditionMeaning(l, args, row, db), ConditionMeaning(r, args, row, db))
    case NotOf(f) => Opposite(ConditionMeaning(f, args, row, db))
    case AnyRow(table, alias, first, second, f) =>
      Known(exists i :: 0 <= i < |db(table)| && Chosen(f, first, second, args, Inside(row, alias, db(table)[i]), db))
  }

  predicate Chosen(f: Condition, first: ColumnRef, second: ColumnRef, args: seq<Json>, inner: Row, db: Tables)
    decreases f, 1
  {
    RelationTruth("=", inner(first), inner(second)) == Yes && ConditionMeaning(f, args, inner, db) == Yes
  }

  // A text with its arguments; a text that states no condition is an error.
  function TextMeaning(ts: seq<Token>, args: seq<Json>, row: Row, db: Tables): Option<Truth> {
    match ReadText(ts)
    case Some(c) => Some(ConditionMeaning(c, args, row, db))
    case None => None
  }

  // ----- the same on clauses -----

  function Meaning(c: Clause, args: seq<Json>, row: Row, db: Tables): Truth
    decreases c, 0
  {
    match c
    case IsNotNull(col) => Known(row(col) != Null)
    case Comparison(col, op, k) =>
      if row(col) == Null || Argument(args, k) == Null then Unknown
      else Known(CompareValues(op, row(col), Argument(args, k)))
    case Junction(l, And, r) => Both(Meaning(l, args, row, db), Meaning(r, args, row, db))
    case Junction(l, Or, r) => Either(Meaning(l, args, row, db), Meaning(r, args, row, db))
    case Negation(f) => Opposite(Meaning(f, args, row, db))
    case Exists(table, alias, parent, f) =>
      Known(exists i :: 0 <= i < |db(table)| && Selected(f, alias, parent, args, Inside(row, alias, db(table)[i]), db))
  }

  predicate Joined(alias: string, parent: ColumnRef, inner: Row) {
    RelationTruth("=", inner(ColumnRef(alias, "resource_id")), inner(parent)) == Yes
  }

  predicate Selected(f: Clause, alias: string, parent: ColumnRef, args: seq<Json>, inner: Row, db: Tables)
    decreases f, 1
  {
    Joined(alias, parent, inner) && Meaning(f, args, inner, db) == Yes
  }

  // The arguments that go into LIKE patterns have no character special to it.
  predicate PlainArguments(c: Clause, args: seq<Json>) {
    match c
    case IsNotNull(_) => true
    case Comparison(_, op, k) =>
      op != Pr && (op == Co || op == Sw || op == Ew ==> Plain(FormatV(Argument(args, k))))
    case Junction(l, _, r) => PlainArguments(l, args) && PlainArguments(r, args)
    case Negation(f) => PlainArguments(f, args)
    case Exists(_, _, _, f) => PlainArguments(f, args)
  }

  lemma PatternTexts(k: nat, args: seq<Json>)
    ensures var b := FormatV(Argument(args, k));
            PatternText([Percent, Bound(k), Percent], args) == InnerPattern(b)
            && PatternText([Bound(k), Percent], args) == StartPattern(b)
            && PatternText([Percent, Bound(k)], args) == EndPattern(b)
  {
    var b := FormatV(Argument(args, k));
    assert PatternText([Percent], args) == "%" + "";
    assert [Bound(k), Percent][1..] == [Percent] && [Percent, Bound(k), Percent][1..] == [Bound(k), Percent];
    assert PatternText([Bound(k), Percent], args) == Lower(b) + "%";
    assert [Percent, Bound(k)][1..] == [Bound(k)] && PatternText([Bound(k)], args) == Lower(b) + "";
    assert Lower(b) + "" == Lower(b);
  }

  lemma NullPieces(k: nat, args: seq<Json>)
    ensures HasNull([Percent, Bound(k), Percent], args) <==> Argument(args, k) == Null
    ensures HasNull([Bound(k), Percent], args) <==> Argument(args, k) == Null
    ensures HasNull([Percent, Bound(k)], args) <==> Argument(args, k) == Null
  {
    var a, b, c := [Percent, Bound(k), Percent], [Bound(k), Percent], [Percent, Bound(k)];
    assert a[1] == Bound(k) && b[0] == Bound(k) && c[1] == Bound(k);
  }

  // A plain argument in a pattern: the operator's own verdict.
  lemma PatternIsOperator(op: CompareOp, x: Json, k: nat, args: seq<Json>, col: ColumnRef)
    requires (op == Co || op == Sw || op == Ew) && Plain(FormatV(Argument(args, k)))
    ensures var y := Argument(args, k);
            PatternTruth(x, ComparisonCondition(col, op, k).pieces, args)
            == if x == Null || y == Null then Unknown else Known(CompareValues(op, x, y))
  {
    var a, b := FormatV(x), FormatV(Argument(args, k));
    PatternTexts(k, args);
    NullPieces(k, args);
    PlainIsExact(a, b);
    LowerContains(a, b);
    LowerEnds(a, b);
  }

  lemma RelationIsOperator(op: CompareOp, x: Json, y: Json, col: ColumnRef, k: nat)
    requires op != Co && op != Sw && op != Ew && op != Pr
    ensures RelationTruth(ComparisonCondition(col, op, k).rel, x, y)
            == if x == Null || y == Null then Unknown else Known(CompareValues(op, x, y))
  {
    OrderLaws(x, y);
    OrderLaws(y, x);
  }

  // The condition read from a clause's text means what the clause does.
  lemma {:induction false} ConditionIsMeaning(c: Clause, args: seq<Json>, row: Row, db: Tables)
    requires PlainArguments(c, args)
    ensures ConditionMeaning(ConditionOf(c), args, row, db) == Meaning(c, args, row, db)
    decreases c
  {
    match c
    case IsNotNull(_) =>
    case Comparison(col, op, k) =>
      if op == Co || op == Sw || op == Ew {
        PatternIsOperator(op, row(col), k, args, col);
      } else {
        RelationIsOperator(op, row(col), Argument(args, k), col, k);
      }
    case Junction(l, _, r) =>
      ConditionIsMeaning(l, args, row, db);
      ConditionIsMeaning(r, args, row, db);
    case Negation(f) => ConditionIsMeaning(f, args, row, db);
    case Exists(table, alias, parent, f) =>
      forall i | 0 <= i < |db(table)|
        ensures Selected(f, alias, parent, args, Inside(row, alias, db(table)[i]), db)
            <==> Chosen(ConditionOf(f), ColumnRef(alias, "resource_id"), parent, args,
                        Inside(row, alias, db(table)[i]), db)
      {
        ConditionIsMeaning(f, args, Inside(row, alias, db(table)[i]), db);
      }
  }
}
