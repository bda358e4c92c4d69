// The rows that show a resource, those of sub-tables too, and the truth of a filter's clause on them.
module SqlRows {
  import opened Text
  import opened Values
  import opened Objects
  import opened Paths
  import opened Filters
  import opened FilterEval
  import opened SqlFilter
  import opened SqlMeaning

  // ----- rows that show a resource -----

  function AliasOf(p: AttributePath): string
    requires p.name != ""
  {
    Lower(p.name)[..1]
  }

  function TableOf(p: AttributePath): string { Lower(p.name) + "s" }

  // The row of a sub-table is one of the resource's.
  predicate Belongs(row: Row, alias: string, r: TableRow) {
    RelationTruth("=", r("resource_id"), row(ColumnRef(alias, "id"))) == Yes
  }

  // Every column the filter compares is mapped.
  predicate Mapped(e: Filter, mapper: Mapper, alias: string) {
    match e
    case Compare(p, _, _) => Column(mapper, alias, p).Some?
    case Logical(l, _, r) => Mapped(l, mapper, alias) && Mapped(r, mapper, alias)
    case Not(f) => Mapped(f, mapper, alias)
    case ValuePath(p, f) => p.name != "" && Mapped(f, mapper, AliasOf(p))
  }

  // An object of a list, or the object itself.
  ghost predicate IsElement(v: Json, o: Object) {
    match v
    case Arr(items) => exists i :: 0 <= i < |items| && items[i] == Obj(o)
    case Obj(fields) => o == fields
    case _ => false
  }

  // Of the given rows, those that belong show the objects there are, in any order.
  ghost predicate ShowsElements(v: Json, rows: seq<TableRow>, belongs: TableRow -> bool,
                                shown: (Object, TableRow) -> bool) {
    (forall o {:trigger HasRow(o, rows, belongs, shown)} :: IsElement(v, o) ==> HasRow(o, rows, belongs, shown))
    && (forall j {:trigger HasObject(v, rows[j], shown)} ::
          0 <= j < |rows| && belongs(rows[j]) ==> HasObject(v, rows[j], shown))
  }

  ghost predicate HasRow(o: Object, rows: seq<TableRow>, belongs: TableRow -> bool,
                         shown: (Object, TableRow) -> bool) {
    exists j :: 0 <= j < |rows| && belongs(rows[j]) && shown(o, rows[j])
  }

  ghost predicate HasObject(v: Json, r: TableRow, shown: (Object, TableRow) -> bool) {
    exists o :: IsElement(v, o) && shown(o, r)
  }

  function Belonging(row: Row, alias: string): TableRow -> bool { (r: TableRow) => Belongs(row, alias, r) }

  // Every column the filter names holds a value that its attribute may be found to have, and no list. For a
  // value path, the rows of the resource in the sub-table show the objects there.
  ghost predicate ShowsResource(e: Filter, m: Object, mapper: Mapper, alias: string, row: Row, db: Tables)
    decreases e, 0
  {
    match e
    case Compare(p, _, _) =>
      var c := Column(mapper, alias, p);
      c.Some? && MayGet(m, p, row(c.value)) && !row(c.value).Arr?
    case Logical(l, _, r) =>
      ShowsResource(l, m, mapper, alias, row, db) && ShowsResource(r, m, mapper, alias, row, db)
    case Not(f) => ShowsResource(f, m, mapper, alias, row, db)
    case ValuePath(p, f) =>
      p.name != "" && Mapped(f, mapper, AliasOf(p))
      && exists v :: MayFind(m, p.name, v)
           && ShowsElements(v, db(TableOf(p)), Belonging(row, alias), Showing(f, mapper, AliasOf(p), row, db))
  }

  ghost function Showing(f: Filter, mapper: Mapper, alias: string, row: Row, db: Tables): (Object, TableRow) -> bool
    decreases f, 1
  {
    (o: Object, r: TableRow) => ShowsResource(f, o, mapper, alias, Inside(row, alias, r), db)
  }

  lemma {:induction false} ShownIsMapped(e: Filter, m: Object, mapper: Mapper, alias: string, row: Row, db: Tables)
    requires ShowsResource(e, m, mapper, alias, row, db)
    ensures Mapped(e, mapper, alias)
  {
    match e
    case Compare(_, _, _) =>
    case Logical(l, _, r) =>
      ShownIsMapped(l, m, mapper, alias, row, db);
      ShownIsMapped(r, m, mapper, alias, row, db);
    case Not(f) => ShownIsMapped(f, m, mapper, alias, row, db);
    case ValuePath(_, _) =>
  }

  // The evaluator's verdict on the values in the columns and rows.
  predicate RowEval(e: Filter, mapper: Mapper, alias: string, row: Row, db: Tables)
    decreases e, 0
  {
    match e
    case Compare(p, op, v) => var c := Column(mapper, alias, p); c.Some? && CompareValues(op, row(c.value), v)
    case Logical(l, And, r) => RowEval(l, mapper, alias, row, db) && RowEval(r, mapper, alias, row, db)
    case Logical(l, Or, r) => RowEval(l, mapper, alias, row, db) || RowEval(r, mapper, alias, row, db)
    case Not(f) => !RowEval(f, mapper, alias, row, db)
    case ValuePath(p, f) =>
      p.name != "" && AnyOf(db(TableOf(p)), Belonging(row, alias), Accepting(f, mapper, AliasOf(p), row, db))
  }

  predicate AnyOf(rows: seq<TableRow>, belongs: TableRow -> bool, accepts: TableRow -> bool) {
    exists j :: 0 <= j < |rows| && belongs(rows[j]) && accepts(rows[j])
  }

  function Accepting(f: Filter, mapper: Mapper, alias: string, row: Row, db: Tables): TableRow -> bool
    decreases f, 1
  {
    (r: TableRow) => RowEval(f, mapper, alias, Inside(row, alias, r), db)
  }

  // Whether some element may be accepted, or all may be rejected.
  ghost predicate MayFindOne(v: Json, may: (Object, bool) -> bool, found: bool) {
    if found then exists o :: IsElement(v, o) && may(o, true) else forall o :: IsElement(v, o) ==> may(o, false)
  }

  // The verdicts on the rows, each possible on the objects it shows, give one that is possible on the value.
  lemma VerdictOfRows(v: Json, may: (Object, bool) -> bool, rows: seq<TableRow>, belongs: TableRow -> bool,
                      shown: (Object, TableRow) -> bool, accepts: TableRow -> bool)
    requires ShowsElements(v, rows, belongs, shown)
    requires forall o, j :: 0 <= j < |rows| && shown(o, rows[j]) ==> may(o, accepts(rows[j]))
    ensures MayFindOne(v, may, AnyOf(rows, belongs, accepts))
  {
    if AnyOf(rows, belongs, accepts) {
      var j :| 0 <= j < |rows| && belongs(rows[j]) && accepts(rows[j]);
      assert HasObject(v, rows[j], shown);
      var o :| IsElement(v, o) && shown(o, rows[j]);
    } else {
      forall o | IsElement(v, o) ensures may(o, false) {
        assert HasRow(o, rows, belongs, shown);
        var j :| 0 <= j < |rows| && belongs(rows[j]) && shown(o, rows[j]);
      }
    }
  }

  ghost function Possible(f: Filter): (Object, bool) -> bool { (o, b) => MayEval(f, o, b) }

  lemma FoundOne(f: Filter, v: Json, found: bool)
    requires MayFindOne(v, Possible(f), found)
    ensures MayEvalIn(f, v, found)
  {
    if found {
      var o :| IsElement(v, o) && Possible(f)(o, true);
      SomeElement(f, v, o);
    } else {
      forall o | IsElement(v, o) ensures MayEval(f, o, false) { assert Possible(f)(o, false); }
      NoElement(f, v);
    }
  }

  lemma SomeElement(f: Filter, v: Json, o: Object)
    requires IsElement(v, o) && MayEval(f, o, true)
    ensures MayEvalIn(f, v, true)
  {
  }

  lemma NoElement(f: Filter, v: Json)
    requires forall o :: IsElement(v, o) ==> MayEval(f, o, false)
    ensures MayEvalIn(f, v, false)
  {
    if v.Arr? {
      forall i | 0 <= i < |v.items| && v.items[i].Obj? ensures MayEval(f, v.items[i].fields, false) {
        assert IsElement(v, v.items[i].fields);
      }
    } else if v.Obj? {
      assert IsElement(v, v.fields);
    }
  }

  // The row's verdict is one that the evaluator can give for the resource.
  lemma {:induction false} RowVerdictIsPossible(e: Filter, m: Object, mapper: Mapper, alias: string, row: Row,
                                                db: Tables)
    requires ShowsResource(e, m, mapper, alias, row, db)
    ensures MayEval(e, m, RowEval(e, mapper, alias, row, db))
    decreases e, 1
  {
    match e
    case Compare(p, op, v) =>
      var x := row(Column(mapper, alias, p).value);
      assert MayMatch(op, x, p.sub, v, CompareValues(op, x, v));
    case Logical(l, op, r) =>
      RowVerdictIsPossible(l, m, mapper, alias, row, db);
      RowVerdictIsPossible(r, m, mapper, alias, row, db);
    case Not(f) => RowVerdictIsPossible(f, m, mapper, alias, row, db);
    case ValuePath(p, f) => ElementVerdictIsPossible(p, f, m, mapper, alias, row, db);
  }

  lemma {:induction false} ElementVerdictIsPossible(p: AttributePath, f: Filter, m: Object, mapper: Mapper,
                                                    alias: string, row: Row, db: Tables)
    requires ShowsResource(ValuePath(p, f), m, mapper, alias, row, db)
    ensures MayEval(ValuePath(p, f), m, RowEval(ValuePath(p, f), mapper, alias, row, db))
    decreases ValuePath(p, f), 0
  {
    var a, rows := AliasOf(p), db(TableOf(p));
    var shown, accepts := Showing(f, mapper, a, row, db), Accepting(f, mapper, a, row, db);
    var v :| MayFind(m, p.name, v) && ShowsElements(v, rows, Belonging(row, alias), shown);
    forall o, j | 0 <= j < |rows| && shown(o, rows[j]) ensures Possible(f)(o, accepts(rows[j])) {
      RowVerdictIsPossible(f, o, mapper, a, Inside(row, a, rows[j]), db);
    }
    VerdictOfRows(v, Possible(f), rows, Belonging(row, alias), shown, accepts);
    FoundOne(f, v, AnyOf(rows, Belonging(row, alias), accepts));
  }

  lemma RowVerdict(e: Filter, m: Object, mapper: Mapper, alias: string, row: Row, db: Tables)
    requires ShowsResource(e, m, mapper, alias, row, db)
    ensures MayEval(e, m, RowEval(e, mapper, alias, row, db))
    ensures Unique(Obj(m)) ==> RowEval(e, mapper, alias, row, db) == Eval(e, m)
  {
    RowVerdictIsPossible(e, m, mapper, alias, row, db);
    if Unique(Obj(m)) { OrderIrrelevant(e, m, RowEval(e, mapper, alias, row, db)); }
  }

  // ----- the clause of a filter against the rows -----

  // The argument list holds the filter's values after the first n others.
  predicate HoldsFrom(args: seq<Json>, n: nat, e: Filter) {
    n + |ComparedValues(e)| <= |args| && args[n..n + |ComparedValues(e)|] == ComparedValues(e)
  }

  lemma HoldsParts(args: seq<Json>, n: nat, l: Filter, op: LogicalOp, r: Filter)
    requires HoldsFrom(args, n, Logical(l, op, r))
    ensures HoldsFrom(args, n, l) && HoldsFrom(args, n + |ComparedValues(l)|, r)
  {
    SplitSlice(args, n, ComparedValues(l), ComparedValues(r));
  }

  lemma SplitSlice<T>(xs: seq<T>, n: nat, a: seq<T>, b: seq<T>)
    requires n + |a + b| <= |xs| && xs[n..n + |a + b|] == a + b
    ensures xs[n..n + |a|] == a && xs[n + |a|..n + |a| + |b|] == b
  {
    var all := xs[n..n + |a + b|];
    assert all[..|a|] == a && all[|a|..] == b;
    assert xs[n..n + |a|] == all[..|a|] && xs[n + |a|..n + |a| + |b|] == all[|a|..];
  }

  lemma HeldValue(args: seq<Json>, n: nat, p: AttributePath, op: CompareOp, v: Json)
    requires HoldsFrom(args, n, Compare(p, op, v)) && op != Pr
    ensures Argument(args, n + 1) == v
  {
    assert args[n..n + 1][0] == v;
  }

  // No sub-query takes the alias of what is around it, so its rows are joined to the resource.
  predicate AliasesApart(e: Filter, alias: string) {
    match e
    case Compare(_, _, _) => true
    case Logical(l, _, r) => AliasesApart(l, alias) && AliasesApart(r, alias)
    case Not(f) => AliasesApart(f, alias)
    case ValuePath(p, f) => p.name != "" && AliasOf(p) != alias && AliasesApart(f, AliasOf(p))
  }

  // What the filter and the arguments must be for its clause to be read in the given row.
  predicate Translatable(e: Filter, mapper: Mapper, alias: string, args: seq<Json>, n: nat) {
    NamedPaths(e) && Mapped(e, mapper, alias) && AliasesApart(e, alias) && HoldsFrom(args, n, e)
  }

  lemma {:induction false} HasClause(e: Filter, mapper: Mapper, alias: string, n: nat)
    requires NamedPaths(e) && Mapped(e, mapper, alias)
    ensures ClauseOf(e, mapper, alias, n).Some?
  {
    match e
    case Compare(_, _, _) =>
    case Logical(l, _, r) =>
      HasClause(l, mapper, alias, n);
      HasClause(r, mapper, alias, n + |ComparedValues(l)|);
    case Not(f) => HasClause(f, mapper, alias, n);
    case ValuePath(p, f) => HasClause(f, mapper, AliasOf(p), n);
  }

  // The truth of a filter's clause.
  function ClauseTruth(e: Filter, mapper: Mapper, alias: string, args: seq<Json>, n: nat, row: Row, db: Tables): Truth
    requires NamedPaths(e) && Mapped(e, mapper, alias)
  {
    HasClause(e, mapper, alias, n);
    Meaning(ClauseOf(e, mapper, alias, n).value, args, row, db)
  }

  // The clause of a comparison is known unless it compares with a NULL, and then agrees with the evaluator.
  lemma ComparisonVerdict(p: AttributePath, op: CompareOp, v: Json, mapper: Mapper, alias: string, args: seq<Json>,
                          n: nat, row: Row, db: Tables)
    requires Translatable(Compare(p, op, v), mapper, alias, args, n)
    ensures var x := row(Column(mapper, alias, p).value);
            ClauseTruth(Compare(p, op, v), mapper, alias, args, n, row, db)
            == if op != Pr && (x == Null || v == Null) then Unknown else Known(CompareValues(op, x, v))
  {
    if op != Pr { HeldValue(args, n, p, op, v); }
  }

  lemma JunctionParts(l: Filter, op: LogicalOp, r: Filter, mapper: Mapper, alias: string, args: seq<Json>, n: nat)
    requires Translatable(Logical(l, op, r), mapper, alias, args, n)
    ensures Translatable(l, mapper, alias, args, n) && Translatable(r, mapper, alias, args, n + |ComparedValues(l)|)
  {
    HoldsParts(args, n, l, op, r);
  }

  // The clause of a connective joins the clauses of its sides.
  lemma JunctionVerdict(l: Filter, op: LogicalOp, r: Filter, mapper: Mapper, alias: string, args: seq<Json>, n: nat,
                        row: Row, db: Tables)
    requires NamedPaths(Logical(l, op, r)) && Mapped(Logical(l, op, r), mapper, alias)
    ensures var t := ClauseTruth(l, mapper, alias, args, n, row, db);
            var u := ClauseTruth(r, mapper, alias, args, n + |ComparedValues(l)|, row, db);
            ClauseTruth(Logical(l, op, r), mapper, alias, args, n, row, db)
            == if op == And then Both(t, u) else Either(t, u)
  {
    HasClause(l, mapper, alias, n);
    HasClause(r, mapper, alias, n + |ComparedValues(l)|);
  }

  lemma NegationVerdict(f: Filter, mapper: Mapper, alias: string, args: seq<Json>, n: nat, row: Row, db: Tables)
    requires Translatable(Not(f), mapper, alias, args, n)
    ensures Translatable(f, mapper, alias, args, n)
    ensures ClauseTruth(Not(f), mapper, alias, args, n, row, db)
            == Opposite(ClauseTruth(f, mapper, alias, args, n, row, db))
  {
    HasClause(f, mapper, alias, n);
  }

  lemma JoinedIsBelongs(row: Row, alias: string, inner: string, r: TableRow)
    requires alias != inner
    ensures Joined(inner, ColumnRef(alias, "id"), Inside(row, inner, r)) <==> Belongs(row, alias, r)
  {
  }

  // When on each row the inner clause says Yes exactly where the inner filter accepts, the sub-query has the
  // verdict of the value path.
  lemma ExistsVerdict(p: AttributePath, f: Filter, mapper: Mapper, alias: string, args: seq<Json>, n: nat, row: Row,
                      db: Tables)
    requires Translatable(ValuePath(p, f), mapper, alias, args, n)
    requires forall j :: 0 <= j < |db(TableOf(p))| && Belongs(row, alias, db(TableOf(p))[j]) ==>
               (ClauseTruth(f, mapper, AliasOf(p), args, n, Inside(row, AliasOf(p), db(TableOf(p))[j]), db) == Yes
                <==> Accepting(f, mapper, AliasOf(p), row, db)(db(TableOf(p))[j]))
    ensures ClauseTruth(ValuePath(p, f), mapper, alias, args, n, row, db)
            == Known(RowEval(ValuePath(p, f), mapper, alias, row, db))
  {
    var rows, a := db(TableOf(p)), AliasOf(p);
    HasClause(f, mapper, a, n);
    var c := ClauseOf(f, mapper, a, n).value;
    forall j | 0 <= j < |rows|
      ensures Selected(c, a, ColumnRef(alias, "id"), args, Inside(row, a, rows[j]), db)
          <==> Belonging(row, alias)(rows[j]) && Accepting(f, mapper, a, row, db)(rows[j])
    {
      JoinedIsBelongs(row, alias, a, rows[j]);
    }
    SomeSelected(c, a, ColumnRef(alias, "id"), args, row, rows, db, Belonging(row, alias),
                 Accepting(f, mapper, a, row, db));
  }

  lemma SomeSelected(c: Clause, a: string, parent: ColumnRef, args: seq<Json>, row: Row, rows: seq<TableRow>,
                     db: Tables, belongs: TableRow -> bool, accepts: TableRow -> bool)
    requires forall j :: 0 <= j < |rows| ==>
               (Selected(c, a, parent, args, Inside(row, a, rows[j]), db) <==> belongs(rows[j]) && accepts(rows[j]))
    ensures (exists i :: 0 <= i < |rows| && Selected(c, a, parent, args, Inside(row, a, rows[i]), db))
            <==> AnyOf(rows, belongs, accepts)
  {
  }

  // ----- rows with NULLs -----

  // A comparison the evaluator does not accept for an absent attribute, and one it accepts.
  predicate RejectsAbsent(op: CompareOp, v: Json) { op == Pr || (v != Null && !CompareValues(op, Null, v)) }

  predicate AcceptsAbsent(op: CompareOp, v: Json) { op == Pr || (v != Null && CompareValues(op, Null, v)) }

  // Every comparison under an even number of `not`s rejects an absent attribute, and every one under an odd
  // number accepts it; presence is never in doubt. Here even says which of the two e stands under. A
  // sub-query is never Unknown, so the count starts anew inside it.
  predicate Polar(e: Filter, even: bool) {
    match e
    case Compare(_, op, v) => if even then RejectsAbsent(op, v) else AcceptsAbsent(op, v)
    case Logical(l, _, r) => Polar(l, even) && Polar(r, even)
    case Not(f) => Polar(f, !even)
    case ValuePath(_, f) => Polar(f, true)
  }

  // Equality with a value rejects an absent attribute, inequality accepts one.
  lemma EqualityIsPolar(p: AttributePath, v: Json)
    ensures Polar(Compare(p, Eq, v), true) <==> v != Null
    ensures Polar(Compare(p, Ne, v), false) <==> v != Null
    ensures Polar(Compare(p, Pr, Null), true) && Polar(Compare(p, Pr, Null), false)
  {
  }

  // What such a filter's clause says where the filter stands.
  ghost predicate Agrees(t: Truth, b: bool, even: bool) { if even then t == Yes <==> b else t == No <==> !b }

  lemma JunctionAgrees(op: LogicalOp, t: Truth, u: Truth, b: bool, c: bool, even: bool)
    requires Agrees(t, b, even) && Agrees(u, c, even)
    ensures Agrees(if op == And then Both(t, u) else Either(t, u), if op == And then b && c else b || c, even)
  {
  }

  lemma {:induction false} PolarAgrees(e: Filter, even: bool, mapper: Mapper, alias: string, args: seq<Json>, n: nat,
                                       row: Row, db: Tables)
    requires Translatable(e, mapper, alias, args, n) && Polar(e, even)
    ensures Agrees(ClauseTruth(e, mapper, alias, args, n, row, db), RowEval(e, mapper, alias, row, db), even)
    decreases e
  {
    match e
    case Compare(p, op, v) => ComparisonVerdict(p, op, v, mapper, alias, args, n, row, db);
    case Logical(l, op, r) =>
      var k := n + |ComparedValues(l)|;
      JunctionParts(l, op, r, mapper, alias, args, n);
      JunctionVerdict(l, op, r, mapper, alias, args, n, row, db);
      PolarAgrees(l, even, mapper, alias, args, n, row, db);
      PolarAgrees(r, even, mapper, alias, args, k, row, db);
      JunctionAgrees(op, ClauseTruth(l, mapper, alias, args, n, row, db),
                     ClauseTruth(r, mapper, alias, args, k, row, db), RowEval(l, mapper, alias, row, db),
                     RowEval(r, mapper, alias, row, db), even);
    case Not(f) =>
      NegationVerdict(f, mapper, alias, args, n, row, db);
      PolarAgrees(f, !even, mapper, alias, args, n, row, db);
    case ValuePath(p, f) =>
      forall j | 0 <= j < |db(TableOf(p))|
        ensures ClauseTruth(f, mapper, AliasOf(p), args, n, Inside(row, AliasOf(p), db(TableOf(p))[j]), db) == Yes
            <==> Accepting(f, mapper, AliasOf(p), row, db)(db(TableOf(p))[j])
      {
        PolarAgrees(f, true, mapper, AliasOf(p), args, n, Inside(row, AliasOf(p), db(TableOf(p))[j]), db);
      }
      ExistsVerdict(p, f, mapper, alias, args, n, row, db);
  }

  // The filters of value paths are polar.
  predicate SubqueriesPolar(e: Filter) {
    match e
    case Compare(_, _, _) => true
    case Logical(l, _, r) => SubqueriesPolar(l) && SubqueriesPolar(r)
    case Not(f) => SubqueriesPolar(f)
    case ValuePath(_, f) => Polar(f, true)
  }

  lemma {:induction false} KnownIsRowVerdict(e: Filter, mapper: Mapper, alias: string, args: seq<Json>, n: nat,
                                             row: Row, db: Tables)
    requires Translatable(e, mapper, alias, args, n) && SubqueriesPolar(e)
    ensures var t := ClauseTruth(e, mapper, alias, args, n, row, db);
            t != Unknown ==> t == Known(RowEval(e, mapper, alias, row, db))
    decreases e
  {
    match e
    case Compare(p, op, v) => ComparisonVerdict(p, op, v, mapper, alias, args, n, row, db);
    case Logical(l, op, r) =>
      JunctionParts(l, op, r, mapper, alias, args, n);
      JunctionVerdict(l, op, r, mapper, alias, args, n, row, db);
      KnownIsRowVerdict(l, mapper, alias, args, n, row, db);
      KnownIsRowVerdict(r, mapper, alias, args, n + |ComparedValues(l)|, row, db);
    case Not(f) =>
      NegationVerdict(f, mapper, alias, args, n, row, db);
      KnownIsRowVerdict(f, mapper, alias, args, n, row, db);
    case ValuePath(_, _) =>
      PolarAgrees(e, true, mapper, alias, args, n, row, db);
      PolarAgrees(e, false, mapper, alias, args, n, row, db);
  }

  // Neither a column nor a compared value of the filter is NULL, where it is compared.
  predicate NoNulls(e: Filter, mapper: Mapper, alias: string, row: Row, db: Tables)
    decreases e, 0
  {
    match e
    case Compare(p, op, v) =>
      var c := Column(mapper, alias, p);
      op == Pr || (v != Null && c.Some? && row(c.value) != Null)
    case Logical(l, _, r) => NoNulls(l, mapper, alias, row, db) && NoNulls(r, mapper, alias, row, db)
    case Not(f) => NoNulls(f, mapper, alias, row, db)
    case ValuePath(p, f) =>
      p.name != "" && forall j :: 0 <= j < |db(TableOf(p))| && Belongs(row, alias, db(TableOf(p))[j]) ==>
        NoNullsIn(f, mapper, AliasOf(p), row, db(TableOf(p))[j], db)
  }

  predicate NoNullsIn(f: Filter, mapper: Mapper, alias: string, row: Row, r: TableRow, db: Tables)
    decreases f, 1
  {
    NoNulls(f, mapper, alias, Inside(row, alias, r), db)
  }

  lemma {:induction false} NoNullsIsRowVerdict(e: Filter, mapper: Mapper, alias: string, args: seq<Json>, n: nat,
                                               row: Row, db: Tables)
    requires Translatable(e, mapper, alias, args, n) && NoNulls(e, mapper, alias, row, db)
    ensures ClauseTruth(e, mapper, alias, args, n, row, db) == Known(RowEval(e, mapper, alias, row, db))
    decreases e
  {
    match e
    case Compare(p, op, v) => ComparisonVerdict(p, op, v, mapper, alias, args, n, row, db);
    case Logical(l, op, r) =>
      JunctionParts(l, op, r, mapper, alias, args, n);
      JunctionVerdict(l, op, r, mapper, alias, args, n, row, db);
      NoNullsIsRowVerdict(l, mapper, alias, args, n, row, db);
      NoNullsIsRowVerdict(r, mapper, alias, args, n + |ComparedValues(l)|, row, db);
    case Not(f) =>
      NegationVerdict(f, mapper, alias, args, n, row, db);
      NoNullsIsRowVerdict(f, mapper, alias, args, n, row, db);
    case ValuePath(p, f) =>
      var rows, a := db(TableOf(p)), AliasOf(p);
      forall j | 0 <= j < |rows| && Belongs(row, alias, rows[j])
        ensures ClauseTruth(f, mapper, a, args, n, Inside(row, a, rows[j]), db) == Yes
            <==> Accepting(f, mapper, a, row, db)(rows[j])
      {
        assert NoNullsIn(f, mapper, a, row, rows[j], db);
        NoNullsIsRowVerdict(f, mapper, a, args, n, Inside(row, a, rows[j]), db);
      }
      ExistsVerdict(p, f, mapper, alias, args, n, row, db);
  }
}
