// The text of a translated filter against the in-memory evaluator: when it selects the same resources, exactly
// when one comparison does, and inputs on which they differ.
module SqlExactness {
  import opened Text
  import opened Values
  import opened Objects
  import opened Paths
  import opened Filters
  import opened FilterEval
  import opened Comparisons
  import opened SqlFilter
  import opened SqlLike
  import opened SqlReading
  import opened SqlMeaning
  import opened SqlRows

  // ----- the text of a filter against the evaluator -----

  // The values that go into LIKE patterns have no character special to it.
  predicate PlainValues(e: Filter) {
    match e
    case Compare(_, op, v) => op == Co || op == Sw || op == Ew ==> Plain(FormatV(v))
    case Logical(l, _, r) => PlainValues(l) && PlainValues(r)
    case Not(f) => PlainValues(f)
    case ValuePath(_, f) => PlainValues(f)
  }

  lemma PlainComparison(p: AttributePath, op: CompareOp, v: Json, mapper: Mapper, alias: string, args: seq<Json>,
                        n: nat)
    requires var e := Compare(p, op, v); Mapped(e, mapper, alias) && HoldsFrom(args, n, e) && PlainValues(e)
    ensures var c := ClauseOf(Compare(p, op, v), mapper, alias, n); c.Some? && PlainArguments(c.value, args)
  {
    if op != Pr { HeldValue(args, n, p, op, v); }
  }

  lemma PlainJunction(l: Filter, op: LogicalOp, r: Filter, mapper: Mapper, alias: string, args: seq<Json>, n: nat)
    requires NamedPaths(l) && NamedPaths(r)
    requires var c := ClauseOf(l, mapper, alias, n); c.Some? && PlainArguments(c.value, args)
    requires var c := ClauseOf(r, mapper, alias, n + |ComparedValues(l)|); c.Some? && PlainArguments(c.value, args)
    ensures var c := ClauseOf(Logical(l, op, r), mapper, alias, n); c.Some? && PlainArguments(c.value, args)
  {
  }

  lemma {:induction false} PlainIsBound(e: Filter, mapper: Mapper, alias: string, args: seq<Json>, n: nat)
    requires NamedPaths(e) && Mapped(e, mapper, alias) && HoldsFrom(args, n, e) && PlainValues(e)
    ensures ClauseOf(e, mapper, alias, n).Some? && PlainArguments(ClauseOf(e, mapper, alias, n).value, args)
    decreases e
  {
    match e
    case Compare(p, op, v) => PlainComparison(p, op, v, mapper, alias, args, n);
    case Logical(l, op, r) =>
      HoldsParts(args, n, l, op, r);
      PlainIsBound(l, mapper, alias, args, n);
      PlainIsBound(r, mapper, alias, args, n + |ComparedValues(l)|);
      PlainJunction(l, op, r, mapper, alias, args, n);
    case Not(f) => PlainIsBound(f, mapper, alias, args, n);
    case ValuePath(p, f) => PlainIsBound(f, mapper, AliasOf(p), args, n);
  }

  // The filter, its resource and the rows that show it.
  ghost predicate Stands(e: Filter, m: Object, mapper: Mapper, alias: string, row: Row, db: Tables) {
    NamedPaths(e) && AliasesApart(e, alias) && PlainValues(e) && ShowsResource(e, m, mapper, alias, row, db)
  }

  // What the translated text says with the filter's own values as arguments.
  function Selection(e: Filter, mapper: Mapper, alias: string, d: Dialect, row: Row, db: Tables): Option<Truth>
    requires NamedPaths(e)
  {
    match ClauseOf(e, mapper, alias, 0)
    case Some(c) => TextMeaning(Tokens(c, d), ComparedValues(e), row, db)
    case None => None
  }

  lemma OwnValues(e: Filter)
    ensures HoldsFrom(ComparedValues(e), 0, e)
  {
    var args := ComparedValues(e);
    assert args[0..|args|] == args;
  }

  // Reading the text gives the truth of the clause.
  lemma SelectionIsTruth(e: Filter, mapper: Mapper, alias: string, d: Dialect, row: Row, db: Tables)
    requires NamedPaths(e) && PlainValues(e) && Mapped(e, mapper, alias)
    ensures HoldsFrom(ComparedValues(e), 0, e)
    ensures Selection(e, mapper, alias, d, row, db)
            == Some(ClauseTruth(e, mapper, alias, ComparedValues(e), 0, row, db))
  {
    var args := ComparedValues(e);
    OwnValues(e);
    PlainIsBound(e, mapper, alias, args, 0);
    TextRead(e, mapper, alias, d);
    ConditionIsMeaning(ClauseOf(e, mapper, alias, 0).value, args, row, db);
  }

  // A verdict that is not Unknown is one of the evaluator's, whatever the filter and whatever is NULL; it is
  // the only one when the resource has no case clashes.
  lemma KnownIsRight(e: Filter, m: Object, mapper: Mapper, alias: string, d: Dialect, row: Row, db: Tables)
    requires Stands(e, m, mapper, alias, row, db) && SubqueriesPolar(e)
    ensures var t := Selection(e, mapper, alias, d, row, db);
            t.Some?
            && (t != Some(Unknown) ==>
                  MayEval(e, m, t == Some(Yes)) && (Unique(Obj(m)) ==> t == Some(Known(Eval(e, m)))))
  {
    ShownIsMapped(e, m, mapper, alias, row, db);
    SelectionIsTruth(e, mapper, alias, d, row, db);
    KnownIsRowVerdict(e, mapper, alias, ComparedValues(e), 0, row, db);
    RowVerdict(e, m, mapper, alias, row, db);
  }

  // With no NULL compared the verdict is known.
  lemma NeverUnknown(e: Filter, m: Object, mapper: Mapper, alias: string, d: Dialect, row: Row, db: Tables)
    requires Stands(e, m, mapper, alias, row, db) && NoNulls(e, mapper, alias, row, db)
    ensures var t := Selection(e, mapper, alias, d, row, db);
            t.Some? && t != Some(Unknown) && MayEval(e, m, t == Some(Yes))
            && (Unique(Obj(m)) ==> t == Some(Known(Eval(e, m))))
  {
    ShownIsMapped(e, m, mapper, alias, row, db);
    SelectionIsTruth(e, mapper, alias, d, row, db);
    NoNullsIsRowVerdict(e, mapper, alias, ComparedValues(e), 0, row, db);
    RowVerdict(e, m, mapper, alias, row, db);
  }

  // A polar filter selects a resource exactly as the evaluator may, NULLs or not: exactly the resources the
  // evaluator accepts, among those without case clashes.
  lemma PolarIsExact(e: Filter, m: Object, mapper: Mapper, alias: string, d: Dialect, row: Row, db: Tables)
    requires Stands(e, m, mapper, alias, row, db) && Polar(e, true)
    ensures var selected := Selection(e, mapper, alias, d, row, db) == Some(Yes);
            MayEval(e, m, selected) && (Unique(Obj(m)) ==> selected == Eval(e, m))
  {
    ShownIsMapped(e, m, mapper, alias, row, db);
    SelectionIsTruth(e, mapper, alias, d, row, db);
    PolarAgrees(e, true, mapper, alias, ComparedValues(e), 0, row, db);
    RowVerdict(e, m, mapper, alias, row, db);
  }

  // The text TranslateFilter returns, in either dialect: known verdicts are right, all are known without NULLs,
  // and a polar filter selects what the evaluator accepts.
  lemma TranslationMeaning(e: Filter, m: Object, mapper: Mapper, alias: string, d: Dialect, row: Row, db: Tables)
    requires Stands(e, m, mapper, alias, row, db)
    ensures ClauseOf(e, mapper, alias, 0).Some?
    ensures var t := TextMeaning(Tokens(ClauseOf(e, mapper, alias, 0).value, d), ComparedValues(e), row, db);
            t.Some?
            && (SubqueriesPolar(e) && t != Some(Unknown) ==> MayEval(e, m, t == Some(Yes)))
            && (NoNulls(e, mapper, alias, row, db) ==> t != Some(Unknown) && MayEval(e, m, t == Some(Yes)))
            && (Polar(e, true) ==> MayEval(e, m, t == Some(Yes)))
            && (Unique(Obj(m)) && (Polar(e, true) || NoNulls(e, mapper, alias, row, db)) ==>
                  (t == Some(Yes) <==> Eval(e, m)))
  {
    ShownIsMapped(e, m, mapper, alias, row, db);
    SelectionIsTruth(e, mapper, alias, d, row, db);
    if SubqueriesPolar(e) { KnownIsRight(e, m, mapper, alias, d, row, db); }
    if NoNulls(e, mapper, alias, row, db) { NeverUnknown(e, m, mapper, alias, d, row, db); }
    if Polar(e, true) { PolarIsExact(e, m, mapper, alias, d, row, db); }
  }

  // ----- exactly when one comparison agrees -----

  const C := ColumnRef("", "c")

  function NoTables(): Tables { t => [] }

  // The text of one comparison on a column that holds x, with the argument v.
  function Verdict(op: CompareOp, x: Json, v: Json, d: Dialect): Option<Truth> {
    TextMeaning(Tokens(Comparison(C, op, 1), d), [v], _ => x, NoTables())
  }

  lemma VerdictRead(op: CompareOp, x: Json, v: Json, d: Dialect)
    requires op != Pr
    ensures Verdict(op, x, v, d) == Some(ConditionMeaning(ComparisonCondition(C, op, 1), [v], _ => x, NoTables()))
  {
    ReadClause(Comparison(C, op, 1), 0, d, Tokens(Comparison(C, op, 1), d));
  }

  predicate PlainFor(op: CompareOp, v: Json) { op == Co || op == Sw || op == Ew ==> Plain(FormatV(v)) }

  lemma VerdictIs(op: CompareOp, x: Json, v: Json, d: Dialect)
    requires op != Pr
    ensures x == Null || v == Null ==> Verdict(op, x, v, d) == Some(Unknown)
    ensures x != Null && v != Null && PlainFor(op, v) ==> Verdict(op, x, v, d) == Some(Known(CompareValues(op, x, v)))
    ensures x != Null && v != Null ==> Verdict(op, x, v, d) != Some(Unknown)
  {
    VerdictRead(op, x, v, d);
    assert Argument([v], 1) == v;
    if op == Co || op == Sw || op == Ew {
      NullPieces(1, [v]);
      if PlainFor(op, v) { PatternIsOperator(op, x, 1, [v], C); }
    } else {
      RelationIsOperator(op, x, v, C, 1);
    }
  }

  // The text on which LIKE and the operator differ when the argument is not plain.
  function Odd(op: CompareOp, v: Json): Json { Str(Difference(FormatV(v), op == Ew)) }

  predicate LikeFor(op: CompareOp, a: string, b: string) {
    SqlLike.Like(Lower(a), if op == Co then InnerPattern(b) else if op == Sw then StartPattern(b) else EndPattern(b))
  }

  lemma PatternIsLike(op: CompareOp, x: Json, v: Json)
    requires (op == Co || op == Sw || op == Ew) && x != Null && v != Null
    ensures PatternTruth(x, ComparisonCondition(C, op, 1).pieces, [v]) == Known(LikeFor(op, FormatV(x), FormatV(v)))
  {
    assert Argument([v], 1) == v;
    PatternTexts(1, [v]);
    NullPieces(1, [v]);
  }

  // The evaluator's operator on the texts of two values.
  lemma OperatorOnTexts(op: CompareOp, x: Json, v: Json)
    requires op == Co || op == Sw || op == Ew
    ensures CompareValues(op, x, v) <==> TextTest(op, FormatV(x), FormatV(v))
  {
    assert CompareValues(op, x, v) <==> Compared(op, FormatV(x), FormatV(v));
    ComparedIsTest(op, FormatV(x), FormatV(v));
  }

  ghost predicate Alike(op: CompareOp, a: string, b: string) {
    if op == Co then HoldsAlike(a, b) else if op == Sw then StartsAlike(a, b) else EndsAlike(a, b)
  }

  lemma AlikeIs(op: CompareOp, a: string, b: string)
    requires op == Co || op == Sw || op == Ew
    ensures Alike(op, a, b) <==> (LikeFor(op, a, b) <==> TextTest(op, a, b))
  {
    if op == Co {
      assert TextTest(op, a, b) <==> exists i :: StandsAt(a, b, i);
    } else if op == Sw {
      assert TextTest(op, a, b) <==> StandsAt(a, b, 0);
    } else {
      assert TextTest(op, a, b) <==> StandsAt(a, b, |a| - |b|);
    }
  }

  lemma OddLike(op: CompareOp, b: string)
    requires (op == Co || op == Sw || op == Ew) && !Plain(b)
    ensures LikeFor(op, Difference(b, op == Ew), b) <==> !TextTest(op, Difference(b, op == Ew), b)
  {
    AlikeIs(op, Difference(b, op == Ew), b);
    if op == Ew { EndsDiffer(b); } else { StartsAndHoldsDiffer(b); }
  }

  lemma OddPattern(op: CompareOp, v: Json)
    requires v != Null && !PlainFor(op, v)
    ensures PatternTruth(Odd(op, v), ComparisonCondition(C, op, 1).pieces, [v])
            == Known(!CompareValues(op, Odd(op, v), v))
  {
    PatternIsLike(op, Odd(op, v), v);
    OperatorOnTexts(op, Odd(op, v), v);
    OddLike(op, FormatV(v));
  }

  lemma OddDiffers(op: CompareOp, v: Json, d: Dialect)
    requires v != Null && !PlainFor(op, v)
    ensures Verdict(op, Odd(op, v), v, d) == Some(Known(!CompareValues(op, Odd(op, v), v)))
  {
    VerdictRead(op, Odd(op, v), v, d);
    OddPattern(op, v);
  }

  // Text and evaluator select the same values of the column, NULL among them, exactly when the comparison
  // rejects an absent attribute and no character of its value is special in a LIKE pattern.
  lemma ComparisonIsExact(op: CompareOp, v: Json, d: Dialect)
    requires op != Pr
    ensures (forall x: Json :: !x.Arr? ==> (Verdict(op, x, v, d) == Some(Yes) <==> CompareValues(op, x, v)))
            <==> RejectsAbsent(op, v) && PlainFor(op, v)
  {
    forall x: Json ensures RejectsAbsent(op, v) && PlainFor(op, v) ==>
        (Verdict(op, x, v, d) == Some(Yes) <==> CompareValues(op, x, v)) {
      VerdictIs(op, x, v, d);
    }
    VerdictIs(op, Null, v, d);
    if v == Null {
      NullWitnessAccepted(op);
      VerdictIs(op, NullWitness(op), v, d);
    } else if !PlainFor(op, v) {
      OddDiffers(op, v, d);
    }
  }

  // A value that compares with null in the evaluator.
  function NullWitness(op: CompareOp): Json {
    match op
    case Ne => Bool(true)
    case Gt => Str("=")
    case Lt => Str("")
    case _ => Null
  }

  lemma NullWitnessAccepted(op: CompareOp)
    requires op != Pr
    ensures CompareValues(op, NullWitness(op), Null) && !NullWitness(op).Arr?
  {
    var t := Lower("<nil>");
    assert t <= t && t[|t| - |t|..] == t;
  }

  // Under a `not` the condition turns around: the same values are selected exactly when the comparison accepts
  // an absent attribute, and its value is plain.
  lemma NegationIsExact(op: CompareOp, v: Json, d: Dialect)
    requires op != Pr
    ensures (forall x: Json :: !x.Arr? ==> (Verdict(op, x, v, d) == Some(No) <==> !CompareValues(op, x, v)))
            <==> AcceptsAbsent(op, v) && PlainFor(op, v)
  {
    forall x: Json ensures AcceptsAbsent(op, v) && PlainFor(op, v) ==>
        (Verdict(op, x, v, d) == Some(No) <==> !CompareValues(op, x, v)) {
      VerdictIs(op, x, v, d);
    }
    VerdictIs(op, Null, v, d);
    if v == Null {
      NullCounterRejected(op);
      VerdictIs(op, NullCounter(op), v, d);
    } else if !PlainFor(op, v) {
      OddDiffers(op, v, d);
    }
  }

  // A value that does not compare with null in the evaluator.
  function NullCounter(op: CompareOp): Json {
    match op
    case Ne => Null
    case Lt => Str("=")
    case Le => Str("=")
    case _ => Str("")
  }

  lemma NullCounterRejected(op: CompareOp)
    requires op != Pr
    ensures !CompareValues(op, NullCounter(op), Null) && !NullCounter(op).Arr?
  {
    assert |Lower("<nil>")| == 5 && |Lower("")| == 0;
  }

  // The text of one comparison tests the column its attribute is mapped to: in the table the mapping names,
  // otherwise under the alias.
  lemma TestsItsColumn(p: AttributePath, op: CompareOp, v: Json, mapper: Mapper, alias: string, d: Dialect, row: Row,
                       db: Tables, c: ColumnRef)
    requires mapper(PathText(p)) == Some(c) && PlainFor(op, v)
    ensures var x := row(ColumnRef(if c.table == "" then alias else c.table, c.column));
            Selection(Compare(p, op, v), mapper, alias, d, row, db)
            == Some(if op != Pr && (x == Null || v == Null) then Unknown else Known(CompareValues(op, x, v)))
  {
    SelectionIsTruth(Compare(p, op, v), mapper, alias, d, row, db);
    ComparisonVerdict(p, op, v, mapper, alias, ComparedValues(Compare(p, op, v)), 0, row, db);
  }

  // ----- inputs on which they differ -----

  // With `not` a NULL matters: the evaluator accepts a resource without the attribute, the text does not
  // select its row.
  lemma NotLosesAbsent(p: AttributePath, v: Json, mapper: Mapper, d: Dialect)
    requires v != Null && Column(mapper, "", p).Some?
    ensures Eval(Not(Compare(p, Eq, v)), map[])
    ensures Selection(Not(Compare(p, Eq, v)), mapper, "", d, _ => Null, NoTables()) == Some(Unknown)
  {
    var f := Compare(p, Eq, v);
    SelectionIsTruth(Not(f), mapper, "", d, _ => Null, NoTables());
    NegationVerdict(f, mapper, "", [v], 0, _ => Null, NoTables());
    ComparisonVerdict(p, Eq, v, mapper, "", [v], 0, _ => Null, NoTables());
  }

  const EMAILS := AttributePath("", "emails", "")

  const TYPE := AttributePath("", "type", "")

  // Every attribute in a column of its own name, and a sub-table with one row.
  function ByName(): Mapper { (s: string) => Some(ColumnRef("", s)) }

  function OneRow(r: TableRow): Tables { (t: string) => [r] }

  // A sub-query with no row for which its clause says Yes.
  lemma NoneSelected(p: AttributePath, f: Filter, mapper: Mapper, alias: string, args: seq<Json>, row: Row, db: Tables)
    requires NamedPaths(ValuePath(p, f)) && Mapped(ValuePath(p, f), mapper, alias)
    requires forall j :: 0 <= j < |db(TableOf(p))| ==>
               var inner := Inside(row, AliasOf(p), db(TableOf(p))[j]);
               !Joined(AliasOf(p), ColumnRef(alias, "id"), inner)
               || ClauseTruth(f, mapper, AliasOf(p), args, 0, inner, db) != Yes
    ensures ClauseTruth(ValuePath(p, f), mapper, alias, args, 0, row, db) == No
  {
    var a, rows, parent := AliasOf(p), db(TableOf(p)), ColumnRef(alias, "id");
    var none := (r: TableRow) => false;
    HasClause(f, mapper, a, 0);
    var c := ClauseOf(f, mapper, a, 0).value;
    forall j | 0 <= j < |rows|
      ensures Selected(c, a, parent, args, Inside(row, a, rows[j]), db) <==> none(rows[j]) && none(rows[j])
    {
    }
    SomeSelected(c, a, parent, args, row, rows, db, none, none);
  }

  lemma OneAddress(f: Filter, o: Object)
    requires Eval(f, o)
    ensures Eval(ValuePath(EMAILS, f), map["emails" := Arr([Obj(o)])])
  {
    var m: Object := map["emails" := Arr([Obj(o)])];
    assert KeyOf(m, "emails") == "emails" by { assert "emails" in m; }
    assert Lookup(m, "emails").items[0] == Obj(o);
  }

  // The one row of the sub-table, and the columns in it.
  lemma EmailRow(row: Row, r: TableRow)
    ensures AliasOf(EMAILS) == "e" && OneRow(r)(TableOf(EMAILS)) == [r]
    ensures Column(ByName(), "e", TYPE) == Some(ColumnRef("e", "type"))
    ensures Inside(row, "e", r)(ColumnRef("e", "type")) == r("type")
    ensures Inside(row, "e", r)(ColumnRef("e", "resource_id")) == r("resource_id")
    ensures Inside(row, "e", r)(ColumnRef("e", "id")) == r("id")
    ensures Inside(row, "e", r)(ColumnRef("", "id")) == row(ColumnRef("", "id"))
  {
    assert Lower(EMAILS.name)[..1] == "e";
    assert PathText(TYPE) == "type";
  }

  function Work(): Filter { Compare(TYPE, Eq, Str("work")) }

  function NotWork(): Filter { Not(Work()) }

  lemma UntypedIsUnknown(row: Row, r: TableRow, db: Tables)
    requires r("type") == Null
    ensures ClauseTruth(NotWork(), ByName(), "e", [Str("work")], 0, Inside(row, "e", r), db) == Unknown
  {
    var args, inner := [Str("work")], Inside(row, "e", r);
    EmailRow(row, r);
    NegationVerdict(Work(), ByName(), "e", args, 0, inner, db);
    ComparisonVerdict(TYPE, Eq, Str("work"), ByName(), "e", args, 0, inner, db);
  }

  // Inside a sub-query it matters more: there Unknown counts as No, so that emails[not (type eq "work")] is
  // known to fail, and its negation to hold, on an address without a type, which the evaluator accepts.
  lemma SubqueryLosesAbsent(row: Row, r: TableRow, d: Dialect)
    requires r("type") == Null
    ensures Eval(ValuePath(EMAILS, NotWork()), map["emails" := Arr([Obj(map[])])])
    ensures Selection(ValuePath(EMAILS, NotWork()), ByName(), "", d, row, OneRow(r)) == Some(No)
    ensures Selection(Not(ValuePath(EMAILS, NotWork())), ByName(), "", d, row, OneRow(r)) == Some(Yes)
  {
    var e, args := ValuePath(EMAILS, NotWork()), [Str("work")];
    OneAddress(NotWork(), map[]);
    EmailRow(row, r);
    UntypedIsUnknown(row, r, OneRow(r));
    NoneSelected(EMAILS, NotWork(), ByName(), "", args, row, OneRow(r));
    SelectionIsTruth(e, ByName(), "", d, row, OneRow(r));
    SelectionIsTruth(Not(e), ByName(), "", d, row, OneRow(r));
    NegationVerdict(e, ByName(), "", args, 0, row, OneRow(r));
  }

  lemma JoinedToItself(row: Row, r: TableRow)
    requires r("resource_id") == Str("1") && r("id") == Str("9")
    ensures !Joined("e", ColumnRef("e", "id"), Inside(row, "e", r))
  {
    EmailRow(row, r);
    CompareTexts(Eq, "1", "9");
    assert !SameLetter("1"[0], "9"[0]);
  }

  // A sub-query that takes the alias of what is around it is joined to its own rows, not to the resource: with
  // the table alias e, emails[type pr] holds for no resource whose addresses have other identifiers than it.
  lemma CaptureLosesElements(row: Row, r: TableRow, d: Dialect)
    requires r("resource_id") == Str("1") && r("id") == Str("9")
    ensures Selection(ValuePath(EMAILS, Compare(TYPE, Pr, Null)), ByName(), "e", d, row, OneRow(r)) == Some(No)
  {
    var f := Compare(TYPE, Pr, Null);
    EmailRow(row, r);
    JoinedToItself(row, r);
    var rows := OneRow(r)(TableOf(EMAILS));
    assert Inside(row, AliasOf(EMAILS), rows[0]) == Inside(row, "e", r);
    NoneSelected(EMAILS, f, ByName(), "e", [], row, OneRow(r));
    SelectionIsTruth(ValuePath(EMAILS, f), ByName(), "e", d, row, OneRow(r));
  }

  // Without that alias the same row is found.
  lemma OwnAliasFinds(row: Row, r: TableRow, d: Dialect)
    requires r("resource_id") == Str("1") && row(ColumnRef("", "id")) == Str("1") && r("type") != Null
    ensures Selection(ValuePath(EMAILS, Compare(TYPE, Pr, Null)), ByName(), "", d, row, OneRow(r)) == Some(Yes)
  {
    var f := Compare(TYPE, Pr, Null);
    var e := ValuePath(EMAILS, f);
    EmailRow(row, r);
    TypedIsAccepted(row, r);
    SelectionIsTruth(e, ByName(), "", d, row, OneRow(r));
    PolarAgrees(e, true, ByName(), "", [], 0, row, OneRow(r));
  }

  lemma TypedIsAccepted(row: Row, r: TableRow)
    requires r("resource_id") == Str("1") && row(ColumnRef("", "id")) == Str("1") && r("type") != Null
    ensures RowEval(ValuePath(EMAILS, Compare(TYPE, Pr, Null)), ByName(), "", row, OneRow(r))
  {
    var f := Compare(TYPE, Pr, Null);
    var rows := OneRow(r)(TableOf(EMAILS));
    EmailRow(row, r);
    CompareTexts(Eq, "1", "1");
    assert Belonging(row, "")(rows[0]);
    assert Accepting(f, ByName(), "e", row, OneRow(r))(rows[0]);
  }
}
