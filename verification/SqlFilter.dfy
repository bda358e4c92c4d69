// Translating a filter to an SQL condition: the clause as a tree, its tokens, the argument list that grows
// along with it, and its meaning under three-valued logic.
module SqlFilter {
  import opened Text
  import opened Values
  import opened Paths
  import opened Filters

  datatype Dialect = Postgres | MySQL

  // An empty table stands for the table of the resource.
  datatype ColumnRef = ColumnRef(table: string, column: string)

  // Attribute path to column; None for paths that have none.
  type Mapper = string -> Option<ColumnRef>

  datatype Token = Word(s: string) | Name(table: string, column: string) | Param(n: nat) | Anonymous

  // k is the position of the compared value in the argument list, from 1.
  datatype Clause =
    | IsNotNull(col: ColumnRef)
    | Comparison(col: ColumnRef, op: CompareOp, k: nat)
    | Junction(left: Clause, lop: LogicalOp, right: Clause)
    | Negation(inner: Clause)
    | Exists(table: string, alias: string, parent: ColumnRef, cond: Clause)

  // ----- what the translation of a filter is -----

  // The values a filter compares with, from left to right.
  function ComparedValues(e: Filter): seq<Json> {
    match e
    case Compare(_, op, v) => if op == Pr then [] else [v]
    case Logical(l, _, r) => ComparedValues(l) + ComparedValues(r)
    case Not(f) => ComparedValues(f)
    case ValuePath(_, f) => ComparedValues(f)
  }

  function Column(m: Mapper, alias: string, p: AttributePath): Option<ColumnRef> {
    match m(PathText(p))
    case Some(c) => Some(if c.table != "" then c else ColumnRef(alias, c.column))
    case None => None
  }

  // What the parser guarantees of every path: a value path has a name to take the alias from.
  predicate NamedPaths(e: Filter) {
    match e
    case Compare(_, _, _) => true
    case Logical(l, _, r) => NamedPaths(l) && NamedPaths(r)
    case Not(f) => NamedPaths(f)
    case ValuePath(p, f) => p.name != "" && NamedPaths(f)
  }

  // The clause whose first placeholder comes after n others; None when a path has no column.
  function ClauseOf(e: Filter, m: Mapper, alias: string, n: nat): Option<Clause>
    requires NamedPaths(e)
  {
    match e
    case Compare(p, op, _) =>
      var c := Column(m, alias, p);
      if c.None? then None else Some(if op == Pr then IsNotNull(c.value) else Comparison(c.value, op, n + 1))
    case Logical(l, op, r) =>
      var left := ClauseOf(l, m, alias, n);
      var right := ClauseOf(r, m, alias, n + |ComparedValues(l)|);
      if left.None? || right.None? then None else Some(Junction(left.value, op, right.value))
    case Not(f) =>
      var inner := ClauseOf(f, m, alias, n);
      if inner.None? then None else Some(Negation(inner.value))
    case ValuePath(p, f) =>
      var name := Lower(p.name);
      var inner := ClauseOf(f, m, name[..1], n);
      if inner.None? then None else Some(Exists(name + "s", name[..1], ColumnRef(alias, "id"), inner.value))
  }

  // ----- tokens -----

  function Placeholder(d: Dialect, k: nat): Token { if d == MySQL then Anonymous else Param(k) }

  function ColumnName(c: ColumnRef): Token { Name(c.table, c.column) }

  function OperatorTokens(op: CompareOp, p: Token, d: Dialect): seq<Token> {
    match op
    case Eq => [Word("="), p]
    case Ne => [Word("!="), p]
    case Gt => [Word(">"), p]
    case Ge => [Word(">="), p]
    case Lt => [Word("<"), p]
    case Le => [Word("<="), p]
    case Co =>
      if d == MySQL then [Word("LIKE"), Word("CONCAT("), Word("'%'"), Word(","), p, Word(","), Word("'%'"), Word(")")]
      else [Word("LIKE"), Word("'%'"), Word("||"), p, Word("||"), Word("'%'")]
    case Sw =>
      if d == MySQL then [Word("LIKE"), Word("CONCAT("), p, Word(","), Word("'%'"), Word(")")]
      else [Word("LIKE"), p, Word("||"), Word("'%'")]
    case Ew =>
      if d == MySQL then [Word("LIKE"), Word("CONCAT("), Word("'%'"), Word(","), p, Word(")")]
      else [Word("LIKE"), Word("'%'"), Word("||"), p]
    case Pr => [p]
  }

  function Tokens(c: Clause, d: Dialect): seq<Token> {
    match c
    case IsNotNull(col) => [ColumnName(col), Word("IS NOT NULL")]
    case Comparison(col, op, k) => [ColumnName(col)] + OperatorTokens(op, Placeholder(d, k), d)
    case Junction(l, op, r) =>
      [Word("(")] + Tokens(l, d) + [Word(if op == Or then "OR" else "AND")] + Tokens(r, d) + [Word(")")]
    case Negation(f) => [Word("NOT"), Word("(")] + Tokens(f, d) + [Word(")")]
    case Exists(table, alias, parent, cond) =>
      [Word("EXISTS"), Word("("), Word("SELECT 1 FROM"), Name("", table), Name("", alias), Word("WHERE"),
       Name(alias, "resource_id"), Word("="), ColumnName(parent), Word("AND")] + Tokens(cond, d) + [Word(")")]
  }

  // ----- the translator -----

  lemma ValuesRegroup(a: seq<Json>, b: seq<Json>, c: seq<Json>)
    ensures (a + b) + c == a + (b + c)
  {
  }

  class TranslationState {
    const dialect: Dialect
    const mapper: Mapper
    const tableAlias: string
    var args: seq<Json>

    constructor (d: Dialect, m: Mapper, alias: string, args: seq<Json>)
      ensures dialect == d && mapper == m && tableAlias == alias && this.args == args
    {
      dialect, mapper, tableAlias, this.args := d, m, alias, args;
    }

    // Appends a value and returns the token that stands for it.
    method NewPlaceholder(v: Json) returns (p: Token)
      modifies this
      ensures args == old(args) + [v] && p == Placeholder(dialect, |args|)
    {
      args := args + [v];
      p := if dialect == MySQL then Anonymous else Param(|args|);
    }

    // The tokens are those of the filter's clause, and exactly its compared values have been appended.
    ghost predicate Translates(before: seq<Json>, e: Filter, r: Option<seq<Token>>)
      requires NamedPaths(e)
      reads this
    {
      match ClauseOf(e, mapper, tableAlias, |before|)
      case Some(c) => r == Some(Tokens(c, dialect)) && args == before + ComparedValues(e)
      case None => r == None
    }

    method TranslateExpr(e: Filter) returns (r: Option<seq<Token>>)
      requires NamedPaths(e)
      modifies this
      ensures Translates(old(args), e, r)
      decreases e, 1
    {
      match e
      case Compare(p, op, v) => r := TranslateComparison(p, op, v);
      case Logical(l, op, rr) => r := TranslateLogical(l, op, rr);
      case Not(f) =>
        var inner := TranslateExpr(f);
        if inner.None? { return None; }
        r := Some([Word("NOT"), Word("(")] + inner.value + [Word(")")]);
      case ValuePath(p, f) => r := TranslateValuePath(p, f);
    }

    method TranslateComparison(p: AttributePath, op: CompareOp, v: Json) returns (r: Option<seq<Token>>)
      modifies this
      ensures Translates(old(args), Compare(p, op, v), r)
    {
      var mref := mapper(PathText(p));
      if mref.None? { return None; }
      var ref := if mref.value.table != "" then Name(mref.value.table, mref.value.column)
        else Name(tableAlias, mref.value.column);
      if op == Pr { return Some([ref, Word("IS NOT NULL")]); }
      var placeholder := NewPlaceholder(v);
      r := Some([ref] + OperatorTokens(op, placeholder, dialect));
    }

    method TranslateLogical(l: Filter, op: LogicalOp, rr: Filter) returns (r: Option<seq<Token>>)
      requires NamedPaths(l) && NamedPaths(rr)
      modifies this
      ensures Translates(old(args), Logical(l, op, rr), r)
      decreases Logical(l, op, rr), 0
    {
      var left := TranslateExpr(l);
      if left.None? { return None; }
      var right := TranslateExpr(rr);
      if right.None? { return None; }
      ValuesRegroup(old(args), ComparedValues(l), ComparedValues(rr));
      r := Some([Word("(")] + left.value + [Word(if op == Or then "OR" else "AND")] + right.value + [Word(")")]);
    }

    // The inner state starts from the outer argument list and hands the extended list back.
    method TranslateValuePath(p: AttributePath, f: Filter) returns (r: Option<seq<Token>>)
      requires p.name != "" && NamedPaths(f)
      modifies this
      ensures Translates(old(args), ValuePath(p, f), r)
      decreases ValuePath(p, f), 0
    {
      var attrName := Lower(p.name);
      var subAlias := attrName[..1];
      var sub := new TranslationState(dialect, mapper, subAlias, args);
      var inner := sub.TranslateExpr(f);
      args := sub.args;
      if inner.None? { return None; }
      var head := [Word("EXISTS"), Word("("), Word("SELECT 1 FROM"), Name("", attrName + "s"), Name("", subAlias),
                   Word("WHERE"), Name(subAlias, "resource_id"), Word("="), Name(tableAlias, "id"), Word("AND")];
      r := Some(head + inner.value + [Word(")")]);
    }
  }

  method TranslateFilter(e: Filter, m: Mapper, d: Dialect, alias: string) returns (r: Option<(seq<Token>, seq<Json>)>)
    requires NamedPaths(e)
    ensures match ClauseOf(e, m, alias, 0)
            case Some(c) => r == Some((Tokens(c, d), ComparedValues(e)))
            case None => r == None
  {
    var state := new TranslationState(d, m, alias, []);
    var clause := state.TranslateExpr(e);
    assert [] + ComparedValues(e) == ComparedValues(e);
    r := if clause.None? then None else Some((clause.value, state.args));
  }

  // ----- numbering -----

  // The placeholders of a text, from left to right.
  function Placeholders(ts: seq<Token>): seq<Token> {
    if ts == [] then [] else PlaceholderIn(ts[0]) + Placeholders(ts[1..])
  }

  function PlaceholderIn(t: Token): seq<Token> { if t.Param? || t.Anonymous? then [t] else [] }

  // The placeholders for the arguments after the first n, in order.
  function Numbered(d: Dialect, n: nat, count: nat): (ps: seq<Token>)
    ensures |ps| == count
  {
    seq(count, i requires 0 <= i < count => Placeholder(d, n + i + 1))
  }

  lemma {:induction false} PlaceholdersConcat(a: seq<Token>, b: seq<Token>)
    ensures Placeholders(a + b) == Placeholders(a) + Placeholders(b)
  {
    if a == [] {
      assert a + b == b;
    } else {
      assert (a + b)[0] == a[0] && (a + b)[1..] == a[1..] + b;
      PlaceholdersConcat(a[1..], b);
      Regroup(PlaceholderIn(a[0]), Placeholders(a[1..]), Placeholders(b));
    }
  }

  lemma Regroup(a: seq<Token>, b: seq<Token>, c: seq<Token>)
    ensures a + b + c == a + (b + c)
  {
  }

  lemma {:induction false} NoPlaceholders(ts: seq<Token>)
    requires forall i :: 0 <= i < |ts| ==> ts[i].Word? || ts[i].Name?
    ensures Placeholders(ts) == []
  {
    if ts != [] { NoPlaceholders(ts[1..]); }
  }

  lemma Framed(a: seq<Token>, b: seq<Token>, c: seq<Token>)
    requires forall i :: 0 <= i < |a| ==> a[i].Word? || a[i].Name?
    requires forall i :: 0 <= i < |c| ==> c[i].Word? || c[i].Name?
    ensures Placeholders(a + b + c) == Placeholders(b)
  {
    PlaceholdersConcat(a + b, c);
    PlaceholdersConcat(a, b);
    NoPlaceholders(a);
    NoPlaceholders(c);
  }

  // Where the one placeholder of a comparison stands.
  function BeforePlaceholder(op: CompareOp, d: Dialect): nat {
    match op
    case Co => if d == MySQL then 4 else 3
    case Sw => if d == MySQL then 2 else 1
    case Ew => if d == MySQL then 4 else 3
    case Pr => 0
    case _ => 1
  }

  lemma OperatorPlaceholder(op: CompareOp, p: Token, d: Dialect, col: Token)
    requires (p.Param? || p.Anonymous?) && col.Name?
    ensures Placeholders([col] + OperatorTokens(op, p, d)) == [p]
  {
    var ts := OperatorTokens(op, p, d);
    var i := BeforePlaceholder(op, d);
    assert [col] + ts == ([col] + ts[..i]) + [p] + ts[i + 1..];
    Framed([col] + ts[..i], [p], ts[i + 1..]);
    assert Placeholders([p]) == [p];
  }

  lemma ComparisonPlaceholders(c: Clause, n: nat, d: Dialect)
    requires c.IsNotNull? || (c.Comparison? && c.k == n + 1)
    ensures Placeholders(Tokens(c, d)) == Numbered(d, n, if c.IsNotNull? then 0 else 1)
  {
    if c.IsNotNull? {
      NoPlaceholders(Tokens(c, d));
    } else {
      OperatorPlaceholder(c.op, Placeholder(d, c.k), d, ColumnName(c.col));
    }
  }

  // The k-th placeholder from the left stands for the k-th compared value, sub-queries included.
  lemma {:induction false} PlaceholdersInOrder(e: Filter, m: Mapper, alias: string, n: nat, d: Dialect)
    requires NamedPaths(e) && ClauseOf(e, m, alias, n).Some?
    ensures Placeholders(Tokens(ClauseOf(e, m, alias, n).value, d)) == Numbered(d, n, |ComparedValues(e)|)
  {
    var c := ClauseOf(e, m, alias, n).value;
    match e
    case Compare(p, op, v) => ComparisonPlaceholders(c, n, d);
    case Logical(l, op, r) =>
      var k := |ComparedValues(l)|;
      PlaceholdersInOrder(l, m, alias, n, d);
      PlaceholdersInOrder(r, m, alias, n + k, d);
      JunctionNumbered(ClauseOf(l, m, alias, n).value, op, ClauseOf(r, m, alias, n + k).value, d, n, k,
        |ComparedValues(r)|);
    case Not(f) =>
      PlaceholdersInOrder(f, m, alias, n, d);
      NegationPlaceholders(c, d);
    case ValuePath(p, f) =>
      PlaceholdersInOrder(f, m, Lower(p.name)[..1], n, d);
      ExistsPlaceholders(c, d);
  }

  lemma WordAfter(ts: seq<Token>, w: string)
    ensures Placeholders(ts + [Word(w)]) == Placeholders(ts)
  {
    PlaceholdersConcat(ts, [Word(w)]);
    NoPlaceholders([Word(w)]);
  }

  lemma WordBefore(w: string, ts: seq<Token>)
    ensures Placeholders([Word(w)] + ts) == Placeholders(ts)
  {
    PlaceholdersConcat([Word(w)], ts);
    NoPlaceholders([Word(w)]);
  }

  lemma JunctionPlaceholders(l: Clause, op: LogicalOp, r: Clause, d: Dialect)
    ensures Placeholders(Tokens(Junction(l, op, r), d)) == Placeholders(Tokens(l, d)) + Placeholders(Tokens(r, d))
  {
    BracketedPair("(", Tokens(l, d), if op == Or then "OR" else "AND", Tokens(r, d), ")");
  }

  lemma BracketedPair(w: string, a: seq<Token>, x: string, b: seq<Token>, y: string)
    ensures Placeholders([Word(w)] + a + [Word(x)] + b + [Word(y)]) == Placeholders(a) + Placeholders(b)
  {
    var left := [Word(w)] + a + [Word(x)];
    WordBefore(w, a);
    WordAfter([Word(w)] + a, x);
    PlaceholdersConcat(left, b);
    WordAfter(left + b, y);
  }

  lemma NumberedConcat(d: Dialect, n: nat, a: nat, b: nat)
    ensures Numbered(d, n, a) + Numbered(d, n + a, b) == Numbered(d, n, a + b)
  {
  }

  lemma JunctionNumbered(l: Clause, op: LogicalOp, r: Clause, d: Dialect, n: nat, a: nat, b: nat)
    requires Placeholders(Tokens(l, d)) == Numbered(d, n, a) && Placeholders(Tokens(r, d)) == Numbered(d, n + a, b)
    ensures Placeholders(Tokens(Junction(l, op, r), d)) == Numbered(d, n, a + b)
  {
    JunctionPlaceholders(l, op, r, d);
    NumberedConcat(d, n, a, b);
  }

  lemma NegationPlaceholders(c: Clause, d: Dialect)
    requires c.Negation?
    ensures Placeholders(Tokens(c, d)) == Placeholders(Tokens(c.inner, d))
  {
    Framed([Word("NOT"), Word("(")], Tokens(c.inner, d), [Word(")")]);
  }

  lemma ExistsPlaceholders(c: Clause, d: Dialect)
    requires c.Exists?
    ensures Placeholders(Tokens(c, d)) == Placeholders(Tokens(c.cond, d))
  {
    var head := [Word("EXISTS"), Word("("), Word("SELECT 1 FROM"), Name("", c.table), Name("", c.alias), Word("WHERE"),
                 Name(c.alias, "resource_id"), Word("="), ColumnName(c.parent), Word("AND")];
    Framed(head, Tokens(c.cond, d), [Word(")")]);
  }
}
