// The list query for Postgres: condition, order and page, with one argument list for all placeholders.
module ListQuery {
  import opened Text
  import opened Numbers
  import opened Values
  import opened Filters
  import opened Stores
  import opened Sorting
  import opened SqlFilter

  function Int(n: int): Json { Num(Decimal(n, 0)) }

  // The values the query binds, from left to right: those of the filter, then count and offset.
  function FilterValues(f: Option<Filter>): seq<Json> { if f.Some? then ComparedValues(f.value) else [] }

  function PageValues(params: ListParams): seq<Json> {
    (if params.count > 0 then [Int(params.count)] else [])
    + (if params.startIndex > 1 then [Int(params.startIndex - 1)] else [])
  }

  lemma NumberedNext(n: nat)
    ensures Numbered(Postgres, 0, n) + [Param(n + 1)] == Numbered(Postgres, 0, n + 1)
  {
    var a, b := Numbered(Postgres, 0, n) + [Param(n + 1)], Numbered(Postgres, 0, n + 1);
    forall i | 0 <= i < n + 1 ensures a[i] == b[i] { assert b[i] == Param(i + 1); }
  }

  // Appending a word and the next placeholder keeps the numbering.
  lemma AppendPlaceholder(ts: seq<Token>, word: string, n: nat)
    requires Placeholders(ts) == Numbered(Postgres, 0, n)
    ensures Placeholders(ts + [Word(word), Param(n + 1)]) == Numbered(Postgres, 0, n + 1)
  {
    PlaceholdersConcat(ts, [Word(word), Param(n + 1)]);
    WordBefore(word, [Param(n + 1)]);
    assert [Word(word)] + [Param(n + 1)] == [Word(word), Param(n + 1)];
    assert Placeholders([Param(n + 1)]) == [Param(n + 1)];
    NumberedNext(n);
  }

  // ----- the text of the query -----

  function WhereText(f: Option<Filter>, m: Mapper): seq<Token>
    requires f.Some? ==> NamedPaths(f.value) && ClauseOf(f.value, m, "", 0).Some?
  {
    if f.None? then [] else [Word("WHERE")] + Tokens(ClauseOf(f.value, m, "", 0).value, Postgres)
  }

  // A sort attribute without a column is ignored.
  function OrderText(params: ListParams, m: Mapper): seq<Token> {
    if params.sortBy == "" || m(params.sortBy).None? then []
    else
      var dir := if params.order == Descending then "DESC" else "ASC";
      [Word("ORDER BY"), Name("", m(params.sortBy).value.column), Word(dir)]
  }

  // The placeholders follow the n arguments of the filter.
  function PageText(params: ListParams, n: nat): seq<Token> {
    var next := if params.count > 0 then n + 1 else n;
    (if params.count > 0 then [Word("LIMIT"), Param(n + 1)] else [])
    + (if params.startIndex > 1 then [Word("OFFSET"), Param(next + 1)] else [])
  }

  function SelectText(table: string): seq<Token> { [Word("SELECT data FROM"), Name("", table)] }

  // ----- building it -----

  method WhereClause(f: Option<Filter>, m: Mapper) returns (r: Option<(seq<Token>, seq<Json>)>)
    requires f.Some? ==> NamedPaths(f.value)
    ensures r.Some? <==> f.None? || ClauseOf(f.value, m, "", 0).Some?
    ensures r.Some? ==> r.value.0 == WhereText(f, m) && r.value.1 == FilterValues(f)
  {
    if f.None? {
      return Some(([], []));
    }
    var result := TranslateFilter(f.value, m, Postgres, "");
    if result.None? { return None; }
    r := Some(([Word("WHERE")] + result.value.0, result.value.1));
  }

  method OrderClause(params: ListParams, m: Mapper) returns (ts: seq<Token>)
    ensures ts == OrderText(params, m)
  {
    ts := [];
    if params.sortBy != "" {
      var col := m(params.sortBy);
      if col.Some? {
        var dir := if params.order == Descending then "DESC" else "ASC";
        ts := [Word("ORDER BY"), Name("", col.value.column), Word(dir)];
      }
    }
  }

  // LIMIT and OFFSET, each with its own argument.
  method PageClause(query: seq<Token>, args: seq<Json>, params: ListParams) returns (ts: seq<Token>, all: seq<Json>)
    ensures ts == query + PageText(params, |args|) && all == args + PageValues(params)
  {
    ts, all := query, args;
    var argIdx := |args| + 1;
    if params.count > 0 {
      ts := ts + [Word("LIMIT"), Param(argIdx)];
      all := all + [Int(params.count)];
      argIdx := argIdx + 1;
    }
    if params.startIndex > 1 {
      ts := ts + [Word("OFFSET"), Param(argIdx)];
      all := all + [Int(params.startIndex - 1)];
    }
  }

  // The query and its arguments, or an error for an unmapped attribute in the filter. The k-th placeholder
  // is $k and there is one for each argument.
  method BuildListQuery(table: string, params: ListParams, m: Mapper) returns (r: Option<(seq<Token>, seq<Json>)>)
    requires params.filter.Some? ==> NamedPaths(params.filter.value)
    ensures r.Some? <==> params.filter.None? || ClauseOf(params.filter.value, m, "", 0).Some?
    ensures r.Some? ==>
              r.value.0 == SelectText(table) + WhereText(params.filter, m) + OrderText(params, m)
                           + PageText(params, |FilterValues(params.filter)|)
              && r.value.1 == FilterValues(params.filter) + PageValues(params)
              && Placeholders(r.value.0) == Numbered(Postgres, 0, |r.value.1|)
  {
    var where := WhereClause(params.filter, m);
    if where.None? { return None; }
    var order := OrderClause(params, m);
    var query, args := PageClause(SelectText(table) + where.value.0 + order, where.value.1, params);
    WhereNumbered(params.filter, m);
    QueryStart(SelectText(table), where.value.0, order, |where.value.1|);
    PageNumbered(SelectText(table) + where.value.0 + order, |where.value.1|, params);
    r := Some((query, args));
  }

  lemma WhereNumbered(f: Option<Filter>, m: Mapper)
    requires f.Some? ==> NamedPaths(f.value) && ClauseOf(f.value, m, "", 0).Some?
    ensures Placeholders(WhereText(f, m)) == Numbered(Postgres, 0, |FilterValues(f)|)
  {
    if f.Some? {
      PlaceholdersInOrder(f.value, m, "", 0, Postgres);
      WordBefore("WHERE", Tokens(ClauseOf(f.value, m, "", 0).value, Postgres));
    }
  }

  lemma PageNumbered(query: seq<Token>, n: nat, params: ListParams)
    requires Placeholders(query) == Numbered(Postgres, 0, n)
    ensures Placeholders(query + PageText(params, n)) == Numbered(Postgres, 0, n + |PageValues(params)|)
  {
    var limit := if params.count > 0 then [Word("LIMIT"), Param(n + 1)] else [];
    var next := if params.count > 0 then n + 1 else n;
    if params.count > 0 { AppendPlaceholder(query, "LIMIT", n); }
    assert query + [] == query;
    if params.startIndex > 1 {
      AppendPlaceholder(query + limit, "OFFSET", next);
      assert query + PageText(params, n) == query + limit + [Word("OFFSET"), Param(next + 1)];
    } else {
      assert PageText(params, n) == limit;
    }
  }

  lemma QueryStart(head: seq<Token>, where: seq<Token>, order: seq<Token>, n: nat)
    requires forall i :: 0 <= i < |head| ==> head[i].Word? || head[i].Name?
    requires forall i :: 0 <= i < |order| ==> order[i].Word? || order[i].Name?
    requires Placeholders(where) == Numbered(Postgres, 0, n)
    ensures Placeholders(head + where + order) == Numbered(Postgres, 0, n)
  {
    Framed(head, where, order);
  }
}
