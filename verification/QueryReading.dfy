// The list query as the database reads it: condition, order and page from its text and arguments, against what
// the list parameters ask for.
module QueryReading {
  import opened Text
  import opened Numbers
  import opened Values
  import opened Filters
  import opened Sorting
  import opened Stores
  import opened SqlFilter
  import opened SqlReading
  import opened SqlMeaning
  import opened ListQuery

  datatype Query = Query(table: string, where: Option<Condition>, order: Option<(string, bool)>, limit: Option<nat>,
                         offset: Option<nat>)

  // ----- reading -----

  // A word and the placeholder after it, when they are there.
  function ReadNumbered(ts: seq<Token>, w: string): (Option<nat>, seq<Token>) {
    if |ts| > 1 && ts[0] == Word(w) && ts[1].Param? then (Some(ts[1].n), ts[2..]) else (None, ts)
  }

  // ORDER BY column, ascending or descending.
  function ReadOrder(ts: seq<Token>): (Option<(string, bool)>, seq<Token>) {
    if |ts| > 2 && ts[0] == Word("ORDER BY") && ts[1].Name? && (ts[2] == Word("ASC") || ts[2] == Word("DESC"))
    then (Some((ts[1].column, ts[2] == Word("DESC"))), ts[3..])
    else (None, ts)
  }

  function ReadEnd(table: string, where: Option<Condition>, ts: seq<Token>): Option<Query> {
    var (order, a) := ReadOrder(ts);
    var (limit, b) := ReadNumbered(a, "LIMIT");
    var (offset, c) := ReadNumbered(b, "OFFSET");
    if c == [] then Some(Query(table, where, order, limit, offset)) else None
  }

  function ReadQuery(ts: seq<Token>): Option<Query> {
    if |ts| < 2 || ts[0] != Word("SELECT data FROM") || !ts[1].Name? then None
    else if StartsWith(ts[2..], "WHERE") then
      var c := ReadCondition(ts[3..], 0);
      if c.None? then None else ReadEnd(ts[1].column, Some(c.value.0), c.value.1)
    else ReadEnd(ts[1].column, None, ts[2..])
  }

  // ----- reading back -----

  function OrderOf(params: ListParams, m: Mapper): Option<(string, bool)> {
    if params.sortBy == "" || m(params.sortBy).None? then None
    else Some((m(params.sortBy).value.column, params.order == Descending))
  }

  // The query for the parameters, whose filter has n values.
  function QueryOf(table: string, where: Option<Condition>, params: ListParams, m: Mapper, n: nat): Query {
    var next := if params.count > 0 then n + 1 else n;
    Query(table, where, OrderOf(params, m), if params.count > 0 then Some(n + 1) else None,
          if params.startIndex > 1 then Some(next + 1) else None)
  }

  lemma OrderRead(params: ListParams, m: Mapper, x: seq<Token>)
    requires !StartsWith(x, "ORDER BY")
    ensures ReadOrder(OrderText(params, m) + x) == (OrderOf(params, m), x)
  {
    var ts := OrderText(params, m);
    if ts == [] {
      assert ts + x == x;
    } else {
      assert (ts + x)[..3] == ts && (ts + x)[3..] == x;
      assert (ts + x)[0] == ts[0] && (ts + x)[1] == ts[1] && (ts + x)[2] == ts[2];
      assert "ASC"[0] != "DESC"[0];
    }
  }

  lemma NumberedRead(w: string, k: nat, x: seq<Token>)
    ensures ReadNumbered([Word(w), Param(k)] + x, w) == (Some(k), x)
    ensures !StartsWith(x, w) ==> ReadNumbered(x, w) == (None, x)
  {
    var ts := [Word(w), Param(k)] + x;
    assert ts[0] == Word(w) && ts[1] == Param(k) && ts[2..] == x;
  }

  function LimitText(params: ListParams, n: nat): seq<Token> {
    if params.count > 0 then [Word("LIMIT"), Param(n + 1)] else []
  }

  function OffsetText(params: ListParams, n: nat): seq<Token> {
    if params.startIndex > 1 then [Word("OFFSET"), Param((if params.count > 0 then n + 1 else n) + 1)] else []
  }

  lemma PageParts(params: ListParams, n: nat)
    ensures PageText(params, n) == LimitText(params, n) + OffsetText(params, n)
    ensures !StartsWith(PageText(params, n), "ORDER BY") && !StartsWith(PageText(params, n), "||")
    ensures !StartsWith(PageText(params, n), "WHERE") && !StartsWith(OffsetText(params, n), "LIMIT")
  {
    assert "LIMIT"[0] != "OFFSET"[0] && "LIMIT"[0] != "ORDER BY"[0] && "OFFSET"[1] != "ORDER BY"[1];
    assert "LIMIT"[0] != "||"[0] && "OFFSET"[0] != "||"[0] && "LIMIT"[0] != "WHERE"[0] && "OFFSET"[0] != "WHERE"[0];
  }

  lemma EndRead(table: string, where: Option<Condition>, params: ListParams, m: Mapper, n: nat)
    ensures ReadEnd(table, where, OrderText(params, m) + PageText(params, n))
            == Some(QueryOf(table, where, params, m, n))
  {
    var limit, offset := LimitText(params, n), OffsetText(params, n);
    var next := if params.count > 0 then n + 1 else n;
    PageParts(params, n);
    OrderRead(params, m, PageText(params, n));
    NumberedRead("LIMIT", n + 1, offset);
    NumberedRead("OFFSET", next + 1, []);
    assert offset + [] == offset && [] + offset == offset;
    assert params.startIndex > 1 ==> [Word("OFFSET"), Param(next + 1)] + [] == offset;
  }

  lemma TailStart(params: ListParams, m: Mapper, n: nat)
    ensures var tail := OrderText(params, m) + PageText(params, n); Follows(tail) && !StartsWith(tail, "WHERE")
  {
    PageParts(params, n);
    var order := OrderText(params, m);
    if order == [] {
      assert order + PageText(params, n) == PageText(params, n);
    } else {
      assert (order + PageText(params, n))[0] == Word("ORDER BY");
      assert "ORDER BY"[0] != "||"[0] && "ORDER BY"[0] != "WHERE"[0];
    }
  }

  // The condition the query puts on a row; none without a filter.
  function WhereOf(f: Option<Filter>, m: Mapper): Option<Condition>
    requires f.Some? ==> NamedPaths(f.value) && ClauseOf(f.value, m, "", 0).Some?
  {
    if f.None? then None else Some(ConditionOf(ClauseOf(f.value, m, "", 0).value))
  }

  function QueryText(table: string, params: ListParams, m: Mapper): seq<Token>
    requires params.filter.Some? ==> NamedPaths(params.filter.value) && ClauseOf(params.filter.value, m, "", 0).Some?
  {
    SelectText(table) + WhereText(params.filter, m) + OrderText(params, m)
    + PageText(params, |FilterValues(params.filter)|)
  }

  // The text of the query is read as: these rows, in this order, this many after so many.
  lemma QueryRead(table: string, params: ListParams, m: Mapper)
    requires params.filter.Some? ==> NamedPaths(params.filter.value) && ClauseOf(params.filter.value, m, "", 0).Some?
    ensures ReadQuery(QueryText(table, params, m))
            == Some(QueryOf(table, WhereOf(params.filter, m), params, m, |FilterValues(params.filter)|))
  {
    var n := |FilterValues(params.filter)|;
    var tail := OrderText(params, m) + PageText(params, n);
    TailStart(params, m, n);
    EndRead(table, WhereOf(params.filter, m), params, m, n);
    if params.filter.None? {
      WithoutWhere(table, params, m, tail);
    } else {
      WithWhere(table, params, m, tail);
    }
  }

  lemma WithoutWhere(table: string, params: ListParams, m: Mapper, tail: seq<Token>)
    requires params.filter.None? && tail == OrderText(params, m) + PageText(params, 0) && !StartsWith(tail, "WHERE")
    ensures ReadQuery(QueryText(table, params, m)) == ReadEnd(table, None, tail)
  {
    var ts := QueryText(table, params, m);
    assert ts == SelectText(table) + tail;
    assert ts[0] == Word("SELECT data FROM") && ts[1] == Name("", table) && ts[2..] == tail;
  }

  lemma WhereTokens(table: string, cond: seq<Token>, order: seq<Token>, page: seq<Token>)
    ensures var ts := SelectText(table) + ([Word("WHERE")] + cond) + order + page;
            |ts| > 2 && ts[0] == Word("SELECT data FROM") && ts[1] == Name("", table)
            && ts[2..] == [Word("WHERE")] + (cond + (order + page)) && ts[3..] == cond + (order + page)
  {
  }

  lemma WithWhere(table: string, params: ListParams, m: Mapper, tail: seq<Token>)
    requires params.filter.Some? && NamedPaths(params.filter.value) && ClauseOf(params.filter.value, m, "", 0).Some?
    requires tail == OrderText(params, m) + PageText(params, |FilterValues(params.filter)|) && Follows(tail)
    ensures ReadQuery(QueryText(table, params, m)) == ReadEnd(table, WhereOf(params.filter, m), tail)
  {
    var ts := QueryText(table, params, m);
    var c := ClauseOf(params.filter.value, m, "", 0).value;
    var rest := Tokens(c, Postgres) + tail;
    WhereTokens(table, Tokens(c, Postgres), OrderText(params, m), PageText(params, |FilterValues(params.filter)|));
    TranslatedIsNumbered(params.filter.value, m, "", 0);
    ReadFollowed(c, 0, Postgres, tail, rest);
  }

  // ----- the page -----

  function Number(v: Json): int { if v.Num? then v.n.coeff else 0 }

  // OFFSET drops rows from the front, LIMIT keeps so many of the rest.
  function Paged<T>(xs: seq<T>, limit: Option<nat>, offset: Option<nat>, args: seq<Json>): seq<T> {
    var skip := if offset.Some? then Number(Argument(args, offset.value)) else 0;
    var rest := if 0 <= skip <= |xs| then xs[skip..] else [];
    var most := if limit.Some? then Number(Argument(args, limit.value)) else |rest|;
    if 0 <= most <= |rest| then rest[..most] else rest
  }

  // With the arguments the query brings, the rows are those of the page, where a count of zero means all.
  lemma QueryPages<T>(xs: seq<T>, table: string, where: Option<Condition>, params: ListParams, m: Mapper)
    ensures var q := QueryOf(table, where, params, m, |FilterValues(params.filter)|);
            var args := FilterValues(params.filter) + PageValues(params);
            Paged(xs, q.limit, q.offset, args)
            == Page(xs, params.startIndex, if params.count > 0 then params.count else -1)
  {
    var values := FilterValues(params.filter);
    var n, args := |values|, values + PageValues(params);
    if params.count > 0 { assert args[n] == Int(params.count); }
    if params.startIndex > 1 {
      assert args[if params.count > 0 then n + 1 else n] == Int(params.startIndex - 1);
    }
  }

  // So the database returns the page the in-memory store does exactly when the count is not zero, or the page
  // starts past the end.
  lemma PagesAgree<T>(xs: seq<T>, params: ListParams)
    ensures Page(xs, params.startIndex, if params.count > 0 then params.count else -1)
            == Page(xs, params.startIndex, params.count)
        <==> params.count != 0 || params.startIndex > |xs| || xs == []
  {
    if params.count == 0 {
      assert |Page(xs, params.startIndex, 0)| == 0;
    }
  }
}
