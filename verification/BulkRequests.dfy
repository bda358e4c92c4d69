// Reading a bulk request out of a JSON body.
module BulkRequests {
  import opened Text
  import opened Numbers
  import opened Values
  import opened Objects

  datatype BulkOp = BulkOp(verb: string, bulkId: string, path: string, version: string, data: Option<Json>)

  datatype BulkRequest = BulkRequest(failOnErrors: int, ops: seq<BulkOp>)

  // The canonical name of a bulk method in any casing.
  function MethodNamed(s: string): Option<string> {
    if EqualFold(s, "POST") then Some("POST")
    else if EqualFold(s, "PUT") then Some("PUT")
    else if EqualFold(s, "PATCH") then Some("PATCH")
    else if EqualFold(s, "DELETE") then Some("DELETE")
    else None
  }

  // Conversion of a number to an integer drops the fraction.
  function Truncate(d: Decimal): int {
    if d.coeff >= 0 then d.coeff / Pow10(d.scale) else -(-d.coeff / Pow10(d.scale))
  }

  function TextOf(v: Json): Option<string> { if v.Str? then Some(v.s) else None }

  function TextOr(s: Option<string>): string { if s.Some? then s.value else "" }

  // A null counts as no data. The key must be spelled exactly.
  function DataOf(m: Object): Option<Json> { if "data" in m && m["data"] != Null then Some(m["data"]) else None }

  function OpWith(name: Option<string>, bulkId: Option<string>, path: Option<string>, version: Option<string>,
                  data: Option<Json>): Option<BulkOp> {
    if name.None? || MethodNamed(name.value).None? then None
    else Some(BulkOp(MethodNamed(name.value).value, TextOr(bulkId), TextOr(path), TextOr(version), data))
  }

  ghost function ParsedOp(j: Json): Option<BulkOp> {
    if !j.Obj? then None
    else
      var m := j.fields;
      OpWith(TextOf(Lookup(m, "method")), TextOf(Lookup(m, "bulkId")), TextOf(Lookup(m, "path")),
             TextOf(Lookup(m, "version")), DataOf(m))
  }

  ghost function ParsedOps(items: seq<Json>): Option<seq<BulkOp>> {
    if forall i :: 0 <= i < |items| ==> ParsedOp(items[i]).Some?
    then Some(seq(|items|, i requires 0 <= i < |items| => ParsedOp(items[i]).value))
    else None
  }

  function FailOnErrors(v: Json): int { if v.Num? then Truncate(v.n) else 0 }

  ghost function ParsedRequest(m: Object): Option<BulkRequest> {
    var v := Lookup(m, "Operations");
    if v.Arr? && ParsedOps(v.items).Some?
    then Some(BulkRequest(FailOnErrors(Lookup(m, "failOnErrors")), ParsedOps(v.items).value)) else None
  }

  // The data of every operation lies inside the body.
  ghost predicate DataBelow(body: Json, ops: seq<BulkOp>) {
    forall i :: 0 <= i < |ops| && ops[i].data.Some? ==> ops[i].data.value < body
  }

  ghost predicate AllUnique(ops: seq<BulkOp>) {
    forall i :: 0 <= i < |ops| && ops[i].data.Some? ==> Unique(ops[i].data.value)
  }

  lemma ItemUnique(m: Object)
    requires Unique(Obj(m)) && Lookup(m, "Operations").Arr?
    ensures Unique(Lookup(m, "Operations"))
  {
  }

  lemma DataUnique(j: Json)
    requires Unique(j) && ParsedOp(j).Some?
    ensures ParsedOp(j).value.data.Some? ==> Unique(ParsedOp(j).value.data.value)
  {
  }

  lemma ParsedUnique(m: Object)
    requires Unique(Obj(m)) && ParsedRequest(m).Some?
    ensures AllUnique(ParsedRequest(m).value.ops)
  {
    ItemUnique(m);
    var items, ops := Lookup(m, "Operations").items, ParsedRequest(m).value.ops;
    forall i | 0 <= i < |ops| && ops[i].data.Some? ensures Unique(ops[i].data.value) { DataUnique(items[i]); }
  }

  // ----- what the walks can make of a body, whatever its keys -----

  ghost predicate MayText(m: Object, name: string, s: Option<string>) {
    if HasKey(m, name) then exists k :: k in m && EqualFold(k, name) && s == TextOf(m[k]) else s == None
  }

  lemma SomeText(m: Object, name: string)
    ensures exists s :: MayText(m, name, s)
  {
    if HasKey(m, name) {
      assert MayText(m, name, TextOf(m[KeyOf(m, name)]));
    } else {
      assert MayText(m, name, None);
    }
  }

  ghost predicate MayParseOp(j: Json, r: Option<BulkOp>) {
    if !j.Obj? then r == None
    else
      var m := j.fields;
      exists name, bulkId, path, version ::
        MayText(m, "method", name) && MayText(m, "bulkId", bulkId) && MayText(m, "path", path)
        && MayText(m, "version", version) && r == OpWith(name, bulkId, path, version, DataOf(m))
  }

  ghost predicate MayParseOps(items: seq<Json>, r: Option<seq<BulkOp>>) {
    match r
    case Some(ops) => |ops| == |items| && forall i :: 0 <= i < |items| ==> MayParseOp(items[i], Some(ops[i]))
    case None => exists i :: 0 <= i < |items| && MayParseOp(items[i], None)
  }

  ghost predicate MayParse(m: Object, r: Option<BulkRequest>) {
    exists limit, v :: MayFind(m, "failOnErrors", limit) && MayFind(m, "Operations", v) && MayParseAs(limit, v, r)
  }

  ghost predicate MayParseAs(limit: Json, v: Json, r: Option<BulkRequest>) {
    match r
    case Some(req) => v.Arr? && MayParseOps(v.items, Some(req.ops)) && req.failOnErrors == FailOnErrors(limit)
    case None => v.Arr? ==> MayParseOps(v.items, None)
  }

  // ----- without case clashes there is one reading -----

  lemma TextIsOnly(m: Object, name: string, s: Option<string>)
    requires CaseUnique(m)
    ensures MayText(m, name, s) <==> s == TextOf(Lookup(m, name))
  {
    if HasKey(m, name) {
      assert MayText(m, name, TextOf(m[KeyOf(m, name)]));
      forall k | k in m && EqualFold(k, name) ensures k == KeyOf(m, name) { assert EqualFold(k, KeyOf(m, name)); }
    }
  }

  lemma OpIsOnly(j: Json, r: Option<BulkOp>)
    requires Unique(j)
    ensures MayParseOp(j, r) <==> r == ParsedOp(j)
  {
    if j.Obj? {
      forall name, s ensures MayText(j.fields, name, s) <==> s == TextOf(Lookup(j.fields, name)) {
        TextIsOnly(j.fields, name, s);
      }
    }
  }

  lemma OpsAreOnly(items: seq<Json>, r: Option<seq<BulkOp>>)
    requires Unique(Arr(items)) && MayParseOps(items, r)
    ensures r == ParsedOps(items)
  {
    forall i, o | 0 <= i < |items| ensures MayParseOp(items[i], o) <==> o == ParsedOp(items[i]) {
      OpIsOnly(items[i], o);
    }
    if r.Some? { assert ParsedOps(items).Some? && ParsedOps(items).value == r.value; }
  }

  lemma RequestIsOnly(m: Object, r: Option<BulkRequest>)
    requires Unique(Obj(m)) && MayParse(m, r)
    ensures r == ParsedRequest(m)
  {
    var limit, v :| MayFind(m, "failOnErrors", limit) && MayFind(m, "Operations", v) && MayParseAs(limit, v, r);
    FindUnique(m, "failOnErrors", limit);
    FindUnique(m, "Operations", v);
    if v.Arr? {
      ItemUnique(m);
      OpsAreOnly(v.items, if r.Some? then Some(r.value.ops) else None);
    }
  }

  // ----- the reading itself -----

  // A text under a name in any casing; with several such keys, whichever the walk meets first.
  method LookupMapString(m: Object, name: string) returns (s: Option<string>)
    ensures MayText(m, name, s)
  {
    var rest := m.Keys;
    while rest != {}
      invariant rest <= m.Keys
      invariant forall k :: k in m.Keys - rest ==> !EqualFold(k, name)
      decreases rest
    {
      var k :| k in rest;
      if EqualFold(k, name) { return TextOf(m[k]); }
      rest := rest - {k};
    }
    s := None;
  }

  method ParseBulkOp(m: Object) returns (r: Option<BulkOp>)
    ensures MayParseOp(Obj(m), r)
    ensures r.Some? ==> r.value.data == DataOf(m)
  {
    var name := LookupMapString(m, "method");
    if name.None? || MethodNamed(name.value).None? {
      SomeText(m, "bulkId");
      SomeText(m, "path");
      SomeText(m, "version");
      return None;
    }
    var bulkId := LookupMapString(m, "bulkId");
    var path := LookupMapString(m, "path");
    var version := LookupMapString(m, "version");
    r := OpWith(name, bulkId, path, version, DataOf(m));
  }

  method ParseOps(items: seq<Json>) returns (r: Option<seq<BulkOp>>)
    ensures MayParseOps(items, r)
    ensures r.Some? ==> DataBelow(Arr(items), r.value)
  {
    var ops := [];
    for n := 0 to |items|
      invariant |ops| == n && DataBelow(Arr(items), ops)
      invariant forall i :: 0 <= i < n ==> MayParseOp(items[i], Some(ops[i]))
    {
      if !items[n].Obj? {
        assert MayParseOp(items[n], None);
        return None;
      }
      var op := ParseBulkOp(items[n].fields);
      assert items[n] == Obj(items[n].fields);
      if op.None? { return None; }
      assert op.value.data.Some? ==> op.value.data.value < items[n];
      ops := ops + [op.value];
    }
    r := Some(ops);
  }

  // Any reading of a body; the one of the specification when no keys clash.
  method ParseBulkRequest(m: Object) returns (r: Option<BulkRequest>)
    ensures MayParse(m, r)
    ensures Unique(Obj(m)) ==> r == ParsedRequest(m)
    ensures r.Some? ==> DataBelow(Obj(m), r.value.ops)
  {
    var limit := LookupKey(m, "failOnErrors");
    var opsRaw := LookupKey(m, "Operations");
    r := None;
    if opsRaw.Arr? {
      var ops := ParseOps(opsRaw.items);
      if ops.Some? {
        DataIsBelow(m, opsRaw, ops.value);
        r := Some(BulkRequest(FailOnErrors(limit), ops.value));
      }
    }
    assert MayParseAs(limit, opsRaw, r);
    if Unique(Obj(m)) { RequestIsOnly(m, r); }
  }

  lemma DataIsBelow(m: Object, v: Json, ops: seq<BulkOp>)
    requires MayFind(m, "Operations", v) && v.Arr? && DataBelow(v, ops)
    ensures DataBelow(Obj(m), ops)
  {
    var k := if "Operations" in m then "Operations" else var k :| k in m && v == m[k]; k;
    assert m[k] < Obj(m);
  }
}
