// The Resource object: fields that methods update, conversion to and from a JSON object, cloning through
// it, and access to attributes by path.
module ResourceObjects {
  import opened Text
  import opened Values
  import opened Objects
  import opened Resources

  // ----- one entry at a time -----

  lemma LookupAdd(o: Object, k: string, v: Json, n: string)
    requires k !in o
    requires forall l, l' :: l in o[k := v] && l' in o[k := v] && EqualFold(l, n) && EqualFold(l', n) ==> l == l'
    ensures Lookup(o[k := v], n) == if EqualFold(k, n) then v else Lookup(o, n)
    ensures EqualFold(k, n) ==> Lookup(o, n) == Null
  {
    var r := o[k := v];
    if HasKey(o, n) { assert KeyOf(o, n) in r; }
    if EqualFold(k, n) { assert k in r; }
  }

  lemma LookupAddUnique(o: Object, k: string, v: Json, n: string)
    requires k !in o && CaseUnique(o[k := v])
    ensures Lookup(o[k := v], n) == if EqualFold(k, n) then v else Lookup(o, n)
    ensures EqualFold(k, n) ==> Lookup(o, n) == Null
  {
    LookupAdd(o, k, v, n);
  }

  lemma FoldedMetaNames(k: string)
    ensures EqualFold(k, "resourceType") <==> Lower(k) == "resourcetype"
    ensures EqualFold(k, "created") <==> Lower(k) == "created"
    ensures EqualFold(k, "lastModified") <==> Lower(k) == "lastmodified"
    ensures EqualFold(k, "location") <==> Lower(k) == "location"
    ensures EqualFold(k, "version") <==> Lower(k) == "version"
  {
    assert Lower("resourceType") == "resourcetype";
    assert Lower("lastModified") == "lastmodified";
  }

  lemma FoldedNames(k: string)
    ensures EqualFold(k, "schemas") <==> Lower(k) == "schemas"
    ensures EqualFold(k, "id") <==> Lower(k) == "id"
    ensures EqualFold(k, "externalId") <==> Lower(k) == "externalid"
    ensures EqualFold(k, "meta") <==> Lower(k) == "meta"
  {
  }

  lemma MetaStep(o: Object, k: string, v: Json)
    requires k !in o && CaseUnique(o[k := v])
    ensures ReadMeta(o[k := v]) == ReadMetaEntry(ReadMeta(o), k, v)
  {
    FoldedMetaNames(k);
    LookupAddUnique(o, k, v, "resourceType");
    LookupAddUnique(o, k, v, "created");
    LookupAddUnique(o, k, v, "lastModified");
    LookupAddUnique(o, k, v, "location");
    LookupAddUnique(o, k, v, "version");
  }

  // What one entry adds to a resource; meta is read as a whole.
  ghost function ReadEntry(c: Content, k: string, v: Json): Content {
    var n := Lower(k);
    if n == "schemas" then c.(schemas := c.schemas + (if v.Arr? then OnlyStrings(v.items) else []))
    else if n == "id" then c.(id := StringOr(v, c.id))
    else if n == "externalid" then c.(externalId := StringOr(v, c.externalId))
    else if n == "meta" then c.(meta := if v.Obj? then ReadMeta(v.fields) else c.meta)
    else c.(attributes := c.attributes[k := v])
  }

  lemma FreeStep(o: Object, k: string, v: Json)
    requires k !in o
    ensures FreeAttributes(o[k := v]) == if Reserved(k) then FreeAttributes(o) else FreeAttributes(o)[k := v]
  {
  }

  // Each fixed field is found where its own name was added.
  lemma FixedStep(o: Object, k: string, v: Json)
    requires k !in o && ReservedUnique(o[k := v])
    ensures Lookup(o[k := v], "schemas") == if Lower(k) == "schemas" then v else Lookup(o, "schemas")
    ensures Lookup(o[k := v], "id") == if Lower(k) == "id" then v else Lookup(o, "id")
    ensures Lookup(o[k := v], "externalId") == if Lower(k) == "externalid" then v else Lookup(o, "externalId")
    ensures Lookup(o[k := v], "meta") == if Lower(k) == "meta" then v else Lookup(o, "meta")
    ensures Lower(k) == "schemas" ==> Lookup(o, "schemas") == Null
    ensures Lower(k) == "id" ==> Lookup(o, "id") == Null
    ensures Lower(k) == "externalid" ==> Lookup(o, "externalId") == Null
    ensures Lower(k) == "meta" ==> Lookup(o, "meta") == Null
  {
    FoldedNames(k);
    FixedAdd(o, k, v, "schemas");
    FixedAdd(o, k, v, "id");
    FixedAdd(o, k, v, "externalId");
    FixedAdd(o, k, v, "meta");
  }

  lemma EntryStep(o: Object, k: string, v: Json)
    requires k !in o && ReservedUnique(o[k := v])
    ensures FromObject(o[k := v]) == ReadEntry(FromObject(o), k, v)
  {
    FreeStep(o, k, v);
    FixedStep(o, k, v);
  }

  lemma FixedAdd(o: Object, k: string, v: Json, n: string)
    requires FixedRank(n) < 4 && k !in o && ReservedUnique(o[k := v])
    ensures Lookup(o[k := v], n) == if EqualFold(k, n) then v else Lookup(o, n)
    ensures EqualFold(k, n) ==> Lookup(o, n) == Null
  {
    forall l, l' | l in o[k := v] && l' in o[k := v] && EqualFold(l, n) && EqualFold(l', n) ensures l == l' {
      ReservedNames(l);
    }
    LookupAdd(o, k, v, n);
  }

  function Restrict(o: Object, keys: set<string>): Object { map k | k in o && k in keys :: o[k] }

  lemma RestrictStep(o: Object, keys: set<string>, k: string)
    requires k in o && k !in keys
    ensures Restrict(o, keys + {k}) == Restrict(o, keys)[k := o[k]]
  {
  }

  // The metadata of a JSON object, its entries read in any order.
  method ParseMeta(o: Object) returns (m: Meta)
    ensures CaseUnique(o) ==> m == ReadMeta(o)
  {
    m := NO_META;
    var rest := o.Keys;
    assert Restrict(o, {}) == map[];
    while rest != {}
      invariant rest <= o.Keys
      invariant CaseUnique(o) ==> m == ReadMeta(Restrict(o, o.Keys - rest))
      decreases rest
    {
      var k :| k in rest;
      ghost var done := o.Keys - rest;
      RestrictStep(o, done, k);
      if CaseUnique(o) { MetaStep(Restrict(o, done), k, o[k]); }
      m := ReadMetaEntry(m, k, o[k]);
      rest := rest - {k};
      assert o.Keys - rest == done + {k};
    }
    assert Restrict(o, o.Keys - rest) == o;
  }

  method PutString(o: Object, k: string, s: string) returns (r: Object)
    ensures r == With(o, k, NonEmpty(s))
  {
    r := o;
    if s != "" { r := o[k := Str(s)]; }
  }

  method PutTime(o: Object, k: string, t: Time) returns (r: Object)
    ensures r == With(o, k, NonZero(t))
  {
    r := o;
    if !t.IsZero() { r := o[k := Str(FormatTime(t))]; }
  }

  class Resource {
    var schemas: seq<string>
    var id: string
    var externalId: string
    var meta: Meta
    var attributes: Object

    function Value(): Content
      reads this
    {
      Content(schemas, id, externalId, meta, attributes)
    }

    constructor (c: Content)
      ensures Value() == c
    {
      schemas, id, externalId, meta, attributes := c.schemas, c.id, c.externalId, c.meta, c.attributes;
    }

    // Reads a JSON object, its entries in any order.
    constructor FromMap(o: Object)
      ensures attributes == FreeAttributes(o)
      ensures ReservedUnique(o) && (Lookup(o, "meta").Obj? ==> CaseUnique(Lookup(o, "meta").fields))
              ==> Value() == FromObject(o)
    {
      schemas, id, externalId, meta, attributes := [], "", "", NO_META, map[];
      new;
      var rest := o.Keys;
      ghost var clear := ReservedUnique(o) && (Lookup(o, "meta").Obj? ==> CaseUnique(Lookup(o, "meta").fields));
      assert Restrict(o, {}) == map[];
      while rest != {}
        invariant rest <= o.Keys
        invariant attributes == FreeAttributes(Restrict(o, o.Keys - rest))
        invariant clear ==> Value() == FromObject(Restrict(o, o.Keys - rest))
        decreases rest
      {
        var k :| k in rest;
        ghost var done := o.Keys - rest;
        RestrictStep(o, done, k);
        FreeStep(Restrict(o, done), k, o[k]);
        if clear {
          EntryStep(Restrict(o, done), k, o[k]);
          MetaEntry(o, k);
        }
        ReadField(k, o[k]);
        rest := rest - {k};
        assert o.Keys - rest == done + {k};
      }
      assert Restrict(o, o.Keys - rest) == o;
    }

    method ReadField(k: string, v: Json)
      modifies this
      ensures attributes == if Reserved(k) then old(attributes) else old(attributes)[k := v]
      ensures (Lower(k) == "meta" && v.Obj? ==> CaseUnique(v.fields)) ==> Value() == ReadEntry(old(Value()), k, v)
    {
      var n := Lower(k);
      if n == "schemas" {
        if v.Arr? { schemas := schemas + OnlyStrings(v.items); }
      } else if n == "id" {
        if v.Str? { id := v.s; }
      } else if n == "externalid" {
        if v.Str? { externalId := v.s; }
      } else if n == "meta" {
        if v.Obj? { meta := ParseMeta(v.fields); }
      } else {
        attributes := attributes[k := v];
      }
    }

    method MetaMap() returns (m: Object)
      ensures m == MetaObject(meta)
    {
      m := PutString(map[], "resourceType", meta.resourceType);
      m := PutTime(m, "created", meta.created);
      m := PutTime(m, "lastModified", meta.lastModified);
      m := PutString(m, "location", meta.location);
      m := PutString(m, "version", meta.version);
    }

    method ToMap() returns (m: Object)
      ensures m == ToObject(Value())
    {
      m := attributes;
      if schemas != [] { m := m["schemas" := Arr(Strings(schemas))]; }
      m := PutString(m, "id", id);
      m := PutString(m, "externalId", externalId);
      if meta != NO_META {
        var metaMap := MetaMap();
        m := m["meta" := Obj(metaMap)];
      }
    }

    // A copy made by writing JSON and reading it back.
    method Clone() returns (c: Resource)
      ensures fresh(c)
      ensures c.attributes == FreeAttributes(ToObject(Value())) && Settled(c.attributes)
      ensures Settled(attributes) ==> c.Value() == Truncated(Value())
    {
      var o := ToMap();
      if Settled(attributes) {
        JsonRoundTrip(Value());
        ToObjectReservedUnique(Value());
        FixedLookup(Value(), "meta");
        MetaObjectCaseUnique(meta);
      }
      c := new Resource.FromMap(o);
    }
  }

  // The meta entry of an unambiguous object is the one found by name.
  lemma MetaEntry(o: Object, k: string)
    requires k in o && ReservedUnique(o)
    ensures Lower(k) == "meta" ==> Lookup(o, "meta") == o[k]
  {
    FoldedNames(k);
    if Lower(k) == "meta" {
      assert Reserved(k);
      LookupOnly(o, k, "meta");
    }
  }
}
