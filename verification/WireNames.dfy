// The names under which things travel: the fields of a resource in JSON and in tables of dotted paths, and the
// parts of a bulk request.
module WireNames {
  import opened Text
  import opened Values
  import opened Objects
  import opened Paths
  import opened Filters
  import opened FilterEval
  import opened Resources
  import opened Comparisons
  import opened Stores
  import opened StoreLists
  import opened Trees
  import opened Rebuilding
  import opened MappedDocs
  import opened BulkRequests
  import Bulk

  // ----- JSON -----

  // The entry is there exactly when it says something, and says it.
  predicate EntryIs(o: Object, k: string, there: bool, v: Json) { if there then k in o && o[k] == v else k !in o }

  predicate TextEntry(o: Object, k: string, s: string) { EntryIs(o, k, s != "", Str(s)) }

  predicate TimeEntry(o: Object, k: string, t: Time) {
    EntryIs(o, k, t.sec != 0 || t.nanos != 0, Str(FormatTime(t)))
  }

  lemma MetaEntries(m: Meta)
    ensures var o := MetaObject(m);
            TextEntry(o, "resourceType", m.resourceType) && TextEntry(o, "location", m.location)
            && TextEntry(o, "version", m.version) && TimeEntry(o, "created", m.created)
            && TimeEntry(o, "lastModified", m.lastModified)
  {
    MetaObjectEntries(m);
  }

  // The fixed fields under their names, and every free attribute under its own.
  lemma ResourceEntries(c: Content)
    requires Settled(c.attributes)
    ensures var o := ToObject(c);
            TextEntry(o, "id", c.id) && TextEntry(o, "externalId", c.externalId)
            && EntryIs(o, "schemas", c.schemas != [], Arr(Strings(c.schemas)))
            && EntryIs(o, "meta", c.meta != NO_META, Obj(MetaObject(c.meta)))
            && forall k :: k in c.attributes ==> k in o && o[k] == c.attributes[k]
  {
    ObjectEntries(c);
    NotFree(c, "id");
    NotFree(c, "externalId");
    NotFree(c, "schemas");
    NotFree(c, "meta");
  }

  lemma NotFree(c: Content, k: string)
    requires Settled(c.attributes) && FixedRank(k) < 4
    ensures k !in c.attributes
  {
    ReservedNames(k);
  }

  // So a filter on id sees the identifier.
  lemma FilterOnId(c: Content, op: CompareOp, b: string, verdict: bool)
    requires Clean(c) && c.id != ""
    ensures MayEval(Filters.Compare(AttributePath("", "id", ""), op, Str(b)), ToObject(c), verdict) <==>
            verdict == TextTest(op, c.id, b)
  {
    ResourceEntries(c);
    ObjectIsUnique(c);
    assert Holds(ToObject(c), "id", Str(c.id)) by { assert EqualFold("id", "id"); }
    FilterOnText(ToObject(c), AttributePath("", "id", ""), op, c.id, b, verdict);
  }

  // ----- tables of dotted paths -----

  // What a table entry with the path of a field, in any casing, sets.
  lemma EntrySetsField(reader: Reader, c: TreeContent, path: string, s: string, t: Time)
    ensures SameLetters(path, "id") ==> Apply(reader, c, path, Plain(Str(s))) == c.(id := s)
    ensures SameLetters(path, "externalId") ==> Apply(reader, c, path, Plain(Str(s))) == c.(externalId := s)
    ensures SameLetters(path, "meta.version") ==> Apply(reader, c, path, Plain(Str(s))) == c.(version := s)
    ensures SameLetters(path, "meta.created") ==> Apply(reader, c, path, Instant(t)) == c.(created := t)
    ensures SameLetters(path, "meta.lastModified") ==> Apply(reader, c, path, Instant(t)) == c.(lastModified := t)
    ensures SameLetters(path, "meta.location") ==> Apply(Sql, c, path, Plain(Str(s))) == c.(location := s)
  {
    forall i: nat | i < 6 && SameLetters(path, FieldPath(i)) ensures Rank(path) == i {
      FoldIsSameLetters(path, FieldPath(i));
      FieldRank(i);
      assert Lower(path) == Lower(FieldPath(i));
    }
    assert FieldPath(0) == "id" && FieldPath(1) == "externalId" && FieldPath(2) == "meta.created";
    assert FieldPath(3) == "meta.lastModified" && FieldPath(4) == "meta.version" && FieldPath(5) == "meta.location";
  }

  // And the paths under which a resource's fields are stored.
  lemma TableEntries(reader: Reader, c: TreeContent)
    ensures var f := FieldTable(reader, c);
            "id" in f && f["id"] == Plain(Str(c.id)) && "externalId" in f && f["externalId"] == Plain(Str(c.externalId))
            && "meta.created" in f && f["meta.created"] == Instant(c.created)
            && "meta.lastModified" in f && f["meta.lastModified"] == Instant(c.lastModified)
            && "meta.version" in f && f["meta.version"] == Plain(Str(c.version))
            && (reader == Sql ==> "meta.location" in f && f["meta.location"] == Plain(Str(c.location)))
  {
  }

  // A mapped document holds the identifier under _id, and a mapped attribute at the path of the mapping.
  lemma DocumentPlaces(cfg: Mapping, m: Flat, doc: Doc, a: string)
    requires Holding(cfg, m, m.Keys, doc) && PathsApart(cfg, m)
    ensures "id" in m ==> LeafAt(doc, "_id") == Some(m["id"])
    ensures a in m && a in cfg && a != "id" ==> LeafAt(doc, cfg[a]) == Some(m[a])
    ensures a in m && a !in cfg && a != "id" ==> LeafAt(doc, a) == Some(m[a])
  {
  }

  // ----- bulk requests -----

  // The four methods in any casing, the texts under their names, the data as it is.
  lemma OperationParts(m: Object, spelled: string, verb: string, bulkId: string, path: string)
    requires Unique(Obj(m)) && Holds(m, "method", Str(spelled)) && Holds(m, "bulkId", Str(bulkId))
    requires Holds(m, "path", Str(path)) && SameLetters(spelled, verb)
    requires verb == "POST" || verb == "PUT" || verb == "PATCH" || verb == "DELETE"
    ensures var op := ParsedOp(Obj(m));
            op.Some? && op.value.verb == verb && op.value.bulkId == bulkId && op.value.path == path
            && op.value.data == if "data" in m && m["data"] != Null then Some(m["data"]) else None
  {
    HeldIsFound(m, "method", Str(spelled));
    HeldIsFound(m, "bulkId", Str(bulkId));
    HeldIsFound(m, "path", Str(path));
    FoldIsSameLetters(spelled, verb);
    MethodIs(spelled, verb);
  }

  lemma MethodIs(spelled: string, verb: string)
    requires EqualFold(spelled, verb)
    requires verb == "POST" || verb == "PUT" || verb == "PATCH" || verb == "DELETE"
    ensures MethodNamed(spelled) == Some(verb)
  {
    assert Lower("POST") == "post" && Lower("PUT") == "put" && Lower("PATCH") == "patch" && Lower("DELETE") == "delete";
  }

  // The bulk endpoint: its name in any casing, after an optional slash, alone or before another slash.
  lemma BulkEndpoint(name: string, rest: string)
    requires Lacks(name, '/')
    ensures Bulk.IsBulkPath("/" + name) <==> SameLetters(name, "Bulk")
    ensures Bulk.IsBulkPath("/" + name + "/" + rest) <==> SameLetters(name, "Bulk")
  {
    FoldIsSameLetters(name, "Bulk");
    assert Lower("Bulk") == "bulk";
    var a, b := "/" + name, "/" + name + "/" + rest;
    assert a[1..] == name && b[1..] == name + ['/'] + rest;
    IndexOfSplit(name, '/', rest);
    assert b[1..][..|name|] == name;
  }
}
