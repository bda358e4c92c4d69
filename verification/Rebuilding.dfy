// Rebuilding a resource from a table of dotted paths, and the two round trips between tree and table.
module Rebuilding {
  import opened Text
  import opened Values
  import opened Resources
  import opened Trees
  import opened Flattening

  // The two readers. SQL knows six paths that are fields of a resource and skips nulls; MongoDB knows the
  // first five and skips those of them that hold a value of the wrong type.
  datatype Reader = Sql | Mongo

  datatype TreeContent = TreeContent(id: string, externalId: string, created: Time, lastModified: Time,
                                     version: string, location: string, resourceType: string, attributes: Doc)

  // ----- the paths that are fields of a resource -----

  // The number of the field a path names in any casing; 6 for none.
  function Rank(path: string): nat {
    var n := Lower(path);
    if n == "id" then 0 else if n == "externalid" then 1 else if n == "meta.created" then 2
    else if n == "meta.lastmodified" then 3 else if n == "meta.version" then 4
    else if n == "meta.location" then 5 else 6
  }

  function FieldPath(i: nat): string
    requires i < 6
  {
    if i == 0 then "id" else if i == 1 then "externalId" else if i == 2 then "meta.created"
    else if i == 3 then "meta.lastModified" else if i == 4 then "meta.version" else "meta.location"
  }

  lemma FieldRank(i: nat)
    requires i < 6
    ensures Rank(FieldPath(i)) == i
    ensures FieldPath(i) != "" && FieldPath(i)[0] != '.'
  {
    assert Lower("id") == "id";
    assert Lower("externalId") == "externalid";
    assert Lower("meta.created") == "meta.created";
    assert Lower("meta.lastModified") == "meta.lastmodified";
    assert Lower("meta.version") == "meta.version";
    assert Lower("meta.location") == "meta.location";
  }

  predicate IsTime(i: nat) { i == 2 || i == 3 }

  predicate Fits(i: nat, v: Tree) { if IsTime(i) then v.Instant? else v.Plain? && v.j.Str? }

  function Default(i: nat): Tree { if IsTime(i) then Instant(ZERO_TIME) else Plain(Str("")) }

  // asString and asTime.
  function Cast(i: nat, v: Tree): Tree { if Fits(i, v) then v else Default(i) }

  function Field(c: TreeContent, i: nat): (t: Tree)
    ensures Fits(i, t)
  {
    if i == 0 then Plain(Str(c.id)) else if i == 1 then Plain(Str(c.externalId)) else if i == 2 then Instant(c.created)
    else if i == 3 then Instant(c.lastModified) else if i == 4 then Plain(Str(c.version)) else Plain(Str(c.location))
  }

  // ----- what one entry does -----

  function Limit(reader: Reader): nat { if reader == Sql then 6 else 5 }

  predicate Counts(reader: Reader, path: string, v: Tree) {
    if reader == Sql then v != Plain(Null) else Rank(path) < 5 ==> Fits(Rank(path), v)
  }

  function WithField(c: TreeContent, i: nat, v: Tree): TreeContent
    requires Fits(i, v)
  {
    if i == 0 then c.(id := v.j.s) else if i == 1 then c.(externalId := v.j.s) else if i == 2 then c.(created := v.t)
    else if i == 3 then c.(lastModified := v.t) else if i == 4 then c.(version := v.j.s) else c.(location := v.j.s)
  }

  function Apply(reader: Reader, c: TreeContent, path: string, v: Tree): TreeContent {
    if !Counts(reader, path, v) then c
    else if Rank(path) < Limit(reader) then WithField(c, Rank(path), Cast(Rank(path), v))
    else c.(attributes := SetNested(c.attributes, path, v))
  }

  // ----- what all entries, in any order, do -----

  // The entries that become attributes.
  function Free(reader: Reader, f: Flat): Flat {
    map p | p in f && Counts(reader, p, f[p]) && Rank(p) >= Limit(reader) :: f[p]
  }

  // A field comes from some entry that names it, and is blank when no entry does.
  ghost predicate FieldFrom(reader: Reader, f: Flat, i: nat, t: Tree) {
    (exists p :: p in f && Counts(reader, p, f[p]) && Rank(p) == i && t == Cast(i, f[p]))
    || (t == Default(i) && forall p :: p in f && Counts(reader, p, f[p]) ==> Rank(p) != i)
  }

  ghost predicate FieldsFrom(reader: Reader, f: Flat, c: TreeContent) {
    (forall i :: 0 <= i < Limit(reader) ==> FieldFrom(reader, f, i, Field(c, i)))
      && (reader == Mongo ==> c.location == "")
  }

  // The attributes have no other leaves than the free entries, and all of these when none lies above another.
  ghost predicate AttributesFrom(free: Flat, d: Doc) {
    Tidy(d) && (forall q :: LeafAt(d, q).Some? ==> q in free && LeafAt(d, q) == Some(free[q]))
    && (PrefixFree(free) ==> forall q :: q in free ==> LeafAt(d, q) == Some(free[q]))
  }

  ghost predicate Rebuilds(reader: Reader, f: Flat, resourceType: string, c: TreeContent) {
    FieldsFrom(reader, f, c) && AttributesFrom(Free(reader, f), c.attributes) && c.resourceType == resourceType
  }

  lemma AttributesStep(free: Flat, d: Doc, p: string, v: Tree)
    requires AttributesFrom(free, d) && p !in free && !v.Node?
    ensures AttributesFrom(free[p := v], SetNested(d, p, v))
  {
    var more, e := free[p := v], SetNested(d, p, v);
    SetTidy(d, p, v);
    forall q | LeafAt(e, q).Some? ensures q in more && LeafAt(e, q) == Some(more[q]) { SetAddsOne(d, p, v, q); }
    if PrefixFree(more) {
      assert PrefixFree(free) by { assert forall q :: q in free ==> q in more; }
      assert Clear(d, p) by {
        forall q | LeafAt(d, q).Some? ensures !Under(p, q) && !Under(q, p) { assert q in more && p in more; }
      }
      forall q | q in more ensures LeafAt(e, q) == Some(more[q]) { SetLeaf(d, p, v, q); }
    }
  }

  lemma FieldStep(reader: Reader, f: Flat, p: string, v: Tree, i: nat, t: Tree)
    requires FieldFrom(reader, f, i, t) && p !in f
    ensures FieldFrom(reader, f[p := v], i, if Counts(reader, p, v) && Rank(p) == i then Cast(i, v) else t)
  {
    var g := f[p := v];
    if Counts(reader, p, v) && Rank(p) == i {
      assert g[p] == v;
    } else if exists q :: q in f && Counts(reader, q, f[q]) && Rank(q) == i && t == Cast(i, f[q]) {
      var q :| q in f && Counts(reader, q, f[q]) && Rank(q) == i && t == Cast(i, f[q]);
      assert q in g && g[q] == f[q];
    }
  }

  lemma FreeStep(reader: Reader, f: Flat, p: string, v: Tree)
    requires p !in f
    ensures Free(reader, f[p := v])
            == if Counts(reader, p, v) && Rank(p) >= Limit(reader) then Free(reader, f)[p := v] else Free(reader, f)
  {
  }

  lemma ApplyField(reader: Reader, c: TreeContent, p: string, v: Tree, i: nat)
    requires i < Limit(reader)
    ensures Field(Apply(reader, c, p, v), i) == if Counts(reader, p, v) && Rank(p) == i then Cast(i, v) else Field(c, i)
  {
    assert forall w :: Fits(i, w) ==> Field(WithField(c, i, w), i) == w;
  }

  lemma RebuildStep(reader: Reader, f: Flat, resourceType: string, c: TreeContent, p: string, v: Tree)
    requires Rebuilds(reader, f, resourceType, c) && p !in f && !v.Node?
    ensures Rebuilds(reader, f[p := v], resourceType, Apply(reader, c, p, v))
  {
    FreeStep(reader, f, p, v);
    if p !in Free(reader, f) && Counts(reader, p, v) && Rank(p) >= Limit(reader) {
      AttributesStep(Free(reader, f), c.attributes, p, v);
    }
    var e := Apply(reader, c, p, v);
    forall i | 0 <= i < Limit(reader) ensures FieldFrom(reader, f[p := v], i, Field(e, i)) {
      FieldStep(reader, f, p, v, i, Field(c, i));
      ApplyField(reader, c, p, v, i);
    }
  }

  lemma NothingRebuilt(reader: Reader, resourceType: string)
    ensures Rebuilds(reader, map[], resourceType,
                     TreeContent("", "", ZERO_TIME, ZERO_TIME, "", "", resourceType, map[]))
  {
    var c := TreeContent("", "", ZERO_TIME, ZERO_TIME, "", "", resourceType, map[]);
    forall q ensures LeafAt(c.attributes, q) == None { NoLeaves(q); }
  }

  function Part(f: Flat, keys: set<string>): Flat { map p | p in f && p in keys :: f[p] }

  lemma PartStep(f: Flat, keys: set<string>, p: string)
    requires p in f && p !in keys
    ensures Part(f, keys + {p}) == Part(f, keys)[p := f[p]]
  {
  }

  // ----- the resource being built -----

  // A resource whose attributes may hold instants as well as JSON.
  class TreeResource {
    var id: string
    var externalId: string
    var created: Time
    var lastModified: Time
    var version: string
    var location: string
    var resourceType: string
    var attributes: Doc

    function Value(): TreeContent
      reads this
    {
      TreeContent(id, externalId, created, lastModified, version, location, resourceType, attributes)
    }

    constructor (resourceType: string)
      ensures Value() == TreeContent("", "", ZERO_TIME, ZERO_TIME, "", "", resourceType, map[])
    {
      id, externalId, version, location := "", "", "", "";
      created, lastModified := ZERO_TIME, ZERO_TIME;
      this.resourceType := resourceType;
      attributes := map[];
    }

    method ApplyAttr(path: string, v: Tree)
      requires v != Plain(Null)
      modifies this
      ensures Value() == Apply(Sql, old(Value()), path, v)
    {
      var n := Lower(path);
      if n == "id" { id := Cast(0, v).j.s; }
      else if n == "externalid" { externalId := Cast(1, v).j.s; }
      else if n == "meta.created" { created := Cast(2, v).t; }
      else if n == "meta.lastmodified" { lastModified := Cast(3, v).t; }
      else if n == "meta.version" { version := Cast(4, v).j.s; }
      else if n == "meta.location" { location := Cast(5, v).j.s; }
      else { attributes := SetNested(attributes, path, v); }
    }

    method ApplyAttrToResource(path: string, v: Tree)
      modifies this
      ensures Value() == Apply(Mongo, old(Value()), path, v)
    {
      var n := Lower(path);
      if n == "id" { if v.Plain? && v.j.Str? { id := v.j.s; } }
      else if n == "externalid" { if v.Plain? && v.j.Str? { externalId := v.j.s; } }
      else if n == "meta.created" { if v.Instant? { created := v.t; } }
      else if n == "meta.lastmodified" { if v.Instant? { lastModified := v.t; } }
      else if n == "meta.version" { if v.Plain? && v.j.Str? { version := v.j.s; } }
      else { attributes := SetNested(attributes, path, v); }
    }
  }

  // Walks the entries in any order.
  method ReconstructResource(f: Flat, resourceType: string) returns (r: TreeResource)
    ensures fresh(r)
    ensures Leaves(f) ==> Rebuilds(Sql, f, resourceType, r.Value())
  {
    r := new TreeResource(resourceType);
    NothingRebuilt(Sql, resourceType);
    var rest := f.Keys;
    assert Part(f, {}) == map[];
    while rest != {}
      invariant rest <= f.Keys
      invariant Leaves(f) ==> Rebuilds(Sql, Part(f, f.Keys - rest), resourceType, r.Value())
      decreases rest
    {
      var p :| p in rest;
      ghost var done := f.Keys - rest;
      PartStep(f, done, p);
      if Leaves(f) { RebuildStep(Sql, Part(f, done), resourceType, r.Value(), p, f[p]); }
      if f[p] != Plain(Null) { r.ApplyAttr(p, f[p]); }
      rest := rest - {p};
      assert f.Keys - rest == done + {p};
    }
    assert Part(f, f.Keys - rest) == f;
  }

  // The fields every table starts with.
  function FieldTable(reader: Reader, c: TreeContent): Flat {
    var five := map["id" := Field(c, 0), "externalId" := Field(c, 1), "meta.created" := Field(c, 2),
                    "meta.lastModified" := Field(c, 3), "meta.version" := Field(c, 4)];
    if reader == Sql then five["meta.location" := Field(c, 5)] else five
  }

  ghost predicate IsTableOf(reader: Reader, c: TreeContent, m: Flat) {
    Gains(FieldTable(reader, c), m, c.attributes, c.attributes.Keys, "")
  }

  // ResourceAttrMap for SQL and flattenResource for MongoDB.
  method ResourceAttrMap(reader: Reader, r: TreeResource) returns (m: Flat)
    ensures IsTableOf(reader, r.Value(), m)
  {
    var out := new FlatTable(FieldTable(reader, r.Value()));
    out.FlattenInto(r.attributes, "");
    m := out.entries;
  }
}
