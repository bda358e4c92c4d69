// Reading a mapped document back, and when that restores the resource.
module MappedReading {
  import opened Trees
  import opened Flattening
  import opened Rebuilding
  import opened FlatRoundTrips
  import opened MappedDocs

  // ----- flattening the document -----

  lemma GainsMerge(before: Flat, sub: Flat, d: Doc, prefix: string)
    requires Gains(map[], sub, d, d.Keys, prefix)
    ensures Gains(before, before + sub, d, d.Keys, prefix)
  {
  }

  // Flattens into a new table, merging the tables of inner maps.
  method FlattenDoc(doc: Doc, prefix: string) returns (out: Flat)
    ensures Gains(map[], out, doc, doc.Keys, prefix)
    decreases Node(doc)
  {
    out := map[];
    var rest := doc.Keys;
    while rest != {}
      invariant rest <= doc.Keys
      invariant Gains(map[], out, doc, doc.Keys - rest, prefix)
      decreases rest
    {
      var k :| k in rest;
      ghost var done, middle := doc.Keys - rest, out;
      var key := if prefix != "" then prefix + "." + k else k;
      if doc[k].Node? {
        var sub := FlattenDoc(doc[k].fields, key);
        GainsMerge(middle, sub, doc[k].fields, key);
        out := out + sub;
        GainsNode(map[], middle, out, doc, done, k, prefix);
      } else {
        out := out[key := doc[k]];
        GainsLeaf(map[], middle, doc, done, k, prefix);
      }
      rest := rest - {k};
      assert doc.Keys - rest == done + {k};
    }
    assert doc.Keys - rest == doc.Keys;
  }

  // ----- names for the paths -----

  // Each mapped path leads back to one attribute mapped to it.
  ghost predicate Reverses(cfg: Mapping, reverse: Mapping) {
    (forall p :: p in reverse ==> reverse[p] in cfg && cfg[reverse[p]] == p)
      && (forall a :: a in cfg ==> cfg[a] in reverse)
  }

  method ReverseMap(cfg: Mapping) returns (reverse: Mapping)
    ensures Reverses(cfg, reverse)
  {
    reverse := map[];
    var rest := cfg.Keys;
    while rest != {}
      invariant rest <= cfg.Keys
      invariant forall p :: p in reverse ==> reverse[p] in cfg && cfg[reverse[p]] == p
      invariant forall a :: a in cfg && a !in rest ==> cfg[a] in reverse
      decreases rest
    {
      var a :| a in rest;
      reverse := reverse[cfg[a] := a];
      rest := rest - {a};
    }
  }

  // A mapped path of the document is named id.
  predicate IdMapped(reverse: Mapping, flat: Flat) { exists p :: p in flat && p in reverse && reverse[p] == "id" }

  function NameOf(reverse: Mapping, flat: Flat, p: string): string {
    if p in reverse then reverse[p] else if p == MONGO_ID && !IdMapped(reverse, flat) then "id" else p
  }

  // Every path has given its value to its name, unless another path of that name has.
  ghost predicate Named(reverse: Mapping, flat: Flat, keys: set<string>, attrs: Flat) {
    (forall p :: p in keys && p in flat ==> NameOf(reverse, flat, p) in attrs)
    && (forall a :: a in attrs ==> NamedFrom(reverse, flat, keys, a, attrs[a]))
  }

  ghost predicate NamedFrom(reverse: Mapping, flat: Flat, keys: set<string>, a: string, v: Tree) {
    exists p :: p in keys && p in flat && v == flat[p]
      && (a == NameOf(reverse, flat, p) || (a == "id" && p == MONGO_ID && !IdMapped(reverse, flat)))
  }

  lemma NamedStep(reverse: Mapping, flat: Flat, keys: set<string>, attrs: Flat, p: string)
    requires Named(reverse, flat, keys, attrs) && p in flat
    ensures Named(reverse, flat, keys + {p}, attrs[NameOf(reverse, flat, p) := flat[p]])
  {
    var after := attrs[NameOf(reverse, flat, p) := flat[p]];
    forall a | a in after ensures NamedFrom(reverse, flat, keys + {p}, a, after[a]) {
      if a != NameOf(reverse, flat, p) { assert NamedFrom(reverse, flat, keys, a, attrs[a]); }
    }
  }

  method NameMapped(reverse: Mapping, flat: Flat) returns (attrs: Flat, used: set<string>)
    ensures Named(reverse, flat, used, attrs)
    ensures "id" in attrs <==> IdMapped(reverse, flat)
    ensures forall p :: p in used <==> p in reverse && p in flat
  {
    attrs, used := map[], {};
    var rest := reverse.Keys;
    while rest != {}
      invariant rest <= reverse.Keys
      invariant forall p :: p in used <==> p in reverse && p !in rest && p in flat
      invariant Named(reverse, flat, used, attrs)
      invariant "id" in attrs <==> exists p :: p in used && p in flat && p in reverse && reverse[p] == "id"
      decreases rest
    {
      var p :| p in rest;
      if p in flat {
        NamedStep(reverse, flat, used, attrs, p);
        attrs := attrs[reverse[p] := flat[p]];
        used := used + {p};
      }
      rest := rest - {p};
    }
  }

  // The same for a mapped _id, which also gives id when no mapped path does.
  lemma NamedIdStep(reverse: Mapping, flat: Flat, keys: set<string>, attrs: Flat)
    requires Named(reverse, flat, keys, attrs) && MONGO_ID in flat && !IdMapped(reverse, flat) && "id" !in attrs
    requires MONGO_ID in reverse ==> MONGO_ID in keys
    ensures Named(reverse, flat, keys + {MONGO_ID}, attrs["id" := flat[MONGO_ID]])
  {
    var after := attrs["id" := flat[MONGO_ID]];
    forall a | a in after ensures NamedFrom(reverse, flat, keys + {MONGO_ID}, a, after[a]) {
      if a != "id" { assert NamedFrom(reverse, flat, keys, a, attrs[a]); }
    }
  }

  // Mapped paths first, then _id, then the other paths under their own names.
  method NameEntries(reverse: Mapping, flat: Flat) returns (attrs: Flat)
    ensures Named(reverse, flat, flat.Keys, attrs)
    ensures MONGO_ID in flat ==> "id" in attrs
  {
    var used;
    attrs, used := NameMapped(reverse, flat);
    if "id" !in attrs && MONGO_ID in flat {
      NamedIdStep(reverse, flat, used, attrs);
      attrs := attrs["id" := flat[MONGO_ID]];
      used := used + {MONGO_ID};
    }
    ghost var done := used;
    var rest := flat.Keys;
    while rest != {}
      invariant rest <= flat.Keys
      invariant forall p :: p in done <==> p in used || (p in flat && p !in rest)
      invariant Named(reverse, flat, done, attrs)
      invariant MONGO_ID in flat ==> "id" in attrs
      decreases rest
    {
      var p :| p in rest;
      if p !in used {
        NamedStep(reverse, flat, done, attrs, p);
        attrs := attrs[p := flat[p]];
        done := done + {p};
      }
      rest := rest - {p};
    }
    assert done == flat.Keys;
  }

  // What reading a document may give: the walks over its maps may visit entries in any order.
  ghost predicate Reads(cfg: Mapping, doc: Doc, reverse: Mapping, flat: Flat, attrs: Flat) {
    Reverses(cfg, reverse) && Gains(map[], flat, doc, doc.Keys, "") && Named(reverse, flat, flat.Keys, attrs)
    && (MONGO_ID in flat ==> "id" in attrs)
  }

  // Walks the named entries in any order.
  method BuildResource(attrMap: Flat, resourceType: string) returns (r: TreeResource)
    requires Leaves(attrMap)
    ensures fresh(r)
    ensures Rebuilds(Mongo, attrMap, resourceType, r.Value())
  {
    r := new TreeResource(resourceType);
    NothingRebuilt(Mongo, resourceType);
    var rest := attrMap.Keys;
    assert Part(attrMap, {}) == map[];
    while rest != {}
      invariant rest <= attrMap.Keys
      invariant Rebuilds(Mongo, Part(attrMap, attrMap.Keys - rest), resourceType, r.Value())
      decreases rest
    {
      var p :| p in rest;
      ghost var done := attrMap.Keys - rest;
      PartStep(attrMap, done, p);
      RebuildStep(Mongo, Part(attrMap, done), resourceType, r.Value(), p, attrMap[p]);
      r.ApplyAttrToResource(p, attrMap[p]);
      rest := rest - {p};
      assert attrMap.Keys - rest == done + {p};
    }
    assert Part(attrMap, attrMap.Keys - rest) == attrMap;
  }

  method MappedDocToResource(doc: Doc, cfg: Mapping, resourceType: string)
    returns (r: TreeResource, ghost reverse: Mapping, ghost flat: Flat, ghost attrs: Flat)
    ensures fresh(r)
    ensures Reads(cfg, doc, reverse, flat, attrs)
    ensures Rebuilds(Mongo, attrs, resourceType, r.Value())
  {
    var reverseMap := ReverseMap(cfg);
    var flatDoc := FlattenDoc(doc, "");
    var attrMap := NameEntries(reverseMap, flatDoc);
    reverse, flat, attrs := reverseMap, flatDoc, attrMap;
    ReadLeaves(cfg, doc, reverse, flat, attrs);
    r := BuildResource(attrMap, resourceType);
  }

  lemma FlatLeaves(doc: Doc, flat: Flat)
    requires Gains(map[], flat, doc, doc.Keys, "")
    ensures Leaves(flat)
  {
    forall p | p in flat ensures !flat[p].Node? {
      assert From(doc, doc.Keys, "", p, flat[p]);
      var k :| k in doc && Occurs(doc[k], Key("", k), p, flat[p]);
      OccursLeaf(doc[k], Key("", k), p, flat[p]);
    }
  }

  lemma ReadLeaves(cfg: Mapping, doc: Doc, reverse: Mapping, flat: Flat, attrs: Flat)
    requires Reads(cfg, doc, reverse, flat, attrs)
    ensures Leaves(attrs)
  {
    FlatLeaves(doc, flat);
    forall a | a in attrs ensures !attrs[a].Node? { assert NamedFrom(reverse, flat, flat.Keys, a, attrs[a]); }
  }

  // ----- writing, then reading -----

  ghost predicate NoDotFirst(cfg: Mapping, m: Flat) {
    forall a :: a in m && Stored(cfg, a) != "" ==> Stored(cfg, a)[0] != '.'
  }

  ghost predicate OneToOne(cfg: Mapping) { forall a, b :: a in cfg && b in cfg && cfg[a] == cfg[b] ==> a == b }

  // No attribute is stored at a path the mapping keeps for another.
  ghost predicate OwnPaths(cfg: Mapping, m: Flat) {
    forall a, b :: a in m && b in cfg && cfg[b] == Stored(cfg, a) ==> a == b
  }

  // The flat form of the document is the stored form of the entries.
  lemma StoredForm(cfg: Mapping, m: Flat, doc: Doc, flat: Flat)
    requires PathsApart(cfg, m) && NoDotFirst(cfg, m)
    requires Holding(cfg, m, m.Keys, doc) && Gains(map[], flat, doc, doc.Keys, "")
    ensures forall a :: a in m ==> Stored(cfg, a) in flat && flat[Stored(cfg, a)] == m[a]
    ensures forall p :: p in flat ==> exists a :: a in m && p == Stored(cfg, a)
  {
    if !NoRootMap(doc) { var _ := RootMapLeaf(doc); }
    forall a | a in m ensures Stored(cfg, a) in flat && flat[Stored(cfg, a)] == m[a] {
      FromTop(doc, Stored(cfg, a), m[a]);
      FromTop(doc, Stored(cfg, a), flat[Stored(cfg, a)]);
    }
    forall p | p in flat ensures exists a :: a in m && p == Stored(cfg, a) {
      FromTop(doc, p, flat[p]);
      assert StoredFrom(cfg, m, m.Keys, p, LeafAt(doc, p));
    }
  }

  // Flattening loses the dots a path starts with: none of the paths it gives has any.
  lemma NoDotMet(doc: Doc, flat: Flat, p: string)
    requires Tidy(doc) && Gains(map[], flat, doc, doc.Keys, "") && p in flat
    ensures p == "" || p[0] != '.'
  {
    assert From(doc, doc.Keys, "", p, flat[p]);
    assert Occurs(Node(doc), "", p, flat[p]);
    NoLeadingDot(Node(doc), p, flat[p]);
  }

  // The stored entries are all read back at their paths exactly when none of the paths starts with a dot.
  lemma ReadInPlace(cfg: Mapping, m: Flat, doc: Doc, flat: Flat)
    requires PathsApart(cfg, m)
    requires Holding(cfg, m, m.Keys, doc) && Gains(map[], flat, doc, doc.Keys, "")
    ensures (forall a :: a in m ==> Stored(cfg, a) in flat && flat[Stored(cfg, a)] == m[a]) <==> NoDotFirst(cfg, m)
  {
    if NoDotFirst(cfg, m) {
      StoredForm(cfg, m, doc, flat);
    } else {
      var a :| a in m && Stored(cfg, a) != "" && Stored(cfg, a)[0] == '.';
      if Stored(cfg, a) in flat { NoDotMet(doc, flat, Stored(cfg, a)); }
    }
  }

  // An attribute mapped to such a path loses its name: what comes back under that name, if anything, was
  // stored at the name itself.
  lemma DotFirstLost(cfg: Mapping, doc: Doc, reverse: Mapping, flat: Flat, attrs: Flat, a: string)
    requires Tidy(doc) && Reads(cfg, doc, reverse, flat, attrs)
    requires a in cfg && a != "id" && cfg[a] != "" && cfg[a][0] == '.'
    ensures a in attrs ==> a in flat && a !in reverse && attrs[a] == flat[a]
  {
    if a in attrs {
      var p :| p in flat && attrs[a] == flat[p] && (a == NameOf(reverse, flat, p) || (a == "id" && p == MONGO_ID));
      NoDotMet(doc, flat, p);
    }
  }

  // The stored entries of m, read back as a table.
  ghost predicate ReadBack(cfg: Mapping, m: Flat, reverse: Mapping, flat: Flat, attrs: Flat) {
    && (forall a :: a in m ==> Stored(cfg, a) in flat && flat[Stored(cfg, a)] == m[a])
    && (forall p :: p in flat ==> exists a :: a in m && p == Stored(cfg, a))
    && Reverses(cfg, reverse) && Named(reverse, flat, flat.Keys, attrs) && (MONGO_ID in flat ==> "id" in attrs)
  }

  lemma StoredReadBack(cfg: Mapping, m: Flat, doc: Doc, reverse: Mapping, flat: Flat, attrs: Flat)
    requires Holding(cfg, m, m.Keys, doc) && Reads(cfg, doc, reverse, flat, attrs)
    requires PathsApart(cfg, m) && NoDotFirst(cfg, m)
    ensures ReadBack(cfg, m, reverse, flat, attrs)
  {
    StoredForm(cfg, m, doc, flat);
  }

  lemma IdUnmapped(cfg: Mapping, m: Flat, reverse: Mapping, flat: Flat, attrs: Flat)
    requires ReadBack(cfg, m, reverse, flat, attrs) && OwnPaths(cfg, m) && MONGO_ID !in reverse
    ensures !IdMapped(reverse, flat)
  {
    forall p | p in flat && p in reverse ensures reverse[p] != "id" {
      var a :| a in m && p == Stored(cfg, a);
    }
  }

  lemma OwnName(cfg: Mapping, m: Flat, reverse: Mapping, flat: Flat, attrs: Flat, a: string)
    requires ReadBack(cfg, m, reverse, flat, attrs) && OwnPaths(cfg, m) && PathsApart(cfg, m) && "id" in m && a in m
    ensures NameOf(reverse, flat, Stored(cfg, a)) == a
  {
    var p := Stored(cfg, a);
    if p == MONGO_ID {
      assert Under(Stored(cfg, a), Stored(cfg, "id"));
      if p !in reverse { IdUnmapped(cfg, m, reverse, flat, attrs); }
    }
  }

  lemma NameFound(cfg: Mapping, m: Flat, reverse: Mapping, flat: Flat, attrs: Flat, a: string)
    requires ReadBack(cfg, m, reverse, flat, attrs) && OwnPaths(cfg, m) && PathsApart(cfg, m) && "id" in m && a in attrs
    ensures a in m && attrs[a] == m[a]
  {
    assert NamedFrom(reverse, flat, flat.Keys, a, attrs[a]);
    var p :| p in flat && attrs[a] == flat[p] && (a == NameOf(reverse, flat, p) || (a == "id" && p == MONGO_ID));
    var b :| b in m && p == Stored(cfg, b);
    OwnName(cfg, m, reverse, flat, attrs, b);
    if p == MONGO_ID { assert Under(Stored(cfg, b), Stored(cfg, "id")); }
  }

  lemma NamePresent(cfg: Mapping, m: Flat, reverse: Mapping, flat: Flat, attrs: Flat, a: string)
    requires ReadBack(cfg, m, reverse, flat, attrs) && OwnPaths(cfg, m) && PathsApart(cfg, m) && "id" in m && a in m
    ensures a in attrs
  {
    OwnName(cfg, m, reverse, flat, attrs, a);
  }

  lemma SameFlat(f: Flat, g: Flat)
    requires (forall a :: a in f ==> a in g) && (forall a :: a in g ==> a in f && g[a] == f[a])
    ensures f == g
  {
  }

  lemma NamesKept(cfg: Mapping, m: Flat, reverse: Mapping, flat: Flat, attrs: Flat)
    requires ReadBack(cfg, m, reverse, flat, attrs) && OwnPaths(cfg, m) && PathsApart(cfg, m) && "id" in m
    ensures attrs == m
  {
    forall a | a in m ensures a in attrs { NamePresent(cfg, m, reverse, flat, attrs, a); }
    forall a | a in attrs ensures a in m && attrs[a] == m[a] { NameFound(cfg, m, reverse, flat, attrs, a); }
    SameFlat(m, attrs);
  }

  // An attribute other than id whose stored path the mapping keeps for another attribute is lost.
  lemma AttributeLost(cfg: Mapping, m: Flat, reverse: Mapping, flat: Flat, attrs: Flat, a: string, b: string)
    requires ReadBack(cfg, m, reverse, flat, attrs) && OneToOne(cfg) && PathsApart(cfg, m)
    requires a in m && a != "id" && b in cfg && cfg[b] == Stored(cfg, a) && a != b
    ensures a !in attrs
  {
    assert a !in cfg;
  }

  lemma IdLost(cfg: Mapping, m: Flat, reverse: Mapping, flat: Flat, attrs: Flat, b: string)
    requires ReadBack(cfg, m, reverse, flat, attrs) && OneToOne(cfg) && PathsApart(cfg, m)
    requires "id" in m && b in cfg && cfg[b] == MONGO_ID && b != "id"
    ensures attrs != m
  {
  }

  // With a one-to-one mapping whose stored paths are apart, every name comes back exactly when no attribute
  // is stored at a path the mapping keeps for another.
  lemma NamesSurvive(cfg: Mapping, m: Flat, reverse: Mapping, flat: Flat, attrs: Flat)
    requires ReadBack(cfg, m, reverse, flat, attrs) && OneToOne(cfg) && PathsApart(cfg, m) && "id" in m
    ensures attrs == m <==> OwnPaths(cfg, m)
  {
    if OwnPaths(cfg, m) { NamesKept(cfg, m, reverse, flat, attrs); }
    if attrs == m {
      forall a, b | a in m && b in cfg && cfg[b] == Stored(cfg, a) ensures a == b {
        if a != b {
          if a == "id" {
            IdLost(cfg, m, reverse, flat, attrs, b);
          } else {
            AttributeLost(cfg, m, reverse, flat, attrs, a, b);
          }
        }
      }
    }
  }

  lemma IdInTable(c: TreeContent, m: Flat)
    requires IsTableOf(Mongo, c, m)
    ensures "id" in m
  {
    assert "id" in FieldTable(Mongo, c);
  }

  lemma NamesRestored(cfg: Mapping, m: Flat, doc: Doc, reverse: Mapping, flat: Flat, attrs: Flat)
    requires Holding(cfg, m, m.Keys, doc) && Reads(cfg, doc, reverse, flat, attrs)
    requires PathsApart(cfg, m) && NoDotFirst(cfg, m) && OwnPaths(cfg, m) && "id" in m
    ensures attrs == m
  {
    StoredReadBack(cfg, m, doc, reverse, flat, attrs);
    NamesKept(cfg, m, reverse, flat, attrs);
  }

  // Writing a resource as a mapped document and reading it back gives the resource, without its location,
  // exactly when its attributes are restorable; whatever order every walk over a map takes.
  lemma MappedRoundTrip(cfg: Mapping, c: TreeContent, m: Flat, doc: Doc,
                        reverse: Mapping, flat: Flat, attrs: Flat, e: TreeContent)
    requires IsTableOf(Mongo, c, m) && Holding(cfg, m, m.Keys, doc)
    requires Reads(cfg, doc, reverse, flat, attrs) && Rebuilds(Mongo, attrs, c.resourceType, e)
    requires PathsApart(cfg, m) && NoDotFirst(cfg, m) && OwnPaths(cfg, m)
    ensures e == Kept(Mongo, c) <==> Restorable(Mongo, c.attributes)
  {
    IdInTable(c, m);
    NamesRestored(cfg, m, doc, reverse, flat, attrs);
    TreeRoundTrip(Mongo, c, m, e);
  }
}
