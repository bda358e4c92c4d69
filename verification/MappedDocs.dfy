// Resources stored as documents whose fields are renamed by a mapping from attribute path to document path.
module MappedDocs {
  import opened Text
  import opened Trees
  import opened Rebuilding
  import opened FlatRoundTrips

  type Mapping = map<string, string>

  const MONGO_ID := "_id"

  // Where an attribute is stored.
  function Stored(cfg: Mapping, a: string): string {
    if a == "id" then MONGO_ID else if a in cfg then cfg[a] else a
  }

  // ----- writing the document -----

  // No stored path is another's or lies above it.
  ghost predicate PathsApart(cfg: Mapping, m: Flat) {
    forall a, b :: a in m && b in m && Under(Stored(cfg, a), Stored(cfg, b)) ==> a == b
  }

  ghost predicate StoredFrom(cfg: Mapping, m: Flat, keys: set<string>, q: string, v: Option<Tree>) {
    exists a :: a in keys && a in m && q == Stored(cfg, a) && v == Some(m[a])
  }

  // The document has no other leaves than the given entries, and all of them when their paths are apart.
  ghost predicate Holding(cfg: Mapping, m: Flat, keys: set<string>, doc: Doc) {
    Tidy(doc) && (forall q :: LeafAt(doc, q).Some? ==> StoredFrom(cfg, m, keys, q, LeafAt(doc, q)))
    && (PathsApart(cfg, m) ==> forall a :: a in keys && a in m ==> LeafAt(doc, Stored(cfg, a)) == Some(m[a]))
  }

  lemma HoldingStep(cfg: Mapping, m: Flat, keys: set<string>, doc: Doc, a: string)
    requires Holding(cfg, m, keys, doc) && a in m && a !in keys && Leaves(m)
    ensures Holding(cfg, m, keys + {a}, SetNested(doc, Stored(cfg, a), m[a]))
  {
    var p, e := Stored(cfg, a), SetNested(doc, Stored(cfg, a), m[a]);
    SetTidy(doc, p, m[a]);
    forall q | LeafAt(e, q).Some? ensures StoredFrom(cfg, m, keys + {a}, q, LeafAt(e, q)) {
      SetAddsOne(doc, p, m[a], q);
      if q != p { assert StoredFrom(cfg, m, keys, q, LeafAt(doc, q)); }
    }
    if PathsApart(cfg, m) {
      assert Clear(doc, p) by {
        forall q | LeafAt(doc, q).Some? ensures !Under(p, q) && !Under(q, p) {
          assert StoredFrom(cfg, m, keys, q, LeafAt(doc, q));
        }
      }
      forall b | b in keys + {a} && b in m ensures LeafAt(e, Stored(cfg, b)) == Some(m[b]) {
        SetLeaf(doc, p, m[a], Stored(cfg, b));
        if b != a { assert Under(p, p); }
      }
    }
  }

  // Every top-level key of a tidy document has a leaf at or below it.
  lemma LeafUnder(doc: Doc, k: string) returns (q: string)
    requires Tidy(doc) && k in doc
    ensures LeafAt(doc, q).Some? && Under(k, q)
  {
    if doc[k].Node? {
      var r := HasLeaf(doc[k].fields);
      LeafBelow(doc, k, r);
      q := k + "." + r;
    } else {
      LeafAtKey(doc, k);
      q := k;
    }
  }

  lemma NotUnderId(cfg: Mapping, m: Flat, keys: set<string>, doc: Doc, q: string)
    requires Holding(cfg, m, keys, doc) && "id" in m && "id" !in keys && PathsApart(cfg, m) && LeafAt(doc, q).Some?
    ensures !Under(MONGO_ID, q)
  {
    var a :| a in keys && a in m && q == Stored(cfg, a);
    assert Stored(cfg, "id") == MONGO_ID;
  }

  // As long as id is not written and paths are apart, nothing is stored under _id.
  lemma IdFree(cfg: Mapping, m: Flat, keys: set<string>, doc: Doc)
    requires Holding(cfg, m, keys, doc) && "id" in m && "id" !in keys && PathsApart(cfg, m)
    ensures MONGO_ID !in doc
  {
    if MONGO_ID in doc {
      var q := LeafUnder(doc, MONGO_ID);
      NotUnderId(cfg, m, keys, doc, q);
    }
  }

  lemma HoldingSkip(cfg: Mapping, m: Flat, keys: set<string>, doc: Doc, a: string)
    requires Holding(cfg, m, keys, doc) && !PathsApart(cfg, m)
    ensures Holding(cfg, m, keys + {a}, doc)
  {
    forall q | LeafAt(doc, q).Some? ensures StoredFrom(cfg, m, keys + {a}, q, LeafAt(doc, q)) {
      assert StoredFrom(cfg, m, keys, q, LeafAt(doc, q));
    }
  }

  lemma NothingHeld(cfg: Mapping, m: Flat)
    ensures Holding(cfg, m, {}, map[])
  {
    forall q ensures LeafAt(map[], q) == None { NoLeaves(q); }
  }

  // The entries with a mapping, in any order.
  method WriteMapped(m: Flat, cfg: Mapping) returns (doc: Doc, mapped: set<string>)
    requires Leaves(m)
    ensures Holding(cfg, m, mapped, doc)
    ensures forall a :: a in mapped <==> a in cfg && a in m
  {
    doc, mapped := map[], {};
    NothingHeld(cfg, m);
    var rest := cfg.Keys;
    while rest != {}
      invariant rest <= cfg.Keys
      invariant forall a :: a in mapped <==> a in cfg && a !in rest && a in m
      invariant Holding(cfg, m, mapped, doc)
      decreases rest
    {
      var a :| a in rest;
      if a in m {
        HoldingStep(cfg, m, mapped, doc, a);
        if a == "id" { doc := SetNested(doc, MONGO_ID, m[a]); } else { doc := SetNested(doc, cfg[a], m[a]); }
        mapped := mapped + {a};
      }
      rest := rest - {a};
    }
  }

  // An entry without a mapping goes under its own name; id under _id unless that is taken.
  method WriteOther(m: Flat, cfg: Mapping, doc: Doc, a: string, ghost done: set<string>) returns (r: Doc)
    requires Holding(cfg, m, done, doc) && Leaves(m) && a in m && a !in done && a !in cfg
    ensures Holding(cfg, m, done + {a}, r)
  {
    r := doc;
    if a == "id" {
      if MONGO_ID !in doc {
        HoldingStep(cfg, m, done, doc, a);
        r := doc[MONGO_ID := m[a]];
      } else {
        if PathsApart(cfg, m) { IdFree(cfg, m, done, doc); }
        HoldingSkip(cfg, m, done, doc, a);
      }
    } else {
      HoldingStep(cfg, m, done, doc, a);
      r := SetNested(doc, a, m[a]);
    }
  }

  lemma HoldingAll(cfg: Mapping, m: Flat, keys: set<string>, doc: Doc)
    requires Holding(cfg, m, keys, doc) && m.Keys <= keys
    ensures Holding(cfg, m, m.Keys, doc)
  {
    forall q | LeafAt(doc, q).Some? ensures StoredFrom(cfg, m, m.Keys, q, LeafAt(doc, q)) {
      assert StoredFrom(cfg, m, keys, q, LeafAt(doc, q));
    }
  }

  // Mapped entries, then the others in any order.
  method WriteEntries(m: Flat, cfg: Mapping) returns (doc: Doc)
    requires Leaves(m)
    ensures Holding(cfg, m, m.Keys, doc)
  {
    var mapped;
    doc, mapped := WriteMapped(m, cfg);
    ghost var done := mapped;
    var rest := m.Keys;
    while rest != {}
      invariant rest <= m.Keys && forall a :: a in done <==> a in mapped || (a in m && a !in rest)
      invariant Holding(cfg, m, done, doc)
      decreases rest
    {
      var a :| a in rest;
      if a !in mapped {
        doc := WriteOther(m, cfg, doc, a, done);
        done := done + {a};
      }
      rest := rest - {a};
    }
    HoldingAll(cfg, m, done, doc);
  }

  method ResourceToMappedDoc(r: TreeResource, cfg: Mapping) returns (doc: Doc, ghost m: Flat)
    ensures IsTableOf(Mongo, r.Value(), m)
    ensures Holding(cfg, m, m.Keys, doc)
  {
    var flatMap := ResourceAttrMap(Mongo, r);
    TableLeaves(Mongo, r.Value(), flatMap);
    m := flatMap;
    doc := WriteEntries(flatMap, cfg);
  }
}
