// Tree to table and back, and table to tree and back: exactly when nothing is lost.
module FlatRoundTrips {
  import opened Text
  import opened Values
  import opened Trees
  import opened Flattening
  import opened Rebuilding

  lemma {:induction false} OccursLeaf(t: Tree, prefix: string, p: string, v: Tree)
    requires Occurs(t, prefix, p, v)
    ensures !v.Node?
    decreases t
  {
    if t.Node? {
      var k :| k in t.fields && Occurs(t.fields[k], Key(prefix, k), p, v);
      OccursLeaf(t.fields[k], Key(prefix, k), p, v);
    }
  }

  lemma TableLeaves(reader: Reader, c: TreeContent, m: Flat)
    requires IsTableOf(reader, c, m)
    ensures Leaves(m)
  {
    forall p | p in m ensures !m[p].Node? {
      if From(c.attributes, c.attributes.Keys, "", p, m[p]) {
        var k :| k in c.attributes && Occurs(c.attributes[k], Key("", k), p, m[p]);
        OccursLeaf(c.attributes[k], Key("", k), p, m[p]);
      }
    }
  }

  // ----- tree, table, tree -----

  // Dot-free keys, no empty map, no map under an empty key, no leaf named like a field and, in SQL, no null leaf.
  ghost predicate Restorable(reader: Reader, d: Doc) {
    Tidy(d) && NoRootMap(d) && (forall q :: LeafAt(d, q).Some? ==> Rank(q) >= Limit(reader))
    && (reader == Sql ==> forall q :: LeafAt(d, q) != Some(Plain(Null)))
  }

  // MongoDB does not store the location.
  function Kept(reader: Reader, c: TreeContent): TreeContent { if reader == Sql then c else c.(location := "") }

  // The entries of the table of restorable attributes.
  lemma TableEntries(reader: Reader, c: TreeContent, m: Flat, p: string)
    requires IsTableOf(reader, c, m) && Restorable(reader, c.attributes)
    ensures LeafAt(c.attributes, p).Some? ==>
              p in m && m[p] == LeafAt(c.attributes, p).value && p !in FieldTable(reader, c)
    ensures LeafAt(c.attributes, p).None? ==>
              (p in m <==> p in FieldTable(reader, c)) && (p in m ==> m[p] == FieldTable(reader, c)[p])
  {
    var at := LeafAt(c.attributes, p);
    if at.Some? {
      FromTop(c.attributes, p, at.value);
      FromTop(c.attributes, p, m[p]);
      FieldPathRank(reader, c, p);
    } else if p in m {
      FromTop(c.attributes, p, m[p]);
    }
  }

  lemma FieldPathRank(reader: Reader, c: TreeContent, p: string)
    ensures p in FieldTable(reader, c) <==> Rank(p) < Limit(reader) && p == FieldPath(Rank(p))
    ensures p in FieldTable(reader, c) ==> FieldTable(reader, c)[p] == Field(c, Rank(p))
  {
    FieldRank(0);
    FieldRank(1);
    FieldRank(2);
    FieldRank(3);
    FieldRank(4);
    FieldRank(5);
  }

  lemma RestoredAttributes(reader: Reader, c: TreeContent, m: Flat, e: Doc)
    requires IsTableOf(reader, c, m) && Restorable(reader, c.attributes) && AttributesFrom(Free(reader, m), e)
    ensures e == c.attributes
  {
    var d, free := c.attributes, Free(reader, m);
    forall q ensures q in free <==> LeafAt(d, q).Some?
             ensures q in free ==> LeafAt(d, q) == Some(free[q]) {
      TableEntries(reader, c, m, q);
      FieldPathRank(reader, c, q);
    }
    forall p, q | p in free && q in free && Under(p, q) ensures p == q { LeavesApart(d, p, q); }
    assert PrefixFree(free);
    forall q ensures LeafAt(e, q) == LeafAt(d, q) { assert q in free || q !in free; }
    SameTree(e, d);
  }

  lemma RestoredField(reader: Reader, c: TreeContent, m: Flat, i: nat, t: Tree)
    requires IsTableOf(reader, c, m) && Restorable(reader, c.attributes) && i < Limit(reader)
        && FieldFrom(reader, m, i, t)
    ensures t == Field(c, i)
  {
    forall p | p in m && Rank(p) == i ensures m[p] == Field(c, i) {
      TableEntries(reader, c, m, p);
      FieldPathRank(reader, c, p);
    }
    var name := FieldPath(i);
    FieldRank(i);
    FieldPathRank(reader, c, name);
    TableEntries(reader, c, m, name);
    assert name in m && Rank(name) == i && Counts(reader, name, m[name]);
  }

  lemma SameFields(reader: Reader, c: TreeContent, e: TreeContent)
    requires forall i :: 0 <= i < Limit(reader) ==> Field(e, i) == Field(c, i)
    requires reader == Mongo ==> e.location == ""
    requires e.resourceType == c.resourceType && e.attributes == c.attributes
    ensures e == Kept(reader, c)
  {
    assert Field(e, 0) == Field(c, 0) && Field(e, 1) == Field(c, 1) && Field(e, 2) == Field(c, 2);
    assert Field(e, 3) == Field(c, 3) && Field(e, 4) == Field(c, 4);
    assert reader == Sql ==> Field(e, 5) == Field(c, 5);
  }

  // A map under the empty key gives a leaf whose path starts with a dot.
  lemma RootMapLeaf(d: Doc) returns (q: string)
    requires Tidy(d) && !NoRootMap(d)
    ensures LeafAt(d, q).Some? && q != "" && q[0] == '.'
  {
    var r := HasLeaf(d[""].fields);
    q := "" + "." + r;
    LeafBelow(d, "", r);
  }

  lemma FreeEntry(reader: Reader, f: Flat, p: string)
    ensures p in Free(reader, f) ==> Rank(p) >= Limit(reader) && (reader == Sql ==> Free(reader, f)[p] != Plain(Null))
  {
  }

  // Attributes rebuilt from a table without leading dots are restorable.
  lemma RebuiltIsRestorable(reader: Reader, f: Flat, d: Doc)
    requires AttributesFrom(Free(reader, f), d) && forall p :: p in Free(reader, f) && p != "" ==> p[0] != '.'
    ensures Restorable(reader, d)
  {
    forall q | LeafAt(d, q).Some?
      ensures Rank(q) >= Limit(reader) && (reader == Sql ==> LeafAt(d, q) != Some(Plain(Null)))
    {
      FreeEntry(reader, f, q);
    }
    if !NoRootMap(d) { var _ := RootMapLeaf(d); }
  }

  // No entry of the table of a tidy tree starts with a dot.
  lemma TableStart(reader: Reader, c: TreeContent, m: Flat, p: string)
    requires IsTableOf(reader, c, m) && Tidy(c.attributes) && p in m
    ensures p == "" || p[0] != '.'
  {
    if From(c.attributes, c.attributes.Keys, "", p, m[p]) {
      assert Occurs(Node(c.attributes), "", p, m[p]);
      NoLeadingDot(Node(c.attributes), p, m[p]);
    }
  }

  // Rebuilding the table of a resource gives the resource back exactly when its attributes are restorable,
  // in whatever order both passes visit their entries.
  lemma TreeRoundTrip(reader: Reader, c: TreeContent, m: Flat, e: TreeContent)
    requires IsTableOf(reader, c, m) && Rebuilds(reader, m, c.resourceType, e)
    ensures e == Kept(reader, c) <==> Restorable(reader, c.attributes)
  {
    if Restorable(reader, c.attributes) {
      RestoredAttributes(reader, c, m, e.attributes);
      forall i | 0 <= i < Limit(reader)
        ensures Field(e, i) == Field(c, i)
      {
        RestoredField(reader, c, m, i, Field(e, i));
      }
      SameFields(reader, c, e);
    }
    if e == Kept(reader, c) {
      forall p | p in m && p != "" ensures p[0] != '.' { TableStart(reader, c, m, p); }
      RebuiltIsRestorable(reader, m, c.attributes);
    }
  }

  // ----- table, tree, table -----

  // No nulls, no path that starts with a dot or lies above another, and fields spelled and typed as they are written.
  ghost predicate Regular(f: Flat) {
    PrefixFree(Free(Sql, f)) && forall p :: p in f ==>
      f[p] != Plain(Null) && (p != "" ==> p[0] != '.')
        && (Rank(p) < 6 ==> p == FieldPath(Rank(p)) && Fits(Rank(p), f[p]))
  }

  // A table with every field present, blank where f has none.
  ghost predicate FillsFields(f: Flat, m: Flat) {
    (forall p :: p in f ==> p in m && m[p] == f[p])
    && (forall p :: p in m && p !in f ==> Rank(p) < 6 && p == FieldPath(Rank(p)) && m[p] == Default(Rank(p)))
    && (forall i :: 0 <= i < 6 ==> FieldPath(i) in m)
  }

  lemma RegularIsKept(f: Flat, resourceType: string, c: TreeContent, m: Flat)
    requires Regular(f) && Rebuilds(Sql, f, resourceType, c) && IsTableOf(Sql, c, m)
    ensures FillsFields(f, m)
  {
    RebuiltIsRestorable(Sql, f, c.attributes);
    forall p | p in f ensures p in m && m[p] == f[p] { KeptEntry(f, resourceType, c, m, p); }
    forall p | p in m && p !in f ensures Rank(p) < 6 && p == FieldPath(Rank(p)) && m[p] == Default(Rank(p)) {
      TableEntries(Sql, c, m, p);
      FieldPathRank(Sql, c, p);
      if LeafAt(c.attributes, p).None? { BlankField(f, c, Rank(p)); }
    }
    forall i | 0 <= i < 6 ensures FieldPath(i) in m {
      FieldRank(i);
      FieldPathRank(Sql, c, FieldPath(i));
      TableEntries(Sql, c, m, FieldPath(i));
    }
  }

  lemma BlankField(f: Flat, c: TreeContent, i: nat)
    requires Regular(f) && FieldsFrom(Sql, f, c) && i < 6 && FieldPath(i) !in f
    ensures Field(c, i) == Default(i)
  {
    assert FieldFrom(Sql, f, i, Field(c, i));
  }

  lemma KeptEntry(f: Flat, resourceType: string, c: TreeContent, m: Flat, p: string)
    requires Regular(f) && Rebuilds(Sql, f, resourceType, c) && IsTableOf(Sql, c, m) && Restorable(Sql, c.attributes)
        && p in f
    ensures p in m && m[p] == f[p]
  {
    TableEntries(Sql, c, m, p);
    FieldPathRank(Sql, c, p);
    var i := Rank(p);
    if i < 6 {
      assert FieldFrom(Sql, f, i, Field(c, i));
      assert p == FieldPath(i);
    } else {
      assert p in Free(Sql, f);
    }
  }

  lemma KeptIsRegular(f: Flat, resourceType: string, c: TreeContent, m: Flat)
    requires Rebuilds(Sql, f, resourceType, c) && IsTableOf(Sql, c, m) && FillsFields(f, m)
    ensures Regular(f)
  {
    forall p | p in f && p != "" ensures p[0] != '.' { TableStart(Sql, c, m, p); }
    RebuiltIsRestorable(Sql, f, c.attributes);
    forall p | p in f ensures f[p] != Plain(Null) && (Rank(p) < 6 ==> p == FieldPath(Rank(p)) && Fits(Rank(p), f[p])) {
      TableEntries(Sql, c, m, p);
      FieldPathRank(Sql, c, p);
    }
    forall p, q | p in Free(Sql, f) && q in Free(Sql, f) && Under(p, q) ensures p == q {
      TableEntries(Sql, c, m, p);
      TableEntries(Sql, c, m, q);
      FieldPathRank(Sql, c, p);
      FieldPathRank(Sql, c, q);
      LeavesApart(c.attributes, p, q);
    }
  }

  // Flattening the resource rebuilt from a table gives the table back, its missing fields blank, exactly
  // when the table is regular, in whatever order both passes visit their entries.
  lemma TableRoundTrip(f: Flat, resourceType: string, c: TreeContent, m: Flat)
    requires Rebuilds(Sql, f, resourceType, c) && IsTableOf(Sql, c, m)
    ensures FillsFields(f, m) <==> Regular(f)
  {
    if Regular(f) { RegularIsKept(f, resourceType, c, m); }
    if FillsFields(f, m) { KeptIsRegular(f, resourceType, c, m); }
  }
}
