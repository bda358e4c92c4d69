// Flattening nested maps into a table of dotted paths.
module Flattening {
  import opened Text
  import opened Trees

  // The path of a key below a prefix; the empty prefix adds nothing.
  function Key(prefix: string, k: string): string { if prefix == "" then k else prefix + "." + k }

  // Walking t from a prefix meets leaf v at path p. Keys may hold dots, so several leaves may meet at one path.
  ghost predicate Occurs(t: Tree, prefix: string, p: string, v: Tree)
    decreases t
  {
    if t.Node? then exists k :: k in t.fields && Occurs(t.fields[k], Key(prefix, k), p, v) else p == prefix && v == t
  }

  ghost predicate From(d: Doc, keys: set<string>, prefix: string, p: string, v: Tree) {
    exists k :: k in keys && k in d && Occurs(d[k], Key(prefix, k), p, v)
  }

  // The table has taken in the leaves under the given keys of d and is otherwise as before.
  ghost predicate Gains(before: Flat, after: Flat, d: Doc, keys: set<string>, prefix: string) {
    && (forall p, v :: From(d, keys, prefix, p, v) ==> p in after && From(d, keys, prefix, p, after[p]))
    && (forall p :: p in before ==> p in after)
    && (forall p :: p in after && !From(d, keys, prefix, p, after[p]) ==> p in before && after[p] == before[p])
  }

  lemma GainsNode(before: Flat, middle: Flat, after: Flat, d: Doc, keys: set<string>, k: string, prefix: string)
    requires Gains(before, middle, d, keys, prefix) && k in d && d[k].Node?
    requires Gains(middle, after, d[k].fields, d[k].fields.Keys, Key(prefix, k))
    ensures Gains(before, after, d, keys + {k}, prefix)
  {
    var sub := d[k].fields;
    forall p, v | From(sub, sub.Keys, Key(prefix, k), p, v) ensures From(d, keys + {k}, prefix, p, v) {
      assert Occurs(d[k], Key(prefix, k), p, v);
    }
    forall p, v | From(d, keys, prefix, p, v) ensures From(d, keys + {k}, prefix, p, v) {
    }
    forall p, v | From(d, keys + {k}, prefix, p, v) ensures p in after && From(d, keys + {k}, prefix, p, after[p]) {
      var l :| l in keys + {k} && l in d && Occurs(d[l], Key(prefix, l), p, v);
      if l in keys { assert From(d, keys, prefix, p, v); } else { assert From(sub, sub.Keys, Key(prefix, k), p, v); }
    }
  }

  lemma GainsLeaf(before: Flat, middle: Flat, d: Doc, keys: set<string>, k: string, prefix: string)
    requires Gains(before, middle, d, keys, prefix) && k in d && !d[k].Node?
    ensures Gains(before, middle[Key(prefix, k) := d[k]], d, keys + {k}, prefix)
  {
    var after := middle[Key(prefix, k) := d[k]];
    assert From(d, keys + {k}, prefix, Key(prefix, k), d[k]) by {
      assert Occurs(d[k], Key(prefix, k), Key(prefix, k), d[k]);
    }
    forall p, v | From(d, keys, prefix, p, v) ensures From(d, keys + {k}, prefix, p, v) {
    }
    forall p, v | From(d, keys + {k}, prefix, p, v) ensures p in after && From(d, keys + {k}, prefix, p, after[p]) {
      var l :| l in keys + {k} && l in d && Occurs(d[l], Key(prefix, l), p, v);
      if l in keys { assert From(d, keys, prefix, p, v); }
    }
  }

  class FlatTable {
    var entries: Flat

    constructor (f: Flat)
      ensures entries == f
    {
      entries := f;
    }

    // Takes in every leaf of attrs, the keys of each map visited in any order.
    method FlattenInto(attrs: Doc, prefix: string)
      modifies this
      ensures Gains(old(entries), entries, attrs, attrs.Keys, prefix)
      decreases Node(attrs)
    {
      var rest := attrs.Keys;
      while rest != {}
        invariant rest <= attrs.Keys
        invariant Gains(old(entries), entries, attrs, attrs.Keys - rest, prefix)
        decreases rest
      {
        var k :| k in rest;
        ghost var done, middle := attrs.Keys - rest, entries;
        var key := if prefix != "" then prefix + "." + k else k;
        if attrs[k].Node? {
          FlattenInto(attrs[k].fields, key);
          GainsNode(old(entries), middle, entries, attrs, done, k, prefix);
        } else {
          entries := entries[key := attrs[k]];
          GainsLeaf(old(entries), middle, attrs, done, k, prefix);
        }
        rest := rest - {k};
        assert attrs.Keys - rest == done + {k};
      }
      assert attrs.Keys - rest == attrs.Keys;
    }
  }

  // ----- trees without dots in their keys -----

  lemma JoinPath(a: string, k: string, q: string)
    ensures a + "." + k + "." + q == a + "." + (k + "." + q)
  {
  }

  // Below a non-empty prefix, and from the top of a map with no map under the empty key, the paths met are
  // exactly the leaf paths.
  lemma {:induction false} OccursBelow(t: Tree, prefix: string, p: string, v: Tree)
    requires t.Node? && TidyTree(t) && prefix != "" && Occurs(t, prefix, p, v)
    ensures exists q :: p == prefix + "." + q && LeafAt(t.fields, q) == Some(v)
    decreases t
  {
    var k :| k in t.fields && Occurs(t.fields[k], Key(prefix, k), p, v);
    if t.fields[k].Node? {
      OccursBelow(t.fields[k], prefix + "." + k, p, v);
      var r :| p == prefix + "." + k + "." + r && LeafAt(t.fields[k].fields, r) == Some(v);
      JoinPath(prefix, k, r);
      LeafBelow(t.fields, k, r);
      assert p == prefix + "." + (k + "." + r);
    } else {
      LeafAtKey(t.fields, k);
      assert p == prefix + "." + k;
    }
  }

  lemma OccursStep(t: Tree, prefix: string, k: string, r: string, v: Tree)
    requires t.Node? && prefix != "" && k in t.fields
        && Occurs(t.fields[k], prefix + "." + k, prefix + "." + k + "." + r, v)
    ensures Occurs(t, prefix, prefix + "." + (k + "." + r), v)
  {
    JoinPath(prefix, k, r);
    assert Occurs(t.fields[k], Key(prefix, k), prefix + "." + (k + "." + r), v);
  }

  lemma {:induction false} LeafOccursBelow(t: Tree, prefix: string, q: string, v: Tree)
    requires t.Node? && prefix != "" && LeafAt(t.fields, q) == Some(v)
    ensures Occurs(t, prefix, prefix + "." + q, v)
    decreases t
  {
    var dotted, k, r := LeafCases(t.fields, q);
    if dotted {
      LeafOccursBelow(t.fields[k], prefix + "." + k, r, v);
      OccursStep(t, prefix, k, r, v);
    } else {
      assert Occurs(t.fields[k], Key(prefix, k), prefix + "." + k, v);
    }
  }

  ghost predicate NoRootMap(d: Doc) { "" in d ==> !d[""].Node? }

  lemma FromTopIsLeaf(d: Doc, k: string, p: string, v: Tree)
    requires Tidy(d) && NoRootMap(d) && k in d && Occurs(d[k], Key("", k), p, v)
    ensures LeafAt(d, p) == Some(v)
  {
    if d[k].Node? {
      OccursBelow(d[k], k, p, v);
      var q :| p == k + "." + q && LeafAt(d[k].fields, q) == Some(v);
      LeafBelow(d, k, q);
    } else {
      LeafAtKey(d, k);
    }
  }

  lemma LeafIsFromTop(d: Doc, p: string, v: Tree) returns (k: string)
    requires NoRootMap(d) && LeafAt(d, p) == Some(v)
    ensures k in d && Occurs(d[k], Key("", k), p, v)
  {
    var dotted, r;
    dotted, k, r := LeafCases(d, p);
    if dotted { LeafOccursBelow(d[k], k, r, v); }
  }

  lemma FromTop(d: Doc, p: string, v: Tree)
    requires Tidy(d) && NoRootMap(d)
    ensures From(d, d.Keys, "", p, v) <==> LeafAt(d, p) == Some(v)
  {
    if From(d, d.Keys, "", p, v) {
      var k :| k in d && Occurs(d[k], Key("", k), p, v);
      FromTopIsLeaf(d, k, p, v);
    }
    if LeafAt(d, p) == Some(v) { var k := LeafIsFromTop(d, p, v); }
  }

  // Whatever lies under empty keys, no path met starts with a dot.
  lemma {:induction false} NoLeadingDot(t: Tree, p: string, v: Tree)
    requires t.Node? && TidyTree(t) && Occurs(t, "", p, v)
    ensures p == "" || p[0] != '.'
    decreases t
  {
    var k :| k in t.fields && Occurs(t.fields[k], Key("", k), p, v);
    if t.fields[k].Node? {
      if k == "" {
        NoLeadingDot(t.fields[k], p, v);
      } else {
        OccursBelow(t.fields[k], k, p, v);
        assert p[0] == k[0];
      }
    }
  }
}
