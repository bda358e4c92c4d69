// Nested maps and dotted paths. A Doc is a Go map[string]interface{} whose inner maps are Nodes; every
// other value is a leaf.
module Trees {
  import opened Text
  import opened Values
  import opened Resources

  datatype Tree = Plain(j: Json) | Instant(t: Time) | Node(fields: Doc)

  type Doc = map<string, Tree>

  // Flat form: dotted paths to leaves.
  type Flat = map<string, Tree>

  // The leaf at a dotted path, split at its first dot.
  function LeafAt(d: Doc, path: string): Option<Tree>
    decreases |path|
  {
    var dot := IndexOf(path, '.');
    if dot == -1 then (if path in d && !d[path].Node? then Some(d[path]) else None)
    else if path[..dot] in d && d[path[..dot]].Node? then LeafAt(d[path[..dot]].fields, path[dot + 1..])
    else None
  }

  function Inner(d: Doc, k: string): Doc { if k in d && d[k].Node? then d[k].fields else map[] }

  // setNested, setNestedAttr and setDotPath.
  function SetNested(d: Doc, path: string, v: Tree): Doc
    decreases |path|
  {
    var dot := IndexOf(path, '.');
    if dot == -1 then d[path := v]
    else d[path[..dot] := Node(SetNested(Inner(d, path[..dot]), path[dot + 1..], v))]
  }

  // No key holds a dot and no inner map is empty, at any depth.
  ghost predicate Tidy(d: Doc) { TidyTree(Node(d)) }

  ghost predicate TidyTree(t: Tree)
    decreases t
  {
    t.Node? ==> forall k :: k in t.fields ==>
      Lacks(k, '.') && (t.fields[k].Node? ==> t.fields[k].fields != map[] && TidyTree(t.fields[k]))
  }

  // The path is a or continues a after a dot.
  predicate Under(a: string, path: string) {
    a == path || (|a| < |path| && path[..|a|] == a && path[|a|] == '.')
  }

  ghost predicate PrefixFree(f: Flat) {
    forall p, q :: p in f && q in f && Under(p, q) ==> p == q
  }

  ghost predicate Leaves(f: Flat) { forall p :: p in f ==> !f[p].Node? }

  // ----- paths below a key -----

  lemma PathBelow(k: string, rest: string)
    requires Lacks(k, '.')
    ensures IndexOf(k + "." + rest, '.') == |k| && (k + "." + rest)[..|k|] == k && (k + "." + rest)[|k| + 1..] == rest
  {
    IndexOfSplit(k, '.', rest);
    assert k + ['.'] + rest == k + "." + rest;
  }

  lemma LeafBelow(d: Doc, k: string, rest: string)
    requires Lacks(k, '.')
    ensures LeafAt(d, k + "." + rest) == LeafAt(Inner(d, k), rest)
  {
    PathBelow(k, rest);
    if !(k in d && d[k].Node?) { NoLeaves(rest); }
  }

  lemma NoLeaves(path: string)
    ensures LeafAt(map[], path) == None
  {
  }

  lemma LeafAtKey(d: Doc, k: string)
    requires Lacks(k, '.')
    ensures LeafAt(d, k) == if k in d && !d[k].Node? then Some(d[k]) else None
  {
    assert IndexOf(k, '.') == -1;
  }

  lemma UnderBelow(k: string, a: string, b: string)
    ensures Under(k + "." + a, k + "." + b) <==> Under(a, b)
  {
    var x, y := k + "." + a, k + "." + b;
    assert x[|k| + 1..] == a && y[|k| + 1..] == b;
    if |a| < |b| {
      assert y[..|x|] == k + "." + b[..|a|] && y[|x|] == b[|a|];
      assert y[..|x|][|k| + 1..] == b[..|a|];
    }
  }

  // ----- one write -----

  // A path that no leaf of d lies above, below or at.
  ghost predicate Clear(d: Doc, path: string) {
    forall q :: LeafAt(d, q).Some? ==> !Under(path, q) && !Under(q, path)
  }

  lemma ClearBelow(d: Doc, k: string, rest: string)
    requires Lacks(k, '.') && Clear(d, k + "." + rest)
    ensures Clear(Inner(d, k), rest)
  {
    forall q | LeafAt(Inner(d, k), q).Some? ensures !Under(rest, q) && !Under(q, rest) {
      LeafBelow(d, k, q);
      UnderBelow(k, rest, q);
      UnderBelow(k, q, rest);
    }
  }

  // Splitting any path at its first dot.
  lemma PathCases(q: string)
    ensures var dot := IndexOf(q, '.');
            if dot == -1 then Lacks(q, '.') else Lacks(q[..dot], '.') && q == q[..dot] + "." + q[dot + 1..]
  {
  }

  lemma SetLeafKey(d: Doc, k: string, v: Tree, q: string)
    requires Lacks(k, '.') && !v.Node?
    ensures Clear(d, k) ==> LeafAt(d[k := v], q) == if q == k then Some(v) else LeafAt(d, q)
    ensures LeafAt(d[k := v], q).Some? ==> if q == k then LeafAt(d[k := v], q) == Some(v)
        else LeafAt(d[k := v], q) == LeafAt(d, q)
  {
    PathCases(q);
    var qdot := IndexOf(q, '.');
    if qdot == -1 {
      LeafAtKey(d, q);
      LeafAtKey(d[k := v], q);
    } else if q[..qdot] == k {
      assert Under(k, q);
    }
  }

  // The key a leaf path starts with, and what follows it.
  lemma LeafCases(d: Doc, q: string) returns (dotted: bool, k: string, r: string)
    requires LeafAt(d, q).Some?
    ensures Lacks(k, '.') && k in d && d[k].Node? == dotted
    ensures if dotted then q == k + "." + r && LeafAt(d[k].fields, r) == LeafAt(d, q)
            else q == k && LeafAt(d, q) == Some(d[k])
  {
    PathCases(q);
    var dot := IndexOf(q, '.');
    dotted := dot != -1;
    if dotted { k, r := q[..dot], q[dot + 1..]; } else { k, r := q, ""; }
  }

  // Replacing the map below a key changes the leaves below that key and the leaf at it.
  lemma SetBelowKey(d: Doc, k: string, e: Doc, q: string)
    requires Lacks(k, '.')
    ensures Lacks(q, '.') ==> LeafAt(d[k := Node(e)], q) == if q == k then None else LeafAt(d, q)
    ensures var dot := IndexOf(q, '.');
            dot >= 0 ==> LeafAt(d[k := Node(e)], q) == if q[..dot] == k then LeafAt(e, q[dot + 1..]) else LeafAt(d, q)
  {
    if Lacks(q, '.') {
      LeafAtKey(d, q);
      LeafAtKey(d[k := Node(e)], q);
    }
  }

  // A leaf at a key keeps a path through that key from being clear.
  lemma ClearKey(d: Doc, k: string, rest: string)
    requires Lacks(k, '.') && Clear(d, k + "." + rest)
    ensures LeafAt(d, k) == None
  {
    assert Under(k, k + "." + rest);
  }

  lemma SetLeafThrough(d: Doc, k: string, rest: string, v: Tree, e: Doc, q: string)
    requires Lacks(k, '.') && Clear(d, k + "." + rest)
    requires forall r :: LeafAt(e, r) == if r == rest then Some(v) else LeafAt(Inner(d, k), r)
    ensures LeafAt(d[k := Node(e)], q) == if q == k + "." + rest then Some(v) else LeafAt(d, q)
  {
    var qdot := IndexOf(q, '.');
    SetBelowKey(d, k, e, q);
    ClearKey(d, k, rest);
    PathBelow(k, rest);
    PathCases(q);
    if qdot >= 0 && q[..qdot] == k { LeafBelow(d, k, q[qdot + 1..]); }
  }

  // Writing a leaf on a clear path adds that leaf and leaves all others.
  lemma {:induction false} SetLeaf(d: Doc, path: string, v: Tree, q: string)
    requires Clear(d, path) && !v.Node?
    ensures LeafAt(SetNested(d, path, v), q) == if q == path then Some(v) else LeafAt(d, q)
    decreases |path|
  {
    var dot := IndexOf(path, '.');
    PathCases(path);
    if dot == -1 {
      SetLeafKey(d, path, v, q);
    } else {
      var k, rest := path[..dot], path[dot + 1..];
      ClearBelow(d, k, rest);
      var e := SetNested(Inner(d, k), rest, v);
      forall r
        ensures LeafAt(e, r) == if r == rest then Some(v) else LeafAt(Inner(d, k), r)
      {
        SetLeaf(Inner(d, k), rest, v, r);
      }
      SetLeafThrough(d, k, rest, v, e, q);
    }
  }

  lemma SetAddsBelow(d: Doc, k: string, rest: string, v: Tree, e: Doc, q: string)
    requires Lacks(k, '.') && LeafAt(d[k := Node(e)], q).Some?
    requires forall r :: LeafAt(e, r).Some? ==> LeafAt(e, r) == if r == rest then Some(v) else LeafAt(Inner(d, k), r)
    ensures LeafAt(d[k := Node(e)], q) == if q == k + "." + rest then Some(v) else LeafAt(d, q)
  {
    var qdot := IndexOf(q, '.');
    SetBelowKey(d, k, e, q);
    PathBelow(k, rest);
    PathCases(q);
    if qdot >= 0 && q[..qdot] == k { LeafBelow(d, k, q[qdot + 1..]); }
  }

  // Whatever was there, a write adds no leaf but its own.
  lemma {:induction false} SetAddsOne(d: Doc, path: string, v: Tree, q: string)
    requires !v.Node? && LeafAt(SetNested(d, path, v), q).Some?
    ensures LeafAt(SetNested(d, path, v), q) == if q == path then Some(v) else LeafAt(d, q)
    decreases |path|
  {
    var dot := IndexOf(path, '.');
    PathCases(path);
    if dot == -1 {
      SetLeafKey(d, path, v, q);
    } else {
      var k, rest := path[..dot], path[dot + 1..];
      var e := SetNested(Inner(d, k), rest, v);
      forall r | LeafAt(e, r).Some? ensures LeafAt(e, r) == if r == rest then Some(v) else LeafAt(Inner(d, k), r) {
        SetAddsOne(Inner(d, k), rest, v, r);
      }
      SetAddsBelow(d, k, rest, v, e, q);
    }
  }

  lemma {:induction false} SetTidy(d: Doc, path: string, v: Tree)
    requires Tidy(d) && !v.Node?
    ensures Tidy(SetNested(d, path, v)) && SetNested(d, path, v) != map[]
    decreases |path|
  {
    PathCases(path);
    var dot := IndexOf(path, '.');
    if dot == -1 {
      assert path in SetNested(d, path, v);
    } else {
      var k := path[..dot];
      SetTidy(Inner(d, k), path[dot + 1..], v);
      assert k in SetNested(d, path, v);
    }
  }

  // ----- the leaves determine a tidy tree -----

  lemma {:induction false} HasLeaf(d: Doc) returns (q: string)
    requires Tidy(d) && d != map[]
    ensures LeafAt(d, q).Some?
    decreases Node(d)
  {
    var k :| k in d;
    if d[k].Node? {
      var r := HasLeaf(d[k].fields);
      q := k + "." + r;
      LeafBelow(d, k, r);
    } else {
      q := k;
      LeafAtKey(d, k);
    }
  }

  ghost predicate SameLeaves(d: Doc, e: Doc) { forall q :: LeafAt(d, q) == LeafAt(e, q) }

  lemma SameLeavesBelow(d: Doc, e: Doc, k: string)
    requires SameLeaves(d, e) && Lacks(k, '.')
    ensures SameLeaves(Inner(d, k), Inner(e, k))
  {
    forall q ensures LeafAt(Inner(d, k), q) == LeafAt(Inner(e, k), q) {
      LeafBelow(d, k, q);
      LeafBelow(e, k, q);
    }
  }

  // A key of one tree is a key of the other, with a node exactly where the other has one.
  lemma SameKey(d: Doc, e: Doc, k: string)
    requires Tidy(d) && Tidy(e) && SameLeaves(d, e) && k in d
    ensures k in e && (if d[k].Node? then e[k].Node? else e[k] == d[k])
  {
    LeafAtKey(d, k);
    LeafAtKey(e, k);
    if d[k].Node? {
      var q := HasLeaf(d[k].fields);
      LeafBelow(d, k, q);
      LeafBelow(e, k, q);
      if !(k in e && e[k].Node?) { NoLeaves(q); }
    }
  }

  lemma {:induction false} SameTree(d: Doc, e: Doc)
    requires Tidy(d) && Tidy(e) && SameLeaves(d, e)
    ensures d == e
    decreases Node(d)
  {
    forall k | k in d ensures k in e && d[k] == e[k] {
      SameKey(d, e, k);
      if d[k].Node? {
        SameLeavesBelow(d, e, k);
        SameTree(d[k].fields, e[k].fields);
      }
    }
    forall k | k in e ensures k in d { SameKey(e, d, k); }
  }

  lemma UnderPrefix(p: string, q: string)
    requires Under(p, q) && p != q
    ensures |p| < |q| && q[|p|] == '.' && forall i :: 0 <= i < |p| ==> q[i] == p[i]
  {
    assert forall i :: 0 <= i < |p| ==> q[i] == q[..|p|][i];
  }

  lemma UnderAfter(p: string, q: string, n: nat)
    requires |p| < |q| && q[|p|] == '.' && (forall i :: 0 <= i < |p| ==> q[i] == p[i]) && n <= |p|
    ensures q[..n] == p[..n] && Under(p[n..], q[n..])
  {
    assert q[n..][..|p| - n] == p[n..];
  }

  // A path that continues another has its first dot where the other has it, or where the other ends.
  lemma UnderNoDot(p: string, q: string)
    requires Under(p, q) && p != q && Lacks(p, '.')
    ensures IndexOf(q, '.') == |p| && q[..|p|] == p
  {
    UnderPrefix(p, q);
    IndexAt(q, '.', |p|);
  }

  lemma UnderDot(p: string, q: string, dot: nat)
    requires Under(p, q) && p != q && dot < |p| && p[dot] == '.' && forall i :: 0 <= i < dot ==> p[i] != '.'
    ensures IndexOf(q, '.') == dot && dot < |q| && q[..dot] == p[..dot] && Under(p[dot + 1..], q[dot + 1..])
  {
    UnderPrefix(p, q);
    IndexAt(q, '.', dot);
    UnderAfter(p, q, dot);
    UnderAfter(p, q, dot + 1);
  }

  // The flat form of a tree is prefix-free.
  lemma {:induction false} LeavesApart(d: Doc, p: string, q: string)
    requires LeafAt(d, p).Some? && LeafAt(d, q).Some? && Under(p, q)
    ensures p == q
    decreases |p|
  {
    if p != q {
      var dot := IndexOf(p, '.');
      if dot == -1 {
        UnderNoDot(p, q);
      } else {
        UnderDot(p, q, dot);
        PathCases(p);
        PathCases(q);
        LeavesApart(Inner(d, p[..dot]), p[dot + 1..], q[dot + 1..]);
      }
    }
  }
}
