// The maps and slices inside resources as Go holds them: nodes on the heap that values can share. A map is a
// node with entries; a slice is a length over a node with slots, the backing array. Patching writes into
// nodes in place: into maps, and by append into the slots past the length of a slice. A published resource
// stays as it is because the nodes written are those of the clone and of the values in the request, and as
// long as no published resource holds any of these.
//
// Which elements a filter accepts does not matter for what is written, so the verdict is any. How much room
// a new backing array has beyond its elements is any, too.
module SharedNodes {
  import opened Text
  import opened Values
  import opened Paths
  import opened PatchPaths
  import opened Patches

  datatype Val = Atom(j: Json) | Map(node: Node) | List(cells: Node, len: nat)

  const NOTHING := Atom(Null)

  class Node {
    const capacity: nat
    var entries: map<string, Val>
    var slots: seq<Val>

    constructor (entries: map<string, Val>)
      ensures this.entries == entries && slots == [] && capacity == 0
    {
      this.entries, slots, capacity := entries, [], 0;
    }

    constructor Slots(slots: seq<Val>)
      ensures entries == map[] && this.slots == slots && capacity == |slots|
    {
      entries, this.slots, capacity := map[], slots, |slots|;
    }
  }

  // ----- regions -----

  // The node a value holds is in the region.
  ghost predicate In(v: Val, region: set<Node>) {
    match v
    case Atom(_) => true
    case Map(node) => node in region
    case List(cells, len) => cells in region && len <= cells.capacity
  }

  ghost predicate AllIn(vs: seq<Val>, region: set<Node>) { forall i :: 0 <= i < |vs| ==> In(vs[i], region) }

  // The node is as large as it was made and holds no node outside the region.
  ghost predicate Fits(n: Node, region: set<Node>)
    reads n
  {
    |n.slots| == n.capacity && AllIn(n.slots, region) && forall k :: k in n.entries ==> In(n.entries[k], region)
  }

  ghost predicate Closed(region: set<Node>)
    reads region
  {
    forall n :: n in region ==> Fits(n, region)
  }

  // Closed regions together are closed.
  lemma ClosedUnion(a: set<Node>, b: set<Node>)
    requires Closed(a) && Closed(b)
    ensures Closed(a + b)
  {
    forall n | n in a + b ensures Fits(n, a + b) { assert if n in a then Fits(n, a) else Fits(n, b); }
  }

  lemma ClosedWith(region: set<Node>, n: Node)
    requires Closed(region) && Fits(n, region)
    ensures Closed(region + {n})
  {
    forall m | m in region + {n} ensures Fits(m, region + {n}) { assert Fits(m, region); }
  }

  // The region after a write: it may have gained new nodes.
  twostate predicate Grown(region: set<Node>, new more: set<Node>)
    reads more
  {
    region <= more && fresh(more - region) && Closed(more)
  }

  // ----- decoding: a clone shares nothing -----

  // The nodes below v hold the JSON value j.
  ghost predicate Shows(v: Val, j: Json, region: set<Node>)
    reads region
    decreases j
  {
    match j
    case Obj(m) =>
      v.Map? && v.node in region && v.node.entries.Keys == m.Keys
      && forall k :: k in m ==> Shows(v.node.entries[k], m[k], region)
    case Arr(items) =>
      v.List? && v.cells in region && v.len == |items| <= |v.cells.slots|
      && forall i :: 0 <= i < |items| ==> Shows(v.cells.slots[i], items[i], region)
    case _ => v == Atom(j)
  }

  lemma {:induction false} ShowsMore(v: Val, j: Json, region: set<Node>, more: set<Node>)
    requires Shows(v, j, region) && region <= more
    ensures Shows(v, j, more)
    decreases j
  {
    match j
    case Obj(m) =>
      forall k | k in m ensures Shows(v.node.entries[k], m[k], more) {
        ShowsMore(v.node.entries[k], m[k], region, more);
      }
    case Arr(items) =>
      forall i | 0 <= i < |items| ensures Shows(v.cells.slots[i], items[i], more) {
        ShowsMore(v.cells.slots[i], items[i], region, more);
      }
    case _ =>
  }

  // json.Unmarshal: all nodes are new.
  method Decode(j: Json) returns (v: Val, ghost region: set<Node>)
    ensures fresh(region) && Closed(region) && In(v, region) && Shows(v, j, region)
    decreases j
  {
    match j
    case Obj(m) => v, region := DecodeFields(j, m);
    case Arr(items) => v, region := DecodeItems(j, items);
    case _ => v, region := Atom(j), {};
  }

  // More room at the end of a backing array.
  method Room() returns (room: seq<Val>)
    ensures forall i :: 0 <= i < |room| ==> room[i] == NOTHING
  {
    var n: nat :| n >= 0;
    room := seq(n, i => NOTHING);
  }

  method DecodeItems(j: Json, items: seq<Json>) returns (v: Val, ghost region: set<Node>)
    requires j == Arr(items)
    ensures fresh(region) && Closed(region) && In(v, region) && Shows(v, j, region)
    decreases j, 0
  {
    var vs := [];
    region := {};
    for i := 0 to |items|
      invariant fresh(region) && Closed(region) && |vs| == i
      invariant AllIn(vs, region) && forall k :: 0 <= k < i ==> Shows(vs[k], items[k], region)
    {
      var w, r := Decode(items[i]);
      ghost var before := region;
      region := region + r;
      ClosedUnion(before, r);
      forall k | 0 <= k < i ensures Shows(vs[k], items[k], region) { ShowsMore(vs[k], items[k], before, region); }
      ShowsMore(w, items[i], r, region);
      vs := vs + [w];
    }
    var room := Room();
    var n := new Node.Slots(vs + room);
    ghost var below := region;
    region := region + {n};
    ClosedWith(below, n);
    forall i | 0 <= i < |items| ensures Shows(n.slots[i], items[i], region) {
      ShowsMore(vs[i], items[i], below, region);
    }
    v := List(n, |vs|);
  }

  method DecodeFields(j: Json, m: Object) returns (v: Val, ghost region: set<Node>)
    requires j == Obj(m)
    ensures fresh(region) && Closed(region) && In(v, region) && Shows(v, j, region)
    decreases j, 0
  {
    var entries: map<string, Val> := map[];
    region := {};
    var rest := m.Keys;
    while rest != {}
      invariant rest <= m.Keys && entries.Keys == m.Keys - rest
      invariant fresh(region) && Closed(region)
      invariant forall k :: k in entries ==> In(entries[k], region) && Shows(entries[k], m[k], region)
      decreases rest
    {
      var k :| k in rest;
      var w, r := Decode(m[k]);
      ghost var before := region;
      region := region + r;
      ClosedUnion(before, r);
      forall l | l in entries ensures In(entries[l], region) && Shows(entries[l], m[l], region) {
        ShowsMore(entries[l], m[l], before, region);
      }
      ShowsMore(w, m[k], r, region);
      entries := entries[k := w];
      rest := rest - {k};
    }
    var n := new Node(entries);
    ghost var below := region;
    region := region + {n};
    ClosedWith(below, n);
    forall k | k in m ensures Shows(n.entries[k], m[k], region) { ShowsMore(n.entries[k], m[k], below, region); }
    v := Map(n);
  }

  // ----- what a single write changes -----

  twostate predicate Same(n: Node)
    reads n
  {
    n.entries == old(n.entries) && n.slots == old(n.slots)
  }

  // In the region the node gets one entry, and nothing else changes.
  twostate predicate Enters(m: Node, name: string, v: Val, region: set<Node>)
    reads m, region
  {
    m.entries == old(m.entries)[name := v] && m.slots == old(m.slots) && forall n :: n in region && n != m ==> Same(n)
  }

  // No other key of the map has the same letters.
  ghost predicate Sole(m: Node, name: string)
    reads m
  {
    forall k :: k in m.entries && EqualFold(k, name) ==> k == name
  }

  // ----- access by name -----

  method LookupAttr(m: Node, name: string) returns (v: Val)
    ensures v == NOTHING || exists k :: k in m.entries && v == m.entries[k]
    ensures Sole(m, name) ==> v == if name in m.entries then m.entries[name] else NOTHING
  {
    if name in m.entries { return m.entries[name]; }
    var rest := m.entries.Keys;
    while rest != {}
      invariant rest <= m.entries.Keys
      decreases rest
    {
      var k :| k in rest;
      if EqualFold(k, name) { return m.entries[k]; }
      rest := rest - {k};
    }
    v := NOTHING;
  }

  // One entry is written, under some key of that name or under the name itself.
  method SetAttr(m: Node, name: string, v: Val, ghost region: set<Node>)
    requires m in region && Closed(region) && In(v, region)
    modifies m
    ensures Closed(region)
    ensures exists k :: EqualFold(k, name) && Enters(m, k, v, region)
    ensures old(Sole(m, name)) ==> Enters(m, name, v, region)
  {
    var rest := m.entries.Keys;
    while rest != {}
      invariant rest <= m.entries.Keys && Same(m)
      decreases rest
    {
      var k :| k in rest;
      if EqualFold(k, name) {
        WriteEntry(m, k, v, region);
        return;
      }
      rest := rest - {k};
    }
    assert EqualFold(name, name);
    WriteEntry(m, name, v, region);
  }

  method WriteEntry(m: Node, k: string, v: Val, ghost region: set<Node>)
    requires m in region && Closed(region) && In(v, region)
    modifies m
    ensures Closed(region) && Enters(m, k, v, region)
  {
    assert Fits(m, region);
    m.entries := m.entries[k := v];
    assert Fits(m, region);
  }

  method DeleteAttr(m: Node, name: string, ghost region: set<Node>)
    requires m in region && Closed(region)
    modifies m
    ensures Closed(region)
  {
    assert Fits(m, region);
    var rest := m.entries.Keys;
    while rest != {}
      invariant rest <= m.entries.Keys && Same(m)
      decreases rest
    {
      var k :| k in rest;
      if EqualFold(k, name) {
        m.entries := m.entries - {k};
        assert Fits(m, region);
        return;
      }
      rest := rest - {k};
    }
  }

  // ----- slices -----

  // The elements a slice shows.
  function SliceElements(v: Val): seq<Val>
    requires v.List? && v.len <= |v.cells.slots|
    reads if v.List? then {v.cells} else {}
  {
    v.cells.slots[..v.len]
  }

  lemma InSlots(v: Val, region: set<Node>)
    requires Closed(region) && In(v, region) && v.List?
    ensures v.len <= |v.cells.slots| && AllIn(SliceElements(v), region)
  {
    assert Fits(v.cells, region);
  }

  method WriteSlot(n: Node, i: nat, v: Val, ghost region: set<Node>)
    requires n in region && Closed(region) && In(v, region) && i < n.capacity && |n.slots| == n.capacity
    modifies n
    ensures Closed(region) && n.slots == old(n.slots)[i := v] && n.entries == old(n.entries)
  {
    assert Fits(n, region);
    n.slots := n.slots[i := v];
    assert Fits(n, region);
  }

  // append: in place when the backing array has room, otherwise into a new one. What lies past the length
  // of the slice is overwritten even when another slice over the same array shows it.
  method Append(s: Val, items: seq<Val>, ghost region: set<Node>) returns (r: Val, ghost more: set<Node>)
    requires Closed(region) && s.List? && In(s, region) && AllIn(items, region)
    modifies if s.List? then {s.cells} else {}
    ensures Grown(region, more) && In(r, more) && r.List? && r.len == s.len + |items|
    ensures s.cells.entries == old(s.cells.entries)
    ensures s.len + |items| <= s.cells.capacity ==>
              r.cells == s.cells && more == region && s.cells.slots[s.len..r.len] == items
              && s.cells.slots[..s.len] == old(s.cells.slots)[..s.len]
              && s.cells.slots[r.len..] == old(s.cells.slots)[r.len..]
  {
    InSlots(s, region);
    assert Fits(s.cells, region);
    var n := s.len + |items|;
    if n <= s.cells.capacity {
      s.cells.slots := s.cells.slots[..s.len] + items + s.cells.slots[n..];
      assert Fits(s.cells, region);
      r, more := List(s.cells, n), region;
    } else {
      var room := Room();
      var copy := new Node.Slots(SliceElements(s) + items + room);
      more := region + {copy};
      ClosedWith(region, copy);
      r := List(copy, n);
    }
  }

  // getMultiValued: a slice over a new array, of the elements or of the single value.
  method CopyValues(v: Val, ghost region: set<Node>) returns (s: Val, ghost more: set<Node>)
    requires Closed(region) && In(v, region)
    ensures Grown(region, more) && In(s, more) && s.List? && fresh(s.cells)
  {
    var items := [v];
    if v.List? {
      InSlots(v, region);
      items := SliceElements(v);
    }
    var copy := new Node.Slots(items);
    more := region + {copy};
    ClosedWith(region, copy);
    s := List(copy, |items|);
  }
}
