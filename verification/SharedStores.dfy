// A store of attribute maps on the heap: what a request publishes is never written again, as long as each
// request brings values of which no published resource holds a map or a backing array; and what happens
// when a value is used twice.
module SharedStores {
  import opened Text
  import opened Values
  import Patches
  import opened SharedNodes
  import opened SharedPatches

  ghost predicate NoSuchName(j: Object, name: string) { forall k :: k in j ==> !EqualFold(k, name) }

  twostate predicate SameBut(region: set<Node>, values: set<Node>)
    reads region
  {
    forall n :: n in region && n !in values ==> Same(n)
  }

  ghost predicate ClosedBut(region: set<Node>, values: set<Node>)
    reads region
  {
    forall n :: n in region && n !in values ==> Fits(n, region)
  }

  // The two kinds of request that write a value of their own, on attributes without that name.
  ghost predicate WillAdd(j: Object, ops: seq<NodeOp>) { AddsTwice(ops) && NoSuchName(j, Name(ops)) }

  ghost predicate WillReplace(j: Object, ops: seq<NodeOp>)
    reads if AddsThenReplaces(ops) then {ops[0].value.node} else {}
  {
    AddsThenReplaces(ops) && NoSuchName(j, Name(ops)) && Sole(ops[0].value.node, ops[1].path.value.attribute.sub)
  }

  ghost predicate HasEntry(m: Node, name: string, v: Val)
    reads m
  {
    name in m.entries && m.entries[name] == v
  }

  // The operations on a decoded copy of the attributes: new nodes and those of the values.
  method PatchedClone(j: Object, ops: seq<NodeOp>, ghost values: set<Node>)
    returns (clone: Node, ok: bool, ghost more: set<Node>)
    requires Closed(values) && ValuesIn(ops, values)
    modifies values
    ensures clone in more && fresh(clone) && values <= more && fresh(more - values) && Closed(more)
    ensures WillAdd(j, ops) ==>
              ok && WritesSlot(ops) && HasEntry(clone, Name(ops), List(ops[0].value.cells, ops[0].value.len + 1))
    ensures old(WillReplace(j, ops)) ==> ok && WritesEntry(ops) && HasEntry(clone, Name(ops), ops[0].value)
  {
    var v, region := Decode(Obj(j));
    ghost var reach := region + values;
    ClosedUnion(region, values);
    ValuesInMore(ops, values, reach);
    clone := v.node;
    ok, more := SharedPatches.ApplyOps(clone, ops, reach);
  }

  class NodeStore {
    var published: map<string, Node>

    // All nodes of everything published so far, replaced versions too: a list request may still hold these.
    ghost var held: set<Node>

    ghost predicate Valid()
      reads this, held
    {
      Closed(held) && forall id :: id in published ==> published[id] in held
    }

    constructor ()
      ensures Valid() && published == map[] && held == {}
    {
      published, held := map[], {};
    }

    // Of what was held before, only the given nodes have changed, and all of it is still held.
    twostate predicate ChangedAtMost(values: set<Node>)
      reads this, held
    {
      old(held) <= held && SameBut(old(held), values)
    }

    // Create and Replace publish a decoded copy.
    method Put(id: string, j: Object)
      requires Valid()
      modifies this
      ensures Valid() && ChangedAtMost({}) && published.Keys == old(published).Keys + {id}
      ensures forall k :: k in published && k != id ==> published[k] == old(published[k])
      ensures Shows(Map(published[id]), Obj(j), held) && fresh(held - old(held)) && fresh(published[id])
    {
      var v, region := Decode(Obj(j));
      ghost var before := held;
      ClosedUnion(held, region);
      held := held + region;
      ShowsMore(v, Obj(j), region, held);
      published := published[id := v.node];
      forall k | k in published ensures published[k] in held { assert k == id || published[k] in before; }
    }

    // Patch works on a decoded copy of what the resource shows and publishes it. The values of the request
    // may be written and become part of the resource; of the nodes held before, no others are written. Two
    // kinds of request do write a value.
    method Patch(id: string, j: Object, ops: seq<NodeOp>, ghost values: set<Node>) returns (ok: bool)
      requires Valid() && id in published && Shows(Map(published[id]), Obj(j), held)
      requires Closed(values) && ValuesIn(ops, values)
      modifies this, values
      ensures Valid() && ChangedAtMost(values)
      ensures published.Keys == old(published).Keys
      ensures forall k :: k in published && k != id ==> published[k] == old(published[k])
      ensures fresh(held - old(held) - values)
      ensures if ok then fresh(published[id]) else published == old(published)
      ensures !ok && values !! old(held) ==> held == old(held)
      ensures WillAdd(j, ops) ==>
                ok && WritesSlot(ops)
                && HasEntry(published[id], Name(ops), List(ops[0].value.cells, ops[0].value.len + 1))
      ensures old(WillReplace(j, ops)) ==> ok && WritesEntry(ops) && HasEntry(published[id], Name(ops), ops[0].value)
    {
      var clone;
      ghost var more;
      clone, ok, more := PatchedClone(j, ops, values);
      StillClosed(held, values, more);
      if ok || !(values !! held) { held := held + more; }
      if !ok { return; }
      published := published[id := clone];
    }
  }

  // Nodes outside the values still fit, and the others are in a closed region.
  lemma StillClosed(held: set<Node>, values: set<Node>, more: set<Node>)
    requires ClosedBut(held, values) && values <= more && Closed(more)
    ensures Closed(held + more)
    ensures values !! held ==> Closed(held)
  {
    forall n | n in held + more ensures Fits(n, held + more) {
      if n in more { assert Fits(n, more); } else { assert Fits(n, held); }
    }
    if values !! held {
      forall n | n in held ensures Fits(n, held) { assert n !in values; }
    }
  }

  // A published resource without attributes.
  ghost predicate Empty(store: NodeStore, id: string)
    reads store, store.held
  {
    id in store.published && store.published[id] in store.held && store.published[id].entries == map[]
  }

  method TwoEmpty() returns (store: NodeStore)
    ensures fresh(store) && fresh(store.held) && store.Valid() && Empty(store, "u1") && Empty(store, "u2")
    ensures store.published["u1"] != store.published["u2"]
  {
    store := new NodeStore();
    store.Put("u1", map[]);
    store.Put("u2", map[]);
  }

  // When no published resource holds a node of the values, a request leaves every node held before as it
  // was. Without this there are requests that write such a node. First, for every list with room in its
  // array, which json.Unmarshal leaves after three elements: a request that adds it to a resource without
  // attributes and then adds another value to it.
  method AddShared(store: NodeStore, id: string, shared: Val, x: Json)
    requires store.Valid() && Empty(store, id)
    requires shared.List? && Fits(shared.cells, {}) && shared.len < shared.cells.capacity && !x.Arr?
    modifies store, shared.cells
    ensures store.Valid() && store.ChangedAtMost({shared.cells})
    ensures store.published.Keys == old(store.published).Keys
    ensures forall k :: k in store.published && k != id ==> store.published[k] == old(store.published[k])
    ensures HasEntry(store.published[id], "foo", List(shared.cells, shared.len + 1))
    ensures shared.len < |old(shared.cells.slots)|
    ensures shared.cells.slots == old(shared.cells.slots)[shared.len := Atom(x)]
    ensures shared.cells.entries == old(shared.cells.entries)
  {
    var foo := Some(Whole("foo"));
    var ops := [NodeOp(Patches.Add, foo, shared), NodeOp(Patches.Add, foo, Atom(x))];
    assert Fits(shared.cells, {shared.cells});
    var _ := store.Patch(id, map[], ops, {shared.cells});
  }

  // The element that the second resource gets replaces the one that the first shows.
  method SharedSliceIsOverwritten() returns (before: Val, after: Val)
    ensures before == Atom(Str("x")) && after == Atom(Str("y"))
  {
    var cells := new Node.Slots([Atom(Str("1")), Atom(Str("2")), Atom(Str("3")), NOTHING]);
    var store := TwoEmpty();
    AddShared(store, "u1", List(cells, 3), Str("x"));
    var first := store.published["u1"].entries["foo"];
    before := first.cells.slots[3];
    AddShared(store, "u2", List(cells, 3), Str("y"));
    after := first.cells.slots[3];
  }

  // Second, for every map: a request that adds it to a resource without attributes and then replaces a
  // sub-attribute of it.
  method ReplaceShared(store: NodeStore, id: string, shared: Node, x: Json)
    requires store.Valid() && Empty(store, id)
    requires Fits(shared, {}) && Sole(shared, "items")
    modifies store, shared
    ensures store.Valid() && store.ChangedAtMost({shared})
    ensures store.published.Keys == old(store.published).Keys
    ensures forall k :: k in store.published && k != id ==> store.published[k] == old(store.published[k])
    ensures HasEntry(store.published[id], "foo", Map(shared))
    ensures shared.entries == old(shared.entries)["items" := Atom(x)]
  {
    var ops := [
      NodeOp(Patches.Add, Some(Whole("foo")), Map(shared)),
      NodeOp(Patches.Replace, Some(Sub("foo", "items")), Atom(x))
    ];
    assert Fits(shared, {shared});
    var _ := store.Patch(id, map[], ops, {shared});
  }

  // The sub-attribute replaced in the second resource changes in the first.
  method SharedValueIsWritten() returns (before: Val, after: Val)
    ensures before == Atom(Str("x")) && after == Atom(Str("y"))
  {
    var shared := new Node(map["items" := Atom(Str("1"))]);
    var store := TwoEmpty();
    ReplaceShared(store, "u1", shared, Str("x"));
    var first := store.published["u1"].entries["foo"];
    before := first.node.entries["items"];
    ReplaceShared(store, "u2", shared, Str("y"));
    after := first.node.entries["items"];
  }
}
