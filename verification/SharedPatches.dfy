// The patch engine on nodes: access by path, the loops over elements and the operations, with the nodes each
// of them may write.
module SharedPatches {
  import opened Text
  import opened Paths
  import opened PatchPaths
  import opened Patches
  import opened SharedNodes

  // ----- access by path -----

  method Get(attrs: Node, p: AttributePath, ghost region: set<Node>) returns (v: Val)
    requires attrs in region && Closed(region)
    ensures In(v, region)
    ensures p.sub == "" && Sole(attrs, p.name) ==>
              v == if p.name in attrs.entries then attrs.entries[p.name] else NOTHING
  {
    v := LookupAttr(attrs, p.name);
    assert Fits(attrs, region);
    if p.sub != "" {
      if v.Map? {
        assert Fits(v.node, region);
        v := LookupAttr(v.node, p.sub);
      } else {
        v := NOTHING;
      }
    }
  }

  // The map under the first name of the path, when the path has two names and each is spelled in one way.
  ghost predicate HasParent(attrs: Node, p: AttributePath, parent: Node)
    reads attrs, parent
  {
    p.sub != "" && Sole(attrs, p.name) && p.name in attrs.entries && attrs.entries[p.name] == Map(parent)
    && Sole(parent, p.sub)
  }

  // A sub-attribute is written in place into the map that is there.
  method Set(attrs: Node, p: AttributePath, v: Val, ghost region: set<Node>) returns (ghost more: set<Node>)
    requires attrs in region && Closed(region) && In(v, region)
    modifies region
    ensures Grown(region, more)
    ensures p.sub == "" && old(Sole(attrs, p.name)) ==> more == region && Enters(attrs, p.name, v, region)
    ensures forall parent :: parent in region && parent != attrs && old(HasParent(attrs, p, parent)) ==>
              more == region && Enters(parent, p.sub, v, region)
  {
    more := region;
    if p.sub == "" {
      SetAttr(attrs, p.name, v, region);
      return;
    }
    var parent := LookupAttr(attrs, p.name);
    assert Fits(attrs, region);
    var parentMap;
    if parent.Map? {
      parentMap := parent.node;
    } else {
      parentMap := new Node(map[]);
      more := region + {parentMap};
      ClosedWith(region, parentMap);
    }
    SetAttr(parentMap, p.sub, v, more);
    SetAttr(attrs, p.name, Map(parentMap), more);
  }

  method Delete(attrs: Node, p: AttributePath, ghost region: set<Node>)
    requires attrs in region && Closed(region)
    modifies region
    ensures Closed(region)
  {
    if p.sub == "" {
      DeleteAttr(attrs, p.name, region);
    } else {
      var parent := LookupAttr(attrs, p.name);
      assert Fits(attrs, region);
      if parent.Map? { DeleteAttr(parent.node, p.sub, region); }
    }
  }

  // ----- the loops of the engine -----

  method MergeInto(m: Node, o: Node, ghost region: set<Node>)
    requires m in region && o in region && Closed(region)
    modifies m
    ensures Closed(region)
  {
    var entries := o.entries;
    assert Fits(o, region);
    var rest := entries.Keys;
    while rest != {}
      invariant rest <= entries.Keys && Closed(region)
      decreases rest
    {
      var k :| k in rest;
      SetAttr(m, k, entries[k], region);
      rest := rest - {k};
    }
  }

  // One element of a slice that some filter accepts: it gets v, or is replaced by it.
  method UpdateSlot(s: Val, i: nat, sub: string, v: Val, ghost region: set<Node>)
    requires Closed(region) && In(v, region) && s.List? && In(s, region) && i < s.len
    modifies region
    ensures Closed(region)
  {
    InSlots(s, region);
    var elem := s.cells.slots[i];
    assert In(elem, region) by { assert SliceElements(s)[i] == elem; }
    if elem.Map? {
      if sub != "" {
        SetAttr(elem.node, sub, v, region);
      } else if v.Map? {
        MergeInto(elem.node, v.node, region);
      } else {
        assert Fits(s.cells, region);
        WriteSlot(s.cells, i, v, region);
      }
    }
  }

  method UpdateMatching(s: Val, sub: string, v: Val, ghost region: set<Node>)
    requires Closed(region) && In(v, region) && s.List? && In(s, region)
    modifies region
    ensures Closed(region)
  {
    for i := 0 to s.len
      invariant Closed(region)
    {
      var accepted: bool := *;
      if accepted { UpdateSlot(s, i, sub, v, region); }
    }
  }

  method SetInEach(s: Val, sub: string, v: Val, ghost region: set<Node>)
    requires Closed(region) && In(v, region) && s.List? && In(s, region)
    modifies region
    ensures Closed(region)
  {
    for i := 0 to s.len
      invariant Closed(region)
    {
      InSlots(s, region);
      var elem := s.cells.slots[i];
      assert In(elem, region) by { assert SliceElements(s)[i] == elem; }
      if elem.Map? { SetAttr(elem.node, sub, v, region); }
    }
  }

  // From all maps among the elements, or from those some filter accepts.
  method DropInEach(s: Val, sub: string, filtered: bool, ghost region: set<Node>)
    requires Closed(region) && s.List? && In(s, region)
    modifies region
    ensures Closed(region)
  {
    for i := 0 to s.len
      invariant Closed(region)
    {
      InSlots(s, region);
      var elem := s.cells.slots[i];
      assert In(elem, region) by { assert SliceElements(s)[i] == elem; }
      var accepted: bool := *;
      if elem.Map? && (accepted || !filtered) { DeleteAttr(elem.node, sub, region); }
    }
  }

  // The compaction: kept elements move to the front of the same array.
  method Compact(s: Val, ghost region: set<Node>) returns (kept: Val)
    requires Closed(region) && s.List? && In(s, region)
    modifies s.cells
    ensures Closed(region) && kept.List? && In(kept, region)
  {
    var n := 0;
    for i := 0 to s.len
      invariant n <= i && Closed(region)
    {
      InSlots(s, region);
      assert Fits(s.cells, region);
      var elem := s.cells.slots[i];
      assert In(elem, region) by { assert SliceElements(s)[i] == elem; }
      var accepted: bool := *;
      if !(elem.Map? && accepted) {
        WriteSlot(s.cells, n, elem, region);
        n := n + 1;
      }
    }
    kept := List(s.cells, n);
  }

  // ----- the operations -----

  datatype NodeOp = NodeOp(kind: OpKind, path: Option<PatchPath>, value: Val)

  method SetSub(attrs: Node, p: PatchPath, v: Val, ghost region: set<Node>) returns (ghost more: set<Node>)
    requires attrs in region && Closed(region) && In(v, region)
    modifies region
    ensures Grown(region, more)
  {
    var existing := Get(attrs, p.attribute, region);
    if existing.List? {
      SetInEach(existing, p.sub, v, region);
      more := Set(attrs, p.attribute, existing, region);
    } else if existing.Map? {
      SetAttr(existing.node, p.sub, v, region);
      more := Set(attrs, p.attribute, existing, region);
    } else {
      var newMap := new Node(map[p.sub := v]);
      ClosedWith(region, newMap);
      more := Set(attrs, p.attribute, Map(newMap), region + {newMap});
    }
  }

  method UpdateValues(attrs: Node, p: PatchPath, existing: Val, v: Val, ghost region: set<Node>)
    returns (ghost more: set<Node>)
    requires attrs in region && Closed(region) && In(v, region) && In(existing, region)
    modifies region
    ensures Grown(region, more)
  {
    var s;
    s, more := CopyValues(existing, region);
    UpdateMatching(s, p.sub, v, more);
    more := Set(attrs, p.attribute, s, more);
  }

  lemma OneSlot(was: seq<Val>, now: seq<Val>, n: nat, v: Val)
    requires n < |was| && n < |now| && now[n..n + 1] == [v] && now[..n] == was[..n] && now[n + 1..] == was[n + 1..]
    ensures now == was[n := v]
  {
    assert now == now[..n] + now[n..n + 1] + now[n + 1..];
    assert was == was[..n] + was[n..n + 1] + was[n + 1..];
  }

  // append of one value or of the elements of a list.
  method AppendValues(existing: Val, v: Val, ghost region: set<Node>) returns (r: Val, ghost more: set<Node>)
    requires Closed(region) && existing.List? && In(existing, region) && In(v, region)
    modifies existing.cells
    ensures Grown(region, more) && In(r, more)
    ensures existing.cells.entries == old(existing.cells.entries)
    ensures !v.List? && existing.len < existing.cells.capacity ==>
              more == region && r == List(existing.cells, existing.len + 1)
              && existing.len < |old(existing.cells.slots)|
              && existing.cells.slots == old(existing.cells.slots)[existing.len := v]
  {
    var items := [v];
    if v.List? {
      InSlots(v, region);
      items := SliceElements(v);
    }
    InSlots(existing, region);
    r, more := Append(existing, items, region);
    InSlots(r, more);
    if !v.List? && existing.len < existing.cells.capacity {
      OneSlot(old(existing.cells.slots), existing.cells.slots, existing.len, v);
    }
  }

  // An add of a whole attribute that is not there yet, and one to a list with room in its array.
  ghost predicate AddsNew(attrs: Node, p: PatchPath)
    reads attrs
  {
    p.filter.None? && p.sub == "" && p.attribute.sub == "" && Sole(attrs, p.attribute.name)
    && p.attribute.name !in attrs.entries
  }

  ghost predicate AddsInPlace(attrs: Node, p: PatchPath, v: Val, cells: Node, len: nat)
    reads attrs
  {
    p.filter.None? && p.sub == "" && p.attribute.sub == "" && Sole(attrs, p.attribute.name)
    && p.attribute.name in attrs.entries && attrs.entries[p.attribute.name] == List(cells, len) && cells != attrs
    && len < cells.capacity && !v.List?
  }

  // After the second, the attribute shows one more element, in the slot of the array past the old length.
  twostate predicate Lengthened(attrs: Node, p: PatchPath, v: Val, cells: Node, len: nat)
    reads attrs, cells
  {
    attrs.entries == old(attrs.entries)[p.attribute.name := List(cells, len + 1)]
    && len < |old(cells.slots)| && cells.slots == old(cells.slots)[len := v]
    && cells.entries == old(cells.entries)
  }

  method ApplyAdd(attrs: Node, p: PatchPath, v: Val, ghost region: set<Node>) returns (ok: bool, ghost more: set<Node>)
    requires attrs in region && Closed(region) && In(v, region)
    modifies region
    ensures Grown(region, more)
    ensures old(AddsNew(attrs, p)) ==> ok && more == region && Enters(attrs, p.attribute.name, v, region)
    ensures forall cells, len: nat :: cells in region && old(AddsInPlace(attrs, p, v, cells, len)) ==>
              ok && more == region && Lengthened(attrs, p, v, cells, len)
  {
    ok, more := true, region;
    var existing := Get(attrs, p.attribute, region);
    if p.filter.Some? {
      if existing == NOTHING { return false, region; }
      more := UpdateValues(attrs, p, existing, v, region);
    } else if p.sub != "" {
      more := SetSub(attrs, p, v, region);
    } else if existing.List? {
      var longer;
      longer, more := AppendValues(existing, v, region);
      more := Set(attrs, p.attribute, longer, more);
    } else {
      more := Set(attrs, p.attribute, v, region);
    }
  }

  method ApplyReplace(attrs: Node, p: PatchPath, v: Val, ghost region: set<Node>) returns (ghost more: set<Node>)
    requires attrs in region && Closed(region) && In(v, region)
    modifies region
    ensures Grown(region, more)
    ensures forall parent :: p.filter.None? && p.sub == "" && parent in region && parent != attrs
                             && old(HasParent(attrs, p.attribute, parent)) ==>
              more == region && Enters(parent, p.attribute.sub, v, region)
  {
    if p.filter.None? {
      if p.sub == "" { more := Set(attrs, p.attribute, v, region); } else { more := SetSub(attrs, p, v, region); }
      return;
    }
    var existing := Get(attrs, p.attribute, region);
    if existing == NOTHING {
      more := Set(attrs, p.attribute, v, region);
    } else {
      more := UpdateValues(attrs, p, existing, v, region);
    }
  }

  method ApplyRemove(attrs: Node, p: PatchPath, ghost region: set<Node>) returns (ghost more: set<Node>)
    requires attrs in region && Closed(region)
    modifies region
    ensures Grown(region, more)
  {
    more := region;
    if p.filter.None? && p.sub == "" {
      Delete(attrs, p.attribute, region);
      return;
    }
    var existing := Get(attrs, p.attribute, region);
    if existing == NOTHING { return; }
    if p.filter.None? {
      if existing.List? {
        DropInEach(existing, p.sub, false, region);
        more := Set(attrs, p.attribute, existing, region);
      } else if existing.Map? {
        DeleteAttr(existing.node, p.sub, region);
        more := Set(attrs, p.attribute, existing, region);
      }
      return;
    }
    var s;
    s, more := CopyValues(existing, region);
    if p.sub == "" { s := Compact(s, more); } else { DropInEach(s, p.sub, true, more); }
    more := Set(attrs, p.attribute, s, more);
  }

  method ApplyOp(attrs: Node, op: NodeOp, ghost region: set<Node>) returns (ok: bool, ghost more: set<Node>)
    requires attrs in region && Closed(region) && In(op.value, region)
    modifies region
    ensures Grown(region, more)
    ensures op.kind == Add && op.path.Some? && old(AddsNew(attrs, op.path.value)) ==>
              ok && more == region && Enters(attrs, op.path.value.attribute.name, op.value, region)
    ensures forall cells, len: nat :: op.kind == Add && op.path.Some? && cells in region
                                      && old(AddsInPlace(attrs, op.path.value, op.value, cells, len)) ==>
              ok && more == region && Lengthened(attrs, op.path.value, op.value, cells, len)
    ensures forall parent :: op.kind == Replace && op.path.Some? && op.path.value.filter.None?
                             && op.path.value.sub == "" && parent in region && parent != attrs
                             && old(HasParent(attrs, op.path.value.attribute, parent)) ==>
              ok && more == region && Enters(parent, op.path.value.attribute.sub, op.value, region)
  {
    ok, more := true, region;
    if op.kind == Unknown { return false, region; }
    if op.path.None? {
      if op.kind == Remove || !op.value.Map? { return false, region; }
      MergeInto(attrs, op.value.node, region);
      return;
    }
    match op.kind
    case Add => ok, more := ApplyAdd(attrs, op.path.value, op.value, region);
    case Remove => more := ApplyRemove(attrs, op.path.value, region);
    case Replace => more := ApplyReplace(attrs, op.path.value, op.value, region);
    case Unknown =>
  }

  // ----- whole requests -----

  ghost predicate ValuesIn(ops: seq<NodeOp>, region: set<Node>) {
    forall i :: 0 <= i < |ops| ==> In(ops[i].value, region)
  }

  lemma ValuesInMore(ops: seq<NodeOp>, region: set<Node>, more: set<Node>)
    requires ValuesIn(ops, region) && region <= more
    ensures ValuesIn(ops, more)
  {
    forall i | 0 <= i < |ops| ensures In(ops[i].value, more) { assert In(ops[i].value, region); }
  }

  function Whole(name: string): PatchPath { PatchPath(AttributePath("", name, ""), None, "") }

  function Sub(name: string, sub: string): PatchPath { PatchPath(AttributePath("", name, sub), None, "") }

  function Name(ops: seq<NodeOp>): string {
    if ops != [] && ops[0].path.Some? then ops[0].path.value.attribute.name else ""
  }

  ghost predicate NewName(attrs: Node, name: string)
    reads attrs
  {
    forall k :: k in attrs.entries ==> !EqualFold(k, name)
  }

  predicate Adds(op: NodeOp, name: string) { op.kind == Add && op.path == Some(Whole(name)) }

  // Requests of two operations: one adds a list with room in its array and then a value to the same
  // attribute, the other adds a map and then replaces a sub-attribute in it.
  predicate AddsTwice(ops: seq<NodeOp>) {
    |ops| == 2 && Adds(ops[0], Name(ops)) && Adds(ops[1], Name(ops))
    && ops[0].value.List? && ops[0].value.len < ops[0].value.cells.capacity && !ops[1].value.List?
  }

  predicate AddsThenReplaces(ops: seq<NodeOp>) {
    |ops| == 2 && Adds(ops[0], Name(ops)) && ops[0].value.Map? && ops[1].kind == Replace && ops[1].path.Some?
    && var p := ops[1].path.value; p == Sub(Name(ops), p.attribute.sub) && p.attribute.sub != ""
  }

  // What they do: the slot past the list, or the entry of the map, is overwritten where it is.
  twostate predicate WritesSlot(ops: seq<NodeOp>)
    requires AddsTwice(ops)
    reads ops[0].value.cells
  {
    var s := ops[0].value;
    s.len < |old(s.cells.slots)| && s.cells.slots == old(s.cells.slots)[s.len := ops[1].value]
    && s.cells.entries == old(s.cells.entries)
  }

  twostate predicate WritesEntry(ops: seq<NodeOp>)
    requires AddsThenReplaces(ops)
    reads ops[0].value.node
  {
    var m := ops[0].value.node;
    m.entries == old(m.entries)[ops[1].path.value.attribute.sub := ops[1].value]
  }

  // RunPatch without the parsing: the operations in order until one fails. A value that the request first
  // adds and then changes is written itself.
  method ApplyOps(attrs: Node, ops: seq<NodeOp>, ghost region: set<Node>) returns (ok: bool, ghost more: set<Node>)
    requires attrs in region && Closed(region) && ValuesIn(ops, region)
    modifies region
    ensures Grown(region, more)
    ensures AddsTwice(ops) && old(NewName(attrs, Name(ops))) && ops[0].value.cells != attrs ==>
              ok && WritesSlot(ops)
              && attrs.entries == old(attrs.entries)[Name(ops) := List(ops[0].value.cells, ops[0].value.len + 1)]
    ensures AddsThenReplaces(ops) && old(NewName(attrs, Name(ops))) && ops[0].value.node != attrs
            && old(Sole(ops[0].value.node, ops[1].path.value.attribute.sub)) ==>
              ok && WritesEntry(ops) && attrs.entries == old(attrs.entries)[Name(ops) := ops[0].value]
  {
    ok, more := true, region;
    ghost var installs := |ops| == 2 && Adds(ops[0], Name(ops)) && NewName(attrs, Name(ops));
    for i := 0 to |ops|
      invariant Grown(region, more) && ok
      invariant i == 0 ==> more == region && forall n :: n in region ==> Same(n)
      invariant i == 1 && installs ==> more == region && Enters(attrs, Name(ops), ops[0].value, region)
      invariant i == 2 && installs && AddsTwice(ops) && ops[0].value.cells != attrs ==>
                  WritesSlot(ops)
                  && attrs.entries == old(attrs.entries)[Name(ops) := List(ops[0].value.cells, ops[0].value.len + 1)]
      invariant i == 2 && installs && AddsThenReplaces(ops) && ops[0].value.node != attrs
                && old(Sole(ops[0].value.node, ops[1].path.value.attribute.sub)) ==>
                  WritesEntry(ops) && attrs.entries == old(attrs.entries)[Name(ops) := ops[0].value]
    {
      ValuesInMore(ops, region, more);
      if i == 1 && installs && AddsTwice(ops) && ops[0].value.cells != attrs {
        assert AddsInPlace(attrs, ops[1].path.value, ops[1].value, ops[0].value.cells, ops[0].value.len);
      }
      ok, more := ApplyOp(attrs, ops[i], more);
      if !ok { return; }
    }
  }
}
