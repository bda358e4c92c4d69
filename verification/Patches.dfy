// PATCH operations on the attributes of a resource, and what sequences of them keep.
module Patches {
  import opened Text
  import opened Values
  import opened Objects
  import opened Paths
  import opened Filters
  import opened FilterEval
  import opened PatchPaths
  import opened Resources
  import opened Accessors

  datatype OpKind = Add | Remove | Replace | Unknown

  datatype PatchOp = PatchOp(kind: OpKind, path: Option<PatchPath>, value: Json)

  datatype PatchError = BadPatch | NoTarget

  type Outcome = Result<Object, PatchError>

  // ----- one operation, on attributes without case clashes -----

  // Every entry of o is written into m, in any order.
  ghost function Merge(m: Object, o: Object): Object {
    map k | k in m.Keys + o.Keys && (k in m || !HasKey(m, k)) ::
      if k in m then (if HasKey(o, k) then Lookup(o, k) else m[k]) else o[k]
  }

  ghost predicate Selected(elem: Json, f: Filter) { elem.Obj? && Eval(f, elem.fields) }

  ghost function UpdateElement(elem: Json, f: Filter, sub: string, v: Json): Json {
    if !Selected(elem, f) then elem
    else if sub != "" then Obj(Put(elem.fields, sub, v))
    else if v.Obj? then Obj(Merge(elem.fields, v.fields))
    else v
  }

  ghost function UpdateSelected(items: seq<Json>, f: Filter, sub: string, v: Json): seq<Json> {
    seq(|items|, i requires 0 <= i < |items| => UpdateElement(items[i], f, sub, v))
  }

  ghost function SetInAll(items: seq<Json>, sub: string, v: Json): seq<Json> {
    seq(|items|, i requires 0 <= i < |items| => if items[i].Obj? then Obj(Put(items[i].fields, sub, v)) else items[i])
  }

  ghost function DropInAll(items: seq<Json>, sub: string): seq<Json> {
    seq(|items|, i requires 0 <= i < |items| => if items[i].Obj? then Obj(Drop(items[i].fields, sub)) else items[i])
  }

  ghost function DropInSelected(items: seq<Json>, f: Filter, sub: string): seq<Json> {
    seq(|items|, i requires 0 <= i < |items| =>
          if Selected(items[i], f) then Obj(Drop(items[i].fields, sub)) else items[i])
  }

  // The elements that are not selected, in their order.
  ghost function KeepUnselected(items: seq<Json>, f: Filter): seq<Json> {
    if items == [] then []
    else (if Selected(items[0], f) then [] else [items[0]]) + KeepUnselected(items[1..], f)
  }

  // A single value counts as a list of one.
  function Elements(v: Json): seq<Json> { if v.Arr? then v.items else [v] }

  ghost function SetSub(m: Object, p: PatchPath, v: Json): Object {
    var existing := GetPath(m, p.attribute);
    match existing
    case Arr(items) => SetPath(m, p.attribute, Arr(SetInAll(items, p.sub, v)))
    case Obj(fields) => SetPath(m, p.attribute, Obj(Put(fields, p.sub, v)))
    case _ => SetPath(m, p.attribute, Obj(map[p.sub := v]))
  }

  ghost function ApplyAdd(m: Object, path: Option<PatchPath>, v: Json): Outcome {
    match path
    case None => if v.Obj? then Ok(Merge(m, v.fields)) else Err(BadPatch)
    case Some(p) =>
      var existing := GetPath(m, p.attribute);
      if p.filter.Some? then
        if existing == Null then Err(NoTarget)
        else Ok(SetPath(m, p.attribute, Arr(UpdateSelected(Elements(existing), p.filter.value, p.sub, v))))
      else if p.sub != "" then Ok(SetSub(m, p, v))
      else if existing.Arr? then Ok(SetPath(m, p.attribute, Arr(existing.items + Elements(v))))
      else Ok(SetPath(m, p.attribute, v))
  }

  ghost function ApplyRemove(m: Object, path: Option<PatchPath>): Outcome {
    match path
    case None => Err(NoTarget)
    case Some(p) =>
      var existing := GetPath(m, p.attribute);
      if p.filter.None? && p.sub == "" then Ok(DeletePath(m, p.attribute))
      else if existing == Null then Ok(m)
      else if p.filter.None? then
        match existing
        case Arr(items) => Ok(SetPath(m, p.attribute, Arr(DropInAll(items, p.sub))))
        case Obj(fields) => Ok(SetPath(m, p.attribute, Obj(Drop(fields, p.sub))))
        case _ => Ok(m)
      else if p.sub == "" then Ok(SetPath(m, p.attribute, Arr(KeepUnselected(Elements(existing), p.filter.value))))
      else Ok(SetPath(m, p.attribute, Arr(DropInSelected(Elements(existing), p.filter.value, p.sub))))
  }

  ghost function ApplyReplace(m: Object, path: Option<PatchPath>, v: Json): Outcome {
    match path
    case None => if v.Obj? then Ok(Merge(m, v.fields)) else Err(BadPatch)
    case Some(p) =>
      var existing := GetPath(m, p.attribute);
      if p.filter.Some? then
        if existing == Null then Ok(SetPath(m, p.attribute, v))
        else Ok(SetPath(m, p.attribute, Arr(UpdateSelected(Elements(existing), p.filter.value, p.sub, v))))
      else if p.sub != "" then Ok(SetSub(m, p, v))
      else Ok(SetPath(m, p.attribute, v))
  }

  ghost function ApplyOp(m: Object, op: PatchOp): Outcome {
    match op.kind
    case Add => ApplyAdd(m, op.path, op.value)
    case Remove => ApplyRemove(m, op.path)
    case Replace => ApplyReplace(m, op.path, op.value)
    case Unknown => Err(BadPatch)
  }

  // ----- a request: operations in turn on a clone; the first failure is the outcome -----

  ghost function ApplyOps(m: Object, ops: seq<PatchOp>): Outcome
    decreases |ops|
  {
    if ops == [] then Ok(m)
    else
      var first := ApplyOp(m, ops[0]);
      if first.Err? then first else ApplyOps(first.value, ops[1..])
  }

  ghost function Patch(c: Content, ops: seq<PatchOp>): Result<Content, PatchError> {
    match ApplyOps(c.attributes, ops)
    case Ok(a) => Ok(Truncated(c).(attributes := a))
    case Err(e) => Err(e)
  }

  // ----- no new case clashes -----

  lemma MergeUnique(m: Object, o: Object)
    requires Unique(Obj(m)) && Unique(Obj(o))
    ensures Unique(Obj(Merge(m, o)))
  {
    var r := Merge(m, o);
    forall k | k in r ensures Unique(r[k]) { LookupKeepsUnique(o, k); }
    forall k, l | k in r && l in r && EqualFold(k, l) ensures k == l {
      if k in m && l !in m { assert HasKey(m, l); }
      if l in m && k !in m { assert HasKey(m, k); }
    }
  }

  lemma UpdateElementUnique(elem: Json, f: Filter, sub: string, v: Json)
    requires Unique(elem) && Unique(v)
    ensures Unique(UpdateElement(elem, f, sub, v))
  {
    if elem.Obj? {
      PutKeepsUnique(elem.fields, sub, v);
      if v.Obj? { MergeUnique(elem.fields, v.fields); }
    }
  }

  lemma ElementListsUnique(items: seq<Json>, f: Filter, sub: string, v: Json)
    requires Unique(Arr(items)) && Unique(v)
    ensures Unique(Arr(UpdateSelected(items, f, sub, v))) && Unique(Arr(SetInAll(items, sub, v)))
  {
    forall i | 0 <= i < |items|
      ensures Unique(UpdateSelected(items, f, sub, v)[i]) && Unique(SetInAll(items, sub, v)[i])
    {
      UpdateElementUnique(items[i], f, sub, v);
      if items[i].Obj? { PutKeepsUnique(items[i].fields, sub, v); }
    }
  }

  lemma DroppedListsUnique(items: seq<Json>, f: Filter, sub: string)
    requires Unique(Arr(items))
    ensures Unique(Arr(DropInAll(items, sub))) && Unique(Arr(DropInSelected(items, f, sub)))
  {
    forall i | 0 <= i < |items|
      ensures Unique(DropInAll(items, sub)[i]) && Unique(DropInSelected(items, f, sub)[i])
    {
      if items[i].Obj? { DropKeepsUnique(items[i].fields, sub); }
    }
  }

  lemma {:induction false} KeptUnique(items: seq<Json>, f: Filter)
    requires Unique(Arr(items))
    ensures Unique(Arr(KeepUnselected(items, f)))
  {
    if items != [] {
      KeptUnique(items[1..], f);
      assert Unique(items[0]);
    }
  }

  lemma SetSubUnique(m: Object, p: PatchPath, v: Json)
    requires Unique(Obj(m)) && Unique(v)
    ensures Unique(Obj(SetSub(m, p, v)))
  {
    var existing := GetPath(m, p.attribute);
    GetPathUnique(m, p.attribute);
    match existing
    case Arr(items) =>
      ElementListsUnique(items, Not(Compare(p.attribute, Pr, Null)), p.sub, v);
      SetPathUnique(m, p.attribute, Arr(SetInAll(items, p.sub, v)));
    case Obj(fields) =>
      PutKeepsUnique(fields, p.sub, v);
      SetPathUnique(m, p.attribute, Obj(Put(fields, p.sub, v)));
    case _ => SetPathUnique(m, p.attribute, Obj(map[p.sub := v]));
  }

  lemma WriteUnique(m: Object, p: PatchPath, v: Json)
    requires Unique(Obj(m)) && Unique(v)
    ensures Unique(Obj(SetPath(m, p.attribute, v))) && Unique(Obj(SetSub(m, p, v)))
    ensures var existing := GetPath(m, p.attribute);
            (existing.Arr? ==> Unique(Obj(SetPath(m, p.attribute, Arr(existing.items + Elements(v))))))
            && (p.filter.Some? ==>
                  Unique(Obj(SetPath(m, p.attribute,
                    Arr(UpdateSelected(Elements(existing), p.filter.value, p.sub, v))))))
  {
    var existing := GetPath(m, p.attribute);
    GetPathUnique(m, p.attribute);
    SetPathUnique(m, p.attribute, v);
    SetSubUnique(m, p, v);
    if existing.Arr? { SetPathUnique(m, p.attribute, Arr(existing.items + Elements(v))); }
    if p.filter.Some? {
      ElementListsUnique(Elements(existing), p.filter.value, p.sub, v);
      SetPathUnique(m, p.attribute, Arr(UpdateSelected(Elements(existing), p.filter.value, p.sub, v)));
    }
  }

  lemma RemoveUnique(m: Object, p: PatchPath)
    requires Unique(Obj(m))
    ensures Unique(Obj(ApplyRemove(m, Some(p)).value))
  {
    var existing := GetPath(m, p.attribute);
    GetPathUnique(m, p.attribute);
    DeletePathUnique(m, p.attribute);
    var items := Elements(existing);
    if p.filter.None? {
      DroppedListsUnique(items, Not(Compare(p.attribute, Pr, Null)), p.sub);
      SetPathUnique(m, p.attribute, Arr(DropInAll(items, p.sub)));
      if existing.Obj? {
        DropKeepsUnique(existing.fields, p.sub);
        SetPathUnique(m, p.attribute, Obj(Drop(existing.fields, p.sub)));
      }
    } else {
      KeptUnique(items, p.filter.value);
      DroppedListsUnique(items, p.filter.value, p.sub);
      SetPathUnique(m, p.attribute, Arr(KeepUnselected(items, p.filter.value)));
      SetPathUnique(m, p.attribute, Arr(DropInSelected(items, p.filter.value, p.sub)));
    }
  }

  // No operation makes two keys of any object, at any depth, differ only in case.
  lemma OpKeepsUnique(m: Object, op: PatchOp)
    requires Unique(Obj(m)) && Unique(op.value) && ApplyOp(m, op).Ok?
    ensures Unique(Obj(ApplyOp(m, op).value))
  {
    match op.path
    case None => MergeUnique(m, op.value.fields);
    case Some(p) =>
      WriteUnique(m, p, op.value);
      RemoveUnique(m, p);
  }

  // ----- only the target changes -----

  ghost predicate Targets(op: PatchOp, k: string) {
    match op.path
    case None => op.value.Obj? && HasKey(op.value.fields, k)
    case Some(p) => EqualFold(k, p.attribute.name)
  }

  ghost predicate OthersKept(op: PatchOp, m: Object, r: Object) {
    (forall k :: k in m && !Targets(op, k) ==> k in r && r[k] == m[k])
    && (forall k :: k in r && !Targets(op, k) ==> k in m)
  }

  // What an operation with a path does to the top level.
  ghost predicate WritesAt(m: Object, p: AttributePath, r: Object) {
    r == m || (exists v :: r == SetPath(m, p, v)) || r == DeletePath(m, p)
  }

  lemma WriteKeepsOthers(m: Object, p: AttributePath, r: Object, k: string)
    requires WritesAt(m, p, r) && !EqualFold(k, p.name)
    ensures k in r <==> k in m
    ensures k in m ==> r[k] == m[k]
  {
  }

  lemma SetSubWrites(m: Object, p: PatchPath, v: Json)
    ensures WritesAt(m, p.attribute, SetSub(m, p, v))
  {
  }

  lemma SetWrites(m: Object, p: AttributePath, v: Json)
    ensures WritesAt(m, p, SetPath(m, p, v))
  {
  }

  lemma AddWrites(m: Object, p: PatchPath, v: Json)
    requires ApplyAdd(m, Some(p), v).Ok?
    ensures WritesAt(m, p.attribute, ApplyAdd(m, Some(p), v).value)
  {
    if p.filter.None? { SetSubWrites(m, p, v); }
  }

  lemma RemoveWrites(m: Object, p: PatchPath)
    ensures WritesAt(m, p.attribute, ApplyRemove(m, Some(p)).value)
  {
  }

  lemma ReplaceWrites(m: Object, p: PatchPath, v: Json)
    ensures WritesAt(m, p.attribute, ApplyReplace(m, Some(p), v).value)
  {
    if p.filter.Some? && GetPath(m, p.attribute) != Null {
      SetWrites(m, p.attribute, Arr(UpdateSelected(Elements(GetPath(m, p.attribute)), p.filter.value, p.sub, v)));
    } else {
      SetWrites(m, p.attribute, v);
      SetSubWrites(m, p, v);
    }
  }

  // Every top-level attribute the operation does not name stays as it is, and no other appears.
  lemma OpKeepsOthers(m: Object, op: PatchOp)
    requires ApplyOp(m, op).Ok?
    ensures OthersKept(op, m, ApplyOp(m, op).value)
  {
    var r := ApplyOp(m, op).value;
    if op.path.Some? {
      var p := op.path.value;
      match op.kind {
        case Add => AddWrites(m, p, op.value);
        case Remove => RemoveWrites(m, p);
        case Replace => ReplaceWrites(m, p, op.value);
      }
      forall k | !Targets(op, k) ensures (k in r <==> k in m) && (k in m ==> r[k] == m[k]) {
        WriteKeepsOthers(m, p.attribute, r, k);
      }
    } else {
      MergeKeepsOthers(m, op.value.fields);
    }
  }

  lemma MergeKeepsOthers(m: Object, o: Object)
    ensures forall k :: !HasKey(o, k) ==> (k in Merge(m, o) <==> k in m) && (k in m ==> Merge(m, o)[k] == m[k])
  {
  }

  // ----- requests compose -----

  ghost predicate AvoidsReserved(ops: seq<PatchOp>) {
    forall i, k :: 0 <= i < |ops| && Reserved(k) ==> !Targets(ops[i], k)
  }

  lemma {:induction false} OpsKeepSettled(m: Object, ops: seq<PatchOp>)
    requires Settled(m) && AvoidsReserved(ops) && ApplyOps(m, ops).Ok?
    ensures Settled(ApplyOps(m, ops).value)
    decreases |ops|
  {
    if ops != [] {
      OpKeepsOthers(m, ops[0]);
      var r := ApplyOp(m, ops[0]).value;
      assert forall k :: k in r && Reserved(k) ==> !Targets(ops[0], k);
      OpsKeepSettled(r, ops[1..]);
    }
  }

  lemma {:induction false} OpsKeepUnique(m: Object, ops: seq<PatchOp>)
    requires Unique(Obj(m)) && (forall i :: 0 <= i < |ops| ==> Unique(ops[i].value)) && ApplyOps(m, ops).Ok?
    ensures Unique(Obj(ApplyOps(m, ops).value))
    decreases |ops|
  {
    if ops != [] {
      OpKeepsUnique(m, ops[0]);
      OpsKeepUnique(ApplyOp(m, ops[0]).value, ops[1..]);
    }
  }

  lemma {:induction false} OpsConcat(m: Object, a: seq<PatchOp>, b: seq<PatchOp>)
    ensures ApplyOps(m, a + b)
            == match ApplyOps(m, a) case Err(e) => Err(e) case Ok(r) => ApplyOps(r, b)
    decreases |a|
  {
    if a == [] {
      assert a + b == b;
    } else {
      assert (a + b)[1..] == a[1..] + b;
      if ApplyOp(m, a[0]).Ok? { OpsConcat(ApplyOp(m, a[0]).value, a[1..], b); }
    }
  }

  // Applying a then b in one request succeeds exactly when applying them in two requests does, with the
  // same resource, although each request clones through JSON first: the resource between the two
  // requests comes out of its clone unchanged.
  lemma PatchesCompose(c: Content, a: seq<PatchOp>, b: seq<PatchOp>)
    requires Settled(c.attributes) && AvoidsReserved(a)
    ensures Patch(c, a + b) == match Patch(c, a) case Err(e) => Err(e) case Ok(mid) => Patch(mid, b)
    ensures Patch(c, a).Ok? ==> FromObject(ToObject(Patch(c, a).value)) == Patch(c, a).value
  {
    OpsConcat(c.attributes, a, b);
    if Patch(c, a).Ok? {
      OpsKeepSettled(c.attributes, a);
      JsonRoundTrip(Patch(c, a).value);
    }
  }

  // ----- what a write does to the shape of a value -----

  // Replacing a sub-attribute without a filter, as in emails.type: the rest of the value is kept exactly when
  // the value is absent, an object or an empty list.
  lemma ReplaceSubKeeps(m: Object, p: AttributePath, v: Json)
    requires CaseUnique(m) && p.sub != ""
    ensures var r := ApplyOp(m, PatchOp(Replace, Some(PatchPath(p, None, "")), v));
            var before := Lookup(m, p.name);
            r.Ok? && (LosesNothing(before, Lookup(r.value, p.name), p.sub) <==>
                      before.Null? || before.Obj? || before == Arr([]))
  {
    SubWriteKeeps(m, p, v);
  }

  // The list becomes an object that holds the sub-attribute alone.
  lemma ListIsReplaced(items: seq<Json>, v: Json)
    ensures var path := PatchPath(AttributePath("", "emails", "type"), None, "");
            var r := ApplyOp(map["emails" := Arr(items)], PatchOp(Replace, Some(path), v));
            r.Ok? && Lookup(r.value, "emails") == Obj(map["type" := v])
  {
    var m: Object := map["emails" := Arr(items)];
    assert KeyOf(m, "emails") == "emails" by { assert "emails" in m; }
    LookupPut(m, "emails", Obj(map["type" := v]), "emails");
    assert !HasKey(map[], "type");
  }

  // A list stays a list and anything else stays none; an absent value has no shape.
  predicate SameShape(before: Json, after: Json) { before == Null || before.Arr? == after.Arr? }

  // Writing through a filter keeps the shape of the value exactly when that was a list or absent: a single
  // value becomes a list of one, selected or not.
  lemma FilteredWriteShape(m: Object, kind: OpKind, p: AttributePath, f: Filter, sub: string, v: Json)
    requires Unique(Obj(m)) && Unique(v) && (kind == Add || kind == Replace)
    ensures var r := ApplyOp(m, PatchOp(kind, Some(PatchPath(p, Some(f), sub)), v));
            var before := GetPath(m, p);
            (r.Err? <==> kind == Add && before == Null)
            && (r.Ok? ==> (SameShape(before, GetPath(r.value, p)) <==> before == Null || before.Arr?))
            && (r.Ok? && before != Null ==> GetPath(r.value, p) == Arr(UpdateSelected(Elements(before), f, sub, v)))
  {
    var before := GetPath(m, p);
    GetPathUnique(m, p);
    if before != Null {
      ElementListsUnique(Elements(before), f, sub, v);
      GetSet(m, p, Arr(UpdateSelected(Elements(before), f, sub, v)));
    }
  }

  // ----- remove by filter -----

  lemma {:induction false} KeptAreUnselected(items: seq<Json>, f: Filter)
    ensures forall i :: 0 <= i < |KeepUnselected(items, f)| ==> !Selected(KeepUnselected(items, f)[i], f)
    ensures KeepUnselected(KeepUnselected(items, f), f) == KeepUnselected(items, f)
  {
    if items != [] {
      KeptAreUnselected(items[1..], f);
      var kept, rest := KeepUnselected(items, f), KeepUnselected(items[1..], f);
      if Selected(items[0], f) { assert kept == rest; } else { assert kept == [items[0]] + rest && kept[1..] == rest; }
    }
  }

  lemma {:induction false} KeepSnoc(items: seq<Json>, e: Json, f: Filter)
    ensures KeepUnselected(items + [e], f) == KeepUnselected(items, f) + (if Selected(e, f) then [] else [e])
  {
    if items == [] {
      assert items + [e] == [e];
    } else {
      assert (items + [e])[1..] == items[1..] + [e];
      KeepSnoc(items[1..], e, f);
    }
  }

  lemma KeepLast(items: seq<Json>, f: Filter)
    requires items != []
    ensures var n := |items| - 1;
            KeepUnselected(items, f)
            == KeepUnselected(items[..n], f) + (if Selected(items[n], f) then [] else [items[n]])
  {
    var n := |items| - 1;
    assert items == items[..n] + [items[n]];
    KeepSnoc(items[..n], items[n], f);
  }

  ghost function RemoveSelected(p: AttributePath, f: Filter): PatchOp {
    PatchOp(Remove, Some(PatchPath(p, Some(f), "")), Null)
  }

  // attr[F] removed: the unselected elements stay in order, doing it again changes nothing, and attr[F]
  // no longer holds. An absent attribute stays absent; a single value becomes a list.
  lemma RemoveByFilter(m: Object, p: AttributePath, f: Filter)
    requires Unique(Obj(m)) && p.sub == ""
    ensures ApplyOp(m, RemoveSelected(p, f)).Ok?
    ensures var r := ApplyOp(m, RemoveSelected(p, f)).value;
            var before := Lookup(m, p.name);
            Lookup(r, p.name) == (if before == Null then Null else Arr(KeepUnselected(Elements(before), f)))
            && ApplyOp(r, RemoveSelected(p, f)) == Ok(r)
            && !Eval(ValuePath(p, f), r)
  {
    var r := ApplyOp(m, RemoveSelected(p, f)).value;
    var before := Lookup(m, p.name);
    if before != Null {
      var kept := KeepUnselected(Elements(before), f);
      KeptAreUnselected(Elements(before), f);
      LookupPut(m, p.name, Arr(kept), p.name);
      PutSame(r, p.name);
      assert Lookup(r, p.name) == Arr(kept);
    }
  }

  // The same for the filter a list request evaluates on the whole resource.
  lemma RemovedNotListed(c: Content, p: AttributePath, f: Filter)
    requires Unique(Obj(c.attributes)) && Settled(c.attributes) && p.sub == "" && !Reserved(p.name)
    ensures var r := Patch(c, [RemoveSelected(p, f)]);
            r.Ok? && !Eval(ValuePath(p, f), ToObject(r.value))
  {
    var op := RemoveSelected(p, f);
    RemoveByFilter(c.attributes, p, f);
    assert ApplyOps(c.attributes, [op]) == ApplyOps(ApplyOp(c.attributes, op).value, [op][1..]);
    var r := Patch(c, [op]).value;
    OpKeepsOthers(c.attributes, op);
    forall k | k in r.attributes ensures !Reserved(k) {}
    OpKeepsUnique(c.attributes, op);
    FreeLookup(r, p.name);
  }

  // A free attribute is found in the resource's object as among its attributes.
  lemma FreeLookup(c: Content, name: string)
    requires CaseUnique(c.attributes) && Settled(c.attributes) && !Reserved(name)
    ensures Lookup(ToObject(c), name) == Lookup(c.attributes, name)
  {
    ObjectEntries(c);
    FreeLookupIn(c, ToObject(c), name);
  }

  lemma FreeLookupIn(c: Content, o: Object, name: string)
    requires FixedUpTo(o, c, 4) && CaseUnique(c.attributes) && !Reserved(name)
    ensures Lookup(o, name) == Lookup(c.attributes, name)
  {
    forall k | k in o && EqualFold(k, name) ensures k in c.attributes { NotFixed(name, k); }
    if HasKey(c.attributes, name) {
      var k := KeyOf(c.attributes, name);
      LookupOnly(o, k, name);
    }
  }

  lemma NotFixed(name: string, k: string)
    requires !Reserved(name) && EqualFold(k, name)
    ensures FixedRank(k) == 4
  {
    ReservedNames(name);
    assert EqualFold(name, k);
  }
}
