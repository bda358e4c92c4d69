// What is read after a PATCH operation, at its path and elsewhere, told without the operations' own bodies.
module PatchEffects {
  import opened Text
  import opened Values
  import opened Objects
  import opened Paths
  import opened Filters
  import opened FilterEval
  import opened PatchPaths
  import opened Accessors
  import opened Patches

  // ----- what becomes of an object and of the elements of a list -----

  // The name reads as v, every other name as before.
  ghost predicate Reads(o: Object, name: string, v: Json, r: Object) {
    Lookup(r, name) == v && forall n :: !EqualFold(name, n) ==> Lookup(r, n) == Lookup(o, n)
  }

  ghost predicate Loses(o: Object, name: string, r: Object) { Reads(o, name, Null, r) && !HasKey(r, name) }

  // Every name of w reads as there, every other name as before.
  ghost predicate Takes(o: Object, w: Object, r: Object) {
    forall n :: Lookup(r, n) == if HasKey(w, n) then Lookup(w, n) else Lookup(o, n)
  }

  ghost predicate Accepts(f: Filter, elem: Json) { elem.Obj? && Eval(f, elem.fields) }

  ghost predicate Updated(elem: Json, sub: string, v: Json, r: Json) {
    if sub != "" then elem.Obj? && r.Obj? && Reads(elem.fields, sub, v, r.fields)
    else if v.Obj? then elem.Obj? && r.Obj? && Takes(elem.fields, v.fields, r.fields)
    else r == v
  }

  ghost predicate WithoutSub(elem: Json, sub: string, r: Json) {
    elem.Obj? && r.Obj? && Loses(elem.fields, sub, r.fields)
  }

  // The elements that the filter does not accept, at increasing places, and none of them missing.
  ghost predicate Rest(items: seq<Json>, f: Filter, kept: seq<Json>) {
    exists at: seq<nat> :: RestAt(items, f, kept, at)
  }

  ghost predicate RestAt(items: seq<Json>, f: Filter, kept: seq<Json>, at: seq<nat>) {
    |at| == |kept|
    && (forall k :: 0 <= k < |at| ==> at[k] < |items| && kept[k] == items[at[k]] && !Accepts(f, items[at[k]]))
    && (forall k, l :: 0 <= k < l < |at| ==> at[k] < at[l])
    && (forall i :: 0 <= i < |items| && !Accepts(f, items[i]) ==> i in at)
  }

  function Listed(v: Json): seq<Json> { if v.Arr? then v.items else [v] }

  // ----- the value at the path, before and after -----

  ghost predicate WholeEffect(kind: OpKind, v: Json, before: Json, after: Json) {
    match kind
    case Add =>
      if before.Arr? then
        after.Arr? && before.items <= after.items && after.items[|before.items|..] == Listed(v)
      else after == v
    case Replace => after == v
    case Remove => after == Null
    case Unknown => false
  }

  ghost predicate FilterEffect(kind: OpKind, f: Filter, sub: string, v: Json, before: Json, after: Json) {
    if before == Null then after == if kind == Replace then v else Null
    else
      after.Arr?
      && if kind == Remove && sub == "" then Rest(Listed(before), f, after.items)
         else
           |after.items| == |Listed(before)|
           && forall i :: 0 <= i < |after.items| ==>
                FilterEffectAt(kind, f, sub, v, Listed(before)[i], after.items[i])
  }

  ghost predicate FilterEffectAt(kind: OpKind, f: Filter, sub: string, v: Json, elem: Json, r: Json) {
    if !Accepts(f, elem) then r == elem
    else if kind == Remove then WithoutSub(elem, sub, r)
    else Updated(elem, sub, v, r)
  }

  ghost predicate SubEffectAt(kind: OpKind, sub: string, v: Json, elem: Json, r: Json) {
    if !elem.Obj? then r == elem else if kind == Remove then WithoutSub(elem, sub, r) else Updated(elem, sub, v, r)
  }

  ghost predicate SubEffect(kind: OpKind, sub: string, v: Json, before: Json, after: Json) {
    match before
    case Arr(items) =>
      after.Arr? && |after.items| == |items|
      && forall i :: 0 <= i < |items| ==> SubEffectAt(kind, sub, v, items[i], after.items[i])
    case Obj(_) => SubEffectAt(kind, sub, v, before, after)
    case _ =>
      if kind == Remove then after == before
      else after.Obj? && Reads(map[], sub, v, after.fields)
  }

  ghost predicate Effect(kind: OpKind, p: PatchPath, v: Json, before: Json, after: Json) {
    if p.filter.Some? then FilterEffect(kind, p.filter.value, p.sub, v, before, after)
    else if p.sub != "" then SubEffect(kind, p.sub, v, before, after)
    else WholeEffect(kind, v, before, after)
  }

  // ----- the parts -----

  lemma PutReads(o: Object, name: string, v: Json)
    requires CaseUnique(o)
    ensures Reads(o, name, v, Put(o, name, v))
  {
    forall n ensures Lookup(Put(o, name, v), n) == if EqualFold(name, n) then v else Lookup(o, n) {
      LookupPut(o, name, v, n);
    }
  }

  lemma DropLoses(o: Object, name: string)
    requires CaseUnique(o)
    ensures Loses(o, name, Drop(o, name))
  {
    forall n ensures Lookup(Drop(o, name), n) == if EqualFold(name, n) then Null else Lookup(o, n) {
      LookupDrop(o, name, n);
    }
    forall k | k in Drop(o, name) ensures !EqualFold(k, name) {
      if EqualFold(k, name) { assert EqualFold(k, KeyOf(o, name)); }
    }
  }

  lemma MergeReads(o: Object, w: Object, n: string)
    requires CaseUnique(o) && CaseUnique(w)
    ensures Lookup(Merge(o, w), n) == if HasKey(w, n) then Lookup(w, n) else Lookup(o, n)
  {
    var r := Merge(o, w);
    if HasKey(o, n) {
      var k := KeyOf(o, n);
      assert k in r;
      OneOfName(o, w, n, k);
      if HasKey(w, n) { SameNameFound(w, k, n); }
    } else if HasKey(w, n) {
      var k := KeyOf(w, n);
      NoneOfName(o, n, k);
      OneOfName(o, w, n, k);
    } else {
      assert !HasKey(r, n);
    }
  }

  lemma NoneOfName(o: Object, n: string, k: string)
    requires !HasKey(o, n) && EqualFold(k, n)
    ensures !HasKey(o, k) && k !in o
  {
    forall l | l in o ensures !EqualFold(l, k) { assert !EqualFold(l, n); }
  }

  lemma SameNameFound(w: Object, k: string, n: string)
    requires CaseUnique(w) && EqualFold(k, n) && HasKey(w, n)
    ensures HasKey(w, k) && Lookup(w, k) == Lookup(w, n)
  {
    assert EqualFold(KeyOf(w, n), k);
    assert EqualFold(KeyOf(w, k), KeyOf(w, n));
  }

  // The merged object has one key of the name.
  lemma OneOfName(o: Object, w: Object, n: string, k: string)
    requires CaseUnique(o) && CaseUnique(w) && k in Merge(o, w) && EqualFold(k, n)
    ensures Lookup(Merge(o, w), n) == Merge(o, w)[k]
  {
    var r := Merge(o, w);
    var l := KeyOf(r, n);
    assert EqualFold(k, l);
    if k != l {
      if k in o && l !in o { assert HasKey(o, l); }
      if l in o && k !in o { assert HasKey(o, k); }
    }
  }

  lemma MergeTakes(o: Object, w: Object)
    requires CaseUnique(o) && CaseUnique(w)
    ensures Takes(o, w, Merge(o, w))
  {
    forall n ensures Lookup(Merge(o, w), n) == if HasKey(w, n) then Lookup(w, n) else Lookup(o, n) {
      MergeReads(o, w, n);
    }
  }

  lemma ElementUpdated(elem: Json, f: Filter, sub: string, v: Json)
    requires Unique(elem) && Unique(v)
    ensures if Accepts(f, elem) then Updated(elem, sub, v, UpdateElement(elem, f, sub, v))
            else UpdateElement(elem, f, sub, v) == elem
  {
    if elem.Obj? {
      PutReads(elem.fields, sub, v);
      if v.Obj? { MergeTakes(elem.fields, v.fields); }
    }
  }

  lemma ListUpdated(items: seq<Json>, kind: OpKind, f: Filter, sub: string, v: Json)
    requires Unique(Arr(items)) && Unique(v) && kind != Remove
    ensures var r := UpdateSelected(items, f, sub, v);
            |r| == |items| && forall i :: 0 <= i < |r| ==> FilterEffectAt(kind, f, sub, v, items[i], r[i])
  {
    forall i | 0 <= i < |items| ensures FilterEffectAt(kind, f, sub, v, items[i], UpdateSelected(items, f, sub, v)[i]) {
      ElementUpdated(items[i], f, sub, v);
    }
  }

  lemma ListDropped(items: seq<Json>, f: Filter, sub: string, v: Json)
    requires Unique(Arr(items))
    ensures var r := DropInSelected(items, f, sub);
            |r| == |items| && forall i :: 0 <= i < |r| ==> FilterEffectAt(Remove, f, sub, v, items[i], r[i])
    ensures var r := DropInAll(items, sub);
            |r| == |items| && forall i :: 0 <= i < |r| ==> SubEffectAt(Remove, sub, v, items[i], r[i])
  {
    forall i | 0 <= i < |items|
      ensures FilterEffectAt(Remove, f, sub, v, items[i], DropInSelected(items, f, sub)[i])
      ensures SubEffectAt(Remove, sub, v, items[i], DropInAll(items, sub)[i])
    {
      if items[i].Obj? { DropLoses(items[i].fields, sub); }
    }
  }

  lemma ListSet(items: seq<Json>, kind: OpKind, sub: string, v: Json)
    requires Unique(Arr(items)) && sub != "" && kind != Remove
    ensures var r := SetInAll(items, sub, v);
            |r| == |items| && forall i :: 0 <= i < |r| ==> SubEffectAt(kind, sub, v, items[i], r[i])
  {
    forall i | 0 <= i < |items| ensures SubEffectAt(kind, sub, v, items[i], SetInAll(items, sub, v)[i]) {
      if items[i].Obj? { PutReads(items[i].fields, sub, v); }
    }
  }

  // The places of the elements that stay.
  ghost function Places(items: seq<Json>, f: Filter): (at: seq<nat>)
    ensures forall k :: 0 <= k < |at| ==> at[k] < |items|
  {
    if items == [] then []
    else
      var n := |items| - 1;
      var before := Places(items[..n], f);
      if Accepts(f, items[n]) then before else before + [n]
  }

  lemma RestNext(items: seq<Json>, e: Json, f: Filter, kept: seq<Json>, at: seq<nat>)
    requires RestAt(items, f, kept, at)
    ensures Accepts(f, e) ==> RestAt(items + [e], f, kept, at)
    ensures !Accepts(f, e) ==> RestAt(items + [e], f, kept + [e], at + [|items|])
  {
    var more := at + [|items|];
    forall i | 0 <= i < |items + [e]| && !Accepts(f, (items + [e])[i]) ensures i in more {
      if i < |items| { assert i in at; }
    }
  }

  lemma {:induction false} KeptIsRest(items: seq<Json>, f: Filter)
    ensures RestAt(items, f, KeepUnselected(items, f), Places(items, f))
  {
    if items != [] {
      var n := |items| - 1;
      var before, kept := items[..n], KeepUnselected(items[..n], f);
      KeptIsRest(before, f);
      KeepLast(items, f);
      assert items == before + [items[n]] && |before| == n;
      RestNext(before, items[n], f, kept, Places(before, f));
      assert Places(items, f) == if Accepts(f, items[n]) then Places(before, f) else Places(before, f) + [n];
    }
  }

  lemma RemovedByFilter(items: seq<Json>, f: Filter)
    ensures Rest(items, f, KeepUnselected(items, f))
  {
    KeptIsRest(items, f);
  }

  // ----- the whole effect -----

  lemma FilteredWrite(m: Object, kind: OpKind, p: PatchPath, v: Json)
    requires Unique(Obj(m)) && Unique(v) && p.filter.Some? && (kind == Add || kind == Replace)
    ensures var r := ApplyOp(m, PatchOp(kind, Some(p), v));
            var before := GetPath(m, p.attribute);
            (r.Err? <==> kind == Add && before == Null) && (r.Err? ==> r.error == NoTarget)
            && (r.Ok? ==> Effect(kind, p, v, before, GetPath(r.value, p.attribute)))
  {
    var before, f := GetPath(m, p.attribute), p.filter.value;
    GetPathUnique(m, p.attribute);
    if before == Null {
      GetSet(m, p.attribute, v);
    } else {
      var items := Elements(before);
      ElementListsUnique(items, f, p.sub, v);
      ListUpdated(items, kind, f, p.sub, v);
      GetSet(m, p.attribute, Arr(UpdateSelected(items, f, p.sub, v)));
    }
  }

  lemma FilteredRemove(m: Object, p: PatchPath, v: Json)
    requires Unique(Obj(m)) && p.filter.Some?
    ensures var r := ApplyOp(m, PatchOp(Remove, Some(p), v));
            r.Ok? && Effect(Remove, p, v, GetPath(m, p.attribute), GetPath(r.value, p.attribute))
  {
    var before, f := GetPath(m, p.attribute), p.filter.value;
    GetPathUnique(m, p.attribute);
    if before != Null {
      var items := Elements(before);
      if p.sub == "" {
        KeptUnique(items, f);
        RemovedByFilter(items, f);
        GetSet(m, p.attribute, Arr(KeepUnselected(items, f)));
      } else {
        DroppedListsUnique(items, f, p.sub);
        ListDropped(items, f, p.sub, v);
        GetSet(m, p.attribute, Arr(DropInSelected(items, f, p.sub)));
      }
    }
  }

  lemma SubWriteList(m: Object, kind: OpKind, p: PatchPath, v: Json, items: seq<Json>)
    requires Unique(Obj(m)) && Unique(v) && p.filter.None? && p.sub != "" && (kind == Add || kind == Replace)
    requires GetPath(m, p.attribute) == Arr(items)
    ensures var r := ApplyOp(m, PatchOp(kind, Some(p), v));
            r.Ok? && SubEffect(kind, p.sub, v, Arr(items), GetPath(r.value, p.attribute))
  {
    GetPathUnique(m, p.attribute);
    ElementListsUnique(items, Not(Compare(p.attribute, Pr, Null)), p.sub, v);
    ListSet(items, kind, p.sub, v);
    GetSet(m, p.attribute, Arr(SetInAll(items, p.sub, v)));
  }

  lemma SubWriteObject(m: Object, kind: OpKind, p: PatchPath, v: Json, fields: Object)
    requires Unique(Obj(m)) && Unique(v) && p.filter.None? && p.sub != "" && (kind == Add || kind == Replace)
    requires GetPath(m, p.attribute) == Obj(fields)
    ensures var r := ApplyOp(m, PatchOp(kind, Some(p), v));
            r.Ok? && SubEffect(kind, p.sub, v, Obj(fields), GetPath(r.value, p.attribute))
  {
    GetPathUnique(m, p.attribute);
    PutKeepsUnique(fields, p.sub, v);
    PutReads(fields, p.sub, v);
    GetSet(m, p.attribute, Obj(Put(fields, p.sub, v)));
  }

  lemma SubWriteNew(m: Object, kind: OpKind, p: PatchPath, v: Json)
    requires Unique(Obj(m)) && Unique(v) && p.filter.None? && p.sub != "" && (kind == Add || kind == Replace)
    requires !GetPath(m, p.attribute).Arr? && !GetPath(m, p.attribute).Obj?
    ensures var r := ApplyOp(m, PatchOp(kind, Some(p), v));
            r.Ok? && SubEffect(kind, p.sub, v, GetPath(m, p.attribute), GetPath(r.value, p.attribute))
  {
    PutReads(map[], p.sub, v);
    assert Put(map[], p.sub, v) == map[p.sub := v];
    GetSet(m, p.attribute, Obj(map[p.sub := v]));
  }

  lemma SubWrite(m: Object, kind: OpKind, p: PatchPath, v: Json)
    requires Unique(Obj(m)) && Unique(v) && p.filter.None? && p.sub != "" && (kind == Add || kind == Replace)
    ensures var r := ApplyOp(m, PatchOp(kind, Some(p), v));
            r.Ok? && Effect(kind, p, v, GetPath(m, p.attribute), GetPath(r.value, p.attribute))
  {
    match GetPath(m, p.attribute)
    case Arr(items) => SubWriteList(m, kind, p, v, items);
    case Obj(fields) => SubWriteObject(m, kind, p, v, fields);
    case _ => SubWriteNew(m, kind, p, v);
  }

  lemma SubRemove(m: Object, p: PatchPath, v: Json)
    requires Unique(Obj(m)) && p.filter.None? && p.sub != ""
    ensures var r := ApplyOp(m, PatchOp(Remove, Some(p), v));
            r.Ok? && Effect(Remove, p, v, GetPath(m, p.attribute), GetPath(r.value, p.attribute))
  {
    var before, f := GetPath(m, p.attribute), Not(Compare(p.attribute, Pr, Null));
    GetPathUnique(m, p.attribute);
    match before
    case Arr(items) =>
      DroppedListsUnique(items, f, p.sub);
      ListDropped(items, f, p.sub, v);
      GetSet(m, p.attribute, Arr(DropInAll(items, p.sub)));
    case Obj(fields) =>
      DropKeepsUnique(fields, p.sub);
      DropLoses(fields, p.sub);
      GetSet(m, p.attribute, Obj(Drop(fields, p.sub)));
    case _ =>
  }

  lemma DeletedIsNull(m: Object, p: AttributePath)
    requires Unique(Obj(m))
    ensures GetPath(DeletePath(m, p), p) == Null
  {
    var v := Lookup(m, p.name);
    LookupDrop(m, p.name, p.name);
    if v.Obj? {
      LookupKeepsUnique(m, p.name);
      LookupDrop(v.fields, p.sub, p.sub);
      LookupPut(m, p.name, Obj(Drop(v.fields, p.sub)), p.name);
    }
  }

  lemma WholeEffectHolds(m: Object, kind: OpKind, p: PatchPath, v: Json)
    requires Unique(Obj(m)) && Unique(v) && p.filter.None? && p.sub == "" && kind != Unknown
    ensures var r := ApplyOp(m, PatchOp(kind, Some(p), v));
            r.Ok? && Effect(kind, p, v, GetPath(m, p.attribute), GetPath(r.value, p.attribute))
  {
    var before := GetPath(m, p.attribute);
    GetPathUnique(m, p.attribute);
    DeletedIsNull(m, p.attribute);
    GetSet(m, p.attribute, v);
    if before.Arr? { GetSet(m, p.attribute, Arr(before.items + Elements(v))); }
  }

  // Whatever the operation: what is read at its path afterwards, and when it fails.
  lemma OpEffect(m: Object, kind: OpKind, p: PatchPath, v: Json)
    requires Unique(Obj(m)) && Unique(v)
    ensures var r := ApplyOp(m, PatchOp(kind, Some(p), v));
            var before := GetPath(m, p.attribute);
            (r.Err? <==> kind == Unknown || (kind == Add && p.filter.Some? && before == Null))
            && (r.Err? ==> r.error == if kind == Unknown then BadPatch else NoTarget)
            && (r.Ok? ==> Effect(kind, p, v, before, GetPath(r.value, p.attribute)))
  {
    if kind != Unknown {
      if p.filter.Some? {
        if kind == Remove { FilteredRemove(m, p, v); } else { FilteredWrite(m, kind, p, v); }
      } else if p.sub != "" {
        if kind == Remove { SubRemove(m, p, v); } else { SubWrite(m, kind, p, v); }
      } else {
        WholeEffectHolds(m, kind, p, v);
      }
    }
  }

  // Without a path, adding and replacing take the names of the value, which must be an object.
  lemma OpWithoutPath(m: Object, kind: OpKind, v: Json)
    requires Unique(Obj(m)) && Unique(v)
    ensures var r := ApplyOp(m, PatchOp(kind, None, v));
            (r.Ok? <==> (kind == Add || kind == Replace) && v.Obj?)
            && (r.Err? ==> r.error == if kind == Remove then NoTarget else BadPatch)
            && (r.Ok? ==> Takes(m, v.fields, r.value))
  {
    if v.Obj? { MergeTakes(m, v.fields); }
  }

  // ----- what is read elsewhere -----

  // A path to another attribute, or to another sub-attribute of one that is an object or absent.
  ghost predicate Elsewhere(m: Object, p: AttributePath, q: AttributePath) {
    !EqualFold(p.name, q.name)
    || (p.sub != "" && q.sub != "" && !EqualFold(p.sub, q.sub)
        && (Lookup(m, p.name).Obj? || Lookup(m, p.name) == Null))
  }

  lemma SetElsewhere(m: Object, p: AttributePath, v: Json, q: AttributePath)
    requires Unique(Obj(m)) && Elsewhere(m, p, q)
    ensures GetPath(SetPath(m, p, v), q) == GetPath(m, q)
  {
    if p.sub == "" {
      LookupPut(m, p.name, v, q.name);
    } else {
      var parent := Lookup(m, p.name);
      LookupKeepsUnique(m, p.name);
      var inner := if parent.Obj? then parent.fields else map[];
      LookupPut(m, p.name, Obj(Put(inner, p.sub, v)), q.name);
      LookupPut(inner, p.sub, v, q.sub);
      if EqualFold(p.name, q.name) { SameLookup(m, p.name, q.name); }
    }
  }

  lemma SameLookup(m: Object, n: string, o: string)
    requires CaseUnique(m) && EqualFold(n, o)
    ensures Lookup(m, n) == Lookup(m, o)
  {
    if HasKey(m, n) { SameNameFound(m, o, n); }
    if HasKey(m, o) { SameNameFound(m, n, o); }
  }

  lemma DeleteElsewhere(m: Object, p: AttributePath, q: AttributePath)
    requires Unique(Obj(m)) && Elsewhere(m, p, q)
    ensures GetPath(DeletePath(m, p), q) == GetPath(m, q)
  {
    var v := Lookup(m, p.name);
    LookupDrop(m, p.name, q.name);
    if v.Obj? && p.sub != "" {
      LookupKeepsUnique(m, p.name);
      LookupDrop(v.fields, p.sub, q.sub);
      LookupPut(m, p.name, Obj(Drop(v.fields, p.sub)), q.name);
      if EqualFold(p.name, q.name) { SameLookup(m, p.name, q.name); }
    }
  }

  // Every other path reads as before.
  lemma OpElsewhere(m: Object, kind: OpKind, p: PatchPath, v: Json, q: AttributePath)
    requires Unique(Obj(m)) && Elsewhere(m, p.attribute, q) && ApplyOp(m, PatchOp(kind, Some(p), v)).Ok?
    ensures GetPath(ApplyOp(m, PatchOp(kind, Some(p), v)).value, q) == GetPath(m, q)
  {
    var r := ApplyOp(m, PatchOp(kind, Some(p), v)).value;
    match kind {
      case Add => AddWrites(m, p, v);
      case Remove => RemoveWrites(m, p);
      case Replace => ReplaceWrites(m, p, v);
    }
    if r == DeletePath(m, p.attribute) {
      DeleteElsewhere(m, p.attribute, q);
    } else if r != m {
      var w :| r == SetPath(m, p.attribute, w);
      SetElsewhere(m, p.attribute, w, q);
    }
  }
}
