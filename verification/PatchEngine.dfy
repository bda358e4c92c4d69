// The PATCH engine as it runs: loops that write into copied arrays and into the attributes of a clone.
module PatchEngine {
  import opened Text
  import opened Values
  import opened Objects
  import opened Paths
  import opened Filters
  import opened FilterEval
  import opened PatchPaths
  import opened Resources
  import opened ResourceObjects
  import opened Accessors
  import opened Patches
  import opened Choices

  // ----- merging one object into another -----

  ghost predicate MergeKeeps(m: Object, o: Object, r: Object) {
    (forall k :: k in m && !HasKey(o, k) ==> k in r && r[k] == m[k])
    && (forall k :: k in r && !HasKey(o, k) ==> k in m)
  }

  lemma MergeCaseUnique(m: Object, o: Object)
    requires CaseUnique(m) && CaseUnique(o)
    ensures CaseUnique(Merge(m, o))
  {
    var r := Merge(m, o);
    forall k, l | k in r && l in r && EqualFold(k, l) ensures k == l {
      if k in m && l !in m { assert HasKey(m, l); }
      if l in m && k !in m { assert HasKey(m, k); }
    }
  }

  lemma MergeStep(m: Object, o: Object, k: string, v: Json)
    requires CaseUnique(m) && k !in o && CaseUnique(o) && CaseUnique(o[k := v])
    ensures Put(Merge(m, o), k, v) == Merge(m, o[k := v])
  {
    var a, b := Merge(m, o), Merge(m, o[k := v]);
    MergeCaseUnique(m, o);
    var key := if HasKey(m, k) then KeyOf(m, k) else k;
    MergePutKey(m, o, k, v, key);
    forall n
      ensures n in b <==> n == key || n in a
      ensures n in b ==> b[n] == if n == key then v else a[n]
    {
      MergeEntry(m, o, k, v, key, n);
    }
    SameMap(a, b, key, v);
  }

  lemma SameMap(a: Object, b: Object, key: string, v: Json)
    requires forall n :: n in b <==> n == key || n in a
    requires forall n :: n in b ==> b[n] == if n == key then v else a[n]
    ensures b == a[key := v]
  {
  }

  lemma MergeAt(m: Object, o: Object, n: string)
    ensures n in Merge(m, o) <==> n in m || (n in o && !HasKey(m, n))
    ensures n in m ==> Merge(m, o)[n] == if HasKey(o, n) then Lookup(o, n) else m[n]
    ensures n !in m && n in Merge(m, o) ==> Merge(m, o)[n] == o[n]
  {
  }

  lemma MergeEntry(m: Object, o: Object, k: string, v: Json, key: string, n: string)
    requires CaseUnique(m) && k !in o && CaseUnique(o[k := v])
    requires key == if HasKey(m, k) then KeyOf(m, k) else k
    ensures n in Merge(m, o[k := v]) <==> n == key || n in Merge(m, o)
    ensures n in Merge(m, o[k := v]) ==> Merge(m, o[k := v])[n] == if n == key then v else Merge(m, o)[n]
  {
    MergeAt(m, o, n);
    MergeAt(m, o[k := v], n);
    if n in m {
      EntryAdded(o, k, v, n);
      assert EqualFold(k, n) ==> HasKey(m, k);
    } else if n == k {
      assert HasKey(m, k) <==> key != k;
    }
  }

  lemma MergePutKey(m: Object, o: Object, k: string, v: Json, key: string)
    requires CaseUnique(m) && CaseUnique(o) && k !in o && CaseUnique(o[k := v])
    requires key == if HasKey(m, k) then KeyOf(m, k) else k
    ensures Put(Merge(m, o), k, v) == Merge(m, o)[key := v]
  {
    var a := Merge(m, o);
    MergeCaseUnique(m, o);
    EntryAdded(o, k, v, k);
    if HasKey(m, k) {
      assert key in a;
    } else if HasKey(a, k) {
      assert false;
    }
  }

  lemma EntryAdded(o: Object, k: string, v: Json, n: string)
    requires k !in o && CaseUnique(o[k := v])
    ensures Lookup(o[k := v], n) == if EqualFold(k, n) then v else Lookup(o, n)
    ensures HasKey(o[k := v], n) <==> EqualFold(k, n) || HasKey(o, n)
    ensures EqualFold(k, n) ==> !HasKey(o, n)
  {
    LookupAddUnique(o, k, v, n);
    if HasKey(o, n) { assert KeyOf(o, n) in o[k := v]; }
    if EqualFold(k, n) { assert k in o[k := v]; }
  }

  lemma MergeNext(m: Object, o: Object, done: set<string>, k: string, before: Object, r: Object)
    requires CaseUnique(m) && CaseUnique(o) && k in o && k !in done
    requires before == Merge(m, Restrict(o, done)) && MayPut(before, k, o[k], r)
    ensures r == Merge(m, Restrict(o, done + {k}))
  {
    RestrictStep(o, done, k);
    assert CaseUnique(Restrict(o, done));
    MergeCaseUnique(m, Restrict(o, done));
    MergeStep(m, Restrict(o, done), k, o[k]);
    PutUnique(before, k, o[k], r);
  }

  method MergeInto(m: Object, o: Object) returns (r: Object)
    ensures MergeKeeps(m, o, r)
    ensures CaseUnique(m) && CaseUnique(o) ==> r == Merge(m, o)
  {
    r := m;
    var rest := o.Keys;
    assert Restrict(o, {}) == map[] && Merge(m, map[]) == m;
    while rest != {}
      invariant rest <= o.Keys
      invariant MergeKeeps(m, o, r)
      invariant CaseUnique(m) && CaseUnique(o) ==> r == Merge(m, Restrict(o, o.Keys - rest))
      decreases rest
    {
      var k :| k in rest;
      ghost var done := o.Keys - rest;
      ghost var before := r;
      r := SetKey(r, k, o[k]);
      if CaseUnique(m) && CaseUnique(o) { MergeNext(m, o, done, k, before, r); }
      MergeKeepsNext(m, o, k, before, r);
      rest := rest - {k};
      assert o.Keys - rest == done + {k};
    }
    assert Restrict(o, o.Keys - rest) == o;
  }

  lemma MergeKeepsNext(m: Object, o: Object, k: string, before: Object, r: Object)
    requires MergeKeeps(m, o, before) && k in o && MayPut(before, k, o[k], r)
    ensures MergeKeeps(m, o, r)
  {
    PutKeeps(before, k, o[k], r, o);
  }

  lemma PutKeeps(m: Object, name: string, v: Json, r: Object, o: Object)
    requires MayPut(m, name, v, r) && name in o
    ensures MergeKeeps(m, o, r)
  {
  }

  // ----- one element -----

  // What the walks can make of an element, whatever its keys.
  ghost predicate MaySelect(elem: Json, f: Filter, b: bool) { if elem.Obj? then MayEval(f, elem.fields, b) else !b }

  ghost predicate MaySetIn(elem: Json, name: string, v: Json, r: Json) {
    if elem.Obj? then r.Obj? && MayPut(elem.fields, name, v, r.fields) else r == elem
  }

  ghost predicate MayDropIn(elem: Json, name: string, r: Json) {
    if elem.Obj? then r.Obj? && MayDrop(elem.fields, name, r.fields) else r == elem
  }

  ghost predicate MayWrite(elem: Json, sub: string, v: Json, r: Json) {
    if sub != "" then MaySetIn(elem, sub, v, r)
    else if v.Obj? then elem.Obj? && r.Obj? && MergeKeeps(elem.fields, v.fields, r.fields)
    else r == v
  }

  ghost predicate MayUpdate(elem: Json, f: Filter, sub: string, v: Json, r: Json) {
    (MaySelect(elem, f, false) && r == elem) || (MaySelect(elem, f, true) && MayWrite(elem, sub, v, r))
  }

  ghost predicate MayDropOne(elem: Json, f: Filter, sub: string, r: Json) {
    (MaySelect(elem, f, false) && r == elem) || (MaySelect(elem, f, true) && MayDropIn(elem, sub, r))
  }

  ghost function MayStay(f: Filter): (Json, bool) -> bool { (elem, b) => MaySelect(elem, f, !b) }

  // The elements that stay.
  ghost predicate MayKeep(items: seq<Json>, f: Filter, out: seq<Json>) { MayChoose(items, MayStay(f), Itself, out) }

  function Itself(j: Json): Json { j }

  method IsSelected(elem: Json, f: Filter) returns (b: bool)
    ensures MaySelect(elem, f, b)
    ensures Unique(elem) ==> b == Selected(elem, f)
  {
    if !elem.Obj? { return false; }
    b := EvalExpr(f, elem.fields);
    if Unique(elem) { OrderIrrelevant(f, elem.fields, b); }
  }

  method SetInElement(elem: Json, name: string, v: Json) returns (r: Json)
    ensures MaySetIn(elem, name, v, r)
    ensures Unique(elem) ==> r == if elem.Obj? then Obj(Put(elem.fields, name, v)) else elem
  {
    if !elem.Obj? { return elem; }
    var m := SetKey(elem.fields, name, v);
    if CaseUnique(elem.fields) { PutUnique(elem.fields, name, v, m); }
    r := Obj(m);
  }

  method DropInElement(elem: Json, name: string) returns (r: Json)
    ensures MayDropIn(elem, name, r)
    ensures Unique(elem) ==> r == if elem.Obj? then Obj(Drop(elem.fields, name)) else elem
  {
    if !elem.Obj? { return elem; }
    var m := DropKey(elem.fields, name);
    if CaseUnique(elem.fields) { DropUnique(elem.fields, name, m); }
    r := Obj(m);
  }

  method UpdateOne(elem: Json, f: Filter, sub: string, v: Json) returns (r: Json)
    ensures MayUpdate(elem, f, sub, v, r)
    ensures Unique(elem) && Unique(v) ==> r == UpdateElement(elem, f, sub, v)
  {
    var selected := IsSelected(elem, f);
    if !selected || !elem.Obj? { return elem; }
    if sub != "" {
      r := SetInElement(elem, sub, v);
    } else if v.Obj? {
      var m := MergeInto(elem.fields, v.fields);
      r := Obj(m);
    } else {
      r := v;
    }
  }

  method DropOne(elem: Json, f: Filter, sub: string) returns (r: Json)
    ensures MayDropOne(elem, f, sub, r)
    ensures Unique(elem) ==> r == if Selected(elem, f) then Obj(Drop(elem.fields, sub)) else elem
  {
    var selected := IsSelected(elem, f);
    if !selected { return elem; }
    r := DropInElement(elem, sub);
  }

  // ----- loops over the elements -----

  method UpdateMatching(arr: array<Json>, f: Filter, sub: string, v: Json)
    modifies arr
    ensures forall i :: 0 <= i < arr.Length ==> MayUpdate(old(arr[i]), f, sub, v, arr[i])
    ensures Unique(Arr(old(arr[..]))) && Unique(v) ==> arr[..] == UpdateSelected(old(arr[..]), f, sub, v)
  {
    ghost var was := arr[..];
    for i := 0 to arr.Length
      invariant arr[i..] == was[i..]
      invariant forall j :: 0 <= j < i ==> MayUpdate(was[j], f, sub, v, arr[j])
      invariant Unique(Arr(was)) && Unique(v) ==> arr[..i] == UpdateSelected(was, f, sub, v)[..i]
    {
      var updated := UpdateOne(arr[i], f, sub, v);
      assert arr[i] == arr[i..][0] == was[i];
      arr[i] := updated;
      assert arr[i + 1..] == was[i + 1..];
    }
  }

  method SetInEach(arr: array<Json>, sub: string, v: Json)
    modifies arr
    ensures forall i :: 0 <= i < arr.Length ==> MaySetIn(old(arr[i]), sub, v, arr[i])
    ensures Unique(Arr(old(arr[..]))) ==> arr[..] == SetInAll(old(arr[..]), sub, v)
  {
    ghost var was := arr[..];
    for i := 0 to arr.Length
      invariant arr[i..] == was[i..]
      invariant forall j :: 0 <= j < i ==> MaySetIn(was[j], sub, v, arr[j])
      invariant Unique(Arr(was)) ==> arr[..i] == SetInAll(was, sub, v)[..i]
    {
      assert arr[i] == arr[i..][0] == was[i];
      var updated := SetInElement(arr[i], sub, v);
      arr[i] := updated;
      assert arr[i + 1..] == was[i + 1..];
    }
  }

  method DropInEach(arr: array<Json>, sub: string)
    modifies arr
    ensures forall i :: 0 <= i < arr.Length ==> MayDropIn(old(arr[i]), sub, arr[i])
    ensures Unique(Arr(old(arr[..]))) ==> arr[..] == DropInAll(old(arr[..]), sub)
  {
    ghost var was := arr[..];
    for i := 0 to arr.Length
      invariant arr[i..] == was[i..]
      invariant forall j :: 0 <= j < i ==> MayDropIn(was[j], sub, arr[j])
      invariant Unique(Arr(was)) ==> arr[..i] == DropInAll(was, sub)[..i]
    {
      assert arr[i] == arr[i..][0] == was[i];
      var updated := DropInElement(arr[i], sub);
      arr[i] := updated;
      assert arr[i + 1..] == was[i + 1..];
    }
  }

  method DropInMatching(arr: array<Json>, f: Filter, sub: string)
    modifies arr
    ensures forall i :: 0 <= i < arr.Length ==> MayDropOne(old(arr[i]), f, sub, arr[i])
    ensures Unique(Arr(old(arr[..]))) ==> arr[..] == DropInSelected(old(arr[..]), f, sub)
  {
    ghost var was := arr[..];
    for i := 0 to arr.Length
      invariant arr[i..] == was[i..]
      invariant forall j :: 0 <= j < i ==> MayDropOne(was[j], f, sub, arr[j])
      invariant Unique(Arr(was)) ==> arr[..i] == DropInSelected(was, f, sub)[..i]
    {
      assert arr[i] == arr[i..][0] == was[i];
      var updated := DropOne(arr[i], f, sub);
      arr[i] := updated;
      assert arr[i + 1..] == was[i + 1..];
    }
  }

  lemma StayIsOnly(elem: Json, f: Filter, b: bool)
    requires Unique(elem)
    ensures MaySelect(elem, f, !b) <==> b == !Selected(elem, f)
  {
    if elem.Obj? { OrderIrrelevant(f, elem.fields, !b); }
  }

  lemma {:induction false} ChoiceIsKeep(items: seq<Json>, f: Filter, may: (Json, bool) -> bool, out: seq<Json>)
    requires forall i, b :: 0 <= i < |items| ==> (may(items[i], b) <==> b == !Selected(items[i], f))
    ensures MayChoose(items, may, Itself, out) <==> out == KeepUnselected(items, f)
    decreases |items|
  {
    if items != [] {
      var n := |items| - 1;
      KeepLast(items, f);
      ChoiceIsKeep(items[..n], f, may, out);
      if out != [] { ChoiceIsKeep(items[..n], f, may, out[..|out| - 1]); }
    }
  }

  lemma KeepIsOnly(items: seq<Json>, f: Filter, out: seq<Json>)
    requires Unique(Arr(items))
    ensures MayKeep(items, f, out) <==> out == KeepUnselected(items, f)
  {
    forall i, b | 0 <= i < |items| ensures MayStay(f)(items[i], b) <==> b == !Selected(items[i], f) {
      StayIsOnly(items[i], f, b);
    }
    ChoiceIsKeep(items, f, MayStay(f), out);
  }

  // The elements that stay are moved to the front of the same array; the first n slots are the result.
  method CompactUnselected(arr: array<Json>, f: Filter) returns (n: nat)
    modifies arr
    ensures n <= arr.Length && MayKeep(old(arr[..]), f, arr[..n])
    ensures Unique(Arr(old(arr[..]))) ==> arr[..n] == KeepUnselected(old(arr[..]), f)
  {
    ghost var was := arr[..];
    n := 0;
    for i := 0 to arr.Length
      invariant n <= i && arr[i..] == was[i..] && MayKeep(was[..i], f, arr[..n])
    {
      var elem := arr[i];
      assert elem == arr[i..][0] == was[i];
      assert arr[i + 1..] == was[i + 1..];
      var selected := IsSelected(elem, f);
      ghost var kept := arr[..n];
      ChooseNext(was, i, MayStay(f), Itself, kept, !selected);
      if !selected {
        arr[n] := elem;
        n := n + 1;
        assert arr[..n] == kept + [elem];
      }
    }
    assert was[..arr.Length] == was;
    if Unique(Arr(was)) { KeepIsOnly(was, f, arr[..n]); }
  }

  // ----- the operations -----

  // A copy of the elements of an attribute, a single value as a list of one; None when it is absent.
  method GetMultiValued(r: Resource, p: AttributePath) returns (arr: Option<array<Json>>)
    ensures arr.Some? ==> fresh(arr.value)
    ensures Unique(Obj(r.attributes)) ==>
              arr.Some? == (GetPath(r.attributes, p) != Null)
              && (arr.Some? ==> arr.value[..] == Elements(GetPath(r.attributes, p)))
  {
    var v := Get(r, p);
    if v == Null { return None; }
    var copy := CopyOf(Elements(v));
    arr := Some(copy);
  }

  method CopyOf(items: seq<Json>) returns (arr: array<Json>)
    ensures fresh(arr) && arr[..] == items
  {
    arr := new Json[|items|](i requires 0 <= i < |items| => items[i]);
  }

  // The outcome agrees with the specification on resources and values without case clashes.
  ghost predicate Agrees(m: Object, want: Outcome, a: Object, err: Option<PatchError>) {
    match want
    case Ok(r) => err == None && a == r
    case Err(e) => err == Some(e) && a == m
  }

  method UpdateValues(r: Resource, p: PatchPath, v: Json, arr: array<Json>)
    requires p.filter.Some?
    modifies r`attributes, arr
    ensures KeepsOthers(old(r.attributes), r.attributes, p.attribute.name)
    ensures Unique(Obj(old(r.attributes))) && Unique(Arr(old(arr[..]))) && Unique(v) ==>
              r.attributes == SetPath(old(r.attributes), p.attribute,
                Arr(UpdateSelected(old(arr[..]), p.filter.value, p.sub, v)))
  {
    UpdateMatching(arr, p.filter.value, p.sub, v);
    Set(r, p.attribute, Arr(arr[..]));
  }

  method SetSubAttribute(r: Resource, p: PatchPath, v: Json)
    modifies r`attributes
    ensures KeepsOthers(old(r.attributes), r.attributes, p.attribute.name)
    ensures Unique(Obj(old(r.attributes))) && Unique(v) ==> r.attributes == SetSub(old(r.attributes), p, v)
  {
    var existing := Get(r, p.attribute);
    if Unique(Obj(r.attributes)) { GetPathUnique(r.attributes, p.attribute); }
    if existing.Arr? {
      var arr := CopyOf(existing.items);
      SetInEach(arr, p.sub, v);
      Set(r, p.attribute, Arr(arr[..]));
    } else if existing.Obj? {
      var updated := SetInElement(existing, p.sub, v);
      Set(r, p.attribute, updated);
    } else {
      Set(r, p.attribute, Obj(map[p.sub := v]));
    }
  }

  method MergeAttributes(r: Resource, v: Json) returns (err: Option<PatchError>)
    modifies r`attributes
    ensures err == if v.Obj? then None else Some(BadPatch)
    ensures err.Some? ==> r.attributes == old(r.attributes)
    ensures MergeKeeps(old(r.attributes), if v.Obj? then v.fields else map[], r.attributes)
    ensures Unique(Obj(old(r.attributes))) && Unique(v) && v.Obj? ==> r.attributes == Merge(old(r.attributes), v.fields)
  {
    if !v.Obj? { return Some(BadPatch); }
    var merged := MergeInto(r.attributes, v.fields);
    r.attributes := merged;
    err := None;
  }

  method RunAdd(r: Resource, path: Option<PatchPath>, v: Json) returns (err: Option<PatchError>)
    modifies r`attributes
    ensures err.Some? ==> r.attributes == old(r.attributes)
    ensures OthersKept(PatchOp(Add, path, v), old(r.attributes), r.attributes)
    ensures Unique(Obj(old(r.attributes))) && Unique(v) ==>
              Agrees(old(r.attributes), ApplyAdd(old(r.attributes), path, v), r.attributes, err)
  {
    if path.None? {
      err := MergeAttributes(r, v);
      return;
    }
    var p := path.value;
    if Unique(Obj(r.attributes)) { GetPathUnique(r.attributes, p.attribute); }
    if p.filter.Some? {
      var arr := GetMultiValued(r, p.attribute);
      if arr.None? { return Some(NoTarget); }
      UpdateValues(r, p, v, arr.value);
    } else if p.sub != "" {
      SetSubAttribute(r, p, v);
    } else {
      var existing := Get(r, p.attribute);
      if existing.Arr? {
        Set(r, p.attribute, Arr(existing.items + Elements(v)));
      } else {
        Set(r, p.attribute, v);
      }
    }
    err := None;
  }

  method RunReplace(r: Resource, path: Option<PatchPath>, v: Json) returns (err: Option<PatchError>)
    modifies r`attributes
    ensures err.Some? ==> r.attributes == old(r.attributes)
    ensures OthersKept(PatchOp(Replace, path, v), old(r.attributes), r.attributes)
    ensures Unique(Obj(old(r.attributes))) && Unique(v) ==>
              Agrees(old(r.attributes), ApplyReplace(old(r.attributes), path, v), r.attributes, err)
  {
    if path.None? {
      err := MergeAttributes(r, v);
      return;
    }
    var p := path.value;
    if Unique(Obj(r.attributes)) { GetPathUnique(r.attributes, p.attribute); }
    if p.filter.Some? {
      var arr := GetMultiValued(r, p.attribute);
      if arr.None? {
        Set(r, p.attribute, v);
      } else {
        UpdateValues(r, p, v, arr.value);
      }
    } else if p.sub != "" {
      SetSubAttribute(r, p, v);
    } else {
      Set(r, p.attribute, v);
    }
    err := None;
  }

  method DropSubAttribute(r: Resource, p: PatchPath)
    requires p.filter.None? && p.sub != ""
    modifies r`attributes
    ensures KeepsOthers(old(r.attributes), r.attributes, p.attribute.name)
    ensures Unique(Obj(old(r.attributes))) ==> ApplyRemove(old(r.attributes), Some(p)) == Ok(r.attributes)
  {
    var existing := Get(r, p.attribute);
    if Unique(Obj(r.attributes)) { GetPathUnique(r.attributes, p.attribute); }
    if existing.Arr? {
      var arr := CopyOf(existing.items);
      DropInEach(arr, p.sub);
      Set(r, p.attribute, Arr(arr[..]));
    } else if existing.Obj? {
      var updated := DropInElement(existing, p.sub);
      Set(r, p.attribute, updated);
    }
  }

  method RunRemove(r: Resource, path: Option<PatchPath>) returns (err: Option<PatchError>)
    modifies r`attributes
    ensures err.Some? ==> r.attributes == old(r.attributes)
    ensures path.None? ==> err.Some?
    ensures path.Some? ==> KeepsOthers(old(r.attributes), r.attributes, path.value.attribute.name)
    ensures Unique(Obj(old(r.attributes))) ==>
              Agrees(old(r.attributes), ApplyRemove(old(r.attributes), path), r.attributes, err)
  {
    if path.None? { return Some(NoTarget); }
    var p := path.value;
    err := None;
    if p.filter.None? && p.sub == "" {
      Delete(r, p.attribute);
      return;
    }
    if p.filter.None? {
      DropSubAttribute(r, p);
      return;
    }
    if Unique(Obj(r.attributes)) { GetPathUnique(r.attributes, p.attribute); }
    var arr := GetMultiValued(r, p.attribute);
    if arr.None? { return; }
    if p.sub == "" {
      var n := CompactUnselected(arr.value, p.filter.value);
      Set(r, p.attribute, Arr(arr.value[..n]));
    } else {
      DropInMatching(arr.value, p.filter.value, p.sub);
      Set(r, p.attribute, Arr(arr.value[..]));
    }
  }

  method RunOp(r: Resource, op: PatchOp) returns (err: Option<PatchError>)
    modifies r`attributes
    ensures err.Some? ==> r.attributes == old(r.attributes)
    ensures OthersKept(op, old(r.attributes), r.attributes)
    ensures Unique(Obj(old(r.attributes))) && Unique(op.value) ==>
              Agrees(old(r.attributes), ApplyOp(old(r.attributes), op), r.attributes, err)
  {
    match op.kind
    case Add => err := RunAdd(r, op.path, op.value);
    case Remove => err := RunRemove(r, op.path);
    case Replace => err := RunReplace(r, op.path, op.value);
    case Unknown => err := Some(BadPatch);
  }

  // The operations from i on still have to turn the clone's attributes into the outcome.
  ghost predicate Patching(c: Content, ops: seq<PatchOp>, i: nat, working: Content) {
    i <= |ops| && working == Truncated(c).(attributes := working.attributes) && Unique(Obj(working.attributes))
    && ApplyOps(c.attributes, ops) == ApplyOps(working.attributes, ops[i..])
  }

  lemma PatchingNext(c: Content, ops: seq<PatchOp>, i: nat, before: Content, after: Content)
    requires Patching(c, ops, i, before) && i < |ops| && Unique(ops[i].value)
    requires ApplyOp(before.attributes, ops[i]).Ok?
        && after == before.(attributes := ApplyOp(before.attributes, ops[i]).value)
    ensures Patching(c, ops, i + 1, after)
  {
    assert ops[i..][0] == ops[i] && ops[i..][1..] == ops[i + 1..];
    OpKeepsUnique(before.attributes, ops[i]);
  }

  lemma PatchingFails(c: Content, ops: seq<PatchOp>, i: nat, before: Content)
    requires Patching(c, ops, i, before) && i < |ops| && ApplyOp(before.attributes, ops[i]).Err?
    ensures Patch(c, ops) == Err(ApplyOp(before.attributes, ops[i]).error)
  {
    assert ops[i..][0] == ops[i];
  }

  lemma PatchingEnds(c: Content, ops: seq<PatchOp>, working: Content)
    requires Patching(c, ops, |ops|, working)
    ensures Patch(c, ops) == Ok(working)
  {
  }

  ghost predicate UniqueOps(ops: seq<PatchOp>) { forall i :: 0 <= i < |ops| ==> Unique(ops[i].value) }

  // On any attributes, with or without case clashes: all but the attributes is as in the clone, and these
  // carry no reserved name when the operations target none.
  ghost predicate Patched(c: Content, ops: seq<PatchOp>, r: Content) {
    Settled(c.attributes) ==>
      (r == Truncated(c).(attributes := r.attributes) && (AvoidsReserved(ops) ==> Settled(r.attributes)))
  }

  lemma SettledStep(op: PatchOp, m: Object, r: Object)
    requires OthersKept(op, m, r) && Settled(m) && forall k :: Reserved(k) ==> !Targets(op, k)
    ensures Settled(r)
  {
  }

  lemma SettledNext(ops: seq<PatchOp>, i: nat, m: Object, r: Object)
    requires i < |ops| && OthersKept(ops[i], m, r)
    ensures Settled(m) && AvoidsReserved(ops) ==> Settled(r)
  {
    if Settled(m) && AvoidsReserved(ops) { SettledStep(ops[i], m, r); }
  }

  // The whole request on a clone: r is never written, and a failure discards the clone.
  method RunPatch(r: Resource, ops: seq<PatchOp>) returns (res: Result<Resource, PatchError>)
    ensures res.Ok? ==> fresh(res.value)
    ensures res.Ok? ==> Patched(r.Value(), ops, res.value.Value())
    ensures Settled(r.attributes) && Unique(Obj(r.attributes)) && UniqueOps(ops) ==>
              match Patch(r.Value(), ops)
              case Ok(c) => res.Ok? && res.value.Value() == c
              case Err(e) => res == Err(e)
  {
    var working := r.Clone();
    ghost var c := r.Value();
    ghost var good := Settled(r.attributes) && Unique(Obj(r.attributes)) && UniqueOps(ops);
    assert ops[0..] == ops;
    for i := 0 to |ops|
      invariant fresh(working)
      invariant Patched(c, ops, working.Value())
      invariant good ==> Patching(c, ops, i, working.Value())
    {
      ghost var before := working.Value();
      var err := RunOp(working, ops[i]);
      if err.Some? {
        if good { PatchingFails(c, ops, i, before); }
        return Err(err.value);
      }
      SettledNext(ops, i, before.attributes, working.attributes);
      if good { PatchingNext(c, ops, i, before, working.Value()); }
    }
    if good { PatchingEnds(c, ops, working.Value()); }
    res := Ok(working);
  }
}
