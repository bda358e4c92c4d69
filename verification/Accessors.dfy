// Reading, writing and deleting an attribute of a resource by path.
module Accessors {
  import opened Text
  import opened Values
  import opened Objects
  import opened Paths
  import opened ResourceObjects

  // ----- on attributes without case clashes -----

  // Null when there is no such value.
  ghost function GetPath(m: Object, p: AttributePath): Json {
    var v := Lookup(m, p.name);
    if p.sub == "" then v else if v.Obj? then Lookup(v.fields, p.sub) else Null
  }

  // A sub-attribute replaces anything that is not an object by a fresh object.
  ghost function SetPath(m: Object, p: AttributePath, v: Json): Object {
    if p.sub == "" then Put(m, p.name, v)
    else
      var parent := Lookup(m, p.name);
      Put(m, p.name, Obj(Put(if parent.Obj? then parent.fields else map[], p.sub, v)))
  }

  ghost function DeletePath(m: Object, p: AttributePath): Object {
    var v := Lookup(m, p.name);
    if p.sub == "" then Drop(m, p.name)
    else if v.Obj? then Put(m, p.name, Obj(Drop(v.fields, p.sub)))
    else m
  }

  // ----- what every write keeps -----

  // The two objects agree on all keys that are not name up to case.
  ghost predicate KeepsOthers(m: Object, r: Object, name: string) {
    (forall k :: k in m && !EqualFold(k, name) ==> k in r && r[k] == m[k])
    && (forall k :: k in r && !EqualFold(k, name) ==> k in m)
  }

  lemma PutKeepsUnique(m: Object, name: string, v: Json)
    requires Unique(Obj(m)) && Unique(v)
    ensures Unique(Obj(Put(m, name, v)))
  {
    LookupPut(m, name, v, name);
  }

  lemma DropKeepsUnique(m: Object, name: string)
    requires Unique(Obj(m))
    ensures Unique(Obj(Drop(m, name)))
  {
  }

  lemma LookupKeepsUnique(m: Object, name: string)
    requires Unique(Obj(m))
    ensures Unique(Lookup(m, name))
  {
  }

  lemma GetPathUnique(m: Object, p: AttributePath)
    requires Unique(Obj(m))
    ensures Unique(GetPath(m, p))
  {
    LookupKeepsUnique(m, p.name);
    if Lookup(m, p.name).Obj? { LookupKeepsUnique(Lookup(m, p.name).fields, p.sub); }
  }

  lemma SetPathUnique(m: Object, p: AttributePath, v: Json)
    requires Unique(Obj(m)) && Unique(v)
    ensures Unique(Obj(SetPath(m, p, v)))
  {
    if p.sub == "" {
      PutKeepsUnique(m, p.name, v);
    } else {
      var parent := Lookup(m, p.name);
      LookupKeepsUnique(m, p.name);
      var inner := if parent.Obj? then parent.fields else map[];
      PutKeepsUnique(inner, p.sub, v);
      PutKeepsUnique(m, p.name, Obj(Put(inner, p.sub, v)));
    }
  }

  lemma DeletePathUnique(m: Object, p: AttributePath)
    requires Unique(Obj(m))
    ensures Unique(Obj(DeletePath(m, p)))
  {
    var v := Lookup(m, p.name);
    LookupKeepsUnique(m, p.name);
    DropKeepsUnique(m, p.name);
    if v.Obj? {
      DropKeepsUnique(v.fields, p.sub);
      PutKeepsUnique(m, p.name, Obj(Drop(v.fields, p.sub)));
    }
  }

  // Reading back what was written, and writing what is there.
  lemma GetSet(m: Object, p: AttributePath, v: Json)
    requires Unique(Obj(m)) && Unique(v)
    ensures GetPath(SetPath(m, p, v), p) == v
  {
    if p.sub == "" {
      LookupPut(m, p.name, v, p.name);
    } else {
      var parent := Lookup(m, p.name);
      LookupKeepsUnique(m, p.name);
      var inner := if parent.Obj? then parent.fields else map[];
      LookupPut(inner, p.sub, v, p.sub);
      LookupPut(m, p.name, Obj(Put(inner, p.sub, v)), p.name);
    }
  }

  // ----- what a write to a sub-attribute keeps of its parent -----

  // The parts of a value other than one sub-attribute: the entries of an object, the elements of a list, or
  // the value itself.
  datatype Part = Entry(key: string, value: Json) | Element(item: Json) | Whole(j: Json)

  predicate IsPart(part: Part, j: Json, sub: string) {
    match j
    case Null => false
    case Obj(fields) => part.Entry? && part.key in fields && fields[part.key] == part.value && !EqualFold(part.key, sub)
    case Arr(items) => part.Element? && part.item in items
    case _ => part == Whole(j)
  }

  ghost predicate LosesNothing(before: Json, after: Json, sub: string) {
    forall part :: IsPart(part, before, sub) ==> IsPart(part, after, sub)
  }

  // The write loses nothing else exactly when the parent is absent, an object or an empty list.
  lemma SubWriteKeeps(m: Object, p: AttributePath, v: Json)
    requires CaseUnique(m) && p.sub != ""
    ensures var before, after := Lookup(m, p.name), Lookup(SetPath(m, p, v), p.name);
            LosesNothing(before, after, p.sub) <==> before.Null? || before.Obj? || before == Arr([])
  {
    var before := Lookup(m, p.name);
    var inner := if before.Obj? then before.fields else map[];
    var after := Obj(Put(inner, p.sub, v));
    LookupPut(m, p.name, after, p.name);
    match before
    case Null =>
    case Obj(_) =>
    case Arr(items) => if items != [] {
      assert IsPart(Element(items[0]), before, p.sub) && !IsPart(Element(items[0]), after, p.sub);
    }
    case _ => assert IsPart(Whole(before), before, p.sub) && !IsPart(Whole(before), after, p.sub);
  }

  lemma PutSame(m: Object, name: string)
    requires HasKey(m, name)
    ensures Put(m, name, Lookup(m, name)) == m
  {
    assert m[KeyOf(m, name) := m[KeyOf(m, name)]] == m;
  }

  lemma SetGet(m: Object, p: AttributePath)
    requires GetPath(m, p) != Null
    ensures SetPath(m, p, GetPath(m, p)) == m
  {
    PutSame(m, p.name);
    if p.sub != "" { PutSame(Lookup(m, p.name).fields, p.sub); }
  }

  // ----- on a resource -----

  // The value that some walk over each of the two maps finds.
  ghost predicate MayRead(m: Object, p: AttributePath, v: Json) {
    exists top :: MayFind(m, p.name, top) && MayReadIn(top, p.sub, v)
  }

  ghost predicate MayReadIn(top: Json, sub: string, v: Json) {
    if sub == "" then v == top else if top.Obj? then MayFind(top.fields, sub, v) else v == Null
  }

  method Get(r: Resource, p: AttributePath) returns (v: Json)
    ensures MayRead(r.attributes, p, v)
    ensures Unique(Obj(r.attributes)) ==> v == GetPath(r.attributes, p)
  {
    v := LookupKey(r.attributes, p.name);
    if Unique(Obj(r.attributes)) {
      FindUnique(r.attributes, p.name, v);
      LookupKeepsUnique(r.attributes, p.name);
    }
    ghost var top := v;
    if v == Null || p.sub == "" {
      assert MayReadIn(top, p.sub, v);
      return;
    }
    if v.Obj? {
      v := LookupKey(v.fields, p.sub);
      if CaseUnique(top.fields) { FindUnique(top.fields, p.sub, v); }
      assert MayReadIn(top, p.sub, v);
      return;
    }
    v := Null;
    assert MayReadIn(top, p.sub, v);
  }

  method SetAttr(r: Resource, name: string, v: Json)
    modifies r`attributes
    ensures KeepsOthers(old(r.attributes), r.attributes, name)
    ensures CaseUnique(old(r.attributes)) ==> r.attributes == Put(old(r.attributes), name, v)
  {
    var m := r.attributes;
    var a := SetKey(m, name, v);
    if CaseUnique(m) { PutUnique(m, name, v, a); }
    r.attributes := a;
  }

  method Set(r: Resource, p: AttributePath, v: Json)
    modifies r`attributes
    ensures KeepsOthers(old(r.attributes), r.attributes, p.name)
    ensures Unique(Obj(old(r.attributes))) ==> r.attributes == SetPath(old(r.attributes), p, v)
  {
    if p.sub == "" {
      SetAttr(r, p.name, v);
      return;
    }
    var parent := LookupKey(r.attributes, p.name);
    if Unique(Obj(r.attributes)) {
      FindUnique(r.attributes, p.name, parent);
      LookupKeepsUnique(r.attributes, p.name);
    }
    var parentMap: Object := map[];
    if parent.Obj? { parentMap := parent.fields; }
    var inner := SetKey(parentMap, p.sub, v);
    if CaseUnique(parentMap) { PutUnique(parentMap, p.sub, v, inner); }
    SetAttr(r, p.name, Obj(inner));
  }

  method Delete(r: Resource, p: AttributePath)
    modifies r`attributes
    ensures KeepsOthers(old(r.attributes), r.attributes, p.name)
    ensures Unique(Obj(old(r.attributes))) ==> r.attributes == DeletePath(old(r.attributes), p)
  {
    if p.sub == "" {
      var m := r.attributes;
      var a := DropKey(m, p.name);
      if CaseUnique(m) { DropUnique(m, p.name, a); }
      r.attributes := a;
      return;
    }
    var parent := LookupKey(r.attributes, p.name);
    if Unique(Obj(r.attributes)) {
      FindUnique(r.attributes, p.name, parent);
      LookupKeepsUnique(r.attributes, p.name);
    }
    if parent.Obj? {
      var inner := DropKey(parent.fields, p.sub);
      if CaseUnique(parent.fields) { DropUnique(parent.fields, p.sub, inner); }
      SetAttr(r, p.name, Obj(inner));
    }
  }
}
