// Reading and writing object entries by a name whose case does not matter.
module Objects {
  import opened Text
  import opened Values

  ghost predicate HasKey(m: Object, name: string) {
    exists k :: k in m && EqualFold(k, name)
  }

  // ----- what one pass over the map, in any order, can return or leave -----

  ghost predicate MayFind(m: Object, name: string, v: Json) {
    if name in m then v == m[name]
    else if HasKey(m, name) then exists k :: k in m && EqualFold(k, name) && v == m[k]
    else v == Null
  }

  ghost predicate MayPut(m: Object, name: string, v: Json, r: Object) {
    if HasKey(m, name) then exists k :: k in m && EqualFold(k, name) && r == m[k := v] else r == m[name := v]
  }

  ghost predicate MayDrop(m: Object, name: string, r: Object) {
    if HasKey(m, name) then exists k :: k in m && EqualFold(k, name) && r == m - {k} else r == m
  }

  // ----- the one outcome for an object whose keys differ in more than case -----

  ghost function KeyOf(m: Object, name: string): (k: string)
    requires HasKey(m, name)
    ensures k in m && EqualFold(k, name)
  {
    var k :| k in m && EqualFold(k, name);
    k
  }

  ghost function Lookup(m: Object, name: string): Json {
    if HasKey(m, name) then m[KeyOf(m, name)] else Null
  }

  ghost function Put(m: Object, name: string, v: Json): Object {
    if HasKey(m, name) then m[KeyOf(m, name) := v] else m[name := v]
  }

  ghost function Drop(m: Object, name: string): Object {
    if HasKey(m, name) then m - {KeyOf(m, name)} else m
  }

  lemma FindUnique(m: Object, name: string, v: Json)
    requires CaseUnique(m)
    ensures MayFind(m, name, v) <==> v == Lookup(m, name)
  {
    if HasKey(m, name) {
      assert EqualFold(name, KeyOf(m, name));
    }
  }

  lemma PutUnique(m: Object, name: string, v: Json, r: Object)
    requires CaseUnique(m)
    ensures MayPut(m, name, v, r) <==> r == Put(m, name, v)
  {
  }

  lemma DropUnique(m: Object, name: string, r: Object)
    requires CaseUnique(m)
    ensures MayDrop(m, name, r) <==> r == Drop(m, name)
  {
  }

  // Writing and dropping are seen by reading as on a map of folded names.
  lemma LookupPut(m: Object, name: string, v: Json, other: string)
    requires CaseUnique(m)
    ensures CaseUnique(Put(m, name, v))
    ensures Lookup(Put(m, name, v), other) == if EqualFold(name, other) then v else Lookup(m, other)
  {
    var r := Put(m, name, v);
    var k := if HasKey(m, name) then KeyOf(m, name) else name;
    assert r == m[k := v];
    if HasKey(r, other) && !EqualFold(name, other) { assert KeyOf(r, other) in m; }
    if HasKey(m, other) { assert KeyOf(m, other) in r; }
    if EqualFold(name, other) { assert k in r && EqualFold(k, other); }
  }

  lemma LookupDrop(m: Object, name: string, other: string)
    requires CaseUnique(m)
    ensures CaseUnique(Drop(m, name))
    ensures Lookup(Drop(m, name), other) == if EqualFold(name, other) then Null else Lookup(m, other)
  {
    var r := Drop(m, name);
    if HasKey(m, other) && !EqualFold(name, other) { assert KeyOf(m, other) in r; }
  }

  // ----- the passes themselves -----

  method LookupKey(m: Object, name: string) returns (v: Json)
    ensures MayFind(m, name, v)
  {
    if name in m { return m[name]; }
    var rest := m.Keys;
    while rest != {}
      invariant rest <= m.Keys
      invariant forall k :: k in m.Keys - rest ==> !EqualFold(k, name)
      decreases rest
    {
      var k :| k in rest;
      if EqualFold(k, name) { return m[k]; }
      rest := rest - {k};
    }
    v := Null;
  }

  method SetKey(m: Object, name: string, v: Json) returns (r: Object)
    ensures MayPut(m, name, v, r)
  {
    var rest := m.Keys;
    while rest != {}
      invariant rest <= m.Keys
      invariant forall k :: k in m.Keys - rest ==> !EqualFold(k, name)
      decreases rest
    {
      var k :| k in rest;
      if EqualFold(k, name) { return m[k := v]; }
      rest := rest - {k};
    }
    r := m[name := v];
  }

  method DropKey(m: Object, name: string) returns (r: Object)
    ensures MayDrop(m, name, r)
  {
    var rest := m.Keys;
    while rest != {}
      invariant rest <= m.Keys
      invariant forall k :: k in m.Keys - rest ==> !EqualFold(k, name)
      decreases rest
    {
      var k :| k in rest;
      if EqualFold(k, name) { return m - {k}; }
      rest := rest - {k};
    }
    r := m;
  }
}
