// Sorting a slice of resources in place.
module SortEngine {
  import opened Values
  import opened Objects
  import opened Paths
  import opened Resources
  import opened ResourceObjects
  import opened Accessors
  import opened Sorting

  // ----- the key of a resource -----

  // What the walks can find, whatever the keys.
  ghost predicate MayBePrimary(elem: Json, b: bool) {
    if elem.Obj? then exists v :: MayFind(elem.fields, "primary", v) && b == (v == Bool(true)) else !b
  }

  ghost predicate MayElementKey(elem: Json, sub: string, k: Json) {
    if elem.Obj? then
      var name := if sub != "" then sub else "value";
      exists v :: MayFind(elem.fields, name, v) && k == if sub == "" && v == Null then Str(FormatV(elem)) else v
    else k == elem
  }

  // The key is that of the first primary element, of the first one when none is primary.
  ghost predicate MayListKey(items: seq<Json>, sub: string, k: Json) {
    if items == [] then k == Null
    else
      (exists i :: 0 <= i < |items| && MayBePrimary(items[i], true) && MayElementKey(items[i], sub, k)
         && forall j :: 0 <= j < i ==> MayBePrimary(items[j], false))
      || (MayElementKey(items[0], sub, k) && forall j :: 0 <= j < |items| ==> MayBePrimary(items[j], false))
  }

  ghost predicate MaySortKey(m: Object, p: AttributePath, k: Json) {
    exists v :: MayRead(m, p, v) && if v.Arr? then MayListKey(v.items, p.sub, k) else k == v
  }

  method PrimaryFlag(elem: Json) returns (b: bool)
    ensures MayBePrimary(elem, b)
    ensures Unique(elem) ==> b == IsPrimary(elem)
  {
    if !elem.Obj? { return false; }
    var v := LookupKey(elem.fields, "primary");
    if CaseUnique(elem.fields) { FindUnique(elem.fields, "primary", v); }
    b := v == Bool(true);
  }

  method KeyOfElement(elem: Json, sub: string) returns (k: Json)
    ensures MayElementKey(elem, sub, k)
    ensures Unique(elem) ==> k == ElementKey(elem, sub)
  {
    if !elem.Obj? { return elem; }
    var name := if sub != "" then sub else "value";
    k := LookupKey(elem.fields, name);
    if CaseUnique(elem.fields) { FindUnique(elem.fields, name, k); }
    if sub == "" && k == Null { k := Str(FormatV(elem)); }
  }

  method SortValue(r: Resource, p: AttributePath) returns (k: Json)
    ensures MaySortKey(r.attributes, p, k)
    ensures Unique(Obj(r.attributes)) ==> k == SortKey(r.attributes, p)
  {
    var v := Get(r, p);
    if Unique(Obj(r.attributes)) { GetPathUnique(r.attributes, p); }
    if !v.Arr? { return v; }
    assert v.items[0..] == v.items;
    for i := 0 to |v.items|
      invariant forall j :: 0 <= j < i ==> MayBePrimary(v.items[j], false)
      invariant Unique(v) ==> FirstPrimary(v.items) == FirstPrimary(v.items[i..])
    {
      var primary := PrimaryFlag(v.items[i]);
      assert v.items[i..][1..] == v.items[i + 1..];
      if primary {
        k := KeyOfElement(v.items[i], p.sub);
        return;
      }
    }
    if v.items != [] {
      k := KeyOfElement(v.items[0], p.sub);
      return;
    }
    k := Null;
  }

  // ----- the sort -----

  ghost function Contents(rs: seq<Resource>): (cs: seq<Content>)
    reads rs
    ensures |cs| == |rs| && forall i :: 0 <= i < |rs| ==> cs[i] == rs[i].Value()
  {
    seq(|rs|, i requires 0 <= i < |rs| reads rs => rs[i].Value())
  }

  // The resources with their keys.
  ghost function KeyedOf(rs: seq<Resource>, p: AttributePath): (ks: seq<Keyed>)
    reads rs
    ensures |ks| == |rs|
    ensures forall i :: 0 <= i < |rs| ==> ks[i] == Keyed(SortKey(rs[i].attributes, p), rs[i].Value())
  {
    KeyedList(Contents(rs), p)
  }

  // The same as a table.
  ghost predicate HoldsKeys(g: map<Resource, Keyed>, p: AttributePath)
    reads g.Keys
  {
    forall r :: r in g ==> g[r] == Keyed(SortKey(r.attributes, p), r.Value())
  }

  ghost predicate UniqueKeys(g: map<Resource, Keyed>)
    reads g.Keys
  {
    forall r :: r in g ==> Unique(Obj(r.attributes))
  }

  ghost predicate Covers(g: map<Resource, Keyed>, rs: seq<Resource>) { forall i :: 0 <= i < |rs| ==> rs[i] in g }

  ghost predicate AllUnique(rs: seq<Resource>)
    reads rs
  {
    forall i :: 0 <= i < |rs| ==> Unique(Obj(rs[i].attributes))
  }

  method LessThan(r: Resource, s: Resource, p: AttributePath, order: SortOrder, ghost g: map<Resource, Keyed>)
    returns (b: bool)
    requires HoldsKeys(g, p) && r in g && s in g
    ensures UniqueKeys(g) ==> b == Less(g[r].key, g[s].key, order)
  {
    var vi := SortValue(r, p);
    var vj := SortValue(s, p);
    b := Less(vi, vj, order);
  }

  method SwapDown(a: array<Resource>, j: nat)
    requires 0 < j < a.Length
    modifies a
    ensures a[..] == old(a[..])[j := old(a[j - 1])][j - 1 := old(a[j])]
  {
    a[j], a[j - 1] := a[j - 1], a[j];
  }

  // Element i is less than those from j on up to it.
  ghost predicate BelowAll(ks: seq<Keyed>, i: nat, j: nat, order: SortOrder) {
    j <= i < |ks| && forall t :: j <= t < i ==> Less(ks[i].key, ks[t].key, order)
  }

  // And the one before j is not above it.
  ghost predicate IsPlace(ks: seq<Keyed>, i: nat, j: nat, order: SortOrder) {
    BelowAll(ks, i, j, order) && (j > 0 ==> !Less(ks[i].key, ks[j - 1].key, order))
  }

  // Element j, at first element i, moves left past the elements it is less than.
  method Sink(a: array<Resource>, i: nat, p: AttributePath, order: SortOrder, ghost g: map<Resource, Keyed>)
    returns (ghost place: nat)
    requires i < a.Length && Covers(g, a[..]) && HoldsKeys(g, p)
    modifies a
    ensures place <= i && a[..] == Moved(old(a[..]), i, place)
    ensures UniqueKeys(g) ==> IsPlace(Images(old(a[..]), g), i, place, order)
  {
    ghost var was := a[..];
    ghost var ks := Images(was, g);
    var j := i;
    assert was == Moved(was, i, i);
    while j > 0
      invariant 0 <= j <= i
      invariant a[..] == Moved(was, i, j)
      invariant UniqueKeys(g) ==> BelowAll(ks, i, j, order)
    {
      MovedAt(was, i, j);
      assert a[j] == a[..][j] == was[i] && a[j - 1] == a[..][j - 1] == was[j - 1];
      var less := LessThan(a[j], a[j - 1], p, order, g);
      if !less { break; }
      SwapDown(a, j);
      MovedStep(was, i, j);
      j := j - 1;
    }
    place := j;
  }

  // The list with element i taken out and put back at position j before it.
  ghost function Moved<T>(xs: seq<T>, i: nat, j: nat): (r: seq<T>)
    requires j <= i < |xs|
    ensures |r| == |xs|
  {
    xs[..j] + [xs[i]] + xs[j..i] + xs[i + 1..]
  }

  lemma MovedAt<T>(xs: seq<T>, i: nat, j: nat)
    requires 0 < j <= i < |xs|
    ensures Moved(xs, i, j)[j] == xs[i] && Moved(xs, i, j)[j - 1] == xs[j - 1]
  {
  }

  lemma MovedStep<T>(xs: seq<T>, i: nat, j: nat)
    requires 0 < j <= i < |xs|
    ensures Moved(xs, i, j - 1) == Moved(xs, i, j)[j := xs[j - 1]][j - 1 := xs[i]]
  {
  }

  lemma MovedKeepsTail<T>(xs: seq<T>, i: nat, j: nat)
    requires j <= i < |xs|
    ensures Moved(xs, i, j)[i + 1..] == xs[i + 1..]
    ensures Moved(xs, i, j)[..i + 1] == xs[..j] + [xs[i]] + xs[j..i]
  {
  }

  lemma MovedPermutes<T>(xs: seq<T>, i: nat, j: nat)
    requires j <= i < |xs|
    ensures multiset(Moved(xs, i, j)) == multiset(xs)
  {
    assert xs == xs[..j] + xs[j..i] + [xs[i]] + xs[i + 1..];
  }

  lemma MovedImages(xs: seq<Resource>, i: nat, j: nat, g: map<Resource, Keyed>)
    requires j <= i < |xs| && Covers(g, xs)
    ensures Covers(g, Moved(xs, i, j)) && Images(Moved(xs, i, j), g) == Moved(Images(xs, g), i, j)
  {
  }

  // Sinking the next element inserts it into the sorted part.
  lemma SunkIsInserted(ks: seq<Keyed>, i: nat, j: nat, order: SortOrder)
    requires IsPlace(ks, i, j, order)
    ensures Moved(ks, i, j)[..i + 1] == Insert(ks[..i], ks[i], order)
  {
    InsertAt(ks[..i], ks[i], order, j);
    MovedKeepsTail(ks, i, j);
    assert ks[..i][..j] == ks[..j] && ks[..i][j..] == ks[j..i];
  }

  lemma SortSnoc(ks: seq<Keyed>, i: nat, order: SortOrder)
    requires i < |ks|
    ensures Sort(ks[..i + 1], order) == Insert(Sort(ks[..i], order), ks[i], order)
  {
    assert ks[..i + 1][..i] == ks[..i];
  }

  // The first i keyed elements are those of was, sorted, and the next sinks to its place.
  lemma KeyedStep(ks: seq<Keyed>, was: seq<Keyed>, i: nat, j: nat, order: SortOrder)
    requires |ks| == |was| && IsPlace(ks, i, j, order) && ks[i] == was[i] && ks[..i] == Sort(was[..i], order)
    ensures Moved(ks, i, j)[..i + 1] == Sort(was[..i + 1], order)
  {
    SunkIsInserted(ks, i, j, order);
    SortSnoc(was, i, order);
  }

  // xs is was in some order, the elements from i on untouched and the keyed ones before it sorted.
  ghost predicate SortedUpTo(xs: seq<Resource>, was: seq<Resource>, g: map<Resource, Keyed>, unique: bool, i: nat,
                             order: SortOrder)
  {
    i <= |was| == |xs| && xs[i..] == was[i..] && multiset(xs) == multiset(was) && Covers(g, xs) && Covers(g, was)
    && (unique ==> Images(xs, g)[..i] == Sort(Images(was, g)[..i], order))
  }

  lemma SortedUpToStep(xs: seq<Resource>, was: seq<Resource>, g: map<Resource, Keyed>, unique: bool, i: nat, place: nat,
                       order: SortOrder)
    requires SortedUpTo(xs, was, g, unique, i, order) && place <= i < |xs|
    requires unique ==> IsPlace(Images(xs, g), i, place, order)
    ensures SortedUpTo(Moved(xs, i, place), was, g, unique, i + 1, order)
  {
    MovedKeepsTail(xs, i, place);
    assert Moved(xs, i, place)[i + 1..] == was[i + 1..];
    MovedPermutes(xs, i, place);
    assert xs[i] == xs[i..][0] == was[i];
    MovedImages(xs, i, place, g);
    if unique { KeyedStep(Images(xs, g), Images(was, g), i, place, order); }
  }

  method SinkNext(a: array<Resource>, i: nat, p: AttributePath, order: SortOrder, ghost was: seq<Resource>,
                  ghost g: map<Resource, Keyed>)
    requires i < a.Length && HoldsKeys(g, p) && SortedUpTo(a[..], was, g, UniqueKeys(g), i, order)
    modifies a
    ensures SortedUpTo(a[..], was, g, UniqueKeys(g), i + 1, order)
  {
    ghost var xs := a[..];
    var place := Sink(a, i, p, order, g);
    SortedUpToStep(xs, was, g, UniqueKeys(g), i, place, order);
  }

  method SinkAll(a: array<Resource>, p: AttributePath, order: SortOrder, ghost g: map<Resource, Keyed>)
    requires HoldsKeys(g, p) && Covers(g, a[..])
    modifies a
    ensures SortedUpTo(a[..], old(a[..]), g, UniqueKeys(g), a.Length, order)
  {
    ghost var was := a[..];
    var i := 0;
    while i < a.Length
      invariant i <= a.Length && HoldsKeys(g, p) && SortedUpTo(a[..], was, g, UniqueKeys(g), i, order)
    {
      SinkNext(a, i, p, order, was, g);
      i := i + 1;
    }
  }

  ghost function TableOf(rs: seq<Resource>, p: AttributePath): (g: map<Resource, Keyed>)
    reads rs
    ensures HoldsKeys(g, p) && Covers(g, rs) && (AllUnique(rs) ==> UniqueKeys(g))
  {
    map r | r in rs :: Keyed(SortKey(r.attributes, p), r.Value())
  }

  method SortByPath(a: array<Resource>, p: AttributePath, order: SortOrder)
    modifies a
    ensures multiset(a[..]) == multiset(old(a[..]))
    ensures AllUnique(old(a[..])) ==> KeyedOf(a[..], p) == Sort(KeyedOf(old(a[..]), p), order)
  {
    ghost var was := a[..];
    ghost var g := TableOf(was, p);
    SinkAll(a, p, order, g);
    KeyedImages(a[..], g, p);
    KeyedImages(was, g, p);
  }

  lemma KeyedImages(rs: seq<Resource>, g: map<Resource, Keyed>, p: AttributePath)
    requires HoldsKeys(g, p) && Covers(g, rs)
    ensures KeyedOf(rs, p) == Images(rs, g) && Images(rs, g)[..|rs|] == Images(rs, g)
  {
  }

  // With any attributes the resources are the same in some order; with attributes that have no case clashes
  // it is the order of the specification.
  method SortResources(a: array<Resource>, sortBy: string, order: SortOrder)
    modifies a
    ensures multiset(a[..]) == multiset(old(a[..]))
    ensures ParsePath(sortBy).None? ==> a[..] == old(a[..])
    ensures AllUnique(old(a[..])) ==> Contents(a[..]) == SortContents(Contents(old(a[..])), sortBy, order)
  {
    var path := ParsePath(sortBy);
    if a.Length == 0 || sortBy == "" || path.None? { return; }
    ghost var was := a[..];
    SortByPath(a, path.value, order);
    if AllUnique(was) { SortedValues(a[..], was, path.value, order); }
  }

  lemma SortedValues(xs: seq<Resource>, was: seq<Resource>, p: AttributePath, order: SortOrder)
    requires |xs| == |was| && KeyedOf(xs, p) == Sort(KeyedOf(was, p), order)
    ensures Contents(xs) == Items(Sort(KeyedList(Contents(was), p), order))
  {
    var ks := KeyedOf(xs, p);
    assert forall i :: 0 <= i < |xs| ==> Contents(xs)[i] == ks[i].item;
  }
}
