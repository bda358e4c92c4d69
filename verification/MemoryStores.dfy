// The in-memory store: a two-level map of published Resource objects. Writers put new objects into the
// map; no method writes to an object that is already in it, so a list request may drop its lock between
// taking its snapshot and filtering it.
module MemoryStores {
  import opened Text
  import opened Values
  import opened Paths
  import opened Filters
  import opened FilterEval
  import opened Resources
  import opened ResourceObjects
  import opened Patches
  import opened PatchEngine
  import opened Sorting
  import opened SortEngine
  import opened Stores
  import opened StoreRuns
  import opened StoreLists
  import opened StoreEffects
  import opened Choices

  type Table = map<string, Resource>

  ghost function TableContent(m: Table): TypeMap
    reads m.Values
  {
    map id | id in m :: m[id].Value()
  }

  lemma TableWith(m: Table, id: string, c: Resource)
    ensures TableContent(m[id := c]) == TableContent(m)[id := c.Value()]
  {
  }

  lemma TableWithout(m: Table, id: string)
    ensures TableContent(m - {id}) == TableContent(m) - {id}
  {
  }

  // The user name of a resource, the entries of its attributes visited in any order.
  method GetUserName(r: Resource) returns (name: string)
    ensures MayName(r.attributes, name)
    ensures CaseUnique(r.attributes) ==> name == UserName(r.attributes)
  {
    var m := r.attributes;
    var rest := m.Keys;
    while rest != {}
      invariant rest <= m.Keys
      invariant forall k :: k in m.Keys - rest ==> !IsName(m, k)
      decreases rest
    {
      var k :| k in rest;
      if EqualFold(k, "userName") && m[k].Str? {
        assert IsName(m, k);
        if CaseUnique(m) { OneName(m, m[k].s); }
        return m[k].s;
      }
      rest := rest - {k};
    }
    name := "";
    if CaseUnique(m) { OneName(m, name); }
  }

  method NameIsTaken(m: Table, name: string) returns (taken: bool)
    ensures if taken then MayTake(TableContent(m), name) else MayMiss(TableContent(m), name)
  {
    ghost var c := TableContent(m);
    var rest := m.Keys;
    while rest != {}
      invariant rest <= m.Keys
      invariant forall id :: id in m.Keys - rest ==> MayLack(c[id], name)
      decreases rest
    {
      var id :| id in rest;
      var existing := GetUserName(m[id]);
      if EqualFold(existing, name) {
        assert MayShare(c[id], name);
        return true;
      }
      assert MayLack(c[id], name);
      rest := rest - {id};
    }
    taken := false;
  }

  // A clone of what the caller passed, stamped before anyone else can see it.
  method NewVersion(res: Resource, id: string, t: string, created: Time, now: Time) returns (c: Resource)
    ensures fresh(c) && IsVersion(c.Value(), res.Value(), id, t, created, now)
  {
    c := res.Clone();
    c.id := id;
    c.meta := c.meta.(resourceType := t, created := created, lastModified := now);
  }

  // The patched clone of a stored resource, stamped before it is published.
  method PatchedVersion(existing: Resource, t: string, ops: seq<PatchOp>, now: Time)
    returns (r: Result<Resource, PatchError>)
    ensures r.Ok? ==> fresh(r.value) && IsPatched(r.value.Value(), existing.Value(), ops, t, now)
    ensures Clean(existing.Value()) && CleanOps(ops) ==>
              match Patch(existing.Value(), ops)
              case Ok(c) => r.Ok? && r.value.Value() == Restamped(c, t, now)
              case Err(e) => r == Err(e)
  {
    r := RunPatch(existing, ops);
    if r.Err? { return; }
    r.value.meta := r.value.meta.(resourceType := t, lastModified := now);
  }

  // Making sure the table exists does not change the check or the write.
  lemma SameAfterEnsure(s: State, t: string, id: string, c: Content)
    ensures MayRefuse(s[t := OfType(s, t)], t, c) == MayRefuse(s, t, c)
    ensures MayAdmit(s[t := OfType(s, t)], t, c) == MayAdmit(s, t, c)
    ensures Store(s[t := OfType(s, t)], t, id, c) == Store(s, t, id, c)
  {
    assert OfType(s[t := OfType(s, t)], t) == OfType(s, t);
  }

  class MemoryStore {
    var resources: map<string, Table>

    // The stored values, kept up to date by every writer.
    ghost var contents: State

    ghost function Published(): set<Resource>
      reads this
    {
      set t, id | t in resources && id in resources[t] :: resources[t][id]
    }

    // The published objects hold exactly the stored values.
    ghost predicate Valid()
      reads this, Published()
    {
      resources.Keys == contents.Keys && forall t :: t in resources ==> TableContent(resources[t]) == contents[t]
    }

    constructor ()
      ensures Valid() && contents == map[]
    {
      resources, contents := map[], map[];
    }

    function TypeTable(t: string): Table
      reads this
    {
      if t in resources then resources[t] else map[]
    }

    // typeMap: the table of a type, created when it is missing.
    method EnsureType(t: string)
      requires Valid()
      modifies this
      ensures Valid() && t in resources && contents == old(contents)[t := OfType(old(contents), t)]
    {
      resources := resources[t := TypeTable(t)];
      contents := contents[t := OfType(contents, t)];
    }

    method SetTable(t: string, m: Table, ghost v: TypeMap)
      requires Valid() && TableContent(m) == v
      modifies this
      ensures Valid() && resources == old(resources)[t := m] && contents == old(contents)[t := v]
    {
      resources := resources[t := m];
      contents := contents[t := v];
    }

    // Puts an object into the map, in the place of any other under its id.
    method Publish(t: string, id: string, c: Resource)
      requires Valid() && t in resources
      modifies this
      ensures Valid() && contents == Store(old(contents), t, id, c.Value())
    {
      TableWith(resources[t], id, c);
      SetTable(t, resources[t][id := c], contents[t][id := c.Value()]);
    }

    method NameRefused(t: string, c: Resource) returns (refused: bool)
      requires Valid() && t in resources
      ensures if refused then MayRefuse(contents, t, c.Value()) else MayAdmit(contents, t, c.Value())
    {
      if !EqualFold(t, "User") { return false; }
      var newUserName := GetUserName(c);
      if newUserName == "" { return false; }
      refused := NameIsTaken(resources[t], newUserName);
    }

    // The check and the write, under one lock.
    method Insert(t: string, id: string, c: Resource) returns (refused: bool)
      requires Valid()
      modifies this
      ensures Valid()
      ensures if refused
              then MayRefuse(old(contents), t, c.Value()) && contents == old(contents)[t := OfType(old(contents), t)]
              else MayAdmit(old(contents), t, c.Value()) && contents == Store(old(contents), t, id, c.Value())
    {
      SameAfterEnsure(contents, t, id, c.Value());
      EnsureType(t);
      refused := NameRefused(t, c);
      if !refused { Publish(t, id, c); }
    }

    // Insert, as the step of a Create request for res.
    method Admit(t: string, id: string, clone: Resource, ghost res: Content, ghost now: Time) returns (refused: bool)
      requires Valid() && IsVersion(clone.Value(), res, id, t, now, now)
      modifies this
      ensures Valid()
      ensures MayStep(old(contents), Request.Create(t, res, id, now), contents)
      ensures contents == if refused then old(contents)[t := OfType(old(contents), t)]
                          else Store(old(contents), t, id, clone.Value())
      ensures CleanState(old(contents)) && Clean(res) ==>
                contents == Step(old(contents), Request.Create(t, res, id, now))
                  && refused == Refused(old(contents), t, res)
    {
      ghost var before := contents;
      refused := Insert(t, id, clone);
      InsertIsCreation(before, t, res, id, now, clone.Value(), refused, contents);
      if CleanState(before) && Clean(res) { InsertIsExact(before, t, res, id, now, clone.Value(), refused, contents); }
    }

    // Whatever the resource holds, the store does one of the steps it may do. On a clean store a clean
    // resource is refused exactly when its name is taken.
    method Create(t: string, res: Resource, id: string, now: Time) returns (r: Result<Resource, StoreError>)
      requires Valid()
      modifies this
      ensures Valid()
      ensures MayStep(old(contents), Request.Create(t, res.Value(), id, now), contents)
      ensures r.Err? ==> r.error == Conflict && contents == old(contents)[t := OfType(old(contents), t)]
      ensures r.Ok? ==> Written(old(contents), t, id, res.Value(), now, now)
      ensures r.Ok? ==> fresh(r.value) && ShownIn(r, t, id)
      ensures r.Ok? ==> Kept(t, id, contents[t][id]) && contents[t][id].meta.created == now
      ensures CleanState(old(contents)) && Clean(res.Value()) ==>
                contents == Step(old(contents), Request.Create(t, res.Value(), id, now))
                && (r.Err? <==> Refused(old(contents), t, res.Value()))
    {
      var clone := NewVersion(res, id, t, now, now);
      ghost var before := contents;
      var refused := Admit(t, id, clone, res.Value(), now);
      if refused { return Err(Conflict); }
      WrittenBack(before, t, id, clone.Value(), res.Value(), now, now);
      r := CopyOf(clone, t, id);
    }

    // The version of res is stored, and everything else is as before.
    ghost predicate Written(before: State, t: string, id: string, res: Content, created: Time, now: Time)
      reads this
    {
      Stored(contents, t, id) && VersionOf(contents[t][id], res, id, t, created, now)
      && SameElsewhere(before, contents, t, id)
    }

    lemma WrittenBack(before: State, t: string, id: string, v: Content, res: Content, created: Time, now: Time)
      requires contents == Store(before, t, id, v) && IsVersion(v, res, id, t, created, now)
      ensures Written(before, t, id, res, created, now)
    {
      VersionIs(v, res, id, t, created, now);
      StoreReadsBack(before, t, id, v);
    }

    // The answer to a write: a clone of the version just published.
    method CopyOf(c: Resource, t: string, id: string) returns (r: Result<Resource, StoreError>)
      requires Stored(contents, t, id) && contents[t][id] == c.Value()
      ensures r.Ok? && fresh(r.value) && (Settled(c.attributes) ==> ShownIn(r, t, id))
    {
      var result := c.Clone();
      r := Ok(result);
    }

    method Get(t: string, id: string) returns (r: Result<Resource, StoreError>)
      requires Valid()
      ensures r.Ok? <==> Stored(contents, t, id)
      ensures r.Err? ==> r.error == NotFound
      ensures r.Ok? ==> fresh(r.value) && (Invariant(contents) ==> r.value.Value() == Shown(contents, t, id))
    {
      if t !in resources || id !in resources[t] { return Err(NotFound); }
      assert contents[t][id] == resources[t][id].Value();
      var c := resources[t][id].Clone();
      r := Ok(c);
    }

    method Replace(t: string, id: string, res: Resource, now: Time) returns (r: Result<Resource, StoreError>)
      requires Valid()
      modifies this
      ensures Valid()
      ensures MayStep(old(contents), Request.Replace(t, id, res.Value(), now), contents)
      ensures r.Ok? <==> Stored(old(contents), t, id)
      ensures r.Err? ==> r.error == NotFound && contents == old(contents)
      ensures r.Ok? ==> fresh(r.value) && ShownIn(r, t, id)
      ensures r.Ok? ==> Written(old(contents), t, id, res.Value(), old(contents)[t][id].meta.created, now)
      ensures CleanState(old(contents)) && Clean(res.Value()) ==>
                contents == Step(old(contents), Request.Replace(t, id, res.Value(), now))
    {
      if t !in resources || id !in resources[t] { return Err(NotFound); }
      var existing := resources[t][id];
      assert contents[t][id] == existing.Value();
      var clone := NewVersion(res, id, t, existing.meta.created, now);
      ghost var before := contents;
      Publish(t, id, clone);
      WrittenBack(before, t, id, clone.Value(), res.Value(), existing.meta.created, now);
      r := CopyOf(clone, t, id);
    }

    method Modify(t: string, id: string, ops: seq<PatchOp>, now: Time) returns (r: Result<Resource, StoreError>)
      requires Valid()
      modifies this
      ensures Valid()
      ensures MayStep(old(contents), Request.Modify(t, id, ops, now), contents)
      ensures !Stored(old(contents), t, id) ==> r == Err(NotFound)
      ensures r.Err? ==> contents == old(contents)
      ensures r.Ok? ==> Stored(old(contents), t, id) && Patched(old(contents), t, id, now)
      ensures r.Ok? ==> fresh(r.value) && (Invariant(old(contents)) && AvoidsReserved(ops) ==> ShownIn(r, t, id))
      ensures CleanState(old(contents)) && CleanOps(ops) ==>
                contents == Step(old(contents), Request.Modify(t, id, ops, now))
                && (Stored(old(contents), t, id) ==>
                      match Patch(old(contents)[t][id], ops)
                      case Ok(_) => r.Ok?
                      case Err(e) => r == Err(PatchFailed(e)))
    {
      if t !in resources || id !in resources[t] { return Err(NotFound); }
      var existing := resources[t][id];
      assert contents[t][id] == existing.Value();
      var patched := PatchedVersion(existing, t, ops, now);
      if patched.Err? { return Err(PatchFailed(patched.error)); }
      ghost var before := contents;
      Publish(t, id, patched.value);
      PatchedBack(before, t, id, ops, patched.value.Value(), now);
      r := CopyOf(patched.value, t, id);
    }

    // A patched version is stored, and everything else is as before.
    ghost predicate Patched(before: State, t: string, id: string, now: Time)
      requires Stored(before, t, id)
      reads this
    {
      Stored(contents, t, id) && PatchOf(contents[t][id], before[t][id], t, now)
      && SameElsewhere(before, contents, t, id)
    }

    lemma PatchedBack(before: State, t: string, id: string, ops: seq<PatchOp>, v: Content, now: Time)
      requires Stored(before, t, id) && contents == Store(before, t, id, v)
      requires IsPatched(v, before[t][id], ops, t, now)
      ensures Patched(before, t, id, now)
    {
      PatchIs(v, before[t][id], ops, t, now);
      StoreReadsBack(before, t, id, v);
    }

    ghost predicate ShownIn(r: Result<Resource, StoreError>, t: string, id: string)
      requires r.Ok?
      reads this, r.value
    {
      Stored(contents, t, id) && r.value.Value() == Shown(contents, t, id)
    }

    method Delete(t: string, id: string) returns (err: Option<StoreError>)
      requires Valid()
      modifies this
      ensures Valid() && contents == Step(old(contents), Request.Delete(t, id))
      ensures !Stored(contents, t, id) && SameElsewhere(old(contents), contents, t, id)
      ensures err == if Stored(old(contents), t, id) then None else Some(NotFound)
    {
      if t !in resources || id !in resources[t] { return Some(NotFound); }
      Withdraw(t, id);
      err := None;
    }

    method Withdraw(t: string, id: string)
      requires Valid() && t in resources
      modifies this
      ensures Valid() && contents == old(contents)[t := old(contents)[t] - {id}]
    {
      TableWithout(resources[t], id);
      SetTable(t, resources[t] - {id}, contents[t] - {id});
    }

    // The published objects of a type, visited in any order.
    method Snapshot(t: string) returns (all: seq<Resource>, ghost ids: seq<string>)
      requires Valid()
      ensures Enumerates(ids, OfType(contents, t).Keys) && |all| == |ids|
      ensures SortEngine.Contents(all) == InOrder(OfType(contents, t), ids)
    {
      var m := TypeTable(t);
      all, ids := [], [];
      var rest := m.Keys;
      while rest != {}
        invariant rest <= m.Keys
        invariant Enumerates(ids, m.Keys - rest) && |all| == |ids|
        invariant forall i :: 0 <= i < |ids| ==> all[i] == m[ids[i]]
        decreases rest
      {
        var id :| id in rest;
        all, ids := all + [m[id]], ids + [id];
        rest := rest - {id};
      }
      if t in resources { assert TableContent(resources[t]) == contents[t]; }
    }

    // List: the lock is held for the snapshot only. steps[i] are the requests other callers complete
    // after the snapshot and before element i is filtered. The result is one of the snapshot, and the only
    // one when no resource of the type has case clashes.
    method ListDuring(t: string, params: ListParams, steps: seq<seq<Call>>) returns (l: Listing, ghost ids: seq<string>)
      requires Valid()
      modifies this
      ensures Valid()
      ensures Enumerates(ids, OfType(old(contents), t).Keys)
      ensures Lists(old(contents), t, ids, params, l.Result())
    {
      var all;
      all, ids := Snapshot(t);
      ghost var cs := InOrder(OfType(contents, t), ids);
      ghost var before := contents;
      var filtered := FilterDuring(all, params.filter, steps, cs);
      l := FinishList(filtered, params);
      ListsSnapshot(before, t, ids, SortEngine.Contents(filtered), params, l.Result());
    }

    method FilterDuring(all: seq<Resource>, f: Option<Filter>, steps: seq<seq<Call>>, ghost cs: seq<Content>)
      returns (filtered: seq<Resource>)
      requires Valid() && SortEngine.Contents(all) == cs
      modifies this
      ensures Valid()
      ensures AllSettled(cs) ==> MayChoose(cs, MayTest(f), Truncated, SortEngine.Contents(filtered))
    {
      filtered := [];
      assert cs[..0] == [];
      for i := 0 to |all|
        invariant Valid()
        invariant KeptSoFar(all, f, filtered, cs, i)
      {
        if i < |steps| { PerformAll(steps[i]); }
        filtered := FilterNext(all, f, filtered, cs, i);
      }
      assert cs[..|all|] == cs;
    }

    method PerformAll(calls: seq<Call>)
      requires Valid()
      modifies this
      ensures Valid()
    {
      for i := 0 to |calls|
        invariant Valid()
      {
        Perform(calls[i]);
      }
    }

    method Perform(c: Call)
      requires Valid()
      modifies this
      ensures Valid()
    {
      match c
      case CallCreate(t, res, id, now) => var _ := Create(t, res, id, now);
      case CallReplace(t, id, res, now) => var _ := Replace(t, id, res, now);
      case CallModify(t, id, ops, now) => var _ := Modify(t, id, ops, now);
      case CallDelete(t, id) => var _ := Delete(t, id);
    }
  }

  // A request on the live store, its resources still in the hands of the caller.
  datatype Call =
    | CallCreate(t: string, res: Resource, id: string, now: Time)
    | CallReplace(t: string, id: string, res: Resource, now: Time)
    | CallModify(t: string, id: string, ops: seq<PatchOp>, now: Time)
    | CallDelete(t: string, id: string)

  datatype Listing = Listing(resources: seq<Resource>, totalResults: nat, startIndex: int, itemsPerPage: nat) {
    ghost function Result(): ListResult
      reads resources
    {
      ListResult(SortEngine.Contents(resources), totalResults, startIndex, itemsPerPage)
    }
  }

  // Attributes without reserved names, which is what the store publishes.
  ghost predicate AllSettled(cs: seq<Content>) { forall i :: 0 <= i < |cs| ==> Settled(cs[i].attributes) }

  lemma AllAreSettled(s: State, t: string, ids: seq<string>)
    requires Invariant(s) && Enumerates(ids, OfType(s, t).Keys)
    ensures AllSettled(InOrder(OfType(s, t), ids))
  {
    forall i | 0 <= i < |ids| ensures Settled(InOrder(OfType(s, t), ids)[i].attributes) {
      assert ids[i] in OfType(s, t) && Kept(t, ids[i], s[t][ids[i]]);
    }
  }

  // The result is one that a snapshot of s in the order of ids may have, and the one of the specification when
  // no resource in it has case clashes.
  ghost predicate Lists(s: State, t: string, ids: seq<string>, params: ListParams, l: ListResult)
    requires Enumerates(ids, OfType(s, t).Keys)
  {
    var cs := InOrder(OfType(s, t), ids);
    (Invariant(s) ==> MayList(cs, params, l)) && (AllClean(cs) ==> l == ListOf(cs, params))
  }

  lemma ListsSnapshot(s: State, t: string, ids: seq<string>, chosen: seq<Content>, params: ListParams, l: ListResult)
    requires Enumerates(ids, OfType(s, t).Keys)
    requires var cs := InOrder(OfType(s, t), ids);
             AllSettled(cs) ==> MayChoose(cs, MayTest(params.filter), Truncated, chosen)
    requires ListsChosen(chosen, params, l)
    ensures Lists(s, t, ids, params, l)
  {
    var cs := InOrder(OfType(s, t), ids);
    if Invariant(s) { AllAreSettled(s, t, ids); }
    if AllClean(cs) { ListIsOnly(cs, params, l); }
  }

  ghost predicate ListsChosen(chosen: seq<Content>, params: ListParams, l: ListResult) {
    exists sorted :: MaySort(chosen, params.sortBy, params.order, sorted) && l == PageResult(sorted, params)
  }

  // EvalFilter on one element, and its clone when it is wanted.
  method KeepOne(f: Option<Filter>, r: Resource) returns (kept: Option<Resource>)
    ensures kept.Some? ==> fresh(kept.value)
    ensures MayWant(f, r.Value(), kept.Some?)
    ensures kept.Some? && Settled(r.attributes) ==> kept.value.Value() == Truncated(r.Value())
  {
    if f.Some? {
      var o := r.ToMap();
      var b := EvalExpr(f.value, o);
      if !b { return None; }
    }
    var c := r.Clone();
    kept := Some(c);
  }

  // The first i elements, still as they were in the snapshot, have been filtered.
  ghost predicate KeptSoFar(all: seq<Resource>, f: Option<Filter>, filtered: seq<Resource>, cs: seq<Content>, i: nat)
    reads all, filtered
  {
    SortEngine.Contents(all) == cs && i <= |all|
    && (AllSettled(cs) ==> MayChoose(cs[..i], MayTest(f), Truncated, SortEngine.Contents(filtered)))
  }

  method FilterNext(all: seq<Resource>, f: Option<Filter>, filtered: seq<Resource>, ghost cs: seq<Content>, i: nat)
    returns (more: seq<Resource>)
    requires i < |all| && KeptSoFar(all, f, filtered, cs, i)
    ensures KeptSoFar(all, f, more, cs, i + 1)
  {
    var kept := KeepOne(f, all[i]);
    more := if kept.Some? then filtered + [kept.value] else filtered;
    if kept.Some? { AppendContents(filtered, kept.value); }
    if AllSettled(cs) { ChooseNext(cs, i, MayTest(f), Truncated, SortEngine.Contents(filtered), kept.Some?); }
  }

  lemma AppendContents(rs: seq<Resource>, r: Resource)
    ensures SortEngine.Contents(rs + [r]) == SortEngine.Contents(rs) + [r.Value()]
  {
  }

  // Sorting in place, then cutting out the page.
  method FinishList(filtered: seq<Resource>, params: ListParams) returns (l: Listing)
    ensures ListsChosen(SortEngine.Contents(filtered), params, l.Result())
  {
    var a := new Resource[|filtered|](i requires 0 <= i < |filtered| => filtered[i]);
    assert a[..] == filtered;
    SortResources(a, params.sortBy, params.order);
    SortedMay(filtered, a[..], params.sortBy, params.order);
    l := CutPage(a[..], params);
  }

  // What the sort leaves, as contents.
  lemma SortedMay(was: seq<Resource>, now: seq<Resource>, sortBy: string, order: SortOrder)
    requires multiset(now) == multiset(was) && (ParsePath(sortBy).None? ==> now == was)
    requires AllUnique(was) ==> SortEngine.Contents(now) == SortContents(SortEngine.Contents(was), sortBy, order)
    ensures MaySort(SortEngine.Contents(was), sortBy, order, SortEngine.Contents(now))
  {
    var g := map r | r in was + now :: r.Value();
    ImagesPermute(now, was, g);
    assert Images(now, g) == SortEngine.Contents(now);
    assert Images(was, g) == SortEngine.Contents(was);
    if NoClashes(SortEngine.Contents(was)) {
      forall i | 0 <= i < |was| ensures Unique(Obj(was[i].attributes)) {
        assert Unique(Obj(SortEngine.Contents(was)[i].attributes));
      }
    }
  }

  method CutPage(sorted: seq<Resource>, params: ListParams) returns (l: Listing)
    ensures l.Result() == PageResult(SortEngine.Contents(sorted), params)
  {
    var totalResults := |sorted|;
    var startIndex := if params.startIndex < 1 then 1 else params.startIndex;
    var start := Min(startIndex - 1, totalResults);
    var pageSize := if params.count < 0 then totalResults else params.count;
    var end := Min(start + pageSize, totalResults);
    PageOfContents(sorted, start, end);
    l := Listing(sorted[start..end], totalResults, startIndex, end - start);
  }

  lemma PageOfContents(rs: seq<Resource>, start: nat, end: nat)
    requires start <= end <= |rs|
    ensures SortEngine.Contents(rs[start..end]) == SortEngine.Contents(rs)[start..end]
  {
  }
}
