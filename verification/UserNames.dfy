// Distinct user names: what each request does to them, on any resources and in any order of walking them.
// Create looks whether the name is free, Replace and Patch do not; and Create itself can miss a name when a
// user carries two keys for it.
module UserNames {
  import opened Text
  import opened Values
  import opened Resources
  import opened Stores
  import opened StoreRuns

  // Some walks over the two find the same name.
  ghost predicate MaySameName(c: Content, d: Content) {
    exists a, b :: MayName(c.attributes, a) && MayName(d.attributes, b) && Shared(a, b)
  }

  predicate Shared(a: string, b: string) { a != "" && EqualFold(a, b) }

  // No walks over two resources find the same name.
  ghost predicate NoneShared(m: TypeMap) { forall i, j :: i in m && j in m && i != j ==> !MaySameName(m[i], m[j]) }

  // No other resource may have a name of c.
  ghost predicate NameFree(m: TypeMap, id: string, c: Content) {
    forall i :: i in m && i != id ==> !MaySameName(m[i], c)
  }

  lemma SameNameSymmetric(c: Content, d: Content)
    ensures MaySameName(c, d) <==> MaySameName(d, c)
  {
    forall a, b | Shared(a, b) ensures Shared(b, a) { assert |Lower(a)| == |a| && |Lower(b)| == |b|; }
    if MaySameName(c, d) {
      var a, b :| MayName(c.attributes, a) && MayName(d.attributes, b) && Shared(a, b);
      assert Shared(b, a);
    }
    if MaySameName(d, c) {
      var a, b :| MayName(d.attributes, a) && MayName(c.attributes, b) && Shared(a, b);
      assert Shared(b, a);
    }
  }

  // ----- one request -----

  lemma NamesAfterPut(m: TypeMap, id: string, c: Content)
    requires NoneShared(m)
    ensures NoneShared(m[id := c]) <==> NameFree(m, id, c)
  {
    var n := m[id := c];
    if NoneShared(n) {
      forall i | i in m && i != id ensures !MaySameName(m[i], c) { assert !MaySameName(n[i], n[id]); }
    }
    if NameFree(m, id, c) {
      forall i, j | i in n && j in n && i != j ensures !MaySameName(n[i], n[j]) {
        if i == id { SameNameSymmetric(n[i], n[j]); }
      }
    }
  }

  lemma StoreWrites(s: State, t: string, id: string, v: Content)
    ensures OfType(Store(s, t, id, v), t) == OfType(s, t)[id := v] && OfType(s[t := OfType(s, t)], t) == OfType(s, t)
    ensures forall u :: u != t ==> OfType(Store(s, t, id, v), u) == OfType(s, u)
    ensures forall u :: u != t ==> OfType(s[t := OfType(s, t)], u) == OfType(s, u)
  {
  }

  // Only what is under the identifier of the request changes from m to n.
  predicate ChangesOnly(m: TypeMap, n: TypeMap, id: string) { if id in n then n == m[id := n[id]] else n == m - {id} }

  lemma ChangesNothing(m: TypeMap, id: string)
    ensures ChangesOnly(m, m, id)
  {
  }

  // What a step does to the resources of a type, and of the others.
  lemma StepWrites(s: State, r: Request, s': State)
    requires MayStep(s, r, s')
    ensures ChangesOnly(OfType(s, r.rtype), OfType(s', r.rtype), r.id)
    ensures forall t :: t != r.rtype ==> OfType(s', t) == OfType(s, t)
  {
    ChangesNothing(OfType(s, r.rtype), r.id);
    match r
    case Create(t, res, id, now) =>
      var v :| IsVersion(v, res, id, t, now, now)
        && ((MayRefuse(s, t, v) && s' == s[t := OfType(s, t)]) || (MayAdmit(s, t, v) && s' == Store(s, t, id, v)));
      StoreWrites(s, t, id, v);
    case Replace(t, id, res, now) =>
      if Stored(s, t, id) {
        var v :| IsVersion(v, res, id, t, s[t][id].meta.created, now) && s' == Store(s, t, id, v);
        StoreWrites(s, t, id, v);
      }
    case Modify(t, id, ops, now) =>
      if s' != s {
        var v :| IsPatched(v, s[t][id], ops, t, now) && s' == Store(s, t, id, v);
        StoreWrites(s, t, id, v);
      }
    case Delete(t, id) =>
  }

  // Whatever the request and the resources: afterwards names are still apart exactly when no other resource
  // may have a name of the version stored under the identifier of the request.
  lemma NamesAfterWrite(s: State, r: Request, s': State)
    requires MayStep(s, r, s') && NoneShared(OfType(s, r.rtype))
    ensures NoneShared(OfType(s', r.rtype)) <==>
            (Stored(s', r.rtype, r.id) ==> NameFree(OfType(s, r.rtype), r.id, s'[r.rtype][r.id]))
  {
    StepWrites(s, r, s');
    if Stored(s', r.rtype, r.id) { NamesAfterPut(OfType(s, r.rtype), r.id, s'[r.rtype][r.id]); }
  }

  // ----- Create -----

  // Every outcome of a Create request keeps names apart exactly when no other user may have its name, or
  // every walk finds the name taken.
  lemma CreateKeepsNames(s: State, t: string, res: Content, id: string, now: Time)
    requires IsUserType(t) && NoneShared(OfType(s, t)) && Settled(res.attributes)
    ensures var v := Stamped(res, id, t, now, now);
            (forall s' :: MayStep(s, Create(t, res, id, now), s') ==> NoneShared(OfType(s', t)))
            <==> !MayAdmit(s, t, v) || NameFree(OfType(s, t), id, v)
  {
    var v := Stamped(res, id, t, now, now);
    var m := OfType(s, t);
    NamesAfterPut(m, id, v);
    assert IsVersion(v, res, id, t, now, now);
    if MayAdmit(s, t, v) {
      assert MayStep(s, Create(t, res, id, now), Store(s, t, id, v));
      assert OfType(Store(s, t, id, v), t) == m[id := v];
    }
    forall s' | MayStep(s, Create(t, res, id, now), s')
      ensures OfType(s', t) == m || (MayAdmit(s, t, v) && OfType(s', t) == m[id := v])
    {
    }
  }

  // Each walk finds the same name.
  ghost predicate OneNamed(c: Content) {
    forall a, b :: MayName(c.attributes, a) && MayName(c.attributes, b) ==> a == b
  }

  ghost predicate AllOneNamed(m: TypeMap) { forall id :: id in m ==> OneNamed(m[id]) }

  lemma LackingIsApart(c: Content, v: Content, name: string)
    requires OneNamed(c) && OneNamed(v) && MayName(v.attributes, name) && (name == "" || MayLack(c, name))
    ensures !MaySameName(c, v)
  {
    forall a, b | MayName(c.attributes, a) && MayName(v.attributes, b) ensures !Shared(a, b) {
      assert b == name && |Lower(a)| == |a| && |Lower(b)| == |b|;
    }
  }

  // So it does when each user has one name.
  lemma AdmittedIsFree(s: State, t: string, id: string, v: Content)
    requires IsUserType(t) && AllOneNamed(OfType(s, t)) && OneNamed(v) && MayAdmit(s, t, v)
    ensures NameFree(OfType(s, t), id, v)
  {
    var m := OfType(s, t);
    var name :| MayName(v.attributes, name) && (name == "" || MayMiss(m, name));
    forall i | i in m && i != id ensures !MaySameName(m[i], v) { LackingIsApart(m[i], v, name); }
  }

  // Not otherwise: the walk that looks for a taken name can find the other one of a user with two.
  const TWO_NAMED: Content :=
    Content([], "1", "", Meta("User", ZERO_TIME, ZERO_TIME, "", ""),
            map["USERNAME" := Str("a"), "username" := Str("z")])

  const SECOND: Content := Content([], "", "", NO_META, map["userName" := Str("a")])

  lemma NamesOfBoth()
    ensures MayName(TWO_NAMED.attributes, "a") && MayName(TWO_NAMED.attributes, "z") && MayName(SECOND.attributes, "a")
    ensures Shared("a", "a") && !EqualFold("z", "a")
  {
    assert IsName(TWO_NAMED.attributes, "USERNAME") && IsName(TWO_NAMED.attributes, "username");
    assert IsName(SECOND.attributes, "userName");
    assert Lower("a")[0] != Lower("z")[0];
  }

  lemma CreateAdmitsTakenName(now: Time)
    ensures var s := map["User" := map["1" := TWO_NAMED]];
            var s' := Store(s, "User", "2", Stamped(SECOND, "2", "User", now, now));
            NoneShared(s["User"]) && MayStep(s, Create("User", SECOND, "2", now), s') && !NoneShared(s'["User"])
  {
    var s := map["User" := map["1" := TWO_NAMED]];
    var v := Stamped(SECOND, "2", "User", now, now);
    var s' := Store(s, "User", "2", v);
    NamesOfBoth();
    assert MayLack(TWO_NAMED, "a");
    assert MayMiss(s["User"], "a");
    assert MaySameName(s'["User"]["1"], s'["User"]["2"]);
    assert IsVersion(v, SECOND, "2", "User", now, now);
  }

  // ----- runs -----

  // On users without case clashes these are the names of the specification.
  lemma NamesWhenClean(m: TypeMap)
    requires forall id :: id in m ==> Clean(m[id])
    ensures AllOneNamed(m) && (NoneShared(m) <==> DistinctNames(m))
  {
    forall id, n | id in m ensures MayName(m[id].attributes, n) <==> n == UserName(m[id].attributes) {
      OneName(m[id].attributes, n);
    }
    forall i, j | i in m && j in m ensures MaySameName(m[i], m[j]) <==> SameName(m[i], m[j]) {
      if SameName(m[i], m[j]) { assert Shared(UserName(m[i].attributes), UserName(m[j].attributes)); }
    }
  }

  ghost predicate NoNewName(c: Content, d: Content) {
    forall n :: MayName(d.attributes, n) ==> MayName(c.attributes, n)
  }

  // A created user has one name, and Replace and Patch write no name that was not there.
  ghost predicate LeavesNames(s: State, r: Request, s': State, t: string) {
    r.rtype == t && Stored(s', t, r.id) ==>
      match r
      case Create(_, _, _, _) => OneNamed(s'[t][r.id])
      case _ => Stored(s, t, r.id) ==> NoNewName(s[t][r.id], s'[t][r.id])
  }

  lemma OldNamesAreFree(m: TypeMap, id: string, c: Content)
    requires NoneShared(m) && id in m && NoNewName(m[id], c)
    ensures NameFree(m, id, c)
  {
    forall i | i in m && i != id ensures !MaySameName(m[i], c) {
      forall a, b | MayName(m[i].attributes, a) && MayName(c.attributes, b) ensures !Shared(a, b) {
        assert !MaySameName(m[i], m[id]) && MayName(m[id].attributes, b);
      }
    }
  }

  // A user that Create puts into the store was admitted.
  lemma CreatedWasAdmitted(s: State, r: Request, s': State)
    requires r.Create? && MayStep(s, r, s') && Stored(s', r.rtype, r.id)
    ensures OfType(s', r.rtype) == OfType(s, r.rtype) || MayAdmit(s, r.rtype, s'[r.rtype][r.id])
  {
    var v :| IsVersion(v, r.res, r.id, r.rtype, r.now, r.now)
      && ((MayRefuse(s, r.rtype, v) && s' == s[r.rtype := OfType(s, r.rtype)])
          || (MayAdmit(s, r.rtype, v) && s' == Store(s, r.rtype, r.id, v)));
  }

  lemma WrittenIsFree(s: State, r: Request, s': State)
    requires IsUserType(r.rtype) && MayStep(s, r, s') && LeavesNames(s, r, s', r.rtype)
    requires NoneShared(OfType(s, r.rtype)) && AllOneNamed(OfType(s, r.rtype)) && Stored(s', r.rtype, r.id)
    ensures NameFree(OfType(s, r.rtype), r.id, s'[r.rtype][r.id]) && OneNamed(s'[r.rtype][r.id])
  {
    var m := OfType(s, r.rtype);
    var c := s'[r.rtype][r.id];
    StepWrites(s, r, s');
    if OfType(s', r.rtype) == m {
      OldNamesAreFree(m, r.id, c);
    } else if r.Create? {
      CreatedWasAdmitted(s, r, s');
      AdmittedIsFree(s, r.rtype, r.id, c);
    } else {
      OldNamesAreFree(m, r.id, c);
    }
  }

  lemma NamesAfterStep(s: State, r: Request, s': State, t: string)
    requires IsUserType(t) && MayStep(s, r, s') && LeavesNames(s, r, s', t)
    requires NoneShared(OfType(s, t)) && AllOneNamed(OfType(s, t))
    ensures NoneShared(OfType(s', t)) && AllOneNamed(OfType(s', t))
  {
    StepWrites(s, r, s');
    if r.rtype == t {
      NamesAfterWrite(s, r, s');
      if Stored(s', t, r.id) { WrittenIsFree(s, r, s'); }
    }
  }

  // Names stay apart over every such run.
  lemma {:induction false} NamesAfterRun(states: seq<State>, rs: seq<Request>, n: nat, t: string)
    requires IsUserType(t) && IsRun(states, rs) && n <= |rs|
    requires NoneShared(OfType(states[0], t)) && AllOneNamed(OfType(states[0], t))
    requires forall i :: 0 <= i < n ==> LeavesNames(states[i], rs[i], states[i + 1], t)
    ensures NoneShared(OfType(states[n], t)) && AllOneNamed(OfType(states[n], t))
  {
    if n > 0 {
      NamesAfterRun(states, rs, n - 1, t);
      var i := n - 1;
      assert LeavesNames(states[i], rs[i], states[i + 1], t) && MayStep(states[i], rs[i], states[i + 1]);
      NamesAfterStep(states[i], rs[i], states[i + 1], t);
    }
  }
}
