// Every run of the store, on any resources: what a request may do when Go walks its maps in any order, and
// what all runs keep.
module StoreRuns {
  import opened Text
  import opened Values
  import opened Objects
  import opened Resources
  import opened Patches
  import opened Stores

  // ----- the name a walk may find -----

  predicate IsName(m: Object, k: string) { k in m && EqualFold(k, "userName") && m[k].Str? }

  ghost predicate MayName(m: Object, name: string) {
    if exists k :: IsName(m, k) then exists k :: IsName(m, k) && name == m[k].s else name == ""
  }

  ghost predicate MayShare(c: Content, name: string) { exists n :: MayName(c.attributes, n) && EqualFold(n, name) }

  ghost predicate MayLack(c: Content, name: string) { exists n :: MayName(c.attributes, n) && !EqualFold(n, name) }

  ghost predicate MayTake(m: TypeMap, name: string) { exists id :: id in m && MayShare(m[id], name) }

  ghost predicate MayMiss(m: TypeMap, name: string) { forall id :: id in m ==> MayLack(m[id], name) }

  ghost predicate MayRefuse(s: State, t: string, v: Content) {
    IsUserType(t) && exists name :: MayName(v.attributes, name) && name != "" && MayTake(OfType(s, t), name)
  }

  ghost predicate MayAdmit(s: State, t: string, v: Content) {
    !IsUserType(t) || exists name :: MayName(v.attributes, name) && (name == "" || MayMiss(OfType(s, t), name))
  }

  // ----- what a request may do -----

  // The version of res that Create and Replace write: a clone with id, type and times set. Cloning is exact
  // unless a free attribute carries a reserved name.
  ghost predicate IsVersion(v: Content, res: Content, id: string, t: string, created: Time, now: Time) {
    v.id == id && v.meta.resourceType == t && v.meta.created == created && v.meta.lastModified == now
    && Settled(v.attributes) && (Settled(res.attributes) ==> v == Stamped(res, id, t, created, now))
  }

  // The version of c that Patch writes: its clone with other attributes, type and time of change.
  ghost predicate IsPatched(v: Content, c: Content, ops: seq<PatchOp>, t: string, now: Time) {
    Settled(c.attributes) ==>
      (v == Restamped(Truncated(c).(attributes := v.attributes), t, now)
        && (AvoidsReserved(ops) ==> Settled(v.attributes)))
  }

  ghost predicate MayCreate(s: State, t: string, res: Content, id: string, now: Time, s': State) {
    exists v :: IsVersion(v, res, id, t, now, now)
      && ((MayRefuse(s, t, v) && s' == s[t := OfType(s, t)]) || (MayAdmit(s, t, v) && s' == Store(s, t, id, v)))
  }

  ghost predicate MayReplace(s: State, t: string, id: string, res: Content, now: Time, s': State) {
    if !Stored(s, t, id) then s' == s
    else exists v :: IsVersion(v, res, id, t, s[t][id].meta.created, now) && s' == Store(s, t, id, v)
  }

  ghost predicate MayModify(s: State, t: string, id: string, ops: seq<PatchOp>, now: Time, s': State) {
    (s' == s || (Stored(s, t, id) && exists v :: IsPatched(v, s[t][id], ops, t, now) && s' == Store(s, t, id, v)))
    && (Stored(s, t, id) && Clean(s[t][id]) && CleanOps(ops) ==> s' == Step(s, Modify(t, id, ops, now)))
  }

  ghost predicate MayStep(s: State, r: Request, s': State) {
    match r
    case Create(t, res, id, now) => MayCreate(s, t, res, id, now, s')
    case Replace(t, id, res, now) => MayReplace(s, t, id, res, now, s')
    case Modify(t, id, ops, now) => MayModify(s, t, id, ops, now, s')
    case Delete(_, _) => s' == Step(s, r)
  }

  // ----- without case clashes there is one outcome -----

  lemma OneName(m: Object, name: string)
    requires CaseUnique(m)
    ensures MayName(m, name) <==> name == UserName(m)
  {
    if k :| IsName(m, k) {
      LookupOnly(m, k, "userName");
      forall l | IsName(m, l) ensures l == k {}
    } else if HasKey(m, "userName") {
      assert !IsName(m, KeyOf(m, "userName"));
    }
  }

  lemma OneAnswer(m: TypeMap, name: string)
    requires forall id :: id in m ==> CaseUnique(m[id].attributes)
    ensures MayTake(m, name) <==> NameTaken(m, name)
    ensures MayMiss(m, name) <==> !NameTaken(m, name)
  {
    forall id | id in m
      ensures MayShare(m[id], name) <==> EqualFold(UserName(m[id].attributes), name)
      ensures MayLack(m[id], name) <==> !EqualFold(UserName(m[id].attributes), name)
    {
      forall n
        ensures MayName(m[id].attributes, n) <==> n == UserName(m[id].attributes)
      {
        OneName(m[id].attributes, n);
      }
    }
  }

  lemma OneVerdict(s: State, t: string, v: Content)
    requires CleanState(s) && CaseUnique(v.attributes)
    ensures MayRefuse(s, t, v) <==> Refused(s, t, v)
    ensures MayAdmit(s, t, v) <==> !Refused(s, t, v)
  {
    var name := UserName(v.attributes);
    OneAnswer(OfType(s, t), name);
    forall n ensures MayName(v.attributes, n) <==> n == name { OneName(v.attributes, n); }
  }

  lemma OneCreation(s: State, t: string, res: Content, id: string, now: Time, s': State)
    requires CleanState(s) && Clean(res)
    ensures MayCreate(s, t, res, id, now, s') <==> s' == Step(s, Create(t, res, id, now))
  {
    var v := Stamped(res, id, t, now, now);
    OneVerdict(s, t, v);
    assert IsVersion(v, res, id, t, now, now);
  }

  // Inserting a version after the check is a creation.
  ghost predicate Inserts(s: State, t: string, id: string, v: Content, refused: bool, s': State) {
    if refused then MayRefuse(s, t, v) && s' == s[t := OfType(s, t)] else MayAdmit(s, t, v) && s' == Store(s, t, id, v)
  }

  lemma InsertIsCreation(s: State, t: string, res: Content, id: string, now: Time, v: Content, refused: bool, s': State)
    requires IsVersion(v, res, id, t, now, now) && Inserts(s, t, id, v, refused, s')
    ensures MayStep(s, Create(t, res, id, now), s')
  {
  }

  lemma InsertIsExact(s: State, t: string, res: Content, id: string, now: Time, v: Content, refused: bool, s': State)
    requires IsVersion(v, res, id, t, now, now) && Inserts(s, t, id, v, refused, s') && CleanState(s) && Clean(res)
    ensures s' == Step(s, Create(t, res, id, now)) && refused == Refused(s, t, res)
  {
    OneVerdict(s, t, v);
  }

  // On a clean store a clean request does exactly what the deterministic step says.
  lemma StepIsOnly(s: State, r: Request, s': State)
    requires CleanState(s) && CleanRequest(r)
    ensures MayStep(s, r, s') <==> s' == Step(s, r)
  {
    match r
    case Create(t, res, id, now) => OneCreation(s, t, res, id, now, s');
    case Replace(t, id, res, now) =>
      if Stored(s, t, id) {
        assert IsVersion(Stamped(res, id, t, s[t][id].meta.created, now), res, id, t, s[t][id].meta.created, now);
      }
    case Modify(t, id, ops, now) => OneModification(s, t, id, ops, now);
    case Delete(_, _) =>
  }

  // So a run of clean requests from a clean store ends where the deterministic run does.
  lemma {:induction false} RunIsOnly(states: seq<State>, rs: seq<Request>)
    requires IsRun(states, rs) && CleanState(states[0]) && forall i :: 0 <= i < |rs| ==> CleanRequest(rs[i])
    ensures states[|rs|] == Run(states[0], rs) && CleanState(states[|rs|])
    decreases |rs|
  {
    RunKeepsClean(states[0], rs);
    if rs != [] {
      StepIsOnly(states[0], rs[0], states[1]);
      StepKeepsClean(states[0], rs[0]);
      RunIsOnly(states[1..], rs[1..]);
    }
  }

  lemma OneModification(s: State, t: string, id: string, ops: seq<PatchOp>, now: Time)
    requires CleanState(s) && CleanOps(ops)
    ensures MayModify(s, t, id, ops, now, Step(s, Modify(t, id, ops, now)))
  {
    if Stored(s, t, id) && Patch(s[t][id], ops).Ok? {
      PatchedIsClean(s[t][id], ops);
      assert IsPatched(Restamped(Patch(s[t][id], ops).value, t, now), s[t][id], ops, t, now);
    }
  }

  // ----- runs -----

  // Each stored resource carries its own key as id, its own type, and no attribute named like a fixed field.
  ghost predicate Kept(t: string, id: string, c: Content) {
    c.id == id && c.meta.resourceType == t && Settled(c.attributes)
  }

  ghost predicate Invariant(s: State) { forall t, id :: t in s && id in s[t] ==> Kept(t, id, s[t][id]) }

  // Patches target no fixed field; nothing else is asked of a request.
  ghost predicate Fair(r: Request) { r.Modify? ==> AvoidsReserved(r.ops) }

  ghost predicate IsRun(states: seq<State>, rs: seq<Request>) {
    |states| == |rs| + 1 && forall i :: 0 <= i < |rs| ==> MayStep(states[i], rs[i], states[i + 1])
  }

  lemma StoreKeeps(s: State, t: string, id: string, v: Content)
    requires Invariant(s) && Kept(t, id, v)
    ensures Invariant(Store(s, t, id, v))
  {
  }

  lemma StepKeepsInvariant(s: State, r: Request, s': State)
    requires Invariant(s) && Fair(r) && MayStep(s, r, s')
    ensures Invariant(s')
  {
    match r
    case Create(t, res, id, now) =>
      var v :| IsVersion(v, res, id, t, now, now)
        && ((MayRefuse(s, t, v) && s' == s[t := OfType(s, t)]) || (MayAdmit(s, t, v) && s' == Store(s, t, id, v)));
      StoreKeeps(s, t, id, v);
    case Replace(t, id, res, now) =>
      if Stored(s, t, id) {
        var v :| IsVersion(v, res, id, t, s[t][id].meta.created, now) && s' == Store(s, t, id, v);
        StoreKeeps(s, t, id, v);
      }
    case Modify(t, id, ops, now) =>
      if s' != s {
        var v :| IsPatched(v, s[t][id], ops, t, now) && s' == Store(s, t, id, v);
        StoreKeeps(s, t, id, v);
      }
    case Delete(_, _) =>
  }

  // Over every run, whatever the resources and values hold and however maps are walked.
  lemma {:induction false} RunKeepsInvariant(states: seq<State>, rs: seq<Request>, n: nat)
    requires IsRun(states, rs) && n <= |rs| && Invariant(states[0]) && forall i :: 0 <= i < |rs| ==> Fair(rs[i])
    ensures Invariant(states[n])
  {
    if n > 0 {
      RunKeepsInvariant(states, rs, n - 1);
      StepKeepsInvariant(states[n - 1], rs[n - 1], states[n]);
    }
  }

  // Requests that neither delete the resource nor create another under its id.
  predicate Spares(r: Request, t: string, id: string) {
    match r
    case Create(u, _, i, _) => !(u == t && i == id)
    case Delete(u, i) => !(u == t && i == id)
    case _ => true
  }

  // Writing under one key leaves what is stored under another.
  lemma StoredElsewhere(s: State, t: string, id: string, c: Content, u: string, i: string)
    requires Stored(s, u, i) && !(u == t && i == id)
    ensures Stored(Store(s, t, id, c), u, i) && Store(s, t, id, c)[u][i] == s[u][i]
  {
  }

  // The step leaves the resource alone or writes another version with the same creation second.
  lemma StepKeepsCreated(s: State, r: Request, s': State, t: string, id: string)
    requires Invariant(s) && MayStep(s, r, s') && Spares(r, t, id) && Stored(s, t, id)
    ensures Stored(s', t, id) && Seconds(s'[t][id].meta.created) == Seconds(s[t][id].meta.created)
  {
    match r
    case Create(u, res, i, now) =>
      var v :| IsVersion(v, res, i, u, now, now)
        && ((MayRefuse(s, u, v) && s' == s[u := OfType(s, u)]) || (MayAdmit(s, u, v) && s' == Store(s, u, i, v)));
      StoredElsewhere(s, u, i, v, t, id);
    case Replace(u, i, res, now) =>
      if Stored(s, u, i) {
        var v :| IsVersion(v, res, i, u, s[u][i].meta.created, now) && s' == Store(s, u, i, v);
        if !(u == t && i == id) { StoredElsewhere(s, u, i, v, t, id); }
      }
    case Modify(u, i, ops, now) =>
      if s' != s {
        var v :| IsPatched(v, s[u][i], ops, u, now) && s' == Store(s, u, i, v);
        if !(u == t && i == id) { StoredElsewhere(s, u, i, v, t, id); }
      }
    case Delete(_, _) =>
  }

  // Over every run that spares the resource, the creation time a read shows never changes, nor do id and type.
  lemma {:induction false} RunKeepsCreated(states: seq<State>, rs: seq<Request>, n: nat, t: string, id: string)
    requires IsRun(states, rs) && n <= |rs| && Invariant(states[0]) && Stored(states[0], t, id)
    requires forall i :: 0 <= i < |rs| ==> Fair(rs[i]) && Spares(rs[i], t, id)
    ensures Stored(states[n], t, id) && Shown(states[n], t, id).meta.created == Shown(states[0], t, id).meta.created
    ensures Shown(states[n], t, id).id == id && Shown(states[n], t, id).meta.resourceType == t
  {
    RunKeepsInvariant(states, rs, n);
    if n > 0 {
      RunKeepsCreated(states, rs, n - 1, t, id);
      RunKeepsInvariant(states, rs, n - 1);
      StepKeepsCreated(states[n - 1], rs[n - 1], states[n], t, id);
    }
  }

  // From its creation on: whatever follows, a created resource shows its creation second.
  lemma CreatedTimeIsKept(states: seq<State>, rs: seq<Request>, n: nat, t: string, res: Content, id: string,
                          now: Time, v: Content)
    requires IsRun(states, rs) && 0 < n <= |rs| && Invariant(states[0]) && rs[0] == Create(t, res, id, now)
    requires IsVersion(v, res, id, t, now, now) && states[1] == Store(states[0], t, id, v)
    requires forall i :: 0 < i < |rs| ==> Fair(rs[i]) && Spares(rs[i], t, id)
    ensures Stored(states[n], t, id) && Shown(states[n], t, id).meta.created == Seconds(now)
  {
    StepKeepsInvariant(states[0], rs[0], states[1]);
    assert IsRun(states[1..], rs[1..]);
    RunKeepsCreated(states[1..], rs[1..], n - 1, t, id);
  }
}
