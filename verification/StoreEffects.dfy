// What each request leaves in the store and what is read back, told without the steps' own bodies; on any
// resources, whatever order maps are walked in.
module StoreEffects {
  import opened Text
  import opened Values
  import opened Objects
  import opened Resources
  import opened Patches
  import opened Comparisons
  import opened Stores
  import opened StoreRuns

  // Under every other key there is what there was.
  ghost predicate SameElsewhere(s: State, s': State, t: string, id: string) {
    forall u, i :: !(u == t && i == id) ==>
      (Stored(s', u, i) <==> Stored(s, u, i)) && (Stored(s, u, i) ==> s'[u][i] == s[u][i])
  }

  ghost predicate SameEverywhere(s: State, s': State) {
    forall u, i :: (Stored(s', u, i) <==> Stored(s, u, i)) && (Stored(s, u, i) ==> s'[u][i] == s[u][i])
  }

  // The stored version of what a caller passed, when no attribute has the name of a fixed field.
  ghost predicate VersionOf(v: Content, res: Content, id: string, t: string, created: Time, now: Time) {
    v.id == id && v.meta.resourceType == t && v.meta.created == created && v.meta.lastModified == now
    && (Settled(res.attributes) ==>
          v.attributes == res.attributes && v.schemas == res.schemas && v.externalId == res.externalId
          && v.meta.location == res.meta.location && v.meta.version == res.meta.version)
  }

  // The version a patch leaves of c: all but the attributes, its type and its time of change as in c.
  ghost predicate PatchOf(v: Content, c: Content, t: string, now: Time) {
    Settled(c.attributes) ==>
      v.id == c.id && v.schemas == c.schemas && v.externalId == c.externalId && v.meta.resourceType == t
      && v.meta.lastModified == now && v.meta.created.sec == c.meta.created.sec
      && v.meta.location == c.meta.location && v.meta.version == c.meta.version
  }

  // What a read shows of what is stored: the times in whole seconds and all else as it is.
  ghost predicate ShowsAs(shown: Content, v: Content) {
    shown.id == v.id && shown.schemas == v.schemas && shown.externalId == v.externalId
    && shown.attributes == v.attributes && shown.meta.resourceType == v.meta.resourceType
    && shown.meta.location == v.meta.location && shown.meta.version == v.meta.version
    && shown.meta.created.sec == v.meta.created.sec && shown.meta.created.nanos == 0
    && shown.meta.lastModified.sec == v.meta.lastModified.sec && shown.meta.lastModified.nanos == 0
  }

  lemma ReadShows(s: State, t: string, id: string)
    requires Stored(s, t, id)
    ensures ShowsAs(Shown(s, t, id), s[t][id])
  {
  }

  lemma VersionIs(v: Content, res: Content, id: string, t: string, created: Time, now: Time)
    requires IsVersion(v, res, id, t, created, now)
    ensures VersionOf(v, res, id, t, created, now)
  {
  }

  lemma PatchIs(v: Content, c: Content, ops: seq<PatchOp>, t: string, now: Time)
    requires IsPatched(v, c, ops, t, now)
    ensures PatchOf(v, c, t, now)
  {
  }

  lemma StoreReadsBack(s: State, t: string, id: string, v: Content)
    ensures var s' := Store(s, t, id, v); Stored(s', t, id) && s'[t][id] == v && SameElsewhere(s, s', t, id)
    ensures SameEverywhere(s, s[t := OfType(s, t)])
  {
  }

  // Delete: the resource is gone and nothing else has changed.
  lemma Deleted(s: State, t: string, id: string, s': State)
    requires MayStep(s, Delete(t, id), s')
    ensures !Stored(s', t, id) && SameElsewhere(s, s', t, id)
  {
  }

  // Create: nothing changes, or the version of res is stored under the new id.
  lemma Created(s: State, t: string, res: Content, id: string, now: Time, s': State)
    requires MayStep(s, Create(t, res, id, now), s')
    ensures SameEverywhere(s, s')
            || (Stored(s', t, id) && VersionOf(s'[t][id], res, id, t, now, now) && SameElsewhere(s, s', t, id))
  {
    var v :| IsVersion(v, res, id, t, now, now)
      && ((MayRefuse(s, t, v) && s' == s[t := OfType(s, t)]) || (MayAdmit(s, t, v) && s' == Store(s, t, id, v)));
    VersionIs(v, res, id, t, now, now);
    StoreReadsBack(s, t, id, v);
  }

  // Replace: the version of res with the creation time there was, or nothing when there is no such resource.
  lemma Replaced(s: State, t: string, id: string, res: Content, now: Time, s': State)
    requires MayStep(s, Request.Replace(t, id, res, now), s')
    ensures if Stored(s, t, id) then
              Stored(s', t, id) && SameElsewhere(s, s', t, id)
              && VersionOf(s'[t][id], res, id, t, s[t][id].meta.created, now)
            else SameEverywhere(s, s')
  {
    if Stored(s, t, id) {
      var v :| IsVersion(v, res, id, t, s[t][id].meta.created, now) && s' == Store(s, t, id, v);
      VersionIs(v, res, id, t, s[t][id].meta.created, now);
      StoreReadsBack(s, t, id, v);
    }
  }

  // Patch: a patched version, or nothing.
  lemma Modified(s: State, t: string, id: string, ops: seq<PatchOp>, now: Time, s': State)
    requires MayStep(s, Modify(t, id, ops, now), s')
    ensures SameEverywhere(s, s')
            || (Stored(s, t, id) && Stored(s', t, id) && SameElsewhere(s, s', t, id)
                && PatchOf(s'[t][id], s[t][id], t, now))
  {
    if s' != s {
      var v :| IsPatched(v, s[t][id], ops, t, now) && s' == Store(s, t, id, v);
      PatchIs(v, s[t][id], ops, t, now);
      StoreReadsBack(s, t, id, v);
    }
  }

  // Without case clashes the attributes after a patch are those the operations make in turn, and it fails
  // exactly when one of them does.
  lemma ModifiedAttributes(s: State, t: string, id: string, ops: seq<PatchOp>, now: Time, s': State)
    requires MayStep(s, Modify(t, id, ops, now), s') && Stored(s, t, id) && Clean(s[t][id]) && CleanOps(ops)
    ensures match ApplyOps(s[t][id].attributes, ops)
            case Ok(a) => Stored(s', t, id) && s'[t][id].attributes == a && s'[t][id].meta.lastModified == now
            case Err(_) => SameEverywhere(s, s')
  {
  }

  // ----- the check of Create -----

  ghost predicate HasName(m: Object, name: string) { Holds(m, "userName", Str(name)) }

  lemma NameIs(m: Object, name: string)
    requires CaseUnique(m) && name != ""
    ensures HasName(m, name) <==> UserName(m) == name
  {
    if HasName(m, name) { HeldIsFound(m, "userName", Str(name)); }
    if UserName(m) == name { assert KeyOf(m, "userName") in m; }
  }

  // c has a name that d has, too, in any casing.
  ghost predicate NameIn(c: Object, d: Object) {
    exists name, other :: name != "" && HasName(c, name) && HasName(d, other) && SameLetters(other, name)
  }

  lemma NameInIs(c: Object, d: Object)
    requires CaseUnique(c) && CaseUnique(d)
    ensures NameIn(c, d) <==> UserName(c) != "" && EqualFold(UserName(d), UserName(c))
  {
    if NameIn(c, d) {
      var name, other :| name != "" && HasName(c, name) && HasName(d, other) && SameLetters(other, name);
      FoldIsSameLetters(other, name);
      NameIs(c, name);
      NameIs(d, other);
    }
    var name, other := UserName(c), UserName(d);
    FoldIsSameLetters(other, name);
    if name != "" && EqualFold(other, name) {
      NameIs(c, name);
      NameIs(d, other);
    }
  }

  // A user of the type User, in any casing, whose name a stored one has.
  ghost predicate Taken(s: State, t: string, res: Content) {
    SameLetters(t, "User") && exists id :: Stored(s, t, id) && NameIn(res.attributes, s[t][id].attributes)
  }

  lemma RefusedWhenTaken(s: State, t: string, res: Content)
    requires CleanState(s) && Clean(res)
    ensures Refused(s, t, res) <==> Taken(s, t, res)
  {
    FoldIsSameLetters(t, "User");
    var m, name := OfType(s, t), UserName(res.attributes);
    forall id | id in m
      ensures NameIn(res.attributes, m[id].attributes) <==> name != "" && EqualFold(UserName(m[id].attributes), name)
    {
      assert Clean(m[id]);
      NameInIs(res.attributes, m[id].attributes);
    }
  }

  // Without case clashes Create fails exactly when the name is taken, and otherwise stores the resource.
  lemma CreatedUnlessTaken(s: State, t: string, res: Content, id: string, now: Time, s': State)
    requires CleanState(s) && Clean(res) && MayStep(s, Create(t, res, id, now), s')
    ensures if Taken(s, t, res) then SameEverywhere(s, s')
            else Stored(s', t, id) && s'[t][id].attributes == res.attributes && SameElsewhere(s, s', t, id)
  {
    RefusedWhenTaken(s, t, res);
    OneCreation(s, t, res, id, now, s');
    StoreReadsBack(s, t, id, Stamped(res, id, t, now, now));
  }
}
