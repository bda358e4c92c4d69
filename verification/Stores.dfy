// The store as a state machine over values: what each request does to the stored resources, what every
// run of requests keeps, and what a list request returns.
module Stores {
  import opened Text
  import opened Values
  import opened Objects
  import opened Filters
  import opened FilterEval
  import opened Resources
  import opened Patches
  import opened Sorting

  // Resources by id, for each resource type.
  type TypeMap = map<string, Content>

  type State = map<string, TypeMap>

  // Identifiers and the current time come from outside.
  datatype Request =
    | Create(rtype: string, res: Content, id: string, now: Time)
    | Replace(rtype: string, id: string, res: Content, now: Time)
    | Modify(rtype: string, id: string, ops: seq<PatchOp>, now: Time)
    | Delete(rtype: string, id: string)

  datatype StoreError = NotFound | Conflict | PatchFailed(e: PatchError)

  function OfType(s: State, t: string): TypeMap { if t in s then s[t] else map[] }

  predicate Stored(s: State, t: string, id: string) { id in OfType(s, t) }

  // ----- user names -----

  ghost function UserName(m: Object): string { StringOr(Lookup(m, "userName"), "") }

  predicate IsUserType(t: string) { EqualFold(t, "User") }

  ghost predicate NameTaken(m: TypeMap, name: string) {
    exists id :: id in m && EqualFold(UserName(m[id].attributes), name)
  }

  // ----- the steps -----

  function Stamped(c: Content, id: string, t: string, created: Time, now: Time): Content {
    Truncated(c).(id := id, meta := Truncated(c).meta.(resourceType := t, created := created, lastModified := now))
  }

  function Store(s: State, t: string, id: string, c: Content): State { s[t := OfType(s, t)[id := c]] }

  ghost predicate Refused(s: State, t: string, res: Content) {
    IsUserType(t) && UserName(res.attributes) != "" && NameTaken(OfType(s, t), UserName(res.attributes))
  }

  ghost function Step(s: State, r: Request): State {
    match r
    case Create(t, res, id, now) =>
      if Refused(s, t, res) then s[t := OfType(s, t)] else Store(s, t, id, Stamped(res, id, t, now, now))
    case Replace(t, id, res, now) =>
      if !Stored(s, t, id) then s else Store(s, t, id, Stamped(res, id, t, s[t][id].meta.created, now))
    case Modify(t, id, ops, now) =>
      if !Stored(s, t, id) || Patch(s[t][id], ops).Err? then s
      else Store(s, t, id, Restamped(Patch(s[t][id], ops).value, t, now))
    case Delete(t, id) =>
      if !Stored(s, t, id) then s else s[t := s[t] - {id}]
  }

  function Restamped(c: Content, t: string, now: Time): Content {
    c.(meta := c.meta.(resourceType := t, lastModified := now))
  }

  ghost function Run(s: State, rs: seq<Request>): State
    decreases |rs|
  {
    if rs == [] then s else Run(Step(s, rs[0]), rs[1..])
  }

  // ----- stores without case clashes, for which the steps are exact -----

  // A resource read from JSON, without case clashes.
  ghost predicate Clean(c: Content) { Settled(c.attributes) && Unique(Obj(c.attributes)) }

  ghost predicate CleanOps(ops: seq<PatchOp>) {
    AvoidsReserved(ops) && forall i :: 0 <= i < |ops| ==> Unique(ops[i].value)
  }

  ghost predicate CleanRequest(r: Request) {
    match r
    case Create(_, res, _, _) => Clean(res)
    case Replace(_, _, res, _) => Clean(res)
    case Modify(_, _, ops, _) => CleanOps(ops)
    case Delete(_, _) => true
  }

  // Each stored resource carries its own key as id and its own type, and is clean.
  ghost predicate CleanState(s: State) {
    forall t, id :: t in s && id in s[t] ==> s[t][id].id == id && s[t][id].meta.resourceType == t && Clean(s[t][id])
  }

  lemma PatchedIsClean(c: Content, ops: seq<PatchOp>)
    requires Clean(c) && CleanOps(ops) && Patch(c, ops).Ok?
    ensures Clean(Patch(c, ops).value) && Patch(c, ops).value.id == c.id
    ensures Patch(c, ops).value.meta.created == Seconds(c.meta.created)
  {
    OpsKeepSettled(c.attributes, ops);
    OpsKeepUnique(c.attributes, ops);
  }

  lemma StepKeepsClean(s: State, r: Request)
    requires CleanState(s) && CleanRequest(r)
    ensures CleanState(Step(s, r))
  {
    match r
    case Create(t, res, id, now) => StoreKeepsClean(s, t, id, Stamped(res, id, t, now, now));
    case Replace(t, id, res, now) =>
      if Stored(s, t, id) { StoreKeepsClean(s, t, id, Stamped(res, id, t, s[t][id].meta.created, now)); }
    case Modify(t, id, ops, now) =>
      if Stored(s, t, id) && Patch(s[t][id], ops).Ok? {
        PatchedIsClean(s[t][id], ops);
        StoreKeepsClean(s, t, id, Restamped(Patch(s[t][id], ops).value, t, now));
      }
    case Delete(t, id) =>
  }

  lemma StoreKeepsClean(s: State, t: string, id: string, c: Content)
    requires CleanState(s) && c.id == id && c.meta.resourceType == t && Clean(c)
    ensures CleanState(Store(s, t, id, c)) && CleanState(s[t := OfType(s, t)])
  {
  }

  lemma {:induction false} RunKeepsClean(s: State, rs: seq<Request>)
    requires CleanState(s) && forall i :: 0 <= i < |rs| ==> CleanRequest(rs[i])
    ensures CleanState(Run(s, rs))
    decreases |rs|
  {
    if rs != [] {
      StepKeepsClean(s, rs[0]);
      RunKeepsClean(Step(s, rs[0]), rs[1..]);
    }
  }

  // What a read shows: the stored resource, cloned.
  function Shown(s: State, t: string, id: string): Content
    requires Stored(s, t, id)
  {
    Truncated(s[t][id])
  }

  // ----- distinct user names -----

  ghost predicate SameName(a: Content, b: Content) {
    UserName(a.attributes) != "" && EqualFold(UserName(a.attributes), UserName(b.attributes))
  }

  ghost predicate DistinctNames(m: TypeMap) {
    forall i, j :: i in m && j in m && SameName(m[i], m[j]) ==> i == j
  }

  // ----- listing -----

  datatype ListParams =
    ListParams(filter: Option<Filter>, sortBy: string, order: SortOrder, startIndex: int, count: int)

  datatype ListResult = ListResult(resources: seq<Content>, totalResults: nat, startIndex: int, itemsPerPage: nat)

  ghost predicate Wanted(f: Option<Filter>, c: Content) { f.None? || Eval(f.value, ToObject(c)) }

  // Clones of the chosen resources, in the order the snapshot has them.
  ghost function Chosen(cs: seq<Content>, want: Content -> bool): seq<Content> {
    if cs == [] then []
    else Chosen(cs[..|cs| - 1], want) + (if want(cs[|cs| - 1]) then [Truncated(cs[|cs| - 1])] else [])
  }

  ghost function Test(f: Option<Filter>): Content -> bool { c => Wanted(f, c) }

  ghost function Matching(cs: seq<Content>, f: Option<Filter>): seq<Content> { Chosen(cs, Test(f)) }

  function Min(a: int, b: int): int { if a < b then a else b }

  // 1-based start, negative counts meaning everything, both clamped to the list.
  function Page<T>(xs: seq<T>, startIndex: int, count: int): seq<T> {
    var start := Min(if startIndex < 1 then 0 else startIndex - 1, |xs|);
    var end := Min(start + (if count < 0 then |xs| else count), |xs|);
    xs[start..end]
  }

  ghost function Ordered(cs: seq<Content>, params: ListParams): seq<Content> {
    SortContents(Matching(cs, params.filter), params.sortBy, params.order)
  }

  // The page of a sorted list that the parameters ask for.
  function PageResult(all: seq<Content>, params: ListParams): ListResult {
    var page := Page(all, params.startIndex, params.count);
    ListResult(page, |all|, if params.startIndex < 1 then 1 else params.startIndex, |page|)
  }

  // The result of listing a snapshot taken in the order of cs.
  ghost function ListOf(cs: seq<Content>, params: ListParams): ListResult { PageResult(Ordered(cs, params), params) }

  // ids lists every key once.
  ghost predicate Enumerates(ids: seq<string>, keys: set<string>) {
    (forall i :: 0 <= i < |ids| ==> ids[i] in keys) && (forall k :: k in keys ==> k in ids)
    && (forall i, j :: 0 <= i < j < |ids| ==> ids[i] != ids[j])
  }

  function InOrder(m: TypeMap, ids: seq<string>): (cs: seq<Content>)
    requires forall i :: 0 <= i < |ids| ==> ids[i] in m
    ensures |cs| == |ids|
  {
    seq(|ids|, i requires 0 <= i < |ids| => m[ids[i]])
  }
}
