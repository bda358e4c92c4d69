// Walking through a list page by page: with distinct sort keys, pages taken from differently ordered
// snapshots of the same resources fit together.
module Paging {
  import opened Text
  import opened Values
  import opened Objects
  import opened Paths
  import opened Filters
  import opened Resources
  import opened Sorting
  import opened Stores

  // ----- sorting distinct keys has one outcome -----

  predicate DistinctKeys(xs: seq<Keyed>) {
    forall i, j :: 0 <= i < |xs| && 0 <= j < |xs| && CompareForSort(xs[i].key, xs[j].key) == 0 ==> xs[i] == xs[j]
  }

  lemma {:induction false} SortedOnce(xs: seq<Keyed>, ys: seq<Keyed>, order: SortOrder)
    requires Sorted(xs, order) && Sorted(ys, order) && DistinctKeys(xs) && multiset(xs) == multiset(ys)
    ensures xs == ys
    decreases |xs|
  {
    if xs == [] {
      assert |multiset(ys)| == 0;
    } else {
      assert xs[0] in multiset(ys);
      SameHead(xs, ys, order);
      SameTail(xs, ys);
      SortedOnce(xs[1..], ys[1..], order);
    }
  }

  lemma SameTail(xs: seq<Keyed>, ys: seq<Keyed>)
    requires xs != [] && ys != [] && xs[0] == ys[0] && multiset(xs) == multiset(ys)
    ensures multiset(xs[1..]) == multiset(ys[1..]) && (xs[1..] == ys[1..] ==> xs == ys)
  {
    assert xs == [xs[0]] + xs[1..] && ys == [ys[0]] + ys[1..];
    assert multiset(xs[1..]) == multiset(xs) - multiset{xs[0]};
    assert multiset(ys[1..]) == multiset(ys) - multiset{ys[0]};
  }

  lemma SameHead(xs: seq<Keyed>, ys: seq<Keyed>, order: SortOrder)
    requires Sorted(xs, order) && Sorted(ys, order) && DistinctKeys(xs) && multiset(xs) == multiset(ys) && xs != []
        && ys != []
    ensures xs[0] == ys[0]
  {
    assert xs[0] in multiset(ys) && ys[0] in multiset(xs);
    var i :| 0 <= i < |ys| && ys[i] == xs[0];
    var j :| 0 <= j < |xs| && xs[j] == ys[0];
    CompareOpposite(xs[0].key, ys[0].key);
  }

  // Two enumerations of the same elements sort to the same list.
  lemma SortIgnoresOrder(xs: seq<Keyed>, ys: seq<Keyed>, order: SortOrder)
    requires multiset(xs) == multiset(ys) && OneKind(xs) && DistinctKeys(xs)
    ensures Sort(xs, order) == Sort(ys, order)
  {
    var keys := KeySet(xs);
    OneKindChains(xs, order);
    SortIsStableSort(keys, xs, order);
    SortPermutes(ys, order);
    forall i | 0 <= i < |ys| ensures ys[i].key in keys { assert ys[i] in multiset(ys); }
    SortSorts(keys, ys, order);
    var s := Sort(xs, order);
    forall i, j | 0 <= i < |s| && 0 <= j < |s| && CompareForSort(s[i].key, s[j].key) == 0 ensures s[i] == s[j] {
      assert s[i] in multiset(xs) && s[j] in multiset(xs);
    }
    SortedOnce(s, Sort(ys, order), order);
  }

  // ----- pages fit together -----

  // k pages of n elements each, from the given position on, one after the other.
  function Pages<T>(all: seq<T>, k: nat, first: nat, n: nat): seq<T> {
    if k == 0 then [] else Page(all, first + 1, n) + Pages(all, k - 1, first + n, n)
  }

  lemma {:induction false} PagesCover<T>(all: seq<T>, k: nat, first: nat, n: nat)
    requires first <= |all| <= first + n * k
    ensures Pages(all, k, first, n) == all[first..]
  {
    if k > 0 {
      var next := Min(first + n, |all|);
      assert n * k == n + n * (k - 1);
      if first + n <= |all| {
        PagesCover(all, k - 1, first + n, n);
      } else {
        PagesPastEnd(all, k - 1, first + n, n);
      }
      assert all[first..] == all[first..next] + all[next..];
    }
  }

  lemma {:induction false} PagesPastEnd<T>(all: seq<T>, k: nat, first: nat, n: nat)
    requires first >= |all|
    ensures Pages(all, k, first, n) == []
  {
    if k > 0 { PagesPastEnd(all, k - 1, first + n, n); }
  }

  // ----- listing by user name -----

  const USER_NAME := AttributePath("", "userName", "")

  // Every user has a non-empty name, and no two the same up to case: what Create enforces for the users that
  // have a name at all. No user has keys that differ only in case, so that every call sorts by the same name.
  ghost predicate Named(m: TypeMap) {
    DistinctNames(m)
    && (forall id :: id in m ==> Clean(m[id]))
    && forall id :: id in m ==> Lookup(m[id].attributes, "userName").Str? && UserName(m[id].attributes) != ""
  }

  lemma UserNameIsPath()
    ensures ParsePath("userName") == Some(USER_NAME)
  {
    assert ValidName("userName");
    assert PathText(USER_NAME) == "userName";
    ParsePathText(USER_NAME);
  }

  lemma NameKey(c: Content)
    requires Lookup(c.attributes, "userName").Str?
    ensures SortKey(c.attributes, USER_NAME) == Str(UserName(c.attributes))
  {
  }

  // ----- what a snapshot contributes, whatever its order -----

  ghost predicate Contributes(cs: seq<Content>, want: Content -> bool, x: Content) {
    exists i :: 0 <= i < |cs| && want(cs[i]) && x == Truncated(cs[i])
  }

  lemma ContributesStep(cs: seq<Content>, want: Content -> bool, x: Content)
    requires cs != []
    ensures var n := |cs| - 1;
            Contributes(cs, want, x) <==> Contributes(cs[..n], want, x) || (want(cs[n]) && x == Truncated(cs[n]))
  {
    var n := |cs| - 1;
    if Contributes(cs[..n], want, x) {
      var i :| 0 <= i < n && want(cs[..n][i]) && x == Truncated(cs[..n][i]);
      assert cs[i] == cs[..n][i];
    }
    if Contributes(cs, want, x) {
      var i :| 0 <= i < |cs| && want(cs[i]) && x == Truncated(cs[i]);
      if i < n { assert cs[..n][i] == cs[i]; }
    }
  }

  lemma {:induction false} ChosenMembers(cs: seq<Content>, want: Content -> bool, x: Content)
    ensures x in Chosen(cs, want) <==> Contributes(cs, want, x)
  {
    if cs != [] {
      ChosenMembers(cs[..|cs| - 1], want, x);
      ContributesStep(cs, want, x);
    }
  }

  // No two elements of a list of users have the same name.
  ghost predicate NamesApart(cs: seq<Content>) {
    (forall i :: 0 <= i < |cs| ==> Lookup(cs[i].attributes, "userName").Str?)
    && forall i, j :: 0 <= i < j < |cs| ==> !EqualFold(UserName(cs[i].attributes), UserName(cs[j].attributes))
  }

  lemma EnumerationApart(m: TypeMap, ids: seq<string>)
    requires Named(m) && Enumerates(ids, m.Keys)
    ensures NamesApart(InOrder(m, ids))
  {
    var cs := InOrder(m, ids);
    forall i, j | 0 <= i < j < |cs| ensures !EqualFold(UserName(cs[i].attributes), UserName(cs[j].attributes)) {
      assert !SameName(m[ids[i]], m[ids[j]]);
    }
  }

  lemma ApartStep(kept: seq<Content>, c: Content)
    requires NamesApart(kept) && Lookup(c.attributes, "userName").Str?
    requires forall i :: 0 <= i < |kept| ==> !EqualFold(UserName(kept[i].attributes), UserName(c.attributes))
    ensures NamesApart(kept + [c])
  {
  }

  lemma {:induction false} ChosenApart(cs: seq<Content>, want: Content -> bool)
    requires NamesApart(cs)
    ensures NamesApart(Chosen(cs, want))
  {
    if cs != [] {
      var n := |cs| - 1;
      ChosenApart(cs[..n], want);
      var kept := Chosen(cs[..n], want);
      forall i | 0 <= i < |kept| ensures !EqualFold(UserName(kept[i].attributes), UserName(cs[n].attributes)) {
        ChosenMembers(cs[..n], want, kept[i]);
      }
      ApartStep(kept, Truncated(cs[n]));
    }
  }

  // Two lists without repetition and with the same members have the same multiset.
  lemma {:induction false} SameMembers<T>(xs: seq<T>, ys: seq<T>)
    requires (forall i, j :: 0 <= i < j < |xs| ==> xs[i] != xs[j])
        && (forall i, j :: 0 <= i < j < |ys| ==> ys[i] != ys[j])
    requires forall x :: x in xs <==> x in ys
    ensures multiset(xs) == multiset(ys)
  {
    forall x ensures multiset(xs)[x] == multiset(ys)[x] {
      AtMostOnce(xs, x);
      AtMostOnce(ys, x);
    }
  }

  lemma {:induction false} AtMostOnce<T>(xs: seq<T>, x: T)
    requires forall i, j :: 0 <= i < j < |xs| ==> xs[i] != xs[j]
    ensures multiset(xs)[x] == if x in xs then 1 else 0
  {
    if xs != [] {
      AtMostOnce(xs[1..], x);
      assert xs == [xs[0]] + xs[1..];
    }
  }

  // ----- the lists behind the pages -----

  ghost function KeyedMatches(m: TypeMap, ids: seq<string>, f: Option<Filter>): seq<Keyed>
    requires forall i :: 0 <= i < |ids| ==> ids[i] in m
  {
    KeyedList(Matching(InOrder(m, ids), f), USER_NAME)
  }

  lemma MatchesApart(m: TypeMap, ids: seq<string>, f: Option<Filter>)
    requires Named(m) && Enumerates(ids, m.Keys)
    ensures NamesApart(Matching(InOrder(m, ids), f))
    ensures OneKind(KeyedMatches(m, ids, f)) && DistinctKeys(KeyedMatches(m, ids, f))
  {
    EnumerationApart(m, ids);
    ChosenApart(InOrder(m, ids), Test(f));
    KeyedApart(Matching(InOrder(m, ids), f));
  }

  lemma KeyedApart(cs: seq<Content>)
    requires NamesApart(cs)
    ensures OneKind(KeyedList(cs, USER_NAME)) && DistinctKeys(KeyedList(cs, USER_NAME))
  {
    var ks := KeyedList(cs, USER_NAME);
    forall i | 0 <= i < |cs| ensures ks[i].key == Str(UserName(cs[i].attributes)) { NameKey(cs[i]); }
    forall i, j | 0 <= i < |ks| && 0 <= j < |ks| && CompareForSort(ks[i].key, ks[j].key) == 0 ensures ks[i] == ks[j] {
      assert EqualFold(UserName(cs[i].attributes), UserName(cs[j].attributes));
    }
  }

  lemma SnapshotHas(m: TypeMap, ids: seq<string>, id: string)
    requires Enumerates(ids, m.Keys) && id in m
    ensures exists i :: 0 <= i < |ids| && InOrder(m, ids)[i] == m[id]
  {
    var i :| 0 <= i < |ids| && ids[i] == id;
    assert InOrder(m, ids)[i] == m[id];
  }

  ghost predicate FromUser(m: TypeMap, f: Option<Filter>, x: Content) {
    exists id :: id in m && Wanted(f, m[id]) && x == Truncated(m[id])
  }

  lemma MatchesMembers(m: TypeMap, ids: seq<string>, f: Option<Filter>, x: Content)
    requires Enumerates(ids, m.Keys)
    ensures x in Matching(InOrder(m, ids), f) <==> FromUser(m, f, x)
  {
    var cs := InOrder(m, ids);
    ChosenMembers(cs, Test(f), x);
    if FromUser(m, f, x) {
      var id :| id in m && Wanted(f, m[id]) && x == Truncated(m[id]);
      SnapshotHas(m, ids, id);
      assert Contributes(cs, Test(f), x);
    }
    if Contributes(cs, Test(f), x) {
      var i :| 0 <= i < |cs| && Test(f)(cs[i]) && x == Truncated(cs[i]);
      assert ids[i] in m && cs[i] == m[ids[i]];
    }
  }

  // Two enumerations of the same users give the same sorted list.
  lemma SameList(m: TypeMap, ids: seq<string>, ids': seq<string>, f: Option<Filter>, order: SortOrder)
    requires Named(m) && Enumerates(ids, m.Keys) && Enumerates(ids', m.Keys)
    ensures Sort(KeyedMatches(m, ids, f), order) == Sort(KeyedMatches(m, ids', f), order)
  {
    var xs, ys := KeyedMatches(m, ids, f), KeyedMatches(m, ids', f);
    MatchesApart(m, ids, f);
    MatchesApart(m, ids', f);
    var cs, ds := Matching(InOrder(m, ids), f), Matching(InOrder(m, ids'), f);
    forall x ensures x in cs <==> x in ds {
      MatchesMembers(m, ids, f, x);
      MatchesMembers(m, ids', f, x);
    }
    SameKeyed(cs, ds);
    SortIgnoresOrder(xs, ys, order);
  }

  lemma SameKeyed(cs: seq<Content>, ds: seq<Content>)
    requires NamesApart(cs) && NamesApart(ds) && forall x :: x in cs <==> x in ds
    ensures multiset(KeyedList(cs, USER_NAME)) == multiset(KeyedList(ds, USER_NAME))
  {
    var xs, ys := KeyedList(cs, USER_NAME), KeyedList(ds, USER_NAME);
    forall x | x in xs ensures x in ys { assert x.item in ds; }
    forall x | x in ys ensures x in xs { assert x.item in cs; }
    SameMembers(xs, ys);
  }

  ghost function PageAt(m: TypeMap, ids: seq<string>, f: Option<Filter>, order: SortOrder, start: int, n: int)
    : seq<Content>
    requires Enumerates(ids, m.Keys)
  {
    ListOf(InOrder(m, ids), ListParams(f, "userName", order, start, n)).resources
  }

  ghost predicate AllEnumerate(m: TypeMap, orders: seq<seq<string>>) {
    forall k :: 0 <= k < |orders| ==> Enumerates(orders[k], m.Keys)
  }

  // The total the first call reports.
  ghost function TotalAt(m: TypeMap, ids: seq<string>, f: Option<Filter>, order: SortOrder, n: int): nat
    requires Enumerates(ids, m.Keys)
  {
    ListOf(InOrder(m, ids), ListParams(f, "userName", order, 1, n)).totalResults
  }

  // What a call with this map order answers for each start.
  ghost function Answers(m: TypeMap, ids: seq<string>, f: Option<Filter>, order: SortOrder, n: int): int -> seq<Content>
    requires Enumerates(ids, m.Keys)
  {
    start => PageAt(m, ids, f, order, start, n)
  }

  // The pages collected by calls for n elements each, the first of which starts after the given position.
  ghost function Collect(calls: seq<int -> seq<Content>>, first: nat, n: nat): seq<Content> {
    if calls == [] then [] else calls[0](first + 1) + Collect(calls[1..], first + n, n)
  }

  ghost function Calls(m: TypeMap, orders: seq<seq<string>>, f: Option<Filter>, order: SortOrder, n: int)
    : seq<int -> seq<Content>>
    requires AllEnumerate(m, orders)
  {
    seq(|orders|, k requires 0 <= k < |orders| => Answers(m, orders[k], f, order, n))
  }

  // The pages a client collects when it asks for n users at a time, each call with its own map order.
  ghost function Walk(m: TypeMap, orders: seq<seq<string>>, f: Option<Filter>, order: SortOrder, n: nat): seq<Content>
    requires AllEnumerate(m, orders)
  {
    Collect(Calls(m, orders, f, order, n), 0, n)
  }

  lemma PageOfList(m: TypeMap, ids: seq<string>, ids': seq<string>, f: Option<Filter>, order: SortOrder, start: int,
                   n: int)
    requires Named(m) && Enumerates(ids, m.Keys) && Enumerates(ids', m.Keys)
    ensures var all := Items(Sort(KeyedMatches(m, ids', f), order));
            var l := ListOf(InOrder(m, ids), ListParams(f, "userName", order, start, n));
            l.totalResults == |all| && PageAt(m, ids, f, order, start, n) == Page(all, start, n)
  {
    UserNameIsPath();
    SameList(m, ids, ids', f, order);
  }

  lemma {:induction false} CollectIsPages(calls: seq<int -> seq<Content>>, all: seq<Content>, first: nat, n: nat)
    requires forall k, start :: 0 <= k < |calls| ==> calls[k](start) == Page(all, start, n)
    ensures Collect(calls, first, n) == Pages(all, |calls|, first, n)
    decreases |calls|
  {
    if calls != [] { CollectIsPages(calls[1..], all, first + n, n); }
  }

  ghost predicate InNameOrder(cs: seq<Content>, order: SortOrder) {
    forall i, j :: 0 <= i < j < |cs| ==>
      Less(Str(UserName(cs[i].attributes)), Str(UserName(cs[j].attributes)), order)
  }

  lemma SortedByName(cs: seq<Content>, order: SortOrder)
    requires NamesApart(cs)
    ensures var all := Items(Sort(KeyedList(cs, USER_NAME), order));
            InNameOrder(all, order) && forall x :: x in all <==> x in cs
  {
    var ks := KeyedList(cs, USER_NAME);
    var s := Sort(ks, order);
    KeyedApart(cs);
    OneKindChains(ks, order);
    SortIsStableSort(KeySet(ks), ks, order);
    var all := Items(s);
    forall x ensures x in all <==> x in cs { ItemMembers(cs, s, x); }
    NoRepeats(cs, s);
    forall i, j | 0 <= i < j < |all|
      ensures Less(Str(UserName(all[i].attributes)), Str(UserName(all[j].attributes)), order)
    {
      assert s[i] in multiset(ks) && s[j] in multiset(ks);
      NameKey(all[i]);
      NameKey(all[j]);
      assert s[i] != s[j] && AtMost(s[i].key, s[j].key, order);
      CompareOpposite(s[i].key, s[j].key);
    }
  }

  lemma ItemMembers(cs: seq<Content>, s: seq<Keyed>, x: Content)
    requires multiset(s) == multiset(KeyedList(cs, USER_NAME))
    ensures x in Items(s) <==> x in cs
  {
    var ks := KeyedList(cs, USER_NAME);
    if x in Items(s) {
      var i :| 0 <= i < |s| && Items(s)[i] == x;
      assert s[i] in multiset(ks);
    }
    if x in cs {
      var i :| 0 <= i < |cs| && cs[i] == x;
      assert ks[i] in multiset(s);
    }
  }

  lemma NoRepeats(cs: seq<Content>, s: seq<Keyed>)
    requires NamesApart(cs) && multiset(s) == multiset(KeyedList(cs, USER_NAME))
    ensures forall i, j :: 0 <= i < j < |s| ==> s[i] != s[j]
  {
    var ks := KeyedList(cs, USER_NAME);
    forall i, j | 0 <= i < j < |s| ensures s[i] != s[j] {
      if s[i] == s[j] {
        AtMostOnce(ks, s[i]);
        TwiceIn(s, i, j);
      }
    }
  }

  lemma TwiceIn<T>(s: seq<T>, i: nat, j: nat)
    requires i < j < |s| && s[i] == s[j]
    ensures multiset(s)[s[i]] >= 2
  {
    assert s == s[..j] + [s[j]] + s[j + 1..];
    assert s[i] in s[..j];
  }

  lemma CallAnswersPage(m: TypeMap, orders: seq<seq<string>>, k: nat, f: Option<Filter>, order: SortOrder, start: int,
                        n: nat)
    requires Named(m) && AllEnumerate(m, orders) && k < |orders|
    ensures Calls(m, orders, f, order, n)[k](start) == Page(Items(Sort(KeyedMatches(m, orders[0], f), order)), start, n)
  {
    assert Enumerates(orders[0], m.Keys) && Enumerates(orders[k], m.Keys);
    PageOfList(m, orders[k], orders[0], f, order, start, n);
  }

  lemma WalkIsPages(m: TypeMap, orders: seq<seq<string>>, f: Option<Filter>, order: SortOrder, n: nat)
    requires Named(m) && orders != [] && AllEnumerate(m, orders)
    ensures Walk(m, orders, f, order, n) == Pages(Items(Sort(KeyedMatches(m, orders[0], f), order)), |orders|, 0, n)
  {
    var all := Items(Sort(KeyedMatches(m, orders[0], f), order));
    var calls := Calls(m, orders, f, order, n);
    forall k, start | 0 <= k < |calls| ensures calls[k](start) == Page(all, start, n) {
      CallAnswersPage(m, orders, k, f, order, start, n);
    }
    CollectIsPages(calls, all, 0, n);
  }

  lemma WalkIsAll(m: TypeMap, orders: seq<seq<string>>, f: Option<Filter>, order: SortOrder, n: nat)
    requires Named(m) && orders != [] && AllEnumerate(m, orders) && n * |orders| >= TotalAt(m, orders[0], f, order, n)
    ensures Walk(m, orders, f, order, n) == Items(Sort(KeyedMatches(m, orders[0], f), order))
  {
    var all := Items(Sort(KeyedMatches(m, orders[0], f), order));
    WalkIsPages(m, orders, f, order, n);
    PageOfList(m, orders[0], orders[0], f, order, 1, n);
    PagesCover(all, |orders|, 0, n);
    assert all[0..] == all;
  }

  // Listing by user name n at a time, with enough calls to reach the end: every user the filter accepts
  // comes exactly once, in strictly increasing (or decreasing) order of names, and nothing else comes.
  lemma PagingCoversOnce(m: TypeMap, orders: seq<seq<string>>, f: Option<Filter>, order: SortOrder, n: nat)
    requires Named(m) && orders != [] && AllEnumerate(m, orders)
    requires n * |orders| >= TotalAt(m, orders[0], f, order, n)
    ensures var all := Walk(m, orders, f, order, n);
            InNameOrder(all, order)
            && (forall x :: x in all <==> FromUser(m, f, x))
  {
    var ids := orders[0];
    var cs := Matching(InOrder(m, ids), f);
    WalkIsAll(m, orders, f, order, n);
    MatchesApart(m, ids, f);
    SortedByName(cs, order);
    forall x ensures x in cs <==> FromUser(m, f, x) { MatchesMembers(m, ids, f, x); }
  }
}
