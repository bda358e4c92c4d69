// What a list request may return, on any resources: filtering, sorting and cutting out a page when Go walks
// its maps in any order; and that there is one result when the resources have no case clashes.
module StoreLists {
  import opened Text
  import opened Values
  import opened Filters
  import opened FilterEval
  import opened Resources
  import opened Sorting
  import opened Paths
  import opened Stores
  import opened Choices

  // ----- what a walk may choose -----

  // The verdict on one resource.
  ghost predicate MayWant(f: Option<Filter>, c: Content, b: bool) {
    if f.None? then b else MayEval(f.value, ToObject(c), b)
  }

  ghost function MayTest(f: Option<Filter>): (Content, bool) -> bool { (c, b) => MayWant(f, c, b) }

  ghost predicate NoClashes(cs: seq<Content>) { forall i :: 0 <= i < |cs| ==> Unique(Obj(cs[i].attributes)) }

  // The same resources in some order: untouched without a usable sort key, in the one order of the sort when
  // no attributes have case clashes.
  ghost predicate MaySort(cs: seq<Content>, sortBy: string, order: SortOrder, out: seq<Content>) {
    multiset(out) == multiset(cs)
    && (ParsePath(sortBy).None? || NoClashes(cs) ==> out == SortContents(cs, sortBy, order))
  }

  ghost predicate MayList(cs: seq<Content>, params: ListParams, l: ListResult) {
    exists chosen, sorted ::
      MayChoose(cs, MayTest(params.filter), Truncated, chosen) && MaySort(chosen, params.sortBy, params.order, sorted)
      && l == PageResult(sorted, params)
  }

  // ----- without case clashes there is one result -----

  ghost predicate AllClean(cs: seq<Content>) { forall i :: 0 <= i < |cs| ==> Clean(cs[i]) }

  lemma ObjectIsUnique(c: Content)
    requires Clean(c)
    ensures Unique(Obj(ToObject(c)))
  {
    var o := ToObject(c);
    ObjectEntries(c);
    ToObjectReservedUnique(c);
    forall k | k in o ensures Unique(o[k]) {
      if k !in c.attributes { FieldIsUnique(c, k); }
    }
    forall k, l | k in o && l in o && EqualFold(k, l) ensures k == l {
      if k in c.attributes && l in c.attributes {
        assert k == l;
      } else {
        ReservedNames(k);
        ReservedNames(l);
        assert Reserved(k);
      }
    }
  }

  lemma MetaIsUnique(m: Meta)
    ensures Unique(Obj(MetaObject(m)))
  {
    MetaObjectCaseUnique(m);
    MetaObjectEntries(m);
    var o := MetaObject(m);
    forall k | k in o ensures Unique(o[k]) { MetaFieldIsUnique(m, k); }
  }

  lemma MetaFieldIsUnique(m: Meta, k: string)
    ensures Unique(MetaField(m, k))
  {
  }

  lemma FieldIsUnique(c: Content, k: string)
    ensures Unique(FixedField(c, k))
  {
    MetaIsUnique(c.meta);
  }

  lemma WantIsOnly(f: Option<Filter>, c: Content, b: bool)
    requires Clean(c)
    ensures MayWant(f, c, b) <==> b == Wanted(f, c)
  {
    if f.Some? {
      ObjectIsUnique(c);
      OrderIrrelevant(f.value, ToObject(c), b);
    }
  }

  lemma {:induction false} ChoiceIsOnly(cs: seq<Content>, may: (Content, bool) -> bool, want: Content -> bool,
                                        out: seq<Content>)
    requires forall i, b :: 0 <= i < |cs| ==> (may(cs[i], b) <==> b == want(cs[i]))
    ensures MayChoose(cs, may, Truncated, out) <==> out == Chosen(cs, want)
    decreases |cs|
  {
    if cs != [] {
      var n := |cs| - 1;
      ChoiceIsOnly(cs[..n], may, want, out);
      if out != [] { ChoiceIsOnly(cs[..n], may, want, out[..|out| - 1]); }
    }
  }

  lemma MatchingIsOnly(cs: seq<Content>, f: Option<Filter>, out: seq<Content>)
    requires AllClean(cs)
    ensures MayChoose(cs, MayTest(f), Truncated, out) <==> out == Matching(cs, f)
  {
    forall i, b | 0 <= i < |cs| ensures MayTest(f)(cs[i], b) <==> b == Test(f)(cs[i]) { WantIsOnly(f, cs[i], b); }
    ChoiceIsOnly(cs, MayTest(f), Test(f), out);
  }

  lemma {:induction false} ChosenAreUnique(cs: seq<Content>, want: Content -> bool)
    requires AllClean(cs)
    ensures NoClashes(Chosen(cs, want))
  {
    if cs != [] { ChosenAreUnique(cs[..|cs| - 1], want); }
  }

  // The result of the specification is the one that is possible.
  lemma ListIsOnly(cs: seq<Content>, params: ListParams, l: ListResult)
    requires AllClean(cs)
    ensures MayList(cs, params, l) <==> l == ListOf(cs, params)
  {
    var chosen := Matching(cs, params.filter);
    ChosenAreUnique(cs, Test(params.filter));
    forall out ensures MayChoose(cs, MayTest(params.filter), Truncated, out) <==> out == chosen {
      MatchingIsOnly(cs, params.filter, out);
    }
    SortContentsPermutes(chosen, params.sortBy, params.order);
    assert MaySort(chosen, params.sortBy, params.order, Ordered(cs, params));
  }
}
