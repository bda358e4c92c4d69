// Sorting resources by an attribute: the sort key of a resource, the comparison of two keys, and a stable
// sort, with the exact condition under which it orders every list over a set of keys.
module Sorting {
  import opened Text
  import opened Numbers
  import opened Values
  import opened Objects
  import opened Paths
  import opened Resources
  import opened Accessors

  datatype SortOrder = Ascending | Descending

  // ----- keys -----

  ghost predicate IsPrimary(elem: Json) { elem.Obj? && Lookup(elem.fields, "primary") == Bool(true) }

  ghost function ElementKey(elem: Json, sub: string): Json {
    if !elem.Obj? then elem
    else if sub != "" then Lookup(elem.fields, sub)
    else if Lookup(elem.fields, "value") != Null then Lookup(elem.fields, "value")
    else Str(FormatV(elem))
  }

  ghost function FirstPrimary(items: seq<Json>): Option<Json> {
    if items == [] then None else if IsPrimary(items[0]) then Some(items[0]) else FirstPrimary(items[1..])
  }

  // The value itself; for a list the key of its first primary element, else of its first element.
  ghost function SortKey(m: Object, p: AttributePath): Json {
    var v := GetPath(m, p);
    if !v.Arr? then v
    else if FirstPrimary(v.items).Some? then ElementKey(FirstPrimary(v.items).value, p.sub)
    else if v.items == [] then Null
    else ElementKey(v.items[0], p.sub)
  }

  function CompareForSort(a: Json, b: Json): int {
    if a == Null && b == Null then 0
    else if a == Null then -1
    else if b == Null then 1
    else if a.Num? && b.Num? then
      if Value(a.n) < Value(b.n) then -1 else if Value(a.n) > Value(b.n) then 1 else 0
    else Text.Compare(Lower(FormatV(a)), Lower(FormatV(b)))
  }

  predicate Less(a: Json, b: Json, order: SortOrder) {
    if order == Descending then CompareForSort(a, b) > 0 else CompareForSort(a, b) < 0
  }

  // ----- when the comparison orders keys -----

  // Not greater, in the chosen order.
  predicate AtMost(a: Json, b: Json, order: SortOrder) { !Less(b, a, order) }

  predicate Chain(a: Json, b: Json, c: Json, order: SortOrder) {
    AtMost(a, b, order) && AtMost(b, c, order) ==> AtMost(a, c, order)
  }

  // The comparison is transitive on the keys.
  ghost predicate Chains(keys: set<Json>, order: SortOrder) {
    forall a, b, c {:trigger Chain(a, b, c, order)} :: a in keys && b in keys && c in keys ==> Chain(a, b, c, order)
  }

  // The text by which keys that are not both numbers compare.
  function SortText(j: Json): string { Lower(FormatV(j)) }

  predicate TextAtMost(a: Json, b: Json) { Text.Compare(SortText(a), SortText(b)) <= 0 }

  // Two numbers on the wrong sides of a key that is no number: x is the greater one, but not by its text.
  predicate Straddled(x: Json, t: Json, y: Json) {
    x.Num? && y.Num? && !t.Num? && t != Null && Value(x.n) > Value(y.n) && TextAtMost(x, t) && TextAtMost(t, y)
  }

  ghost predicate Straddles(keys: set<Json>) {
    exists x, t, y :: x in keys && t in keys && y in keys && Straddled(x, t, y)
  }

  predicate CanonicalKey(k: Json) { k.Num? ==> k.n.Canonical() }

  lemma CompareOpposite(a: Json, b: Json)
    ensures CompareForSort(a, b) == -CompareForSort(b, a)
  {
    CompareAntisymmetric(SortText(a), SortText(b));
  }

  // Keys compare by their text unless both are numbers or one is null.
  lemma ByText(a: Json, b: Json)
    requires a != Null && b != Null && !(a.Num? && b.Num?)
    ensures CompareForSort(a, b) == Text.Compare(SortText(a), SortText(b))
  {
  }

  lemma TextChain(a: Json, b: Json, c: Json)
    ensures TextAtMost(a, b) && TextAtMost(b, c) ==> TextAtMost(a, c)
  {
    if TextAtMost(a, b) && TextAtMost(b, c) { CompareTransitive(SortText(a), SortText(b), SortText(c)); }
  }

  // The order of the chosen direction, told by the comparison.
  lemma AtMostIs(a: Json, b: Json, order: SortOrder)
    ensures AtMost(a, b, order)
        <==> if order == Descending then CompareForSort(b, a) <= 0 else CompareForSort(a, b) <= 0
  {
    CompareOpposite(a, b);
  }

  // A chain runs down in one direction where it runs up in the other.
  lemma ChainTurned(a: Json, b: Json, c: Json)
    ensures Chain(a, b, c, Descending) == Chain(c, b, a, Ascending)
  {
    AtMostIs(a, b, Descending);
    AtMostIs(b, c, Descending);
    AtMostIs(a, c, Descending);
    AtMostIs(b, a, Ascending);
    AtMostIs(c, b, Ascending);
    AtMostIs(c, a, Ascending);
  }

  lemma ChainIs(a: Json, b: Json, c: Json)
    ensures Chain(a, b, c, Ascending)
            <==> (CompareForSort(a, b) <= 0 && CompareForSort(b, c) <= 0 ==> CompareForSort(a, c) <= 0)
  {
    AtMostIs(a, b, Ascending);
    AtMostIs(b, c, Ascending);
    AtMostIs(a, c, Ascending);
  }

  // Two numbers and another key: the chain breaks only when they straddle it.
  lemma TwoNumbers(x: Json, t: Json, y: Json)
    requires x.Num? && y.Num? && !t.Num? && t != Null && CanonicalKey(x) && CanonicalKey(y)
    requires !Straddled(x, t, y) && TextAtMost(x, t) && TextAtMost(t, y)
    ensures Value(x.n) <= Value(y.n)
    ensures Value(y.n) <= Value(x.n) ==> x == y && TextAtMost(y, t) && TextAtMost(t, x)
  {
    if Value(y.n) <= Value(x.n) { OneCanonicalForm(x.n, y.n); }
  }

  lemma NotTextAtMost(a: Json, b: Json)
    ensures TextAtMost(a, b) || TextAtMost(b, a)
  {
    CompareAntisymmetric(SortText(a), SortText(b));
  }

  lemma UnstraddledChain(a: Json, b: Json, c: Json)
    requires CanonicalKey(a) && CanonicalKey(b) && CanonicalKey(c)
    requires !Straddled(a, b, c) && !Straddled(c, a, b) && !Straddled(b, c, a)
    ensures Chain(a, b, c, Ascending)
  {
    ChainIs(a, b, c);
    if a != Null && b != Null && c != Null && CompareForSort(a, b) <= 0 && CompareForSort(b, c) <= 0 {
      if a.Num? && b.Num? && c.Num? {
      } else if a.Num? && c.Num? {
        ByText(a, b);
        ByText(b, c);
        TwoNumbers(a, b, c);
      } else if a.Num? && b.Num? {
        LastIsText(a, b, c);
      } else if b.Num? && c.Num? {
        FirstIsText(a, b, c);
      } else {
        ByText(a, b);
        ByText(b, c);
        ByText(a, c);
        TextChain(a, b, c);
      }
    }
  }

  lemma LastIsText(a: Json, b: Json, c: Json)
    requires a.Num? && b.Num? && !c.Num? && c != Null && CanonicalKey(a) && CanonicalKey(b) && !Straddled(b, c, a)
    requires CompareForSort(a, b) <= 0 && CompareForSort(b, c) <= 0
    ensures CompareForSort(a, c) <= 0
  {
    ByText(b, c);
    ByText(a, c);
    NotTextAtMost(a, c);
    if TextAtMost(c, a) { TwoNumbers(b, c, a); }
  }

  lemma FirstIsText(a: Json, b: Json, c: Json)
    requires !a.Num? && a != Null && b.Num? && c.Num? && CanonicalKey(b) && CanonicalKey(c) && !Straddled(c, a, b)
    requires CompareForSort(a, b) <= 0 && CompareForSort(b, c) <= 0
    ensures CompareForSort(a, c) <= 0
  {
    ByText(a, b);
    ByText(a, c);
    NotTextAtMost(a, c);
    if TextAtMost(c, a) { TwoNumbers(c, a, b); }
  }

  lemma StraddledBreaks(x: Json, t: Json, y: Json)
    requires Straddled(x, t, y)
    ensures !Chain(x, t, y, Ascending)
  {
    ChainIs(x, t, y);
    ByText(x, t);
    ByText(t, y);
  }

  // The comparison orders a set of keys exactly when no two of its numbers straddle another key.
  lemma ChainsExactly(keys: set<Json>, order: SortOrder)
    requires forall k :: k in keys ==> CanonicalKey(k)
    ensures Chains(keys, order) <==> !Straddles(keys)
  {
    if Straddles(keys) {
      var x, t, y :| x in keys && t in keys && y in keys && Straddled(x, t, y);
      StraddledBreaks(x, t, y);
      ChainTurned(y, t, x);
      assert !Chain(x, t, y, order) || !Chain(y, t, x, order);
    } else {
      forall a, b, c | a in keys && b in keys && c in keys ensures Chain(a, b, c, order) {
        if order == Descending {
          ChainTurned(a, b, c);
          UnstraddledChain(c, b, a);
        } else {
          UnstraddledChain(a, b, c);
        }
      }
    }
  }

  // ----- a stable sort -----

  datatype Keyed = Keyed(key: Json, item: Content)

  // x moves left past every element it is less than.
  function Insert(xs: seq<Keyed>, x: Keyed, order: SortOrder): (r: seq<Keyed>)
    ensures |r| == |xs| + 1
  {
    if xs == [] || !Less(x.key, xs[|xs| - 1].key, order) then xs + [x]
    else Insert(xs[..|xs| - 1], x, order) + [xs[|xs| - 1]]
  }

  function Sort(xs: seq<Keyed>, order: SortOrder): (r: seq<Keyed>)
    ensures |r| == |xs|
  {
    if xs == [] then [] else Insert(Sort(xs[..|xs| - 1], order), xs[|xs| - 1], order)
  }

  lemma SplitLast(xs: seq<Keyed>, x: Keyed, j: nat)
    requires j < |xs|
    ensures var n := |xs| - 1;
            xs[..n][..j] + [x] + xs[..n][j..] + [xs[n]] == xs[..j] + [x] + xs[j..]
  {
    var n := |xs| - 1;
    assert xs[..n][..j] == xs[..j] && xs[j..] == xs[..n][j..] + [xs[n]];
  }

  // Insert puts x right after the last element it is not less than.
  lemma {:induction false} InsertAt(xs: seq<Keyed>, x: Keyed, order: SortOrder, j: nat)
    requires j <= |xs| && (forall t :: j <= t < |xs| ==> Less(x.key, xs[t].key, order))
    requires j > 0 ==> !Less(x.key, xs[j - 1].key, order)
    ensures Insert(xs, x, order) == xs[..j] + [x] + xs[j..]
  {
    if j < |xs| {
      InsertAt(xs[..|xs| - 1], x, order, j);
      SplitLast(xs, x, j);
    } else {
      assert xs[..j] == xs && xs[j..] == [];
    }
  }

  predicate Sorted(xs: seq<Keyed>, order: SortOrder) {
    forall i, j :: 0 <= i < j < |xs| ==> AtMost(xs[i].key, xs[j].key, order)
  }

  lemma LastOf(xs: seq<Keyed>)
    requires xs != []
    ensures multiset(xs) == multiset(xs[..|xs| - 1]) + multiset{xs[|xs| - 1]}
  {
    assert xs == xs[..|xs| - 1] + [xs[|xs| - 1]];
  }

  lemma {:induction false} InsertPermutes(xs: seq<Keyed>, x: Keyed, order: SortOrder)
    ensures multiset(Insert(xs, x, order)) == multiset(xs) + multiset{x}
  {
    if xs != [] {
      LastOf(xs);
      InsertPermutes(xs[..|xs| - 1], x, order);
    }
  }

  lemma {:induction false} SortPermutes(xs: seq<Keyed>, order: SortOrder)
    ensures multiset(Sort(xs, order)) == multiset(xs)
  {
    if xs != [] {
      var n := |xs| - 1;
      LastOf(xs);
      SortPermutes(xs[..n], order);
      InsertPermutes(Sort(xs[..n], order), xs[n], order);
    }
  }

  ghost function KeySet(xs: seq<Keyed>): set<Json> { set i | 0 <= i < |xs| :: xs[i].key }

  ghost predicate Over(xs: seq<Keyed>, keys: set<Json>) { forall i :: 0 <= i < |xs| ==> xs[i].key in keys }

  // Keys of one kind, numbers or no numbers, with absent keys among them.
  predicate OneKind(xs: seq<Keyed>) {
    (forall i :: 0 <= i < |xs| ==> xs[i].key.Num? || xs[i].key == Null)
      || (forall i :: 0 <= i < |xs| ==> !xs[i].key.Num?)
  }

  lemma OneKindChain(a: Json, b: Json, c: Json)
    requires ((a.Num? || a == Null) && (b.Num? || b == Null) && (c.Num? || c == Null)) || !(a.Num? || b.Num? || c.Num?)
    ensures Chain(a, b, c, Ascending)
  {
    ChainIs(a, b, c);
    if a != Null && b != Null && c != Null && !a.Num? {
      ByText(a, b);
      ByText(b, c);
      ByText(a, c);
      TextChain(a, b, c);
    }
  }

  lemma OneKindChains(xs: seq<Keyed>, order: SortOrder)
    requires OneKind(xs)
    ensures Chains(KeySet(xs), order)
  {
    forall a, b, c | a in KeySet(xs) && b in KeySet(xs) && c in KeySet(xs) ensures Chain(a, b, c, order) {
      OneKindChain(a, b, c);
      OneKindChain(c, b, a);
      ChainTurned(a, b, c);
    }
  }

  lemma KeyChain(keys: set<Json>, a: Json, b: Json, c: Json, order: SortOrder)
    requires Chains(keys, order) && a in keys && b in keys && c in keys && AtMost(a, b, order) && AtMost(b, c, order)
    ensures AtMost(a, c, order)
  {
    assert Chain(a, b, c, order);
  }

  lemma SortedSnoc(xs: seq<Keyed>, x: Keyed, order: SortOrder)
    requires Sorted(xs, order) && forall i :: 0 <= i < |xs| ==> AtMost(xs[i].key, x.key, order)
    ensures Sorted(xs + [x], order)
  {
  }

  lemma InsertedFrom(xs: seq<Keyed>, x: Keyed, order: SortOrder, i: nat)
    requires i < |Insert(xs, x, order)|
    ensures Insert(xs, x, order)[i] == x || Insert(xs, x, order)[i] in xs
  {
    InsertPermutes(xs, x, order);
    assert Insert(xs, x, order)[i] in multiset(Insert(xs, x, order));
  }

  lemma AboveLast(keys: set<Json>, xs: seq<Keyed>, x: Keyed, order: SortOrder)
    requires Chains(keys, order) && x.key in keys && Over(xs, keys) && Sorted(xs, order)
    requires xs != [] && AtMost(xs[|xs| - 1].key, x.key, order)
    ensures forall i :: 0 <= i < |xs| ==> AtMost(xs[i].key, x.key, order)
  {
    var last := xs[|xs| - 1];
    forall i | 0 <= i < |xs| - 1
      ensures AtMost(xs[i].key, x.key, order)
    {
      KeyChain(keys, xs[i].key, last.key, x.key, order);
    }
  }

  // Inserting into a sorted list over ordered keys keeps it sorted.
  lemma {:induction false} InsertSorted(keys: set<Json>, xs: seq<Keyed>, x: Keyed, order: SortOrder)
    requires Chains(keys, order) && x.key in keys && Over(xs, keys) && Sorted(xs, order)
    ensures Sorted(Insert(xs, x, order), order)
    decreases |xs|
  {
    if xs != [] {
      var n := |xs| - 1;
      var last := xs[n];
      CompareOpposite(x.key, last.key);
      if Less(x.key, last.key, order) {
        InsertSorted(keys, xs[..n], x, order);
        var r := Insert(xs[..n], x, order);
        forall i | 0 <= i < |r| ensures AtMost(r[i].key, last.key, order) { InsertedFrom(xs[..n], x, order, i); }
        SortedSnoc(r, last, order);
      } else {
        AboveLast(keys, xs, x, order);
        SortedSnoc(xs, x, order);
      }
    }
  }

  lemma SortOver(keys: set<Json>, xs: seq<Keyed>, order: SortOrder)
    requires Over(xs, keys)
    ensures Over(Sort(xs, order), keys)
  {
    SortPermutes(xs, order);
    var s := Sort(xs, order);
    forall i | 0 <= i < |s| ensures s[i].key in keys { assert s[i] in multiset(s); }
  }

  lemma {:induction false} SortSorts(keys: set<Json>, xs: seq<Keyed>, order: SortOrder)
    requires Chains(keys, order) && Over(xs, keys)
    ensures Sorted(Sort(xs, order), order)
    decreases |xs|
  {
    if xs != [] {
      var n := |xs| - 1;
      SortSorts(keys, xs[..n], order);
      SortOver(keys, xs[..n], order);
      InsertSorted(keys, Sort(xs[..n], order), xs[n], order);
    }
  }

  // A list whose neighbours are in order is left as it is.
  lemma SortLeaves(a: Keyed, b: Keyed, c: Keyed, order: SortOrder)
    requires AtMost(a.key, b.key, order) && AtMost(b.key, c.key, order)
    ensures Sort([a, b, c], order) == [a, b, c]
  {
    assert [a, b, c][..2] == [a, b] && [a, b][..1] == [a] && [a][..0] == [];
    assert Sort([a], order) == [a];
    assert Sort([a, b], order) == [a, b];
  }

  ghost predicate SortsAll(keys: set<Json>, order: SortOrder) {
    forall xs :: Over(xs, keys) ==> Sorted(Sort(xs, order), order)
  }

  // Every list over a set of keys comes out sorted exactly when the comparison is transitive on the set.
  lemma SortsExactly(keys: set<Json>, order: SortOrder, item: Content)
    ensures SortsAll(keys, order) <==> Chains(keys, order)
  {
    if Chains(keys, order) {
      forall xs | Over(xs, keys) ensures Sorted(Sort(xs, order), order) { SortSorts(keys, xs, order); }
    }
    if SortsAll(keys, order) {
      forall a, b, c | a in keys && b in keys && c in keys ensures Chain(a, b, c, order) {
        if AtMost(a, b, order) && AtMost(b, c, order) {
          var xs := [Keyed(a, item), Keyed(b, item), Keyed(c, item)];
          SortLeaves(xs[0], xs[1], xs[2], order);
          assert Over(xs, keys) && Sorted(xs, order);
        }
      }
    }
  }

  // For keys as they are read from JSON: exactly when no number stands, by its text, before a key that is
  // no number and that one before a smaller number.
  lemma SortsUnlessStraddled(keys: set<Json>, order: SortOrder, item: Content)
    requires forall k :: k in keys ==> CanonicalKey(k)
    ensures SortsAll(keys, order) <==> !Straddles(keys)
  {
    SortsExactly(keys, order, item);
    ChainsExactly(keys, order);
  }

  // Mixing alone does no harm: one number and one text sort.
  lemma OneNumberOneText(d: Decimal, s: string)
    ensures !Straddles({Num(d), Str(s)})
  {
  }

  // 10, "9" and 9 are left in this order, which is none.
  lemma MixedKeys(item: Content)
    ensures var ten, text, nine := Num(Decimal(10, 0)), Str("9"), Num(Decimal(9, 0));
            Straddled(ten, text, nine)
            && !Sorted(Sort([Keyed(ten, item), Keyed(text, item), Keyed(nine, item)], Ascending), Ascending)
  {
    var ten, text, nine := Num(Decimal(10, 0)), Str("9"), Num(Decimal(9, 0));
    SmallTexts();
    assert Pow10(0) == 1;
    StraddledBreaks(ten, text, nine);
    SortLeaves(Keyed(ten, item), Keyed(text, item), Keyed(nine, item), Ascending);
  }

  lemma SmallTexts()
    ensures SortText(Num(Decimal(10, 0))) == "10" && SortText(Num(Decimal(9, 0))) == "9" && SortText(Str("9")) == "9"
  {
    assert Digits(9) == "9" && Digits(1) == "1" && Digits(10) == "10";
    assert FormatShortest(Decimal(10, 0)) == "10" by {
      assert PaddedDigits(10, 1) == "10";
      assert FormatNumber(Decimal(10, 0)) == "10";
    }
    assert FormatShortest(Decimal(9, 0)) == "9" by {
      assert PaddedDigits(9, 1) == "9";
      assert FormatNumber(Decimal(9, 0)) == "9";
    }
    assert Lower("10") == "10" && Lower("9") == "9";
  }

  // The elements whose key ranks with k, in their order.
  function Ties(xs: seq<Keyed>, k: Json): seq<Keyed> {
    if xs == [] then []
    else Ties(xs[..|xs| - 1], k) + Tie(xs[|xs| - 1], k)
  }

  function Tie(x: Keyed, k: Json): seq<Keyed> { if CompareForSort(x.key, k) == 0 then [x] else [] }

  lemma SwapEmpty(a: seq<Keyed>, b: seq<Keyed>, c: seq<Keyed>)
    requires b == [] || c == []
    ensures a + b + c == a + c + b
  {
  }

  lemma {:induction false} InsertStable(keys: set<Json>, xs: seq<Keyed>, x: Keyed, k: Json, order: SortOrder)
    requires Chains(keys, order) && x.key in keys && Over(xs, keys) && k in keys
    ensures Ties(Insert(xs, x, order), k) == Ties(xs, k) + Tie(x, k)
    decreases |xs|
  {
    if xs == [] || !Less(x.key, xs[|xs| - 1].key, order) {
      TiesSnoc(xs, x, k);
    } else {
      var n := |xs| - 1;
      InsertStable(keys, xs[..n], x, k, order);
      TiesSnoc(Insert(xs[..n], x, order), xs[n], k);
      OneTie(keys, x, xs[n], k, order);
      SwapEmpty(Ties(xs[..n], k), Tie(x, k), Tie(xs[n], k));
    }
  }

  lemma TiesSnoc(xs: seq<Keyed>, x: Keyed, k: Json)
    ensures Ties(xs + [x], k) == Ties(xs, k) + Tie(x, k)
  {
    assert (xs + [x])[..|xs|] == xs;
  }

  // Two keys that both rank with k rank with each other.
  lemma TiesRank(keys: set<Json>, a: Json, b: Json, k: Json, order: SortOrder)
    requires Chains(keys, order) && a in keys && b in keys && k in keys
    requires CompareForSort(a, k) == 0 && CompareForSort(b, k) == 0
    ensures CompareForSort(a, b) == 0
  {
    CompareOpposite(a, k);
    CompareOpposite(b, k);
    CompareOpposite(a, b);
    KeyChain(keys, a, k, b, order);
    KeyChain(keys, b, k, a, order);
  }

  lemma OneTie(keys: set<Json>, x: Keyed, y: Keyed, k: Json, order: SortOrder)
    requires Chains(keys, order) && x.key in keys && y.key in keys && k in keys && Less(x.key, y.key, order)
    ensures Tie(x, k) == [] || Tie(y, k) == []
  {
    if CompareForSort(x.key, k) == 0 && CompareForSort(y.key, k) == 0 { TiesRank(keys, x.key, y.key, k, order); }
  }

  lemma {:induction false} SortStableFrom(keys: set<Json>, xs: seq<Keyed>, k: Json, order: SortOrder)
    requires Chains(keys, order) && Over(xs, keys) && k in keys
    ensures Ties(Sort(xs, order), k) == Ties(xs, k)
    decreases |xs|
  {
    if xs != [] {
      var n := |xs| - 1;
      SortStableFrom(keys, xs[..n], k, order);
      SortOver(keys, xs[..n], order);
      InsertStable(keys, Sort(xs[..n], order), xs[n], k, order);
    }
  }

  // Over ordered keys: a permutation, in order, with ties left in their original order.
  lemma SortIsStableSort(keys: set<Json>, xs: seq<Keyed>, order: SortOrder)
    requires Chains(keys, order) && Over(xs, keys)
    ensures multiset(Sort(xs, order)) == multiset(xs)
    ensures Sorted(Sort(xs, order), order)
    ensures forall k :: k in keys ==> Ties(Sort(xs, order), k) == Ties(xs, k)
  {
    SortPermutes(xs, order);
    SortSorts(keys, xs, order);
    forall k | k in keys ensures Ties(Sort(xs, order), k) == Ties(xs, k) { SortStableFrom(keys, xs, k, order); }
  }

  // ----- lists of resources -----

  ghost function KeyedList(cs: seq<Content>, p: AttributePath): (ks: seq<Keyed>)
    ensures |ks| == |cs| && forall i :: 0 <= i < |cs| ==> ks[i] == Keyed(SortKey(cs[i].attributes, p), cs[i])
  {
    seq(|cs|, i requires 0 <= i < |cs| => Keyed(SortKey(cs[i].attributes, p), cs[i]))
  }

  function Items(ks: seq<Keyed>): (cs: seq<Content>)
    ensures |cs| == |ks| && forall i :: 0 <= i < |ks| ==> cs[i] == ks[i].item
  {
    seq(|ks|, i requires 0 <= i < |ks| => ks[i].item)
  }

  // A sort attribute that is no path leaves the list alone.
  ghost function SortContents(cs: seq<Content>, sortBy: string, order: SortOrder): seq<Content> {
    match ParsePath(sortBy)
    case Some(p) => Items(Sort(KeyedList(cs, p), order))
    case None => cs
  }

  // ----- lists that hold the same in another order show the same in another order -----

  ghost function Images<A, B>(xs: seq<A>, g: map<A, B>): (r: seq<B>)
    requires forall i :: 0 <= i < |xs| ==> xs[i] in g
    ensures |r| == |xs| && forall i :: 0 <= i < |xs| ==> r[i] == g[xs[i]]
  {
    seq(|xs|, i requires 0 <= i < |xs| => g[xs[i]])
  }

  function Without<T>(xs: seq<T>, i: nat): seq<T>
    requires i < |xs|
  {
    xs[..i] + xs[i + 1..]
  }

  lemma TakeOut<T>(xs: seq<T>, i: nat)
    requires i < |xs|
    ensures multiset(Without(xs, i)) == multiset(xs) - multiset{xs[i]}
    ensures multiset(xs) == multiset(Without(xs, i)) + multiset{xs[i]}
  {
    assert xs == xs[..i] + [xs[i]] + xs[i + 1..];
  }

  lemma ImagesWithout<A, B>(xs: seq<A>, i: nat, g: map<A, B>)
    requires i < |xs| && forall j :: 0 <= j < |xs| ==> xs[j] in g
    ensures Without(Images(xs, g), i) == Images(Without(xs, i), g)
  {
  }

  lemma {:induction false} ImagesPermute<A, B>(xs: seq<A>, ys: seq<A>, g: map<A, B>)
    requires (forall i :: 0 <= i < |xs| ==> xs[i] in g) && (forall i :: 0 <= i < |ys| ==> ys[i] in g)
    requires multiset(xs) == multiset(ys)
    ensures multiset(Images(xs, g)) == multiset(Images(ys, g))
    decreases |xs|
  {
    if xs == [] {
      assert |multiset(ys)| == 0;
    } else {
      assert xs[0] in multiset(ys);
      var i :| 0 <= i < |ys| && ys[i] == xs[0];
      TakeOut(xs, 0);
      TakeOut(ys, i);
      ImagesPermute(Without(xs, 0), Without(ys, i), g);
      ImagesWithout(xs, 0, g);
      ImagesWithout(ys, i, g);
      TakeOut(Images(xs, g), 0);
      TakeOut(Images(ys, g), i);
    }
  }

  lemma SortContentsPermutes(cs: seq<Content>, sortBy: string, order: SortOrder)
    ensures multiset(SortContents(cs, sortBy, order)) == multiset(cs)
  {
    var path := ParsePath(sortBy);
    if path.Some? {
      var ks := KeyedList(cs, path.value);
      var g := map k | k in ks + Sort(ks, order) :: k.item;
      SortPermutes(ks, order);
      ImagesPermute(Sort(ks, order), ks, g);
      assert Images(ks, g) == cs;
      assert Images(Sort(ks, order), g) == SortContents(cs, sortBy, order);
    }
  }
}
