// What sorting means: absent keys first, numbers by value, other keys by their text in lower case, and the
// key of a list that of its primary element.
module KeyOrder {
  import opened Text
  import opened Numbers
  import opened Values
  import opened Objects
  import opened Paths
  import opened Filters
  import opened Resources
  import opened Comparisons
  import opened Sorting
  import opened Stores
  import opened Paging

  // The same letters with none of them in upper case.
  lemma LowerIs(s: string)
    ensures SameLetters(s, Lower(s)) && forall i :: 0 <= i < |s| ==> !('A' <= Lower(s)[i] <= 'Z')
  {
  }

  // ----- two keys -----

  lemma AbsentFirst(b: Json)
    ensures Less(Null, b, Ascending) <==> b != Null
    ensures !Less(b, Null, Ascending)
  {
  }

  lemma NumbersByValue(x: Decimal, y: Decimal)
    ensures Less(Num(x), Num(y), Ascending) <==> Value(x) < Value(y)
  {
  }

  lemma OthersByText(a: Json, b: Json)
    requires a != Null && b != Null && !(a.Num? && b.Num?)
    ensures Less(a, b, Ascending) <==> After(Lower(FormatV(b)), Lower(FormatV(a)))
  {
    CompareAntisymmetric(SortText(a), SortText(b));
    CompareAfter(SortText(b), SortText(a));
  }

  lemma DescendingTurns(a: Json, b: Json)
    ensures Less(a, b, Descending) <==> Less(b, a, Ascending)
  {
    CompareOpposite(a, b);
  }

  // ----- the key of a resource -----

  lemma SingleKey(m: Object, p: AttributePath, v: Json)
    requires Unique(Obj(m)) && p.sub == "" && Holds(m, p.name, v) && !v.Arr?
    ensures SortKey(m, p) == v
  {
    HeldIsFound(m, p.name, v);
  }

  ghost predicate Primary(elem: Json) { elem.Obj? && Holds(elem.fields, "primary", Bool(true)) }

  lemma PrimaryIs(elem: Json)
    requires Unique(elem)
    ensures IsPrimary(elem) <==> Primary(elem)
  {
    if Primary(elem) { HeldIsFound(elem.fields, "primary", Bool(true)); }
    if IsPrimary(elem) { assert KeyOf(elem.fields, "primary") in elem.fields; }
  }

  lemma {:induction false} FirstPrimaryAt(items: seq<Json>, i: nat)
    requires Unique(Arr(items)) && i < |items| && Primary(items[i]) && forall j :: 0 <= j < i ==> !Primary(items[j])
    ensures FirstPrimary(items) == Some(items[i])
  {
    PrimaryIs(items[0]);
    if i > 0 { FirstPrimaryAt(items[1..], i - 1); }
  }

  lemma {:induction false} NonePrimary(items: seq<Json>)
    requires Unique(Arr(items)) && forall j :: 0 <= j < |items| ==> !Primary(items[j])
    ensures FirstPrimary(items) == None
  {
    if items != [] {
      PrimaryIs(items[0]);
      NonePrimary(items[1..]);
    }
  }

  // The first element marked primary, or the first of all when none is.
  ghost predicate Representative(items: seq<Json>, i: nat) {
    i < |items|
    && ((Primary(items[i]) && forall j :: 0 <= j < i ==> !Primary(items[j]))
        || (i == 0 && forall j :: 0 <= j < |items| ==> !Primary(items[j])))
  }

  // A list sorts by the value of that element, or by the element itself when it is no object.
  lemma ListKey(m: Object, p: AttributePath, items: seq<Json>, i: nat, v: Json)
    requires Unique(Obj(m)) && p.sub == "" && Holds(m, p.name, Arr(items)) && Representative(items, i)
    requires if items[i].Obj? then Holds(items[i].fields, "value", v) && v != Null else v == items[i]
    ensures SortKey(m, p) == v
  {
    HeldIsFound(m, p.name, Arr(items));
    assert Unique(Arr(items));
    if Primary(items[i]) { FirstPrimaryAt(items, i); } else { NonePrimary(items); }
    if items[i].Obj? { HeldIsFound(items[i].fields, "value", v); }
  }

  // ----- a listing by user name -----

  // The names of a listing in ascending order: each comes after those before it.
  lemma NamesAscend(cs: seq<Content>, i: nat, j: nat)
    requires InNameOrder(cs, Ascending) && i < j < |cs|
    ensures After(Lower(UserName(cs[j].attributes)), Lower(UserName(cs[i].attributes)))
  {
    OthersByText(Str(UserName(cs[i].attributes)), Str(UserName(cs[j].attributes)));
  }

  lemma NamesDescend(cs: seq<Content>, i: nat, j: nat)
    requires InNameOrder(cs, Descending) && i < j < |cs|
    ensures After(Lower(UserName(cs[i].attributes)), Lower(UserName(cs[j].attributes)))
  {
    var a, b := Str(UserName(cs[i].attributes)), Str(UserName(cs[j].attributes));
    DescendingTurns(a, b);
    OthersByText(b, a);
  }

  // ----- the page -----

  // Element k of the page is element startIndex - 1 + k of the list. There are count of them, or as many as
  // there are from there on; all of those for a negative count.
  lemma PageShows(all: seq<Content>, params: ListParams)
    ensures var l := PageResult(all, params);
            var first := if params.startIndex < 1 then 0 else params.startIndex - 1;
            l.totalResults == |all| && l.startIndex == first + 1 && l.itemsPerPage == |l.resources|
            && (forall k :: 0 <= k < |l.resources| ==> first + k < |all| && l.resources[k] == all[first + k])
            && (first < |all| ==>
                  |l.resources| == if 0 <= params.count <= |all| - first then params.count else |all| - first)
            && (first >= |all| ==> l.resources == [])
  {
  }
}
