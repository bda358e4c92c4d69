// What the comparison operators mean: equality up to the case of letters, substrings at their places, order
// at the first difference, numbers by their values; and what a filter of one comparison says.
module Comparisons {
  import opened Text
  import opened Numbers
  import opened Values
  import opened Objects
  import opened Paths
  import opened Filters
  import opened FilterEval

  // ----- letters and order -----

  // The same character, or the two cases of one letter.
  predicate SameLetter(c: char, d: char) {
    c == d || ('A' <= c <= 'Z' && d as int == c as int + 32) || ('A' <= d <= 'Z' && c as int == d as int + 32)
  }

  predicate SameLetters(s: string, t: string) {
    |s| == |t| && forall i :: 0 <= i < |s| ==> SameLetter(s[i], t[i])
  }

  lemma FoldIsSameLetters(s: string, t: string)
    ensures EqualFold(s, t) <==> SameLetters(s, t)
  {
    if EqualFold(s, t) {
      forall i | 0 <= i < |s| ensures SameLetter(s[i], t[i]) { assert Lower(s)[i] == Lower(t)[i]; }
    }
  }

  // t stands in s at i, up to case.
  predicate StandsAt(s: string, t: string, i: int) { 0 <= i <= |s| - |t| && SameLetters(s[i..i + |t|], t) }

  // s and t are the same up to k, where s has the greater character or goes on while t ends.
  predicate GreaterAt(s: string, t: string, k: int) {
    0 <= k < |s| && k <= |t| && s[..k] == t[..k] && (k == |t| || s[k] > t[k])
  }

  ghost predicate After(s: string, t: string) { exists k :: GreaterAt(s, t, k) }

  lemma LowerAt(s: string, t: string, i: int)
    ensures IsAt(Lower(s), Lower(t), i) <==> StandsAt(s, t, i)
  {
    if 0 <= i <= |s| - |t| {
      FoldIsSameLetters(s[i..i + |t|], t);
      assert Lower(s)[i..i + |t|] == Lower(s[i..i + |t|]);
    }
  }

  predicate IsAt(s: string, t: string, i: int) { 0 <= i <= |s| - |t| && s[i..i + |t|] == t }

  lemma IsAtNext(s: string, t: string, i: int)
    requires s != "" && 0 <= i
    ensures IsAt(s[1..], t, i) <==> IsAt(s, t, i + 1)
  {
    if i <= |s[1..]| - |t| { assert s[1..][i..i + |t|] == s[i + 1..i + 1 + |t|]; }
  }

  lemma NotAtStart(s: string, t: string)
    requires !(t <= s)
    ensures !IsAt(s, t, 0)
  {
  }

  lemma {:induction false} ContainsAt(s: string, t: string)
    ensures Contains(s, t) <==> exists i :: IsAt(s, t, i)
  {
    if t <= s {
      assert IsAt(s, t, 0);
    } else if s != "" {
      ContainsAt(s[1..], t);
      if i :| IsAt(s[1..], t, i) { IsAtNext(s, t, i); }
      if i :| IsAt(s, t, i) {
        NotAtStart(s, t);
        IsAtNext(s, t, i - 1);
      }
    }
  }

  lemma GreaterAtNext(s: string, t: string, k: int)
    requires s != "" && t != "" && s[0] == t[0] && 0 <= k
    ensures GreaterAt(s[1..], t[1..], k) <==> GreaterAt(s, t, k + 1)
  {
    if k <= |s[1..]| && k <= |t[1..]| {
      assert s[..k + 1] == [s[0]] + s[1..][..k] && t[..k + 1] == [t[0]] + t[1..][..k];
      assert s[1..][..k] == s[..k + 1][1..] && t[1..][..k] == t[..k + 1][1..];
    }
  }

  lemma GreaterAtFirst(s: string, t: string)
    requires s != "" && (t == "" || s[0] != t[0])
    ensures After(s, t) <==> t == "" || s[0] > t[0]
  {
    assert GreaterAt(s, t, 0) <==> t == "" || s[0] > t[0];
    forall k | 0 < k <= |s| && k <= |t| ensures s[..k] != t[..k] { assert s[..k][0] == s[0] && t[..k][0] == t[0]; }
  }

  lemma {:induction false} CompareAfter(s: string, t: string)
    ensures Text.Compare(s, t) == 1 <==> After(s, t)
  {
    if s != "" && t != "" && s[0] == t[0] {
      CompareAfter(s[1..], t[1..]);
      if k :| GreaterAt(s[1..], t[1..], k) { GreaterAtNext(s, t, k); }
      if k :| GreaterAt(s, t, k) { if k > 0 { GreaterAtNext(s, t, k - 1); } }
    } else if s != "" {
      GreaterAtFirst(s, t);
    }
  }

  // ----- texts -----

  ghost predicate TextTest(op: CompareOp, a: string, b: string) {
    match op
    case Eq => SameLetters(a, b)
    case Ne => !SameLetters(a, b)
    case Co => exists i :: StandsAt(a, b, i)
    case Sw => StandsAt(a, b, 0)
    case Ew => StandsAt(a, b, |a| - |b|)
    case Gt => After(a, b)
    case Ge => a == b || After(a, b)
    case Lt => After(b, a)
    case Le => a == b || After(b, a)
    case Pr => true
  }

  lemma LowerContains(a: string, b: string)
    ensures Contains(Lower(a), Lower(b)) <==> exists i :: StandsAt(a, b, i)
  {
    ContainsAt(Lower(a), Lower(b));
    if Contains(Lower(a), Lower(b)) {
      var i :| IsAt(Lower(a), Lower(b), i);
      LowerAt(a, b, i);
    }
    if i :| StandsAt(a, b, i) { LowerAt(a, b, i); }
  }

  lemma LowerEnds(a: string, b: string)
    ensures Lower(b) <= Lower(a) <==> StandsAt(a, b, 0)
    ensures HasSuffix(Lower(a), Lower(b)) <==> StandsAt(a, b, |a| - |b|)
  {
    if |b| <= |a| {
      LowerAt(a, b, 0);
      LowerAt(a, b, |a| - |b|);
      assert Lower(a)[|a| - |b|..|a|] == Lower(a)[|a| - |b|..];
    }
  }

  // The evaluator's comparison of two texts.
  predicate Compared(op: CompareOp, a: string, b: string) {
    match op
    case Eq => EqualFold(a, b)
    case Ne => !EqualFold(a, b)
    case Co => Contains(Lower(a), Lower(b))
    case Sw => Lower(b) <= Lower(a)
    case Ew => HasSuffix(Lower(a), Lower(b))
    case Gt => Text.Compare(a, b) > 0
    case Ge => Text.Compare(a, b) >= 0
    case Lt => Text.Compare(a, b) < 0
    case Le => Text.Compare(a, b) <= 0
    case Pr => true
  }

  lemma ComparedIsTest(op: CompareOp, a: string, b: string)
    ensures Compared(op, a, b) <==> TextTest(op, a, b)
  {
    FoldIsSameLetters(a, b);
    LowerContains(a, b);
    LowerEnds(a, b);
    CompareAfter(a, b);
    CompareAfter(b, a);
    CompareAntisymmetric(a, b);
  }

  // Every operator on two values that are neither both numbers nor both booleans, none of them null: by text.
  lemma ComparedAsTexts(op: CompareOp, x: Json, y: Json)
    requires x != Null && y != Null && !(x.Bool? && y.Bool?) && !(x.Num? && y.Num?)
    ensures CompareValues(op, x, y) <==> TextTest(op, FormatV(x), FormatV(y))
  {
    var a, b := FormatV(x), FormatV(y);
    assert CompareValues(op, x, y) <==> Compared(op, a, b);
    ComparedIsTest(op, a, b);
  }

  lemma CompareTexts(op: CompareOp, a: string, b: string)
    ensures CompareValues(op, Str(a), Str(b)) <==> TextTest(op, a, b)
  {
    ComparedAsTexts(op, Str(a), Str(b));
  }

  // ----- numbers -----

  // The order of numbers is that of their values; equality has a tolerance of 10^-15.
  predicate NumberTest(op: CompareOp, x: real, y: real)
    requires op != Co && op != Sw && op != Ew
  {
    match op
    case Eq => -0.000000000000001 < x - y < 0.000000000000001
    case Ne => x - y <= -0.000000000000001 || 0.000000000000001 <= x - y
    case Gt => x > y
    case Ge => x >= y
    case Lt => x < y
    case Le => x <= y
    case Pr => true
  }

  lemma CompareNumbers(op: CompareOp, x: Decimal, y: Decimal)
    requires op != Co && op != Sw && op != Ew
    ensures CompareValues(op, Num(x), Num(y)) <==> NumberTest(op, Value(x), Value(y))
  {
  }

  // Numbers in units of 10^-n.
  function Units(d: Decimal, n: nat): int
    requires d.scale <= n
  {
    d.coeff * Pow10(n - d.scale)
  }

  predicate Times(v: real, n: nat, u: int) { v * n as real == u as real }

  lemma Rescaled(v: real, p: real, q: real, c: real)
    requires p > 0.0 && v == c / p
    ensures v * (p * q) == c * q
  {
    assert v * p == c;
  }

  lemma UnitsValue(d: Decimal, n: nat)
    requires d.scale <= n
    ensures Times(Value(d), Pow10(n), Units(d, n))
  {
    var v, p, q, r, u := Value(d), Pow10(d.scale), Pow10(n - d.scale), Pow10(n), Units(d, n);
    PowSplit(d.scale, n);
    assert u == d.coeff * q;
    RescaledUnits(v, d.coeff, p, q, r, u);
  }

  lemma PowSplit(a: nat, n: nat)
    requires a <= n
    ensures Pow10(n) == Pow10(a) * Pow10(n - a)
  {
    PowSum(a, n - a);
  }

  lemma RescaledUnits(v: real, c: int, p: nat, q: nat, r: nat, u: int)
    requires p > 0 && v == c as real / p as real && r == p * q && u == c * q
    ensures Times(v, r, u)
  {
    Rescaled(v, p as real, q as real, c as real);
    ProductAsReal(p, q);
    ProductAsReal(c, q);
  }

  lemma ProductAsReal(a: int, b: int)
    ensures (a * b) as real == a as real * b as real
  {
  }

  lemma FifteenPlaces()
    ensures Pow10(15) == 1000000000000000
  {
    assert Pow10(5) == 100000;
    PowSum(5, 5);
    PowSum(10, 5);
  }

  lemma UnitGap(v: real, w: real, n: int)
    requires (v - w) * 1000000000000000.0 == n as real
    ensures -0.000000000000001 < v - w < 0.000000000000001 <==> n == 0
    ensures v == w <==> n == 0
  {
    if n >= 1 { assert v - w >= 0.000000000000001; }
    if n <= -1 { assert v - w <= -0.000000000000001; }
  }

  // With no more than fifteen places the tolerance plays no part.
  lemma EqualNumbers(x: Decimal, y: Decimal)
    requires x.scale <= 15 && y.scale <= 15
    ensures CompareValues(Eq, Num(x), Num(y)) <==> Value(x) == Value(y)
  {
    UnitsValue(x, 15);
    UnitsValue(y, 15);
    FifteenPlaces();
    UnitGap(Value(x), Value(y), Units(x, 15) - Units(y, 15));
    CompareNumbers(Eq, x, y);
  }

  // ----- null, truth values and laws of all values -----

  lemma CompareNull(v: Json)
    ensures CompareValues(Eq, Null, v) <==> v == Null
    ensures CompareValues(Eq, v, Null) <==> v == Null
    ensures CompareValues(Pr, v, Null) <==> v != Null
  {
  }

  // A truth value equals itself and its text.
  lemma CompareTruth(b: bool, c: bool, t: string)
    ensures CompareValues(Eq, Bool(b), Bool(c)) <==> b == c
    ensures CompareValues(Eq, Bool(b), Str(t)) <==> SameLetters(t, if b then "true" else "false")
  {
    var u := if b then "true" else "false";
    FoldIsSameLetters(u, t);
    FoldIsSameLetters(t, u);
  }

  lemma OrderOpposite(x: Json, y: Json)
    ensures CompareOrder(x, y) == -CompareOrder(y, x)
  {
    CompareAntisymmetric(FormatV(x), FormatV(y));
  }

  lemma EqualOpposite(x: Json, y: Json)
    ensures ValuesEqual(x, y) == ValuesEqual(y, x)
  {
  }

  lemma {:induction false} FewDigits(n: nat, k: nat)
    requires n < Pow10(k) && k > 0
    ensures |Digits(n)| <= k
  {
    if n >= 10 { FewDigits(n / 10, k - 1); }
  }

  // A whole number below a million equals the text of its digits alone; from there on %v writes an exponent.
  lemma CompareNumberText(n: nat, t: string)
    requires n < 1000000
    ensures CompareValues(Eq, Num(Decimal(n, 0)), Str(t)) <==> t == Digits(n)
  {
    assert Pow10(3) == 1000;
    PowSum(3, 3);
    FewDigits(n, 6);
    WholeText(n);
    DigitsOnly(Digits(n), t);
  }

  lemma WholeText(n: nat)
    requires |Digits(n)| <= 6
    ensures FormatV(Num(Decimal(n, 0))) == Digits(n)
  {
    WholeNumber(n);
  }

  // Digits have no case.
  lemma DigitsOnly(ds: string, t: string)
    requires AllDigits(ds)
    ensures EqualFold(ds, t) <==> t == ds
  {
    FoldIsSameLetters(ds, t);
    if SameLetters(ds, t) {
      forall i | 0 <= i < |ds| ensures ds[i] == t[i] { assert SameLetter(ds[i], t[i]) && IsDigit(ds[i]); }
    }
  }

  lemma EqualityLaws(x: Json, y: Json)
    ensures CompareValues(Ne, x, y) <==> !CompareValues(Eq, x, y)
    ensures CompareValues(Eq, x, y) <==> CompareValues(Eq, y, x)
  {
    EqualOpposite(x, y);
  }

  lemma GreaterLaws(x: Json, y: Json)
    ensures CompareValues(Lt, x, y) <==> CompareValues(Gt, y, x)
    ensures CompareValues(Ge, x, y) <==> !CompareValues(Gt, y, x)
    ensures CompareValues(Le, x, y) <==> !CompareValues(Gt, x, y)
    ensures !(CompareValues(Gt, x, y) && CompareValues(Gt, y, x))
  {
    OrderOpposite(x, y);
  }

  // Of two values one is greater, the other is, or they have the same place in the order.
  lemma OrderLaws(x: Json, y: Json)
    ensures CompareValues(Ne, x, y) <==> !CompareValues(Eq, x, y)
    ensures CompareValues(Eq, x, y) <==> CompareValues(Eq, y, x)
    ensures CompareValues(Lt, x, y) <==> CompareValues(Gt, y, x)
    ensures CompareValues(Ge, x, y) <==> !CompareValues(Lt, x, y)
    ensures CompareValues(Le, x, y) <==> !CompareValues(Gt, x, y)
    ensures !(CompareValues(Gt, x, y) && CompareValues(Gt, y, x))
    ensures CompareValues(Ge, x, y) && CompareValues(Ge, y, x) <==>
            !CompareValues(Gt, x, y) && !CompareValues(Gt, y, x)
  {
    EqualityLaws(x, y);
    GreaterLaws(x, y);
    GreaterLaws(y, x);
  }

  // ----- filters of one comparison -----

  // The attribute of that name, in any casing.
  ghost predicate Holds(m: Object, name: string, v: Json) { exists k :: k in m && EqualFold(k, name) && m[k] == v }

  lemma HeldIsFound(m: Object, name: string, v: Json)
    requires CaseUnique(m) && Holds(m, name, v)
    ensures Lookup(m, name) == v
  {
    var k :| k in m && EqualFold(k, name) && m[k] == v;
    assert EqualFold(k, KeyOf(m, name));
  }

  // The evaluator on an attribute that holds a text: the verdict, in every walk.
  lemma FilterOnText(m: Object, p: AttributePath, op: CompareOp, a: string, b: string, verdict: bool)
    requires Unique(Obj(m)) && p.sub == "" && Holds(m, p.name, Str(a))
    ensures MayEval(Filters.Compare(p, op, Str(b)), m, verdict) <==> verdict == TextTest(op, a, b)
  {
    OrderIrrelevant(Filters.Compare(p, op, Str(b)), m, verdict);
    HeldIsFound(m, p.name, Str(a));
    CompareTexts(op, a, b);
  }

  lemma FilterOnNumber(m: Object, p: AttributePath, op: CompareOp, x: Decimal, y: Decimal, verdict: bool)
    requires Unique(Obj(m)) && p.sub == "" && Holds(m, p.name, Num(x)) && op != Co && op != Sw && op != Ew
    ensures MayEval(Filters.Compare(p, op, Num(y)), m, verdict) <==> verdict == NumberTest(op, Value(x), Value(y))
  {
    OrderIrrelevant(Filters.Compare(p, op, Num(y)), m, verdict);
    HeldIsFound(m, p.name, Num(x));
    CompareNumbers(op, x, y);
  }

  // The same on a sub-attribute.
  lemma FilterOnSub(m: Object, o: Object, p: AttributePath, op: CompareOp, a: string, b: string, verdict: bool)
    requires Unique(Obj(m)) && p.sub != "" && Holds(m, p.name, Obj(o)) && Holds(o, p.sub, Str(a))
    ensures MayEval(Filters.Compare(p, op, Str(b)), m, verdict) <==> verdict == TextTest(op, a, b)
  {
    OrderIrrelevant(Filters.Compare(p, op, Str(b)), m, verdict);
    HeldIsFound(m, p.name, Obj(o));
    HeldIsFound(o, p.sub, Str(a));
    CompareTexts(op, a, b);
  }

  // A path with a sub-attribute on an attribute that is no object compares the attribute itself.
  lemma FilterOnSubOfText(m: Object, p: AttributePath, op: CompareOp, a: string, b: string, verdict: bool)
    requires Unique(Obj(m)) && p.sub != "" && Holds(m, p.name, Str(a))
    ensures MayEval(Filters.Compare(p, op, Str(b)), m, verdict) <==> verdict == TextTest(op, a, b)
  {
    OrderIrrelevant(Filters.Compare(p, op, Str(b)), m, verdict);
    HeldIsFound(m, p.name, Str(a));
    CompareTexts(op, a, b);
  }

  // A list passes when one of its elements does: a text, or an object whose sub-attribute holds a text.
  ghost predicate PassingElement(elem: Json, sub: string, op: CompareOp, b: string) {
    if sub == "" then elem.Str? && TextTest(op, elem.s, b)
    else elem.Obj? && exists k :: k in elem.fields && EqualFold(k, sub) && elem.fields[k].Str?
                                  && TextTest(op, elem.fields[k].s, b)
  }

  ghost predicate TextElement(elem: Json, sub: string) {
    if sub == "" then elem.Str?
    else elem.Obj? && exists k :: k in elem.fields && EqualFold(k, sub) && elem.fields[k].Str?
  }

  lemma ElementPasses(elem: Json, sub: string, op: CompareOp, b: string)
    requires Unique(elem) && TextElement(elem, sub)
    ensures CompareValues(op, ElementValue(elem, sub), Str(b)) <==> PassingElement(elem, sub, op, b)
  {
    if sub == "" {
      CompareTexts(op, elem.s, b);
    } else {
      var o := elem.fields;
      var k :| k in o && EqualFold(k, sub) && o[k].Str?;
      HeldIsFound(o, sub, o[k]);
      CompareTexts(op, o[k].s, b);
      forall l | l in o && EqualFold(l, sub) ensures l == k { assert EqualFold(l, k); }
    }
  }

  lemma FilterOnList(m: Object, items: seq<Json>, p: AttributePath, op: CompareOp, b: string, verdict: bool)
    requires Unique(Obj(m)) && Holds(m, p.name, Arr(items)) && op != Pr
    requires forall i :: 0 <= i < |items| ==> TextElement(items[i], p.sub)
    ensures MayEval(Filters.Compare(p, op, Str(b)), m, verdict) <==>
            verdict == exists i :: 0 <= i < |items| && PassingElement(items[i], p.sub, op, b)
  {
    OrderIrrelevant(Filters.Compare(p, op, Str(b)), m, verdict);
    HeldIsFound(m, p.name, Arr(items));
    assert Unique(Arr(items));
    forall i | 0 <= i < |items|
      ensures CompareValues(op, ElementValue(items[i], p.sub), Str(b)) <==> PassingElement(items[i], p.sub, op, b)
    {
      ElementPasses(items[i], p.sub, op, b);
    }
  }

  // Without the attribute nothing is present, nothing is equal but null, and `ne` holds.
  lemma FilterOnAbsent(m: Object, p: AttributePath, v: Json, verdict: bool)
    requires Unique(Obj(m)) && !HasKey(m, p.name)
    ensures MayEval(Filters.Compare(p, Pr, v), m, verdict) <==> !verdict
    ensures MayEval(Filters.Compare(p, Eq, v), m, verdict) <==> verdict == (v == Null)
    ensures MayEval(Filters.Compare(p, Ne, v), m, verdict) <==> verdict == (v != Null)
  {
    OrderIrrelevant(Filters.Compare(p, Pr, v), m, verdict);
    OrderIrrelevant(Filters.Compare(p, Eq, v), m, verdict);
    OrderIrrelevant(Filters.Compare(p, Ne, v), m, verdict);
  }

  // ----- connectives and value paths -----

  // From the verdicts on the parts, which are the same in every walk.
  lemma ConnectedFilters(m: Object, l: Filter, r: Filter, a: bool, b: bool, verdict: bool)
    requires Unique(Obj(m)) && MayEval(l, m, a) && MayEval(r, m, b)
    ensures MayEval(Logical(l, And, r), m, verdict) <==> verdict == (a && b)
    ensures MayEval(Logical(l, Or, r), m, verdict) <==> verdict == (a || b)
    ensures MayEval(Not(l), m, verdict) <==> verdict == !a
  {
    OrderIrrelevant(l, m, a);
    OrderIrrelevant(r, m, b);
    OrderIrrelevant(Logical(l, And, r), m, verdict);
    OrderIrrelevant(Logical(l, Or, r), m, verdict);
    OrderIrrelevant(Not(l), m, verdict);
  }

  // A value path holds when its filter accepts some object of the list, or the object itself.
  lemma FilterInList(m: Object, items: seq<Json>, p: AttributePath, f: Filter, verdict: bool)
    requires Unique(Obj(m)) && Holds(m, p.name, Arr(items))
    ensures MayEval(ValuePath(p, f), m, verdict) <==>
            verdict == exists i :: 0 <= i < |items| && items[i].Obj? && MayEval(f, items[i].fields, true)
  {
    OrderIrrelevant(ValuePath(p, f), m, verdict);
    HeldIsFound(m, p.name, Arr(items));
    assert Unique(Arr(items));
    forall i | 0 <= i < |items| && items[i].Obj?
      ensures MayEval(f, items[i].fields, true) <==> Eval(f, items[i].fields)
    {
      OrderIrrelevant(f, items[i].fields, true);
    }
  }

  lemma FilterInObject(m: Object, o: Object, p: AttributePath, f: Filter, verdict: bool)
    requires Unique(Obj(m)) && Holds(m, p.name, Obj(o))
    ensures MayEval(ValuePath(p, f), m, verdict) <==> MayEval(f, o, verdict)
  {
    OrderIrrelevant(ValuePath(p, f), m, verdict);
    HeldIsFound(m, p.name, Obj(o));
    assert Unique(Obj(o));
    OrderIrrelevant(f, o, verdict);
  }

  // ----- operators by name -----

  // The ten names, in any casing; no other text is an operator.
  lemma OperatorNames(tok: string)
    ensures ParseOp(tok) == Some(Eq) <==> SameLetters(tok, "eq")
    ensures ParseOp(tok) == Some(Ne) <==> SameLetters(tok, "ne")
    ensures ParseOp(tok) == Some(Co) <==> SameLetters(tok, "co")
    ensures ParseOp(tok) == Some(Sw) <==> SameLetters(tok, "sw")
    ensures ParseOp(tok) == Some(Ew) <==> SameLetters(tok, "ew")
    ensures ParseOp(tok) == Some(Gt) <==> SameLetters(tok, "gt")
    ensures ParseOp(tok) == Some(Ge) <==> SameLetters(tok, "ge")
    ensures ParseOp(tok) == Some(Lt) <==> SameLetters(tok, "lt")
    ensures ParseOp(tok) == Some(Le) <==> SameLetters(tok, "le")
    ensures ParseOp(tok) == Some(Pr) <==> SameLetters(tok, "pr")
  {
    forall op ensures ParseOp(tok) == Some(op) <==> SameLetters(tok, OpText(op)) {
      FoldIsSameLetters(tok, OpText(op));
      LowerCaseName(op);
      NameDecides(op);
    }
  }

  lemma LowerCaseName(op: CompareOp)
    ensures Lower(OpText(op)) == OpText(op)
  {
  }

  lemma NameDecides(op: CompareOp)
    ensures ParseOp(OpText(op)) == Some(op)
    ensures forall tok :: ParseOp(tok) == Some(op) ==> Lower(tok) == OpText(op)
  {
    LowerCaseName(op);
  }
}
