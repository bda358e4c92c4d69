// Evaluating a filter against an object. Names match up to case and Go walks maps in any order, so the
// evaluator can have several outcomes on an object with keys that differ only in case; on all others
// there is one.
module FilterEval {
  import opened Text
  import opened Numbers
  import opened Values
  import opened Paths
  import opened Filters
  import opened Objects

  // ----- comparing two values -----

  predicate Contains(s: string, t: string) {
    t <= s || (s != "" && Contains(s[1..], t))
  }

  predicate HasSuffix(s: string, t: string) {
    |t| <= |s| && s[|s| - |t|..] == t
  }

  predicate ValuesEqual(a: Json, b: Json) {
    if a.Null? || b.Null? then a.Null? && b.Null?
    else if a.Bool? && b.Bool? then a == b
    else if a.Num? && b.Num? then -0.000000000000001 < Value(a.n) - Value(b.n) < 0.000000000000001
    else EqualFold(FormatV(a), FormatV(b))
  }

  function CompareOrder(a: Json, b: Json): int {
    if a.Num? && b.Num? then
      if Value(a.n) < Value(b.n) then -1 else if Value(a.n) > Value(b.n) then 1 else 0
    else Text.Compare(FormatV(a), FormatV(b))
  }

  predicate CompareValues(op: CompareOp, a: Json, b: Json) {
    match op
    case Eq => ValuesEqual(a, b)
    case Ne => !ValuesEqual(a, b)
    case Co => Contains(Lower(FormatV(a)), Lower(FormatV(b)))
    case Sw => Lower(FormatV(b)) <= Lower(FormatV(a))
    case Ew => HasSuffix(Lower(FormatV(a)), Lower(FormatV(b)))
    case Gt => CompareOrder(a, b) > 0
    case Ge => CompareOrder(a, b) >= 0
    case Lt => CompareOrder(a, b) < 0
    case Le => CompareOrder(a, b) <= 0
    case Pr => a != Null
  }

  // ----- evaluation on objects without case clashes -----

  // The value a path names: the sub-attribute of an object, otherwise the attribute itself.
  ghost function AttrValue(m: Object, p: AttributePath): Json {
    var v := Lookup(m, p.name);
    if p.sub != "" && v.Obj? then Lookup(v.fields, p.sub) else v
  }

  // What one element of an array contributes to a comparison.
  ghost function ElementValue(elem: Json, sub: string): Json {
    if sub == "" then elem else if elem.Obj? then Lookup(elem.fields, sub) else Null
  }

  ghost predicate Matches(op: CompareOp, v: Json, sub: string, want: Json) {
    if op == Pr then v != Null
    else if v.Arr? then exists i :: 0 <= i < |v.items| && CompareValues(op, ElementValue(v.items[i], sub), want)
    else CompareValues(op, v, want)
  }

  ghost predicate Eval(e: Filter, m: Object)
    decreases e
  {
    match e
    case Compare(p, op, want) => Matches(op, AttrValue(m, p), p.sub, want)
    case Logical(l, And, r) => Eval(l, m) && Eval(r, m)
    case Logical(l, Or, r) => Eval(l, m) || Eval(r, m)
    case Not(f) => !Eval(f, m)
    case ValuePath(p, f) =>
      var v := Lookup(m, p.name);
      match v
      case Arr(items) => exists i :: 0 <= i < |items| && items[i].Obj? && Eval(f, items[i].fields)
      case Obj(fields) => Eval(f, fields)
      case _ => false
  }

  // ----- every outcome the walk can have -----

  ghost predicate MayGet(m: Object, p: AttributePath, v: Json) {
    exists top :: MayFind(m, p.name, top) && if p.sub != "" && top.Obj? then MayFind(top.fields, p.sub, v) else v == top
  }

  ghost predicate MayElement(elem: Json, sub: string, v: Json) {
    if sub == "" then v == elem else if elem.Obj? then MayFind(elem.fields, sub, v) else v == Null
  }

  ghost predicate MayMatch(op: CompareOp, v: Json, sub: string, want: Json, b: bool) {
    if op == Pr then b == (v != Null)
    else if v.Arr? then
      if b then exists i :: 0 <= i < |v.items| && MayCompare(op, v.items[i], sub, want, true)
      else forall i :: 0 <= i < |v.items| ==> MayCompare(op, v.items[i], sub, want, false)
    else b == CompareValues(op, v, want)
  }

  ghost predicate MayCompare(op: CompareOp, elem: Json, sub: string, want: Json, b: bool) {
    exists x :: MayElement(elem, sub, x) && b == CompareValues(op, x, want)
  }

  ghost predicate MayEval(e: Filter, m: Object, b: bool)
    decreases e, 1
  {
    match e
    case Compare(p, op, want) => exists v :: MayGet(m, p, v) && MayMatch(op, v, p.sub, want, b)
    case Logical(l, op, r) =>
      var short := op == Or;
      (b == short && MayEval(l, m, short)) || (MayEval(l, m, !short) && MayEval(r, m, b))
    case Not(f) => MayEval(f, m, !b)
    case ValuePath(p, f) => exists v :: MayFind(m, p.name, v) && MayEvalIn(f, v, b)
  }

  ghost predicate MayEvalIn(f: Filter, v: Json, b: bool)
    decreases f, 2
  {
    match v
    case Arr(items) =>
      if b then exists i :: 0 <= i < |items| && items[i].Obj? && MayEval(f, items[i].fields, true)
      else forall i :: 0 <= i < |items| && items[i].Obj? ==> MayEval(f, items[i].fields, false)
    case Obj(fields) => MayEval(f, fields, b)
    case _ => !b
  }

  // ----- the evaluator -----

  method GetAttrValue(m: Object, p: AttributePath) returns (v: Json)
    ensures MayGet(m, p, v)
  {
    v := LookupKey(m, p.name);
    if v == Null || p.sub == "" { return; }
    if v.Obj? {
      v := LookupKey(v.fields, p.sub);
    }
  }

  method CompareElement(op: CompareOp, elem: Json, sub: string, want: Json) returns (b: bool)
    ensures MayCompare(op, elem, sub, want, b)
  {
    var x := Null;
    if sub != "" {
      if elem.Obj? { x := LookupKey(elem.fields, sub); }
    } else {
      x := elem;
    }
    b := CompareValues(op, x, want);
  }

  method EvalComparison(p: AttributePath, op: CompareOp, want: Json, m: Object) returns (b: bool)
    ensures MayEval(Compare(p, op, want), m, b)
  {
    var v := GetAttrValue(m, p);
    if op == Pr { return v != Null; }
    if v.Arr? {
      for i := 0 to |v.items|
        invariant forall j :: 0 <= j < i ==> MayCompare(op, v.items[j], p.sub, want, false)
      {
        var found := CompareElement(op, v.items[i], p.sub, want);
        if found { return true; }
      }
      return false;
    }
    b := CompareValues(op, v, want);
  }

  method EvalExpr(e: Filter, m: Object) returns (b: bool)
    ensures MayEval(e, m, b)
    decreases e
  {
    match e
    case Compare(p, op, want) => b := EvalComparison(p, op, want, m);
    case Logical(l, op, r) =>
      var left := EvalExpr(l, m);
      if op == And && !left { return false; }
      if op == Or && left { return true; }
      b := EvalExpr(r, m);
    case Not(f) =>
      var inner := EvalExpr(f, m);
      b := !inner;
    case ValuePath(p, f) =>
      var v := LookupKey(m, p.name);
      if v.Arr? {
        for i := 0 to |v.items|
          invariant forall j :: 0 <= j < i && v.items[j].Obj? ==> MayEval(f, v.items[j].fields, false)
        {
          if v.items[i].Obj? {
            var found := EvalExpr(f, v.items[i].fields);
            if found {
              assert MayEvalIn(f, v, true);
              return true;
            }
          }
        }
        assert MayEvalIn(f, v, false);
        return false;
      }
      if v.Obj? {
        b := EvalExpr(f, v.fields);
        assert MayEvalIn(f, v, b);
        return;
      }
      assert MayEvalIn(f, v, false);
      b := false;
  }

  // ----- map order does not matter -----

  lemma GetUnique(m: Object, p: AttributePath, v: Json)
    requires Unique(Obj(m))
    ensures MayGet(m, p, v) <==> v == AttrValue(m, p)
  {
    var top := Lookup(m, p.name);
    FindUnique(m, p.name, top);
    forall t | MayFind(m, p.name, t) ensures t == top { FindUnique(m, p.name, t); }
    if top.Obj? {
      LookupIsUnique(m, p.name);
      FindUnique(top.fields, p.sub, v);
    }
  }

  lemma LookupIsUnique(m: Object, name: string)
    requires Unique(Obj(m))
    ensures Unique(Lookup(m, name))
    ensures Lookup(m, name).Obj? ==> CaseUnique(Lookup(m, name).fields)
  {
  }

  lemma ElementUnique(elem: Json, sub: string, x: Json)
    requires Unique(elem)
    ensures MayElement(elem, sub, x) <==> x == ElementValue(elem, sub)
  {
    if elem.Obj? { FindUnique(elem.fields, sub, x); }
  }

  lemma CompareUnique(op: CompareOp, elem: Json, sub: string, want: Json, b: bool)
    requires Unique(elem)
    ensures MayCompare(op, elem, sub, want, b) <==> b == CompareValues(op, ElementValue(elem, sub), want)
  {
    ElementUnique(elem, sub, ElementValue(elem, sub));
    forall x ensures MayElement(elem, sub, x) <==> x == ElementValue(elem, sub) { ElementUnique(elem, sub, x); }
  }

  lemma MatchUnique(op: CompareOp, v: Json, sub: string, want: Json, b: bool)
    requires Unique(v)
    ensures MayMatch(op, v, sub, want, b) <==> b == Matches(op, v, sub, want)
  {
    if v.Arr? {
      forall i | 0 <= i < |v.items|
        ensures MayCompare(op, v.items[i], sub, want, b)
            <==> b == CompareValues(op, ElementValue(v.items[i], sub), want)
      {
        CompareUnique(op, v.items[i], sub, want, b);
      }
    }
  }

  // On an object without case clashes the evaluator has exactly one outcome, in whatever order it
  // walks the maps.
  lemma {:induction false} OrderIrrelevant(e: Filter, m: Object, b: bool)
    requires Unique(Obj(m))
    ensures MayEval(e, m, b) <==> b == Eval(e, m)
    decreases e, 1
  {
    match e
    case Compare(p, op, want) =>
      var v := AttrValue(m, p);
      forall w ensures MayGet(m, p, w) <==> w == v { GetUnique(m, p, w); }
      AttrValueIsUnique(m, p);
      MatchUnique(op, v, p.sub, want, b);
    case Logical(l, op, r) =>
      OrderIrrelevant(l, m, false);
      OrderIrrelevant(l, m, true);
      OrderIrrelevant(r, m, b);
    case Not(f) => OrderIrrelevant(f, m, !b);
    case ValuePath(p, f) =>
      var v := Lookup(m, p.name);
      forall w ensures MayFind(m, p.name, w) <==> w == v { FindUnique(m, p.name, w); }
      LookupIsUnique(m, p.name);
      OrderIrrelevantIn(f, v, b);
  }

  ghost predicate EvalIn(f: Filter, v: Json) {
    match v
    case Arr(items) => exists i :: 0 <= i < |items| && items[i].Obj? && Eval(f, items[i].fields)
    case Obj(fields) => Eval(f, fields)
    case _ => false
  }

  lemma {:induction false} OrderIrrelevantIn(f: Filter, v: Json, b: bool)
    requires Unique(v)
    ensures MayEvalIn(f, v, b) <==> b == EvalIn(f, v)
    decreases f, 2
  {
    match v
    case Arr(items) =>
      forall i | 0 <= i < |items| && items[i].Obj?
        ensures MayEval(f, items[i].fields, b) <==> b == Eval(f, items[i].fields)
      {
        OrderIrrelevant(f, items[i].fields, b);
      }
    case Obj(fields) => OrderIrrelevant(f, fields, b);
    case _ =>
  }

  lemma AttrValueIsUnique(m: Object, p: AttributePath)
    requires Unique(Obj(m))
    ensures Unique(AttrValue(m, p))
  {
    LookupIsUnique(m, p.name);
    if Lookup(m, p.name).Obj? { LookupIsUnique(Lookup(m, p.name).fields, p.sub); }
  }
}
