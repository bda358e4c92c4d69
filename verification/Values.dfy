// JSON values as Go holds them after decoding. Objects are maps; the order in which Go walks a map is
// arbitrary, which the methods of this project render by picking any key not visited yet.
module Values {
  import opened Text
  import opened Numbers

  datatype Json =
    | Null
    | Bool(b: bool)
    | Num(n: Decimal)
    | Str(s: string)
    | Arr(items: seq<Json>)
    | Obj(fields: map<string, Json>)

  type Object = map<string, Json>

  // No two keys of the object differ only in case.
  ghost predicate CaseUnique(m: Object) {
    forall k, l :: k in m && l in m && EqualFold(k, l) ==> k == l
  }

  // The same at every depth.
  ghost predicate Unique(j: Json) {
    match j
    case Obj(m) => CaseUnique(m) && forall k :: k in m ==> Unique(m[k])
    case Arr(items) => forall i :: 0 <= i < |items| ==> Unique(items[i])
    case _ => true
  }

  // ----- the text fmt prints for a value under %v -----

  function FormatV(j: Json): string
    decreases j, 1
  {
    match j
    case Null => "<nil>"
    case Bool(b) => if b then "true" else "false"
    case Num(n) => FormatShortest(n)
    case Str(s) => s
    case Arr(items) => "[" + FormatItems(items) + "]"
    case Obj(m) => "map[" + FormatFields(j, m.Keys) + "]"
  }

  function FormatItems(items: seq<Json>): string
    decreases items, 0
  {
    if items == [] then ""
    else if |items| == 1 then FormatV(items[0])
    else FormatV(items[0]) + " " + FormatItems(items[1..])
  }

  // fmt prints the entries of a map in key order.
  function FormatFields(j: Json, keys: set<string>): string
    requires j.Obj? && keys <= j.fields.Keys
    decreases j, 0, keys
  {
    if keys == {} then ""
    else
      var k := LeastKey(keys);
      var entry := k + ":" + FormatV(j.fields[k]);
      if keys == {k} then entry else entry + " " + FormatFields(j, keys - {k})
  }

  predicate IsLeast(k: string, keys: set<string>) {
    k in keys && forall l :: l in keys ==> Compare(k, l) <= 0
  }

  function LeastKey(keys: set<string>): (k: string)
    requires keys != {}
    ensures IsLeast(k, keys)
  {
    LeastExists(keys);
    assert forall k, l :: IsLeast(k, keys) && IsLeast(l, keys) ==> k == l by {
      forall k, l | IsLeast(k, keys) && IsLeast(l, keys) ensures k == l { CompareAntisymmetric(k, l); }
    }
    var k :| k in keys && IsLeast(k, keys);
    k
  }

  lemma {:induction false} LeastExists(keys: set<string>)
    requires keys != {}
    ensures exists k :: IsLeast(k, keys)
  {
    var x :| x in keys;
    if keys == {x} {
      assert IsLeast(x, keys);
    } else {
      LeastExists(keys - {x});
      var y :| IsLeast(y, keys - {x});
      CompareAntisymmetric(x, y);
      if Compare(x, y) <= 0 {
        forall l | l in keys ensures Compare(x, l) <= 0 { if l != x { CompareTransitive(x, y, l); } }
        assert IsLeast(x, keys);
      } else {
        assert IsLeast(y, keys);
      }
    }
  }

  // strconv's shortest 'g' form, which %v uses for a float: exponents below -4 or from 6 on use e-notation.
  function FormatShortest(d: Decimal): string {
    var ds := Digits(Abs(d.coeff));
    var exp := |ds| - 1 - d.scale;
    if d.coeff == 0 || -4 <= exp < 6 then FormatNumber(d)
    else
      var mantissa := TrimZeros(ds);
      (if d.coeff < 0 then "-" else "") + mantissa[..1] + (if |mantissa| > 1 then "." + mantissa[1..] else "")
      + "e" + (if exp < 0 then "-" else "+") + PaddedDigits(Abs(exp), 2)
  }

  function TrimZeros(s: string): (r: string)
    requires s != ""
    ensures r != ""
  {
    if |s| > 1 && s[|s| - 1] == '0' then TrimZeros(s[..|s| - 1]) else s
  }
}
