// How filters are spelled: the words and signs of the language, with what each of them reads as.
module FilterSpelling {
  import opened Text
  import opened Numbers
  import opened Values
  import opened Literals
  import opened Paths
  import opened Filters
  import opened FilterRoundTrip

  // Connectives, negation and value paths around any filters.
  lemma ConnectivesRead(l: Filter, r: Filter, p: AttributePath)
    requires WellFormed(l) && WellFormed(r) && FilterPath(p)
    ensures ParseFilter("(" + FilterText(l) + " and " + FilterText(r) + ")") == Some(Logical(l, And, r))
    ensures ParseFilter("(" + FilterText(l) + " or " + FilterText(r) + ")") == Some(Logical(l, Or, r))
    ensures ParseFilter("not (" + FilterText(l) + ")") == Some(Not(l))
    ensures ParseFilter(PathText(p) + "[" + FilterText(l) + "]") == Some(ValuePath(p, l))
  {
    PrintParse(Logical(l, And, r));
    PrintParse(Logical(l, Or, r));
    PrintParse(Not(l));
    PrintParse(ValuePath(p, l));
  }

  // The operators before any literal.
  lemma OperatorsRead(p: AttributePath, v: Json)
    requires FilterPath(p) && Literal(v)
    ensures ParseFilter(PathText(p) + " eq " + ValueText(v)) == Some(Compare(p, Eq, v))
    ensures ParseFilter(PathText(p) + " ne " + ValueText(v)) == Some(Compare(p, Ne, v))
    ensures ParseFilter(PathText(p) + " co " + ValueText(v)) == Some(Compare(p, Co, v))
    ensures ParseFilter(PathText(p) + " sw " + ValueText(v)) == Some(Compare(p, Sw, v))
    ensures ParseFilter(PathText(p) + " ew " + ValueText(v)) == Some(Compare(p, Ew, v))
    ensures ParseFilter(PathText(p) + " gt " + ValueText(v)) == Some(Compare(p, Gt, v))
    ensures ParseFilter(PathText(p) + " ge " + ValueText(v)) == Some(Compare(p, Ge, v))
    ensures ParseFilter(PathText(p) + " lt " + ValueText(v)) == Some(Compare(p, Lt, v))
    ensures ParseFilter(PathText(p) + " le " + ValueText(v)) == Some(Compare(p, Le, v))
    ensures ParseFilter(PathText(p) + " pr") == Some(Compare(p, Pr, Null))
  {
    forall op: CompareOp | op != Pr
      ensures ParseFilter(PathText(p) + (" " + OpText(op) + " ") + ValueText(v)) == Some(Compare(p, op, v))
    {
      PrintParse(Compare(p, op, v));
      Regrouped(PathText(p), " ", OpText(op), " ", ValueText(v));
    }
    SpacedNames();
    PrintParse(Compare(p, Pr, Null));
  }

  lemma Regrouped(a: string, b: string, c: string, d: string, e: string)
    ensures a + b + c + d + e == a + (b + c + d) + e
  {
  }

  lemma SpacedNames()
    ensures " " + OpText(Eq) + " " == " eq " && " " + OpText(Ne) + " " == " ne " && " " + OpText(Co) + " " == " co "
    ensures " " + OpText(Sw) + " " == " sw " && " " + OpText(Ew) + " " == " ew " && " " + OpText(Gt) + " " == " gt "
    ensures " " + OpText(Ge) + " " == " ge " && " " + OpText(Lt) + " " == " lt " && " " + OpText(Le) + " " == " le "
  {
  }

  predicate Unescaped(c: char) {
    c != '"' && c != '\\' && c as int >= 0x20 && c != '<' && c != '>' && c != '&' && c as int != 0x2028
    && c as int != 0x2029
  }

  lemma {:induction false} PlainEscape(s: string)
    requires forall i :: 0 <= i < |s| ==> Unescaped(s[i])
    ensures Escape(s) == s
  {
    if s != "" {
      PlainEscape(s[1..]);
      assert [s[0]] + s[1..] == s;
    }
  }

  // The literals: three words, whole numbers by their digits, texts between quotes.
  lemma WordsRead(p: AttributePath)
    requires FilterPath(p)
    ensures ParseFilter(PathText(p) + " eq " + "true") == Some(Compare(p, Eq, Bool(true)))
    ensures ParseFilter(PathText(p) + " eq " + "false") == Some(Compare(p, Eq, Bool(false)))
    ensures ParseFilter(PathText(p) + " eq " + "null") == Some(Compare(p, Eq, Null))
  {
    EqualsRead(p, Bool(true), "true");
    EqualsRead(p, Bool(false), "false");
    EqualsRead(p, Null, "null");
  }

  lemma EqualsRead(p: AttributePath, v: Json, text: string)
    requires FilterPath(p) && Literal(v) && ValueText(v) == text
    ensures ParseFilter(PathText(p) + " eq " + text) == Some(Compare(p, Eq, v))
  {
    OperatorsRead(p, v);
  }

  lemma NumbersRead(p: AttributePath, n: nat)
    requires FilterPath(p)
    ensures ParseFilter(PathText(p) + " eq " + Digits(n)) == Some(Compare(p, Eq, Num(Decimal(n, 0))))
  {
    WholeNumber(n);
    EqualsRead(p, Num(Decimal(n, 0)), Digits(n));
  }

  lemma TextsRead(p: AttributePath, s: string)
    requires FilterPath(p) && forall i :: 0 <= i < |s| ==> Unescaped(s[i])
    ensures ParseFilter(PathText(p) + " eq " + ("\"" + s + "\"")) == Some(Compare(p, Eq, Str(s)))
  {
    PlainEscape(s);
    EqualsRead(p, Str(s), "\"" + s + "\"");
  }
}
