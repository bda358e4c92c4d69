// SQL's LIKE: a percent sign stands for any text, an underscore for any character, a backslash takes the next
// character as it is. The arguments of a filter go into the pattern as they are, so such characters in them
// count, too.
module SqlLike {
  import opened Text
  import opened Comparisons

  predicate IsSpecial(c: char) { c == '%' || c == '_' || c == '\\' }

  predicate Plain(t: string) { forall i :: 0 <= i < |t| ==> !IsSpecial(t[i]) }

  // A pattern that ends in a backslash is an error in Postgres and selects nothing.
  predicate Like(s: string, pattern: string)
    decreases |pattern| + |s|
  {
    if pattern == "" then s == ""
    else if pattern[0] == '%' then Like(s, pattern[1..]) || (s != "" && Like(s[1..], pattern))
    else if pattern[0] == '_' then s != "" && Like(s[1..], pattern[1..])
    else if pattern[0] == '\\' then |pattern| > 1 && s != "" && s[0] == pattern[1] && Like(s[1..], pattern[2..])
    else s != "" && s[0] == pattern[0] && Like(s[1..], pattern[1..])
  }

  // ----- plain arguments -----

  lemma {:induction false} PlainStart(s: string, t: string, rest: string)
    requires Plain(t)
    ensures Like(s, t + rest) <==> t <= s && Like(s[|t|..], rest)
    decreases |t|
  {
    if t == "" {
      assert t + rest == rest && s[0..] == s;
    } else {
      assert (t + rest)[0] == t[0] && (t + rest)[1..] == t[1..] + rest;
      if s != "" && s[0] == t[0] {
        PlainStart(s[1..], t[1..], rest);
        if t[1..] <= s[1..] {
          assert t == [t[0]] + t[1..] && s == [s[0]] + s[1..];
          assert s[1..][|t| - 1..] == s[|t|..];
        }
        if t <= s { assert t[1..] <= s[1..]; }
      }
    }
  }

  lemma {:induction false} PercentEnd(s: string)
    ensures Like(s, "%")
    decreases |s|
  {
    if s != "" { PercentEnd(s[1..]); }
  }

  lemma {:induction false} PercentStart(s: string, rest: string)
    ensures Like(s, "%" + rest) <==> exists i :: 0 <= i <= |s| && Like(s[i..], rest)
    decreases |s|
  {
    var pattern := "%" + rest;
    assert pattern[0] == '%' && pattern[1..] == rest && s[0..] == s;
    if s != "" {
      PercentStart(s[1..], rest);
      if i :| 0 <= i <= |s[1..]| && Like(s[1..][i..], rest) { assert s[1..][i..] == s[i + 1..]; }
      if i :| 0 <= i <= |s| && Like(s[i..], rest) { if i > 0 { assert s[i..] == s[1..][i - 1..]; } }
    }
  }

  lemma LikeStarts(s: string, t: string)
    requires Plain(t)
    ensures Like(s, t + "%") <==> IsAt(s, t, 0)
  {
    PlainStart(s, t, "%");
    if t <= s { PercentEnd(s[|t|..]); }
  }

  lemma LikeIs(s: string, t: string)
    requires Plain(t)
    ensures Like(s, t) <==> s == t
  {
    PlainStart(s, t, "");
    assert t + "" == t;
  }

  lemma EndsAfter(s: string, t: string, i: nat)
    requires Plain(t) && i <= |s| && Like(s[i..], t)
    ensures IsAt(s, t, |s| - |t|)
  {
    LikeIs(s[i..], t);
    SuffixIs(s, i);
  }

  lemma EndsThere(s: string, t: string)
    requires Plain(t) && IsAt(s, t, |s| - |t|)
    ensures Like(s[|s| - |t|..], t)
  {
    SuffixIs(s, |s| - |t|);
    LikeIs(s[|s| - |t|..], t);
  }

  lemma LikeEnds(s: string, t: string)
    requires Plain(t)
    ensures Like(s, "%" + t) <==> IsAt(s, t, |s| - |t|)
  {
    PercentStart(s, t);
    if Like(s, "%" + t) {
      var i :| 0 <= i <= |s| && Like(s[i..], t);
      EndsAfter(s, t, i);
    }
    if IsAt(s, t, |s| - |t|) { EndsThere(s, t); }
  }

  lemma SuffixIs(s: string, i: nat)
    requires i <= |s|
    ensures |s[i..]| == |s| - i && s[i..] == s[i..i + (|s| - i)]
  {
  }

  lemma LikeContains(s: string, t: string)
    requires Plain(t)
    ensures Like(s, "%" + (t + "%")) <==> exists i :: IsAt(s, t, i)
  {
    PercentStart(s, t + "%");
    forall i | 0 <= i <= |s| ensures Like(s[i..], t + "%") <==> IsAt(s, t, i) {
      LikeStarts(s[i..], t);
      if i + |t| <= |s| { assert s[i..][0..|t|] == s[i..i + |t|]; }
    }
  }

  // ----- other arguments -----

  // A text that the pattern matches, shorter than the pattern or different from it when that is not plain.
  function Sample(t: string): string {
    if t == "" then ""
    else if t[0] == '%' then Sample(t[1..])
    else if t[0] == '_' then "x" + Sample(t[1..])
    else if t[0] == '\\' then (if |t| == 1 then "%" else [t[1]] + Sample(t[2..]))
    else [t[0]] + Sample(t[1..])
  }

  // The pattern ends in a backslash that takes the next character.
  predicate Open(t: string) {
    if t == "" then false else if t[0] == '\\' then |t| == 1 || Open(t[2..]) else Open(t[1..])
  }

  lemma {:induction false} SampleDiffers(t: string)
    ensures |Sample(t)| <= |t| && (Sample(t) == t ==> Plain(t))
    decreases |t|
  {
    if t != "" {
      if t[0] == '\\' {
        if |t| > 1 { SampleDiffers(t[2..]); }
      } else {
        SampleDiffers(t[1..]);
        if t[0] != '%' && t[0] != '_' && Sample(t) == t {
          assert Sample(t)[1..] == Sample(t[1..]);
          forall k | 0 <= k < |t| ensures !IsSpecial(t[k]) { if k > 0 { assert t[k] == t[1..][k - 1]; } }
        }
      }
    }
  }

  predicate AllLower(t: string) { forall i :: 0 <= i < |t| ==> !IsUpper(t[i]) }

  lemma AllLowerIs(t: string)
    ensures AllLower(Lower(t)) && (AllLower(t) ==> Lower(t) == t)
  {
  }

  lemma {:induction false} SampleLower(t: string)
    requires AllLower(t)
    ensures AllLower(Sample(t))
    decreases |t|
  {
    if t != "" {
      if t[0] != '\\' {
        SampleLower(t[1..]);
      } else if |t| > 1 {
        SampleLower(t[2..]);
      }
    }
  }

  // Nothing of the sample's kind holds the text itself.
  lemma SampleLacks(t: string, i: int)
    requires !Plain(t)
    ensures !IsAt(Sample(t), t, i)
  {
    SampleDiffers(t);
  }

  lemma {:induction false} SampleStarts(t: string)
    ensures Like(Sample(t), t + "%")
    decreases |t|
  {
    var pattern := t + "%";
    if t == "" {
      PercentEnd("");
    } else if t[0] == '\\' && |t| > 1 {
      SampleStarts(t[2..]);
      assert pattern[2..] == t[2..] + "%" && Sample(t)[1..] == Sample(t[2..]);
    } else if t[0] == '\\' {
      assert pattern == "\\%" && Like("", "");
      assert "%"[1..] == "" && pattern[2..] == "";
    } else {
      SampleStarts(t[1..]);
      assert pattern[1..] == t[1..] + "%";
      if t[0] != '%' { assert Sample(t)[1..] == Sample(t[1..]); }
    }
  }

  lemma {:induction false} SampleIs(t: string)
    requires !Open(t)
    ensures Like(Sample(t), t)
    decreases |t|
  {
    if t != "" {
      if t[0] == '\\' {
        SampleIs(t[2..]);
        assert Sample(t)[1..] == Sample(t[2..]);
      } else {
        SampleIs(t[1..]);
        if t[0] != '%' { assert Sample(t)[1..] == Sample(t[1..]); }
      }
    }
  }

  lemma {:induction false} OpenMatchesNothing(s: string, t: string)
    requires Open(t)
    ensures !Like(s, t)
    decreases |t| + |s|
  {
    if t[0] == '\\' {
      if |t| > 1 && s != "" { OpenMatchesNothing(s[1..], t[2..]); }
    } else if t[0] == '%' {
      OpenMatchesNothing(s, t[1..]);
      if s != "" { OpenMatchesNothing(s[1..], t); }
    } else if s != "" {
      OpenMatchesNothing(s[1..], t[1..]);
    }
  }

  // ----- LIKE on texts in any case, against the three operators -----

  function StartPattern(b: string): string { Lower(b) + "%" }

  function EndPattern(b: string): string { "%" + Lower(b) }

  function InnerPattern(b: string): string { "%" + (Lower(b) + "%") }

  lemma PlainLower(b: string)
    ensures Plain(Lower(b)) <==> Plain(b)
  {
    forall i | 0 <= i < |b| ensures IsSpecial(Lower(b)[i]) <==> IsSpecial(b[i]) {}
  }

  // The pattern and the operator say the same of a text.
  ghost predicate StartsAlike(a: string, b: string) { Like(Lower(a), StartPattern(b)) <==> StandsAt(a, b, 0) }

  ghost predicate EndsAlike(a: string, b: string) { Like(Lower(a), EndPattern(b)) <==> StandsAt(a, b, |a| - |b|) }

  ghost predicate HoldsAlike(a: string, b: string) {
    Like(Lower(a), InnerPattern(b)) <==> exists i :: StandsAt(a, b, i)
  }

  lemma PlainIsExact(a: string, b: string)
    requires Plain(b)
    ensures StartsAlike(a, b) && EndsAlike(a, b) && HoldsAlike(a, b)
  {
    var s, t := Lower(a), Lower(b);
    PlainLower(b);
    forall i ensures IsAt(s, t, i) <==> StandsAt(a, b, i) { LowerAt(a, b, i); }
    LikeStarts(s, t);
    LikeEnds(s, t);
    LikeContains(s, t);
  }

  // The text on which LIKE and the operator differ, for an argument that is not plain.
  function Difference(b: string, ends: bool): string {
    if ends && Open(Lower(b)) then Lower(b) else Sample(Lower(b))
  }

  lemma NoSample(b: string, i: int)
    requires !Plain(b)
    ensures Lower(Sample(Lower(b))) == Sample(Lower(b)) && !StandsAt(Sample(Lower(b)), b, i)
  {
    var t := Lower(b);
    PlainLower(b);
    AllLowerIs(b);
    SampleLower(t);
    AllLowerIs(Sample(t));
    SampleLacks(t, i);
    LowerAt(Sample(t), b, i);
  }

  lemma StartsAndHoldsDiffer(b: string)
    requires !Plain(b)
    ensures var a := Difference(b, false); !StartsAlike(a, b) && !HoldsAlike(a, b)
  {
    var a, t := Difference(b, false), Lower(b);
    NoSample(b, 0);
    forall i ensures !StandsAt(a, b, i) { NoSample(b, i); }
    SampleStarts(t);
    assert a[0..] == a;
    PercentStart(a, t + "%");
  }

  lemma EndsDiffer(b: string)
    requires !Plain(b)
    ensures !EndsAlike(Difference(b, true), b)
  {
    var a, t := Difference(b, true), Lower(b);
    if Open(t) {
      AllLowerIs(b);
      AllLowerIs(t);
      forall i | 0 <= i <= |a| ensures !Like(a[i..], t) { OpenMatchesNothing(a[i..], t); }
      PercentStart(a, t);
      LowerAt(a, b, 0);
    } else {
      NoSample(b, |a| - |b|);
      SampleIs(t);
      assert a[0..] == a;
      PercentStart(a, t);
    }
  }

  // LIKE agrees with each of the three operators, on every text, exactly when the argument is plain.
  lemma LikeIsExact(b: string)
    ensures (forall a :: StartsAlike(a, b)) <==> Plain(b)
    ensures (forall a :: EndsAlike(a, b)) <==> Plain(b)
    ensures (forall a :: HoldsAlike(a, b)) <==> Plain(b)
  {
    if Plain(b) {
      forall a ensures StartsAlike(a, b) && EndsAlike(a, b) && HoldsAlike(a, b) { PlainIsExact(a, b); }
    } else {
      StartsAndHoldsDiffer(b);
      EndsDiffer(b);
    }
  }
}
