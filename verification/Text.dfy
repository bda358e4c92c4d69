// Strings, ASCII case folding and searching: the parts of Go's strings package the rest relies on.
module Text {

  datatype Option<+T> = None | Some(value: T)

  datatype Result<+T, +E> = Ok(value: T) | Err(error: E)

  predicate IsUpper(c: char) { 'A' <= c <= 'Z' }

  predicate IsAlpha(c: char) { 'a' <= c <= 'z' || 'A' <= c <= 'Z' }

  predicate IsDigit(c: char) { '0' <= c <= '9' }

  function LowerChar(c: char): char {
    if IsUpper(c) then ((c as int) + 32) as char else c
  }

  // strings.ToLower on ASCII letters; every other character is kept.
  function Lower(s: string): (r: string)
    ensures |r| == |s|
    ensures forall i :: 0 <= i < |s| ==> r[i] == LowerChar(s[i])
  {
    seq(|s|, i requires 0 <= i < |s| => LowerChar(s[i]))
  }

  // strings.EqualFold on ASCII letters.
  predicate EqualFold(s: string, t: string) { Lower(s) == Lower(t) }

  predicate Lacks(s: string, c: char) { forall i :: 0 <= i < |s| ==> s[i] != c }

  // strings.Index of a single character; -1 when absent.
  function IndexOf(s: string, c: char): (r: int)
    ensures -1 <= r < |s|
    ensures r == -1 ==> Lacks(s, c)
    ensures r >= 0 ==> s[r] == c && forall i :: 0 <= i < r ==> s[i] != c
  {
    if s == [] then -1
    else if s[0] == c then 0
    else
      var r := IndexOf(s[1..], c);
      assert forall i :: 0 < i < |s| ==> s[i] == s[1..][i - 1];
      if r == -1 then -1 else r + 1
  }

  // strings.LastIndex of a single character; -1 when absent.
  function LastIndexOf(s: string, c: char): (r: int)
    ensures -1 <= r < |s|
    ensures r == -1 ==> Lacks(s, c)
    ensures r >= 0 ==> s[r] == c && forall i :: r < i < |s| ==> s[i] != c
  {
    if s == [] then -1
    else if s[|s| - 1] == c then |s| - 1
    else LastIndexOf(s[..|s| - 1], c)
  }

  // A position of c with none before it is the first one.
  lemma IndexAt(s: string, c: char, n: nat)
    requires n < |s| && s[n] == c && forall i :: 0 <= i < n ==> s[i] != c
    ensures IndexOf(s, c) == n
  {
  }

  // The first occurrence of c in a + [c] + b is right after a when a has none.
  lemma IndexOfSplit(a: string, c: char, b: string)
    requires Lacks(a, c)
    ensures IndexOf(a + [c] + b, c) == |a|
  {
    var s := a + [c] + b;
    assert s[|a|] == c;
    assert forall i :: 0 <= i < |a| ==> s[i] == a[i];
  }

  // A position of c with none after it is the last one.
  lemma LastIndexAt(s: string, c: char, n: nat)
    requires n < |s| && s[n] == c && forall i :: n < i < |s| ==> s[i] != c
    ensures LastIndexOf(s, c) == n
  {
  }

  lemma AroundSplit(a: string, c: char, b: string)
    ensures var s := a + [c] + b;
            s[|a|] == c && (forall i :: 0 <= i < |a| ==> s[i] == a[i])
              && (forall i :: |a| < i < |s| ==> s[i] == b[i - |a| - 1])
  {
  }

  lemma LastIndexOfSplit(a: string, c: char, b: string)
    requires Lacks(b, c)
    ensures LastIndexOf(a + [c] + b, c) == |a|
  {
    AroundSplit(a, c, b);
    LastIndexAt(a + [c] + b, c, |a|);
  }

  // strings.Compare: -1, 0 or 1 in lexicographic order.
  function Compare(s: string, t: string): (r: int)
    ensures r == 0 <==> s == t
    ensures r == -1 || r == 0 || r == 1
  {
    if s == [] then (if t == [] then 0 else -1)
    else if t == [] then 1
    else if s[0] < t[0] then -1
    else if t[0] < s[0] then 1
    else
      assert s == [s[0]] + s[1..] && t == [t[0]] + t[1..];
      Compare(s[1..], t[1..])
  }

  lemma {:induction false} CompareAntisymmetric(s: string, t: string)
    ensures Compare(s, t) == -Compare(t, s)
  {
    if s != [] && t != [] && s[0] == t[0] {
      CompareAntisymmetric(s[1..], t[1..]);
    }
  }

  lemma {:induction false} CompareTransitive(s: string, t: string, u: string)
    requires Compare(s, t) <= 0 && Compare(t, u) <= 0
    ensures Compare(s, u) <= 0
  {
    if s != [] && t != [] && u != [] && s[0] == t[0] == u[0] {
      CompareTransitive(s[1..], t[1..], u[1..]);
    }
  }

  function Repeat(c: char, n: nat): (r: string)
    ensures |r| == n && forall i :: 0 <= i < n ==> r[i] == c
  {
    seq(n, i => c)
  }
}
