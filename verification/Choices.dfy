// The choice a loop makes among the elements of a list when the test on an element can go either way.
module Choices {
  // Images of elements that the test may accept, in order; it may reject the others.
  ghost predicate MayChoose<T(!new), U(!new)>(xs: seq<T>, may: (T, bool) -> bool, image: T -> U, out: seq<U>)
    decreases |xs|
  {
    if xs == [] then out == []
    else
      var n := |xs| - 1;
      (may(xs[n], false) && MayChoose(xs[..n], may, image, out))
      || (may(xs[n], true) && out != [] && out[|out| - 1] == image(xs[n])
          && MayChoose(xs[..n], may, image, out[..|out| - 1]))
  }

  lemma ChooseNext<T(!new), U(!new)>(xs: seq<T>, i: nat, may: (T, bool) -> bool, image: T -> U, out: seq<U>, b: bool)
    requires i < |xs| && MayChoose(xs[..i], may, image, out) && may(xs[i], b)
    ensures MayChoose(xs[..i + 1], may, image, if b then out + [image(xs[i])] else out)
  {
    assert xs[..i + 1][..i] == xs[..i];
    var more := out + [image(xs[i])];
    assert more[..|more| - 1] == out;
  }

  ghost predicate MayComeFrom<T(!new), U(!new)>(xs: seq<T>, may: (T, bool) -> bool, image: T -> U, x: U) {
    exists i :: 0 <= i < |xs| && may(xs[i], true) && x == image(xs[i])
  }

  lemma ComesFromMore<T(!new), U(!new)>(xs: seq<T>, n: nat, may: (T, bool) -> bool, image: T -> U, x: U)
    requires n <= |xs| && MayComeFrom(xs[..n], may, image, x)
    ensures MayComeFrom(xs, may, image, x)
  {
    var i :| 0 <= i < n && may(xs[..n][i], true) && x == image(xs[..n][i]);
    assert xs[i] == xs[..n][i];
  }

  // What is chosen was accepted.
  lemma {:induction false} ChosenWereAccepted<T(!new), U(!new)>(xs: seq<T>, may: (T, bool) -> bool, image: T -> U,
                                                                out: seq<U>, k: nat)
    requires MayChoose(xs, may, image, out) && k < |out|
    ensures MayComeFrom(xs, may, image, out[k])
    decreases |xs|
  {
    var n := |xs| - 1;
    if may(xs[n], false) && MayChoose(xs[..n], may, image, out) {
      ChosenWereAccepted(xs[..n], may, image, out, k);
      ComesFromMore(xs, n, may, image, out[k]);
    } else if k < |out| - 1 {
      ChosenWereAccepted(xs[..n], may, image, out[..|out| - 1], k);
      ComesFromMore(xs, n, may, image, out[k]);
    }
  }

  // And what cannot be rejected is chosen.
  lemma {:induction false} AcceptedAreChosen<T(!new), U(!new)>(xs: seq<T>, may: (T, bool) -> bool, image: T -> U,
                                                               out: seq<U>, i: nat)
    requires MayChoose(xs, may, image, out) && i < |xs| && !may(xs[i], false)
    ensures image(xs[i]) in out
    decreases |xs|
  {
    var n := |xs| - 1;
    if i < n {
      assert xs[i] == xs[..n][i];
      if may(xs[n], false) && MayChoose(xs[..n], may, image, out) {
        AcceptedAreChosen(xs[..n], may, image, out, i);
      } else {
        AcceptedAreChosen(xs[..n], may, image, out[..|out| - 1], i);
      }
    }
  }

  // Where the chosen ones stood: at increasing places, accepted there, and all the others rejected.
  ghost predicate ChosenAt<T(!new), U(!new)>(xs: seq<T>, may: (T, bool) -> bool, image: T -> U, out: seq<U>,
                                             at: seq<nat>) {
    |at| == |out|
    && (forall k :: 0 <= k < |at| ==> at[k] < |xs| && may(xs[at[k]], true) && out[k] == image(xs[at[k]]))
    && (forall k, l :: 0 <= k < l < |at| ==> at[k] < at[l])
    && (forall i :: 0 <= i < |xs| && i !in at ==> may(xs[i], false))
  }

  lemma RejectedNext<T(!new), U(!new)>(xs: seq<T>, n: nat, may: (T, bool) -> bool, image: T -> U, out: seq<U>,
                                       at: seq<nat>)
    requires |xs| == n + 1 && ChosenAt(xs[..n], may, image, out, at) && may(xs[n], false)
    ensures ChosenAt(xs, may, image, out, at)
  {
    forall i | 0 <= i < |xs| && i !in at ensures may(xs[i], false) { if i < n { assert xs[..n][i] == xs[i]; } }
  }

  lemma AcceptedNext<T(!new), U(!new)>(xs: seq<T>, n: nat, may: (T, bool) -> bool, image: T -> U, out: seq<U>,
                                       at: seq<nat>)
    requires |xs| == n + 1 && ChosenAt(xs[..n], may, image, out, at) && may(xs[n], true)
    ensures ChosenAt(xs, may, image, out + [image(xs[n])], at + [n])
  {
    var more := at + [n];
    forall i | 0 <= i < |xs| && i !in more ensures may(xs[i], false) {
      assert more[|at|] == n;
      if i < n {
        assert more[..|at|] == at;
        assert xs[..n][i] == xs[i];
      }
    }
  }

  // A choice keeps the order of the list.
  lemma {:induction false} ChosenInOrder<T(!new), U(!new)>(xs: seq<T>, may: (T, bool) -> bool, image: T -> U,
                                                           out: seq<U>)
    returns (at: seq<nat>)
    requires MayChoose(xs, may, image, out)
    ensures ChosenAt(xs, may, image, out, at)
    decreases |xs|
  {
    if xs == [] {
      at := [];
    } else {
      var n := |xs| - 1;
      if may(xs[n], false) && MayChoose(xs[..n], may, image, out) {
        at := ChosenInOrder(xs[..n], may, image, out);
        RejectedNext(xs, n, may, image, out, at);
      } else {
        var before := out[..|out| - 1];
        at := ChosenInOrder(xs[..n], may, image, before);
        AcceptedNext(xs, n, may, image, before, at);
        at := at + [n];
        assert out == before + [out[|out| - 1]];
      }
    }
  }
}
