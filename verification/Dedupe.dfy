/** `list(dict.fromkeys(xs))`: each value once, in the order of its first occurrence. */
module Dedupe {
  function FirstSeen<T(==,!new)>(xs: seq<T>): (r: seq<T>)
    ensures forall x :: x in r <==> x in xs
    ensures forall i, j :: 0 <= i < j < |r| ==> r[i] != r[j]
  {
    if xs == [] then [] else
    var seen := FirstSeen(xs[..|xs| - 1]);
    var last := xs[|xs| - 1];
    assert forall x :: x in xs <==> x in xs[..|xs| - 1] || x == last;
    if last in seen then seen else seen + [last]
  }

  predicate NoRepeats<T(==)>(xs: seq<T>) {
    forall i, j :: 0 <= i < j < |xs| ==> xs[i] != xs[j]
  }

  /** Nothing is dropped exactly when nothing repeats. */
  lemma {:induction false} FirstSeenKeepsAll<T(!new)>(xs: seq<T>)
    ensures |FirstSeen(xs)| <= |xs|
    ensures FirstSeen(xs) == xs <==> NoRepeats(xs)
    ensures |FirstSeen(xs)| == |xs| ==> FirstSeen(xs) == xs
  {
    if xs != [] {
      var init, last := xs[..|xs| - 1], xs[|xs| - 1];
      FirstSeenKeepsAll(init);
      assert xs == init + [last];
      if NoRepeats(xs) {
        assert forall i, j :: 0 <= i < j < |init| ==> init[i] == xs[i] && init[j] == xs[j];
        assert last !in init;
      }
    }
  }

  lemma {:induction false} FirstSeenHead<T(!new)>(xs: seq<T>)
    requires xs != []
    ensures FirstSeen(xs) != [] && FirstSeen(xs)[0] == xs[0]
  {
    if |xs| > 1 {
      FirstSeenHead(xs[..|xs| - 1]);
    } else {
      assert xs[..0] == [];
    }
  }

  /** Values come in the order of their first occurrence: what a longer list adds comes behind. */
  lemma {:induction false} FirstSeenPrefix<T(!new)>(xs: seq<T>, n: nat)
    requires n <= |xs|
    ensures FirstSeen(xs[..n]) <= FirstSeen(xs)
  {
    if n < |xs| {
      var init := xs[..|xs| - 1];
      FirstSeenPrefix(init, n);
      assert init[..n] == xs[..n];
    } else {
      assert xs[..n] == xs;
    }
  }
}
