/** Laws of patch application at the level of line lists: the line count, the order in which hunks
    are applied, and undoing a patch by its reverse. */
module DiffAlgebra {
  import opened UnifiedDiff
  import opened DiffApply

  function Additions(hunks: seq<DiffHunk>): int {
    if hunks == [] then 0 else |NewSide(hunks[0].lines)| + Additions(hunks[1..])
  }

  function Deletions(hunks: seq<DiffHunk>): int {
    if hunks == [] then 0 else |OldSide(hunks[0].lines)| + Deletions(hunks[1..])
  }

  lemma {:induction false} WeaveCount(lines: seq<string>, cursor: int, hunks: seq<DiffHunk>)
    requires 0 <= cursor <= |lines| && FitsFrom(lines, cursor, hunks)
    ensures |Weave(lines, cursor, hunks)| == |lines| - cursor + Additions(hunks) - Deletions(hunks)
    decreases |hunks|
  {
    if hunks != [] {
      WeaveCount(lines, End(hunks[0]), hunks[1..]);
    }
  }

  /** The line count of the result is the original's plus the new sides minus the old sides. */
  lemma {:induction false} LineCountConserved(lines: seq<string>, hunks: seq<DiffHunk>)
    requires Applicable(lines, hunks)
    ensures |PatchedLines(lines, hunks)| == |lines| + Additions(hunks) - Deletions(hunks)
  {
    FitsFromIffApplicable(lines, 0, hunks);
    WeaveCount(lines, 0, hunks);
  }

  // ---------------------------------------------------------------- last hunk first

  /** Applying the hunks as separate one-hunk patches, last to first, with no position shift. */
  ghost function BackToFront(lines: seq<string>, hunks: seq<DiffHunk>): Result<seq<string>>
    decreases |hunks|
  {
    if hunks == [] then Success(lines) else
    var last := hunks[|hunks| - 1];
    if !Applicable(lines, [last]) then Failure(HunkContextMismatch) else
    BackToFront(PatchedLines(lines, [last]), hunks[..|hunks| - 1])
  }

  lemma {:induction false} PatchOne(lines: seq<string>, h: DiffHunk)
    ensures Applicable(lines, [h]) <==> InPlace(lines, h)
    ensures InPlace(lines, h) ==>
      PatchedLines(lines, [h]) == lines[..Start(h)] + NewSide(h.lines) + lines[End(h)..]
  {
    FitsFromIffApplicable(lines, 0, [h]);
    if InPlace(lines, h) {
      assert [h][1..] == [];
      assert Weave(lines, End(h), []) == lines[End(h)..];
    }
  }

  /** What follows the last hunk plays no part in whether a patch fits, and is passed through. */
  lemma {:induction false} WeavePrefix(front: seq<string>, back: seq<string>, cursor: int, hunks: seq<DiffHunk>)
    requires 0 <= cursor <= |front|
    requires forall i :: 0 <= i < |hunks| ==> End(hunks[i]) <= |front|
    ensures FitsFrom(front + back, cursor, hunks) <==> FitsFrom(front, cursor, hunks)
    ensures FitsFrom(front, cursor, hunks) ==>
      Weave(front + back, cursor, hunks) == Weave(front, cursor, hunks) + back
    decreases |hunks|
  {
    if hunks == [] {
      assert (front + back)[cursor..] == front[cursor..] + back;
    } else {
      var first := hunks[0];
      if 0 <= Start(first) {
        assert (front + back)[Start(first)..End(first)] == front[Start(first)..End(first)];
      }
      if cursor <= Start(first) && InPlace(front, first) {
        WeavePrefix(front, back, End(first), hunks[1..]);
        assert (front + back)[cursor..Start(first)] == front[cursor..Start(first)];
      }
    }
  }

  /** Splitting the last hunk off a patch. */
  lemma {:induction false} FitsSnoc(lines: seq<string>, cursor: int, hunks: seq<DiffHunk>, h: DiffHunk)
    requires 0 <= cursor <= |lines|
    ensures FitsFrom(lines, cursor, hunks + [h]) <==>
      && FitsFrom(lines, cursor, hunks)
      && InPlace(lines, h)
      && (if hunks == [] then cursor else End(hunks[|hunks| - 1])) <= Start(h)
    decreases |hunks|
  {
    var all := hunks + [h];
    if hunks == [] {
      assert all[1..] == [];
    } else {
      var first, rest := hunks[0], hunks[1..];
      assert all[0] == first && all[1..] == rest + [h];
      if cursor <= Start(first) && InPlace(lines, first) {
        FitsSnoc(lines, End(first), rest, h);
      }
    }
  }

  lemma {:induction false} WeaveSnoc(lines: seq<string>, cursor: int, hunks: seq<DiffHunk>, h: DiffHunk)
    requires 0 <= cursor <= |lines| && FitsFrom(lines, cursor, hunks + [h])
    requires InPlace(lines, h) && cursor <= Start(h) && FitsFrom(lines[..Start(h)], cursor, hunks)
    ensures Weave(lines, cursor, hunks + [h])
      == Weave(lines[..Start(h)], cursor, hunks) + NewSide(h.lines) + lines[End(h)..]
    decreases |hunks|
  {
    var all, front := hunks + [h], lines[..Start(h)];
    if hunks == [] {
      assert all[1..] == [];
      assert front[cursor..] == lines[cursor..Start(h)];
    } else {
      var first, rest := hunks[0], hunks[1..];
      assert all[0] == first && all[1..] == rest + [h];
      WeaveSnoc(lines, End(first), rest, h);
      assert front[cursor..Start(first)] == lines[cursor..Start(first)];
      Regroup4(lines[cursor..Start(first)] + NewSide(first.lines), Weave(front, End(first), rest), NewSide(h.lines),
               lines[End(h)..]);
    }
  }

  lemma {:induction false} Regroup4<T>(a: seq<T>, b: seq<T>, c: seq<T>, d: seq<T>)
    ensures a + (b + c + d) == (a + b) + c + d
  {
  }

  /** Applying the last hunk first neither moves nor disturbs the hunks before it. */
  lemma {:induction false} LastHunkFirst(lines: seq<string>, init: seq<DiffHunk>, last: DiffHunk)
    requires InPlace(lines, last)
    requires forall i :: 0 <= i < |init| ==> End(init[i]) <= Start(last)
    ensures
      var patched := lines[..Start(last)] + NewSide(last.lines) + lines[End(last)..];
      && (FitsFrom(lines, 0, init + [last]) <==> FitsFrom(patched, 0, init))
      && (FitsFrom(patched, 0, init) ==> Weave(lines, 0, init + [last]) == Weave(patched, 0, init))
  {
    var front, added, rest := lines[..Start(last)], NewSide(last.lines), lines[End(last)..];
    Regroup(front, added, rest);
    WeavePrefix(front, added + rest, 0, init);
    FrontDecides(lines, Start(last), init);
    FitsSnoc(lines, 0, init, last);
    if FitsFrom(front, 0, init) {
      WeaveSnoc(lines, 0, init, last);
      Regroup(Weave(front, 0, init), added, rest);
    }
  }

  lemma {:induction false} FrontDecides(lines: seq<string>, n: nat, hunks: seq<DiffHunk>)
    requires n <= |lines| && forall i :: 0 <= i < |hunks| ==> End(hunks[i]) <= n
    ensures FitsFrom(lines, 0, hunks) <==> FitsFrom(lines[..n], 0, hunks)
  {
    assert lines == lines[..n] + lines[n..];
    WeavePrefix(lines[..n], lines[n..], 0, hunks);
  }

  lemma {:induction false} OrderedInit(hunks: seq<DiffHunk>)
    requires hunks != []
    ensures var init, last := hunks[..|hunks| - 1], hunks[|hunks| - 1];
      Ordered(hunks) <==> Ordered(init) && forall i :: 0 <= i < |init| ==> End(init[i]) <= Start(last)
  {
    var init, last := hunks[..|hunks| - 1], hunks[|hunks| - 1];
    if Ordered(init) && forall i :: 0 <= i < |init| ==> End(init[i]) <= Start(last) {
      forall i, j | 0 <= i < j < |hunks| ensures End(hunks[i]) <= Start(hunks[j]) {
        if j < |init| { assert End(init[i]) <= Start(init[j]); } else { assert End(init[i]) <= Start(last); }
      }
    }
  }

  /** One pass over the file and one hunk at a time from the last to the first agree: the single
      pass succeeds exactly when the hunks are in order and the backward run succeeds, and then the
      line lists are equal. */
  lemma {:induction false} OnePassIsBackToFront(lines: seq<string>, hunks: seq<DiffHunk>)
    ensures Applicable(lines, hunks) <==> Ordered(hunks) && BackToFront(lines, hunks).Success?
    ensures Applicable(lines, hunks) ==> BackToFront(lines, hunks) == Success(PatchedLines(lines, hunks))
    decreases |hunks|
  {
    if hunks != [] {
      var init, last := hunks[..|hunks| - 1], hunks[|hunks| - 1];
      assert hunks == init + [last];
      OrderedInit(hunks);
      PatchOne(lines, last);
      if InPlace(lines, last) && Ordered(hunks) {
        var patched := PatchedLines(lines, [last]);
        LastHunkFirst(lines, init, last);
        FitsFromIffApplicable(lines, 0, hunks);
        FitsFromIffApplicable(patched, 0, init);
        OnePassIsBackToFront(patched, init);
      }
    }
  }

  // ---------------------------------------------------------------- reversal

  function FlipLine(l: DiffLine): DiffLine {
    if l.kind == '+' then l.(kind := '-') else if l.kind == '-' then l.(kind := '+') else l
  }

  function FlipLines(ls: seq<DiffLine>): (r: seq<DiffLine>) {
    seq(|ls|, i requires 0 <= i < |ls| => FlipLine(ls[i]))
  }

  /** The reversed patch: insertions and deletions swapped, the two header ranges swapped, and each
      start moved to where the hunk landed in the output. */
  function Reverse(hunks: seq<DiffHunk>, shift: int): (r: seq<DiffHunk>)
    ensures |r| == |hunks|
  {
    if hunks == [] then [] else
    var h := hunks[0];
    [DiffHunk(h.oldStart + shift, h.newCount, h.oldStart, h.oldCount, FlipLines(h.lines))]
    + Reverse(hunks[1..], shift + |NewSide(h.lines)| - |OldSide(h.lines)|)
  }

  lemma {:induction false} FlipSwapsSides(ls: seq<DiffLine>)
    ensures OldSide(FlipLines(ls)) == NewSide(ls)
    ensures NewSide(FlipLines(ls)) == OldSide(ls)
  {
    if ls != [] {
      FlipSwapsSides(ls[..|ls| - 1]);
      assert FlipLines(ls)[..|ls| - 1] == FlipLines(ls[..|ls| - 1]);
    }
  }

  lemma {:induction false} LandingSite<T>(done: seq<T>, kept: seq<T>, added: seq<T>, rest: seq<T>)
    ensures
      var out := done + (kept + added + rest);
      && out == (done + kept + added) + rest
      && out[|done|..|done| + |kept|] == kept
      && out[|done| + |kept|..|done| + |kept| + |added|] == added
  {
  }

  /** From `at` on, the reversed hunks turn `out` back into what `lines` holds from `cursor` on. */
  ghost predicate Undoes(out: seq<string>, at: int, lines: seq<string>, cursor: int, hunks: seq<DiffHunk>)
    requires 0 <= at <= |out| && 0 <= cursor <= |lines|
  {
    var back := Reverse(hunks, at - cursor);
    FitsFrom(out, at, back) && Weave(out, at, back) == lines[cursor..]
  }

  lemma {:induction false} ReverseFits(lines: seq<string>, cursor: int, hunks: seq<DiffHunk>, done: seq<string>)
    requires 0 <= cursor <= |lines| && FitsFrom(lines, cursor, hunks)
    ensures Undoes(done + Weave(lines, cursor, hunks), |done|, lines, cursor, hunks)
    decreases |hunks|
  {
    var out := done + Weave(lines, cursor, hunks);
    if hunks == [] {
      assert out[|done|..] == lines[cursor..];
    } else {
      var h := hunks[0];
      var kept, added := lines[cursor..Start(h)], NewSide(h.lines);
      WeaveUnfolds(lines, cursor, hunks);
      LandingSite(done, kept, added, Weave(lines, End(h), hunks[1..]));
      ReverseFits(lines, End(h), hunks[1..], done + kept + added);
      ReverseStep(lines, cursor, hunks, |done|, out);
    }
  }

  /** The first hunk of the reversed patch lands where the first hunk did. */
  lemma {:induction false} ReverseStep(lines: seq<string>, cursor: int, hunks: seq<DiffHunk>, at: nat, out: seq<string>)
    requires hunks != [] && 0 <= cursor <= Start(hunks[0]) && InPlace(lines, hunks[0])
    requires var h := hunks[0];
      var kept, added := Start(h) - cursor, |NewSide(h.lines)|;
      && at + kept + added <= |out|
      && out[at..at + kept] == lines[cursor..Start(h)]
      && out[at + kept..at + kept + added] == NewSide(h.lines)
      && Undoes(out, at + kept + added, lines, End(h), hunks[1..])
    ensures Undoes(out, at, lines, cursor, hunks)
  {
    var h, back := hunks[0], Reverse(hunks, at - cursor);
    var kept, added := Start(h) - cursor, |NewSide(h.lines)|;
    FlipSwapsSides(h.lines);
    Resumes(lines, cursor, Start(h), End(h));
    assert Start(back[0]) == at + kept && End(back[0]) == at + kept + added;
    assert back[1..] == Reverse(hunks[1..], at + kept + added - End(h));
    WeaveUnfolds(out, at, back);
  }

  lemma {:induction false} Resumes<T>(lines: seq<T>, cursor: nat, start: nat, end: nat)
    requires cursor <= start <= end <= |lines|
    ensures lines[cursor..start] + lines[start..end] + lines[end..] == lines[cursor..]
  {
  }

  /** Undoing a patch at the level of line lists: always possible. */
  lemma {:induction false} ReverseRestoresLines(lines: seq<string>, hunks: seq<DiffHunk>)
    requires Applicable(lines, hunks)
    ensures Applicable(PatchedLines(lines, hunks), Reverse(hunks, 0))
    ensures PatchedLines(PatchedLines(lines, hunks), Reverse(hunks, 0)) == lines
  {
    FitsFromIffApplicable(lines, 0, hunks);
    var out := PatchedLines(lines, hunks);
    ReverseFits(lines, 0, hunks, []);
    assert [] + out == out;
    FitsFromIffApplicable(out, 0, Reverse(hunks, 0));
  }
}
