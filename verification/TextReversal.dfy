/** Undoing a patch at the level of file text, where joined lines are split again. */
module TextReversal {
  import opened Lines
  import opened UnifiedDiff
  import opened DiffApply
  import opened DiffAlgebra

  predicate WellFormedHunks(hunks: seq<DiffHunk>) {
    forall i :: 0 <= i < |hunks| ==> WellFormedHunk(hunks[i])
  }

  /** The text is empty or its last line has a terminator. */
  predicate LastLineClosed(lines: seq<string>) {
    lines == [] || Terminated(lines[|lines| - 1])
  }

  /** Applying the reversed patch to a text. */
  ghost function UndonePatch(text: string, patch: FilePatch): Result<string> {
    PatchedText(text, patch.(hunks := Reverse(patch.hunks, 0)))
  }

  lemma {:induction false} SidesTerminated(ls: seq<DiffLine>)
    requires forall i :: 0 <= i < |ls| ==> BreakFree(ls[i].text)
    ensures AllTerminated(OldSide(ls)) && AllTerminated(NewSide(ls))
  {
    if ls != [] {
      SidesTerminated(ls[..|ls| - 1]);
      var line := ls[|ls| - 1].text + "\n";
      assert line[..|line| - 1] == ls[|ls| - 1].text;
      assert Terminated(line);
    }
  }

  lemma {:induction false} NonEmptySides(ls: seq<DiffLine>)
    requires ls != [] && forall i :: 0 <= i < |ls| ==> ls[i].kind in {' ', '-', '+'}
    ensures OldSide(ls) == [] ==> NewSide(ls) != []
  {
  }

  lemma {:induction false} WeaveTerminated(lines: seq<string>, cursor: int, hunks: seq<DiffHunk>)
    requires 0 <= cursor <= |lines| && FitsFrom(lines, cursor, hunks)
    requires WellFormedHunks(hunks) && AllTerminated(lines[cursor..])
    ensures AllTerminated(Weave(lines, cursor, hunks))
    decreases |hunks|
  {
    if hunks != [] {
      var h := hunks[0];
      SidesTerminated(h.lines);
      assert lines[cursor..][..Start(h) - cursor] == lines[cursor..Start(h)];
      assert lines[cursor..][End(h) - cursor..] == lines[End(h)..];
      WeaveTerminated(lines, End(h), hunks[1..]);
    }
  }

  /** An unterminated last line is out of reach of every old side. */
  lemma {:induction false} OldSideStopsShort(lines: seq<string>, h: DiffHunk)
    requires lines != [] && Unterminated(lines[|lines| - 1])
    requires InPlace(lines, h) && WellFormedHunk(h) && Start(h) < |lines|
    ensures End(h) < |lines|
  {
    SidesTerminated(h.lines);
    if Start(h) < End(h) {
      assert lines[Start(h)..End(h)][|OldSide(h.lines)| - 1] == lines[End(h) - 1];
    }
  }

  /** A patch that adds nothing behind the last line leaves a text that splits into the same lines. */
  lemma {:induction false} ResultIsLineShaped(lines: seq<string>, hunks: seq<DiffHunk>)
    requires LineShaped(lines) && Applicable(lines, hunks) && WellFormedHunks(hunks)
    requires LastLineClosed(lines) || forall i :: 0 <= i < |hunks| ==> Start(hunks[i]) < |lines|
    ensures LineShaped(PatchedLines(lines, hunks))
  {
    FitsFromIffApplicable(lines, 0, hunks);
    if LastLineClosed(lines) {
      assert lines[0..] == lines;
      WeaveTerminated(lines, 0, hunks);
    } else {
      var front, last := lines[..|lines| - 1], lines[|lines| - 1];
      assert lines == front + [last];
      forall i | 0 <= i < |hunks| ensures End(hunks[i]) <= |front| {
        OldSideStopsShort(lines, hunks[i]);
      }
      WeavePrefix(front, [last], 0, hunks);
      assert front[0..] == front;
      WeaveTerminated(front, 0, hunks);
      var out := Weave(front, 0, hunks);
      assert (out + [last])[..|out|] == out;
    }
  }

  lemma {:induction false} Buried<T>(before: seq<T>, last: T, added: seq<T>, rest: seq<T>)
    ensures (before + [last]) + added + rest == before + [last] + (added + rest)
  {
  }

  lemma {:induction false} Reburied<T>(kept: seq<T>, added: seq<T>, inner: seq<T>, last: T, after: seq<T>)
    ensures kept + added + (inner + [last] + after) == (kept + added + inner) + [last] + after
  {
  }

  /** When a hunk does add behind an unterminated last line, that line is followed by others. */
  lemma {:induction false} BuriedLine(lines: seq<string>, cursor: int, hunks: seq<DiffHunk>)
      returns (before: seq<string>, after: seq<string>)
    requires LineShaped(lines) && !LastLineClosed(lines) && 0 <= cursor < |lines|
    requires FitsFrom(lines, cursor, hunks) && WellFormedHunks(hunks)
    requires hunks != [] && End(hunks[|hunks| - 1]) == |lines|
    ensures Weave(lines, cursor, hunks) == before + [lines[|lines| - 1]] + after
    ensures AllTerminated(before) && AllTerminated(after) && after != []
    decreases |hunks|
  {
    var h, rest := hunks[0], hunks[1..];
    var last := lines[|lines| - 1];
    SidesTerminated(h.lines);
    if Start(h) == |lines| {
      before, after := BuriedHere(lines, cursor, hunks);
    } else {
      OldSideStopsShort(lines, h);
      var inner;
      inner, after := BuriedLine(lines, End(h), rest);
      before := lines[cursor..Start(h)] + NewSide(h.lines) + inner;
      assert lines[cursor..Start(h)] == lines[..|lines| - 1][cursor..Start(h)];
      Reburied(lines[cursor..Start(h)], NewSide(h.lines), inner, last, after);
    }
  }

  lemma {:induction false} BuriedHere(lines: seq<string>, cursor: int, hunks: seq<DiffHunk>)
      returns (before: seq<string>, after: seq<string>)
    requires LineShaped(lines) && !LastLineClosed(lines) && 0 <= cursor < |lines|
    requires FitsFrom(lines, cursor, hunks) && WellFormedHunks(hunks)
    requires hunks != [] && Start(hunks[0]) == |lines|
    ensures Weave(lines, cursor, hunks) == before + [lines[|lines| - 1]] + after
    ensures AllTerminated(before) && AllTerminated(after) && after != []
  {
    var h, rest := hunks[0], hunks[1..];
    SidesTerminated(h.lines);
    NonEmptySides(h.lines);
    WeaveTerminated(lines, |lines|, rest);
    before := lines[cursor..|lines| - 1];
    after := NewSide(h.lines) + Weave(lines, End(h), rest);
    assert before == lines[..|lines| - 1][cursor..];
    assert lines[cursor..Start(h)] == before + [lines[|lines| - 1]];
    Buried(before, lines[|lines| - 1], NewSide(h.lines), Weave(lines, End(h), rest));
  }

  /** Joining glues the buried line to its successor, so one line is lost. */
  lemma {:induction false} GluedLines(before: seq<string>, last: string, after: seq<string>)
    requires AllTerminated(before) && AllTerminated(after) && after != [] && Unterminated(last)
    ensures |KeepLines(Concat(before + [last] + after))| == |before| + |after|
  {
    var glued := last + after[0];
    assert glued[..|glued| - 1] == last + after[0][..|after[0]| - 1];
    assert Terminated(glued);
    var merged := before + [glued] + after[1..];
    assert AllTerminated(merged);
    KeepLinesOfConcat(merged, "");
    assert Concat(merged) + "" == Concat(merged);
    ConcatAppend(before, [last] + after);
    ConcatAppend(before, [glued] + after[1..]);
    assert before + [last] + after == before + ([last] + after);
    assert merged == before + ([glued] + after[1..]);
    assert ([last] + after)[1..] == after && ([glued] + after[1..])[1..] == after[1..];
    assert Concat([last] + after) == last + (after[0] + Concat(after[1..]));
    assert last + (after[0] + Concat(after[1..])) == glued + Concat(after[1..]);
  }

  /** The reversed patch reaches exactly as far into the output as the patch into the original. */
  lemma {:induction false} ReverseReach(lines: seq<string>, cursor: int, hunks: seq<DiffHunk>, done: nat)
    requires 0 <= cursor <= |lines| && FitsFrom(lines, cursor, hunks)
    requires hunks != [] && End(hunks[|hunks| - 1]) == |lines|
    ensures End(Reverse(hunks, done - cursor)[|hunks| - 1]) == done + |Weave(lines, cursor, hunks)|
    decreases |hunks|
  {
    var h, rest := hunks[0], hunks[1..];
    var back := Reverse(hunks, done - cursor);
    var done' := done + (Start(h) - cursor) + |NewSide(h.lines)|;
    FlipSwapsSides(h.lines);
    assert back[1..] == Reverse(rest, done' - End(h));
    WeaveUnfolds(lines, cursor, hunks);
    if rest != [] {
      ReverseReach(lines, End(h), rest, done');
      assert back[|hunks| - 1] == back[1..][|rest| - 1];
    }
  }

  lemma {:induction false} LastHunkAtEnd(lines: seq<string>, hunks: seq<DiffHunk>)
    requires Applicable(lines, hunks)
    requires exists i :: 0 <= i < |hunks| && Start(hunks[i]) >= |lines|
    ensures End(hunks[|hunks| - 1]) == |lines|
  {
    var n := |hunks| - 1;
    var i :| 0 <= i < |hunks| && Start(hunks[i]) >= |lines|;
    assert InPlace(lines, hunks[n]) && InPlace(lines, hunks[i]);
    if i < n { assert End(hunks[i]) <= Start(hunks[n]); }
  }

  lemma {:induction false} LostLine(lines: seq<string>, hunks: seq<DiffHunk>)
    requires LineShaped(lines) && !LastLineClosed(lines) && WellFormedHunks(hunks)
    requires FitsFrom(lines, 0, hunks) && hunks != [] && End(hunks[|hunks| - 1]) == |lines|
    ensures |KeepLines(Concat(Weave(lines, 0, hunks)))| < |Weave(lines, 0, hunks)|
  {
    var before, after := BuriedLine(lines, 0, hunks);
    GluedLines(before, lines[|lines| - 1], after);
  }

  lemma {:induction false} LostLineBlocksReverse(lines: seq<string>, hunks: seq<DiffHunk>)
    requires LineShaped(lines) && !LastLineClosed(lines) && WellFormedHunks(hunks)
    requires FitsFrom(lines, 0, hunks) && hunks != [] && End(hunks[|hunks| - 1]) == |lines|
    ensures !Applicable(KeepLines(Concat(Weave(lines, 0, hunks))), Reverse(hunks, 0))
  {
    ReverseReach(lines, 0, hunks, 0);
    LostLine(lines, hunks);
    OutOfReach(KeepLines(Concat(Weave(lines, 0, hunks))), Reverse(hunks, 0));
  }

  lemma {:induction false} OutOfReach(lines: seq<string>, hunks: seq<DiffHunk>)
    requires hunks != [] && End(hunks[|hunks| - 1]) > |lines|
    ensures !Applicable(lines, hunks)
  {
    assert !InPlace(lines, hunks[|hunks| - 1]);
  }

  /** Patch reversal on text. For every text that text-mode reading can yield and every patch the
      parser can yield that applies to it, the reversed patch restores the text exactly when the
      text's last line is closed or no hunk starts behind the last line. */
  lemma {:induction false} ReverseRestoresText(text: string, patch: FilePatch)
    requires NoCarriageReturn(text) && WellFormedHunks(patch.hunks)
    requires PatchedText(text, patch).Success?
    ensures
      UndonePatch(PatchedText(text, patch).value, patch) == Success(text)
      <==>
      var lines := KeepLines(text);
      LastLineClosed(lines) || forall i :: 0 <= i < |patch.hunks| ==> Start(patch.hunks[i]) < |lines|
  {
    var lines, hunks := KeepLines(text), patch.hunks;
    KeepLinesShape(text);
    if LastLineClosed(lines) || forall i :: 0 <= i < |hunks| ==> Start(hunks[i]) < |lines| {
      ResultIsLineShaped(lines, hunks);
      KeepLinesOfLineShaped(PatchedLines(lines, hunks));
      ReverseRestoresLines(lines, hunks);
      ConcatOfKeepLines(text);
    } else {
      LastHunkAtEnd(lines, hunks);
      FitsFromIffApplicable(lines, 0, hunks);
      LostLineBlocksReverse(lines, hunks);
    }
  }

  /** The failing family is not empty: adding a line behind "a", which has no terminator. */
  lemma {:induction false} ReverseFailsOnOpenLastLine(patch: FilePatch)
    requires patch.hunks == [DiffHunk(2, 0, 2, 1, [DiffLine('+', "b")])]
    ensures PatchedText("a", patch) == Success("ab\n")
    ensures UndonePatch("ab\n", patch) != Success("a")
  {
    AddsBehindOpenLine(patch.hunks[0]);
    assert KeepLines("a") == ["a"] by {
      assert FirstLineLength("a") == 1 && "a"[..1] == "a" && KeepLines("a"[1..]) == [];
    }
    ReverseRestoresText("a", patch);
  }

  lemma {:induction false} AddsBehindOpenLine(hunk: DiffHunk)
    requires hunk == DiffHunk(2, 0, 2, 1, [DiffLine('+', "b")])
    ensures Applicable(["a"], [hunk]) && Concat(PatchedLines(["a"], [hunk])) == "ab\n"
  {
    assert hunk.lines[..0] == [] && OldSide(hunk.lines) == [] && NewSide(hunk.lines) == ["b" + "\n"];
    PatchOne(["a"], hunk);
    assert "b" + "\n" == "b\n";
    assert ["a"][..1] + NewSide(hunk.lines) + ["a"][1..] == ["a", "b\n"];
    assert ["a", "b\n"][1..] == ["b\n"] && ["b\n"][1..] == [];
  }
}
