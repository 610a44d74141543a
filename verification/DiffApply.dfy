/** Applying the hunks of one file patch to a text (runtime_lab/patch_apply/diff_apply.py). */
module DiffApply {
  import opened Lines
  import opened UnifiedDiff

  /** Where a hunk starts in the original line list: the code always uses `old_start - 1`. */
  function Start(h: DiffHunk): int { h.oldStart - 1 }

  function End(h: DiffHunk): int { Start(h) + |OldSide(h.lines)| }

  /** The hunk's old side occurs in `lines` exactly at its start. */
  predicate InPlace(lines: seq<string>, h: DiffHunk) {
    0 <= Start(h) && End(h) <= |lines| && lines[Start(h)..End(h)] == OldSide(h.lines)
  }

  /** The hunks stand in file order and do not overlap. */
  ghost predicate Ordered(hunks: seq<DiffHunk>) {
    forall i, j :: 0 <= i < j < |hunks| ==> End(hunks[i]) <= Start(hunks[j])
  }

  /** When a patch fits a file: every old side is in place, in order, without overlap. */
  ghost predicate Applicable(lines: seq<string>, hunks: seq<DiffHunk>) {
    Ordered(hunks) && forall i :: 0 <= i < |hunks| ==> InPlace(lines, hunks[i])
  }

  /** The same, read from the front with the applier's cursor. */
  ghost predicate FitsFrom(lines: seq<string>, cursor: int, hunks: seq<DiffHunk>)
    decreases |hunks|
  {
    hunks != [] ==>
      cursor <= Start(hunks[0]) && InPlace(lines, hunks[0]) && FitsFrom(lines, End(hunks[0]), hunks[1..])
  }

  lemma {:induction false} FitsFromIffApplicable(lines: seq<string>, cursor: int, hunks: seq<DiffHunk>)
    ensures FitsFrom(lines, cursor, hunks)
      <==> Applicable(lines, hunks) && (hunks != [] ==> cursor <= Start(hunks[0]))
    decreases |hunks|
  {
    if hunks != [] {
      var first, rest := hunks[0], hunks[1..];
      FitsFromIffApplicable(lines, End(first), rest);
      if Applicable(lines, hunks) {
        assert Applicable(lines, rest) && (rest != [] ==> End(first) <= Start(rest[0])) by {
          forall i | 0 <= i < |rest| ensures rest[i] == hunks[i + 1] && InPlace(lines, rest[i]) {}
          forall i, j | 0 <= i < j < |rest| ensures End(rest[i]) <= Start(rest[j]) {
            assert End(hunks[i + 1]) <= Start(hunks[j + 1]);
          }
        }
      }
      if InPlace(lines, first) && FitsFrom(lines, End(first), rest) {
        forall i | 0 <= i < |hunks| ensures InPlace(lines, hunks[i]) {
          if i > 0 { assert InPlace(lines, rest[i - 1]); }
        }
        forall i, j | 0 <= i < j < |hunks| ensures End(hunks[i]) <= Start(hunks[j]) {
          if i > 0 {
            assert End(rest[i - 1]) <= Start(rest[j - 1]);
          } else if j > 1 {
            assert End(rest[0]) <= Start(rest[j - 1]);
          }
        }
      }
    }
  }

  /** The untouched segments of `lines` from `cursor` on, interleaved with the new sides. */
  ghost function Weave(lines: seq<string>, cursor: int, hunks: seq<DiffHunk>): seq<string>
    requires 0 <= cursor <= |lines| && FitsFrom(lines, cursor, hunks)
    decreases |hunks|
  {
    if hunks == [] then lines[cursor..] else
    lines[cursor..Start(hunks[0])] + NewSide(hunks[0].lines) + Weave(lines, End(hunks[0]), hunks[1..])
  }

  ghost function PatchedLines(lines: seq<string>, hunks: seq<DiffHunk>): seq<string>
    requires Applicable(lines, hunks)
  {
    FitsFromIffApplicable(lines, 0, hunks);
    Weave(lines, 0, hunks)
  }

  /** What `apply_file_patch_to_text` computes, as a value. */
  ghost function PatchedText(text: string, patch: FilePatch): Result<string> {
    if Applicable(KeepLines(text), patch.hunks)
    then Success(Concat(PatchedLines(KeepLines(text), patch.hunks)))
    else Failure(HunkContextMismatch)
  }

  lemma {:induction false} PatchedTextInOnePass(text: string, patch: FilePatch)
    ensures PatchedText(text, patch) ==
      if FitsFrom(KeepLines(text), 0, patch.hunks)
      then Success(Concat(Weave(KeepLines(text), 0, patch.hunks)))
      else Failure(HunkContextMismatch)
  {
    FitsFromIffApplicable(KeepLines(text), 0, patch.hunks);
  }

  /** A line of the hunk that does not match refutes the whole hunk. */
  lemma {:induction false} MismatchRefutes(lines: seq<string>, h: DiffHunk, j: nat)
    requires 0 <= Start(h) <= |lines| && j < |h.lines|
    requires h.lines[j].kind == ' ' || h.lines[j].kind == '-'
    requires var p := Start(h) + |OldSide(h.lines[..j])|;
      p >= |lines| || lines[p] != h.lines[j].text + "\n"
    ensures !InPlace(lines, h)
  {
    var before := h.lines[..j];
    var upto := h.lines[..j + 1];
    assert upto[..j] == before;
    assert h.lines == upto + h.lines[j + 1..];
    SidesAppend(upto, h.lines[j + 1..]);
    assert OldSide(h.lines)[|OldSide(before)|] == h.lines[j].text + "\n";
  }

  lemma {:induction false} WeaveUnfolds(lines: seq<string>, cursor: int, hunks: seq<DiffHunk>)
    requires hunks != [] && 0 <= cursor <= Start(hunks[0])
    ensures FitsFrom(lines, cursor, hunks) <==>
      InPlace(lines, hunks[0]) && FitsFrom(lines, End(hunks[0]), hunks[1..])
    ensures InPlace(lines, hunks[0]) && FitsFrom(lines, End(hunks[0]), hunks[1..]) ==>
      Weave(lines, cursor, hunks)
      == lines[cursor..Start(hunks[0])] + NewSide(hunks[0].lines) + Weave(lines, End(hunks[0]), hunks[1..])
  {
  }

  /** One round of the outer loop: the untouched segment from `cursor` on, then the hunk. */
  method ApplyHunk(originalLines: seq<string>, cursor: nat, hunk: DiffHunk)
    returns (matched: bool, output: seq<string>, position: int)
    requires cursor <= |originalLines|
    ensures matched <==> cursor <= Start(hunk) && InPlace(originalLines, hunk)
    ensures matched ==> output == originalLines[cursor..Start(hunk)] + NewSide(hunk.lines) && position == End(hunk)
  {
    var oldIndex := hunk.oldStart - 1;
    if oldIndex < cursor || oldIndex > |originalLines| {
      return false, [], cursor;
    }
    matched, output, position := ApplyHunkLines(originalLines, hunk);
    output := originalLines[cursor..oldIndex] + output;
  }

  /** One pass over the hunks, `cursor` marking what of the original is accounted for. */
  method ApplyHunks(originalLines: seq<string>, hunks: seq<DiffHunk>) returns (matched: bool, output: seq<string>)
    ensures matched == FitsFrom(originalLines, 0, hunks)
    ensures matched ==> output == Weave(originalLines, 0, hunks)
  {
    output := [];
    var cursor := 0;
    var k := 0;
    assert hunks[0..] == hunks;
    while k < |hunks|
      invariant 0 <= k <= |hunks| && 0 <= cursor <= |originalLines|
      invariant FitsFrom(originalLines, 0, hunks) == FitsFrom(originalLines, cursor, hunks[k..])
      invariant FitsFrom(originalLines, 0, hunks) ==>
        output + Weave(originalLines, cursor, hunks[k..]) == Weave(originalLines, 0, hunks)
    {
      var hunk := hunks[k];
      assert hunks[k..][0] == hunk && hunks[k..][1..] == hunks[k + 1..];
      var fitting, segment, position := ApplyHunk(originalLines, cursor, hunk);
      if !fitting {
        return false, output;
      }
      WeaveUnfolds(originalLines, cursor, hunks[k..]);
      if FitsFrom(originalLines, position, hunks[k + 1..]) {
        Regroup(output, segment, Weave(originalLines, position, hunks[k + 1..]));
      }
      output := output + segment;
      cursor := position;
      k := k + 1;
    }
    output := output + originalLines[cursor..];
    matched := true;
  }

  /** `apply_file_patch_to_text` */
  method ApplyFilePatchToText(originalText: string, filePatch: FilePatch) returns (r: Result<string>)
    ensures r == PatchedText(originalText, filePatch)
  {
    PatchedTextInOnePass(originalText, filePatch);
    var matched, output := ApplyHunks(KeepLines(originalText), filePatch.hunks);
    r := if matched then Success(Concat(output)) else Failure(HunkContextMismatch);
  }

  /** The inner loop: match the old side from `old_start - 1` on while collecting the new side. */
  method ApplyHunkLines(originalLines: seq<string>, hunk: DiffHunk)
    returns (matched: bool, output: seq<string>, position: int)
    requires 0 <= Start(hunk) <= |originalLines|
    ensures matched == InPlace(originalLines, hunk)
    ensures matched ==> output == NewSide(hunk.lines) && position == End(hunk)
  {
    output := [];
    var oldIndex := hunk.oldStart - 1;
    position := oldIndex;
    for j := 0 to |hunk.lines|
      invariant position == oldIndex + |OldSide(hunk.lines[..j])| <= |originalLines|
      invariant originalLines[oldIndex..position] == OldSide(hunk.lines[..j])
      invariant output == NewSide(hunk.lines[..j])
    {
      var diffLine := hunk.lines[j];
      assert hunk.lines[..j + 1][..j] == hunk.lines[..j];
      var expected := diffLine.text + "\n";
      if diffLine.kind == ' ' {
        if position >= |originalLines| || originalLines[position] != expected {
          MismatchRefutes(originalLines, hunk, j);
          return false, output, position;
        }
        output := output + [originalLines[position]];
        position := position + 1;
      } else if diffLine.kind == '-' {
        if position >= |originalLines| || originalLines[position] != expected {
          MismatchRefutes(originalLines, hunk, j);
          return false, output, position;
        }
        position := position + 1;
      } else if diffLine.kind == '+' {
        output := output + [expected];
      }
    }
    assert hunk.lines[..|hunk.lines|] == hunk.lines;
    matched := true;
  }
}
