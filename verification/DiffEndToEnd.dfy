/** From diff text to patched text: parsing, selecting the file and applying, taken together. */
module DiffEndToEnd {
  import opened Lines
  import opened UnifiedDiff
  import opened DiffApply
  import opened DiffAlgebra
  import opened DiffParser
  import opened DiffPrinting
  import opened TextReversal

  function PatchesFor(patches: seq<FilePatch>, target: string): seq<FilePatch> {
    if patches == [] then [] else
    var last := patches[|patches| - 1];
    PatchesFor(patches[..|patches| - 1], target) + (if last.targetPath == target then [last] else [])
  }

  /** What `apply_unified_diff_to_text` computes, as a value. */
  ghost function AppliedDiff(text: string, target: string, diffText: string): Result<string> {
    var patches :- ParsedDiff(diffText);
    if |PatchesFor(patches, target)| != 1 then Failure(TargetPathMismatch) else
    PatchedText(text, PatchesFor(patches, target)[0])
  }

  method ApplyUnifiedDiffToText(originalText: string, targetPath: string, diffText: string) returns (r: Result<string>)
    ensures r == AppliedDiff(originalText, targetPath, diffText)
  {
    var parsed := ParseUnifiedDiff(diffText);
    if parsed.Failure? {
      return Failure(parsed.error);
    }
    var patches := parsed.value;
    var matches: seq<FilePatch> := [];
    for i := 0 to |patches|
      invariant matches == PatchesFor(patches[..i], targetPath)
    {
      assert patches[..i + 1][..i] == patches[..i];
      if patches[i].targetPath == targetPath {
        matches := matches + [patches[i]];
      }
    }
    assert patches[..|patches|] == patches;
    if |matches| != 1 {
      return Failure(TargetPathMismatch);
    }
    r := ApplyFilePatchToText(originalText, matches[0]);
  }

  /** Whatever the parser returns is what reversal asks for. */
  lemma {:induction false} ParsedHunksAreWellFormed(diffText: string, i: nat)
    requires ParsedDiff(diffText).Success? && i < |ParsedDiff(diffText).value|
    ensures WellFormedHunks(ParsedDiff(diffText).value[i].hunks)
  {
    ParsedDiffIsClean(diffText);
    var hunks := ParsedDiff(diffText).value[i].hunks;
    assert CleanPatch(ParsedDiff(diffText).value[i]);
    forall k | 0 <= k < |hunks| ensures WellFormedHunk(hunks[k]) {
      assert CleanHunk(hunks[k]);
    }
  }

  lemma {:induction false} OnePatchFor(p: FilePatch)
    ensures PatchesFor([p], p.targetPath) == [p]
  {
    assert [p][..0] == [] && PatchesFor([], p.targetPath) == [];
  }

  /** A diff on text is undone by the diff that prints the reversed patch: when both patches are
      printable, applying one and then the other gives the text back, exactly when the last line of
      the text is closed or no hunk starts behind it. */
  lemma {:induction false} DiffUndoesDiff(text: string, p: FilePatch)
    requires NoCarriageReturn(text)
    requires Printable([p]) && Printable([p.(hunks := Reverse(p.hunks, 0))])
    requires AppliedDiff(text, p.targetPath, PrintDiff([p])).Success?
    ensures
      AppliedDiff(AppliedDiff(text, p.targetPath, PrintDiff([p])).value, p.targetPath,
                  PrintDiff([p.(hunks := Reverse(p.hunks, 0))])) == Success(text)
      <==>
      var lines := KeepLines(text);
      LastLineClosed(lines) || forall i :: 0 <= i < |p.hunks| ==> Start(p.hunks[i]) < |lines|
  {
    var back := p.(hunks := Reverse(p.hunks, 0));
    ParseUndoesPrint([p]);
    ParseUndoesPrint([back]);
    OnePatchFor(p);
    OnePatchFor(back);
    ParsedHunksAreWellFormed(PrintDiff([p]), 0);
    ReverseRestoresText(text, p);
  }
}
