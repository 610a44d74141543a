/** Printing a diff that was parsed, and parsing it again: when the second parse gives the first one's
    patches. */
module DiffReprinting {
  import opened Lines
  import opened Substrings
  import opened Numerals
  import opened UnifiedDiff
  import opened DiffParser
  import opened DiffPrinting

  // ---------------------------------------------------------------- lines that no phrase refuses

  predicate NoP(line: string) { 'p' !in line && 'P' !in line }

  /** Both refused phrases need the letter p. */
  lemma {:induction false} NoPhraseWithoutP(line: string)
    requires NoP(line)
    ensures !RefusedPhrase(line)
  {
    var lowered := Lower(line);
    assert 'p' !in lowered by {
      forall i | 0 <= i < |lowered| ensures lowered[i] != 'p' {
        assert lowered[i] == LowerChar(line[i]) && line[i] in line;
      }
    }
    assert "git apply"[5] == 'p' && " patch "[1] == 'p';
    LacksALetter(lowered, "git apply", 5);
    LacksALetter(" " + lowered + " ", " patch ", 1);
  }

  lemma {:induction false} HunkHeaderHasNoP(h: DiffHunk)
    ensures NoP(HunkHeader(h))
  {
    assert forall c: char :: IsDigit(c) ==> c != 'p' && c != 'P';
    assert NoP("@@ -") && NoP(",") && NoP(" +") && NoP(" @@") && NoP("-");
    assert NoP(Decimal(h.oldStart)) && NoP(Decimal(h.oldCount)) && NoP(Decimal(h.newStart)) && NoP(Decimal(h.newCount));
  }

  // ---------------------------------------------------------------- body lines come from the text

  /** The diff line is one of these lines, and none that starts a file. */
  predicate Taken(l: DiffLine, lines: seq<string>) {
    [l.kind] + l.text in lines && !LooksLikeFile(l)
  }

  predicate BodyTaken(body: seq<DiffLine>, lines: seq<string>) {
    forall i :: 0 <= i < |body| ==> Taken(body[i], lines)
  }

  predicate HunksTaken(hunks: seq<DiffHunk>, lines: seq<string>) {
    forall i :: 0 <= i < |hunks| ==> BodyTaken(hunks[i].lines, lines)
  }

  predicate PatchesTaken(patches: seq<FilePatch>, lines: seq<string>) {
    forall i :: 0 <= i < |patches| ==> HunksTaken(patches[i].hunks, lines)
  }

  predicate Within(some: seq<string>, lines: seq<string>) {
    forall line :: line in some ==> line in lines
  }

  lemma {:induction false} HunkBodyTaken(lines: seq<string>, all: seq<string>)
    requires Within(lines, all) && HunkBody(lines).Success?
    ensures BodyTaken(HunkBody(lines).value.0, all) && Within(HunkBody(lines).value.1, all)
  {
    if lines == [] || StartsHunk(lines[0]) || StartsFile(lines[0]) {
    } else {
      assert lines[0] in lines;
      HunkBodyTaken(lines[1..], all);
      if !("\\" <= lines[0]) {
        var l := DiffLine(lines[0][0], lines[0][1..]);
        assert [l.kind] + l.text == lines[0];
        LookalikePrefix(l);
      }
    }
  }

  lemma {:induction false} HunkListTaken(lines: seq<string>, all: seq<string>)
    requires Within(lines, all) && HunkList(lines).Success?
    ensures HunksTaken(HunkList(lines).value.0, all) && Within(HunkList(lines).value.1, all)
    decreases |lines|
  {
    if lines == [] || StartsFile(lines[0]) {
    } else if GitNoise(lines[0]) {
      HunkListTaken(lines[1..], all);
    } else {
      HunkBodyTaken(lines[1..], all);
      HunkListTaken(HunkBody(lines[1..]).value.1, all);
    }
  }

  lemma {:induction false} FileListTaken(lines: seq<string>, all: seq<string>)
    requires Within(lines, all) && FileList(lines).Success?
    ensures PatchesTaken(FileList(lines).value, all)
    decreases |lines|
  {
    if lines == [] {
    } else if !StartsFile(lines[0]) {
      FileListTaken(lines[1..], all);
    } else {
      HunkListTaken(lines[2..], all);
      FileListTaken(HunkList(lines[2..]).value.1, all);
    }
  }

  lemma {:induction false} CleanScanRefusesNothing(lines: seq<string>)
    requires ScanLines(lines) == Clean
    ensures forall line :: line in lines ==> !RefusedPhrase(line)
  {
    if lines != [] {
      CleanScanRefusesNothing(lines[1..]);
      assert lines == [lines[0]] + lines[1..];
    }
  }

  // ---------------------------------------------------------------- printed again

  predicate NoneRefused(lines: seq<string>) {
    forall line :: line in lines ==> !RefusedPhrase(line)
  }

  /** Neither line of the file's header holds a refused phrase. */
  predicate HeaderAllowed(path: string) {
    !RefusedPhrase(OldLine(path)) && !RefusedPhrase(NewLine(path))
  }

  lemma {:induction false} PrintedHunksAllowed(hunks: seq<DiffHunk>, lines: seq<string>)
    requires HunksTaken(hunks, lines) && NoneRefused(lines)
    ensures NoneRefused(PrintHunks(hunks))
  {
    if hunks != [] {
      var h := hunks[0];
      HunkHeaderHasNoP(h);
      NoPhraseWithoutP(HunkHeader(h));
      forall i | 0 <= i < |h.lines| ensures !RefusedPhrase(PrintBody(h.lines)[i]) {
        assert Taken(h.lines[i], lines);
      }
      PrintedHunksAllowed(hunks[1..], lines);
    }
  }

  lemma {:induction false} NoneRefusedAppend(a: seq<string>, b: seq<string>)
    ensures NoneRefused(a + b) <==> NoneRefused(a) && NoneRefused(b)
  {
    assert forall line :: line in a + b <==> line in a || line in b;
  }

  lemma {:induction false} PrintedAllowedIff(patches: seq<FilePatch>, lines: seq<string>)
    requires PatchesTaken(patches, lines) && NoneRefused(lines)
    ensures NoneRefused(PrintPatches(patches)) <==> forall i :: 0 <= i < |patches| ==>
      HeaderAllowed(patches[i].targetPath)
  {
    if patches != [] {
      var path, hunks, tail := patches[0].targetPath, patches[0].hunks, patches[1..];
      PrintedHunksAllowed(hunks, lines);
      PrintedAllowedIff(tail, lines);
      NoneRefusedAppend([OldLine(path)], [NewLine(path)] + (PrintHunks(hunks) + PrintPatches(tail)));
      NoneRefusedAppend([NewLine(path)], PrintHunks(hunks) + PrintPatches(tail));
      NoneRefusedAppend(PrintHunks(hunks), PrintPatches(tail));
      assert NoneRefused([OldLine(path)]) && NoneRefused([NewLine(path)]) <==> HeaderAllowed(path) by {
        assert OldLine(path) in [OldLine(path)] && NewLine(path) in [NewLine(path)];
      }
      assert forall i :: 0 <= i < |tail| ==> tail[i] == patches[i + 1];
    }
  }

  /** A parsed diff survives being printed and parsed again exactly when every path is stable under
      stripping and no header line, as printed, holds a refused phrase. */
  lemma {:induction false} ReparsedIffHeadersSurvive(diffText: string)
    requires ParsedDiff(diffText).Success?
    ensures var patches := ParsedDiff(diffText).value;
      ParsedDiff(PrintDiff(patches)) == Success(patches) <==>
        forall i :: 0 <= i < |patches| ==> StablePath(patches[i].targetPath) && HeaderAllowed(patches[i].targetPath)
  {
    var lines, patches := SplitLines(diffText), ParsedDiff(diffText).value;
    ParsedDiffIsClean(diffText);
    FileListTaken(lines, lines);
    CleanScanRefusesNothing(lines);
    PrintedAllowedIff(patches, lines);
    ParseUndoesPrint(patches);
    forall i | 0 <= i < |patches| ensures PrintablePatch(patches[i]) <==> StablePath(patches[i].targetPath) {
      PrintableIffStable(patches[i], lines);
    }
  }

  lemma {:induction false} PrintableIffStable(p: FilePatch, lines: seq<string>)
    requires CleanPatch(p) && HunksTaken(p.hunks, lines)
    ensures PrintablePatch(p) <==> StablePath(p.targetPath)
  {
    forall i | 0 <= i < |p.hunks| ensures PrintableHunk(p.hunks[i]) {
      assert BodyTaken(p.hunks[i].lines, lines);
      assert forall j :: 0 <= j < |p.hunks[i].lines| ==> Taken(p.hunks[i].lines[j], lines);
    }
  }
}
