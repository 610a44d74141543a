/** Concrete diffs: a one-line patch, and the output of `git diff` for two files. */
module DiffExamples {
  import Dedupe
  import opened Lines
  import opened Substrings
  import opened Numerals
  import opened UnifiedDiff
  import opened DiffApply
  import opened DiffAlgebra
  import opened DiffParser
  import opened DiffPrinting
  import opened DiffReprinting
  import opened DiffHeaders
  import opened ProposalDiff
  import opened GitHeaders

  // ---------------------------------------------------------------- one patch

  /** Replaces the line `a` of a one-line file by `b`. */
  function Hunk(): DiffHunk { DiffHunk(1, 1, 1, 1, [DiffLine('-', "a"), DiffLine('+', "b")]) }

  function Patch(path: string): FilePatch { FilePatch(path, [Hunk()]) }

  lemma {:induction false} PatchIsPrintable(path: string)
    requires StablePath(path)
    ensures PrintablePatch(Patch(path)) && CleanPatch(Patch(path))
  {
    assert BreakFree("a") && BreakFree("b") && !("-- " <= "a");
    forall i | 0 <= i < 2 ensures !LooksLikeFile(Hunk().lines[i]) {}
  }

  lemma {:induction false} PrintedPatch(path: string)
    ensures PrintPatches([Patch(path)]) == [OldLine(path), NewLine(path), HunkHeader(Hunk()), "-a", "+b"]
  {
    assert ['-'] + "a" == "-a" && ['+'] + "b" == "+b";
    assert PrintBody(Hunk().lines) == ["-a", "+b"];
    assert [Hunk()][1..] == [] && [Patch(path)][1..] == [];
  }

  lemma {:induction false} PatchLinesHaveNoP(path: string, line: string)
    requires NoP(path) && line in PrintPatches([Patch(path)])
    ensures NoP(line)
  {
    PrintedPatch(path);
    HunkHeaderHasNoP(Hunk());
    assert NoP("--- a/") && NoP("+++ b/") && NoP("-a") && NoP("+b");
  }

  lemma {:induction false} ParsesToPatch(path: string)
    requires StablePath(path) && NoP(path)
    ensures ParsedDiff(PrintDiff([Patch(path)])) == Success([Patch(path)])
  {
    PatchIsPrintable(path);
    forall line | line in PrintPatches([Patch(path)]) ensures !RefusedPhrase(line) {
      PatchLinesHaveNoP(path, line);
      NoPhraseWithoutP(line);
    }
    ParseUndoesPrint([Patch(path)]);
  }

  lemma {:induction false} PatchTurnsAIntoB(path: string)
    ensures PatchedText("a\n", Patch(path)) == Success("b\n")
  {
    var h := Hunk();
    assert h.lines[..1] == [DiffLine('-', "a")] && h.lines[..1][..0] == [];
    assert "a" + "\n" == "a\n" && "b" + "\n" == "b\n";
    assert OldSide(h.lines) == ["a\n"] && NewSide(h.lines) == ["b\n"];
    assert KeepLines("a\n") == ["a\n"] by {
      assert FirstLineLength("a\n") == 2 by { assert "a\n"[1..] == "\n"; }
      assert "a\n"[..2] == "a\n" && KeepLines("a\n"[2..]) == [];
    }
    PatchOne(["a\n"], h);
    assert ["a\n"][..0] + ["b\n"] + ["a\n"][1..] == ["b\n"];
    assert ["b\n"][1..] == [] && Concat(["b\n"]) == "b\n";
  }

  // ---------------------------------------------------------------- two files

  function GitOf(path: string, header: seq<string>): GitFile { GitFile(header, Patch(path)) }

  function TwoFiles(): seq<GitFile> {
    [GitOf("f", ["diff --git a/f b/f", "index 1..2 100644"]), GitOf("g", ["diff --git a/g b/g", "index 3..4 100644"])]
  }

  lemma {:induction false} HeaderOfHunk()
    ensures HunkHeader(Hunk()) == "@@ -1,1 +1,1 @@"
  {
    assert Numeral(1) == "1";
  }

  /** The two-file diff, line by line. */
  lemma {:induction false} TwoFileLines()
    ensures PrintGit(TwoFiles()) == [
      "diff --git a/f b/f", "index 1..2 100644", "--- a/f", "+++ b/f", "@@ -1,1 +1,1 @@", "-a", "+b",
      "diff --git a/g b/g", "index 3..4 100644", "--- a/g", "+++ b/g", "@@ -1,1 +1,1 @@", "-a", "+b"]
  {
    var f, g := TwoFiles()[0], TwoFiles()[1];
    assert TwoFiles() == [f] + [g] && [g] == [g] + [];
    FileLines("f", f.header[0], f.header[1], [g]);
    FileLines("g", g.header[0], g.header[1], []);
    assert OldLine("f") == "--- a/f" && NewLine("f") == "+++ b/f";
    assert OldLine("g") == "--- a/g" && NewLine("g") == "+++ b/g";
  }

  lemma {:induction false} FileLines(path: string, first: string, second: string, rest: seq<GitFile>)
    ensures PrintGit([GitOf(path, [first, second])] + rest) ==
      [first, second, OldLine(path), NewLine(path), "@@ -1,1 +1,1 @@", "-a", "+b"] + PrintGit(rest)
  {
    PrintedPatch(path);
    HeaderOfHunk();
    var file := GitOf(path, [first, second]);
    assert ([file] + rest)[1..] == rest && ([file] + rest)[0] == file;
    JoinLines([first, second], PrintPatches([file.patch]), PrintGit(rest));
  }

  lemma {:induction false} JoinLines(header: seq<string>, body: seq<string>, rest: seq<string>)
    ensures header + (body + rest) == (header + body) + rest
  {
  }

  lemma {:induction false} TwoFilesHaveNoP(line: string)
    requires line in PrintGit(TwoFiles())
    ensures NoP(line)
  {
    var f, g := TwoFiles()[0], TwoFiles()[1];
    assert TwoFiles()[1..] == [g] && [g][1..] == [];
    assert PrintGit(TwoFiles()) == f.header + (PrintPatches([f.patch]) + (g.header + (PrintPatches([g.patch]) + [])));
    assert NoP("f") && NoP("g");
    if line in PrintPatches([f.patch]) {
      PatchLinesHaveNoP("f", line);
    } else if line in PrintPatches([g.patch]) {
      PatchLinesHaveNoP("g", line);
    } else {
      HeadersHaveNoP(line);
    }
  }

  lemma {:induction false} HeadersHaveNoP(line: string)
    requires line in TwoFiles()[0].header || line in TwoFiles()[1].header
    ensures NoP(line)
  {
    assert NoP("diff --git a/f b/f") && NoP("index 1..2 100644");
    assert NoP("diff --git a/g b/g") && NoP("index 3..4 100644");
  }

  lemma {:induction false} ReadyFile(path: string, header: seq<string>)
    requires StablePath(path) && |header| == 2
    requires "diff --git " <= header[0] && "index " <= header[1] && BreakFree(header[0]) && BreakFree(header[1])
    ensures GitReady(GitOf(path, header))
  {
    PatchIsPrintable(path);
  }

  lemma {:induction false} TwoFilesReady()
    ensures AllReady(TwoFiles())
  {
    assert BreakFree("f") && BreakFree("g") && !IsSpace("f"[0]) && !IsSpace("g"[0]);
    ReadyFile("f", ["diff --git a/f b/f", "index 1..2 100644"]);
    ReadyFile("g", ["diff --git a/g b/g", "index 3..4 100644"]);
  }

  /** The lenient parser names both files of this diff; the strict one calls it malformed. */
  lemma {:induction false} TwoFileGitDiff()
    ensures PrintGit(TwoFiles()) == [
      "diff --git a/f b/f", "index 1..2 100644", "--- a/f", "+++ b/f", "@@ -1,1 +1,1 @@", "-a", "+b",
      "diff --git a/g b/g", "index 3..4 100644", "--- a/g", "+++ b/g", "@@ -1,1 +1,1 @@", "-a", "+b"]
    ensures var diffText := Unlines(PrintGit(TwoFiles()));
      && ProposedTargets(diffText) == Success(["f", "g"])
      && ParsedDiff(diffText) == Failure(MalformedUnifiedDiff)
  {
    TwoFileLines();
    TwoFilesReady();
    forall line | line in PrintGit(TwoFiles()) ensures !RefusedPhrase(line) {
      TwoFilesHaveNoP(line);
      NoPhraseWithoutP(line);
    }
    ParsersOnGitDiff(TwoFiles());
    assert TwoFiles()[1..][0].header != [];
    TwoTargets();
  }

  lemma {:induction false} TwoTargets()
    ensures Dedupe.FirstSeen(Targets(Patches(TwoFiles()))) == ["f", "g"]
  {
    assert Targets(Patches(TwoFiles())) == ["f", "g"];
    assert Dedupe.NoRepeats(["f", "g"]);
    Dedupe.FirstSeenKeepsAll(["f", "g"]);
  }

  // ---------------------------------------------------------------- a diff that is not read back

  /** A diff with a tab behind the path of its header lines. */
  function TabbedLines(path: string): seq<string> {
    ["--- " + path + "\t", "+++ " + path + "\t"] + PrintHunks([Hunk()])
  }

  lemma {:induction false} TabbedPath(raw: string, path: string)
    requires raw == "x patch\t" && path == "x patch"
    ensures StripDiffPath(raw) == path
  {
    assert raw[7] == '\t' && raw[..7] == path && path[6] == 'h' && path[0] == 'x';
    assert StripRight(raw) == path;
    assert StripLeft(path) == path by { assert !IsSpace(path[0]); }
    BeforeTabFixed(path);
    assert !("a/" <= path) && !("b/" <= path);
  }

  /** The tab keeps `patch` apart from the space that would make it a refused phrase. */
  lemma {:induction false} TabbedLineAllowed(line: string)
    requires line == "--- x patch\t" || line == "+++ x patch\t"
    ensures DiffShaped(line) && !RefusedPhrase(line)
  {
    var padded := " " + Lower(line) + " ";
    assert |line| == 12 && line[10] == 'h' && line[11] == '\t';
    assert 'g' !in Lower(line);
    assert LacksPair(padded, 'h', ' ');
    assert BreakFree(line);
    assert "git apply"[0] == 'g' && " patch "[5] == 'h' && " patch "[6] == ' ';
    LacksALetter(Lower(line), "git apply", 0);
    LacksTwoLetters(padded, " patch ", 5);
  }

  lemma {:induction false} HunkLinesAllowed(line: string)
    requires line in PrintHunks([Hunk()])
    ensures DiffShaped(line) && !RefusedPhrase(line)
  {
    PatchIsPrintable("f");
    PrintHunksBreakFree([Hunk()]);
    assert line in PrintPatches([Patch("f")]);
    assert NoP("f");
    PatchLinesHaveNoP("f", line);
    NoPhraseWithoutP(line);
  }

  /** A file header of whatever form in front of hunks that are read. */
  lemma {:induction false} OneFileReads(lines: seq<string>, p: FilePatch)
    requires |lines| >= 2 && "--- " <= lines[0] && "+++ " <= lines[1] && p.targetPath != "/dev/null"
    requires StripDiffPath(lines[0][4..]) == p.targetPath && StripDiffPath(lines[1][4..]) == p.targetPath
    requires p.hunks != [] && HunkList(lines[2..]) == Success((p.hunks, []))
    ensures FileList(lines) == Success([p])
  {
    assert FileHeader(lines) == Success(p.targetPath);
    FileListUnfolds(lines, p, []);
    assert FileList([]) == Success([]) && [p] + [] == [p];
  }

  lemma {:induction false} TabbedReads(path: string, lines: seq<string>)
    requires path == "x patch" && lines == TabbedLines(path)
    ensures FileList(lines) == Success([Patch(path)])
  {
    assert lines[0][4..] == "x patch\t" && lines[1][4..] == "x patch\t";
    TabbedPath(lines[0][4..], path);
    TabbedPath(lines[1][4..], path);
    PatchIsPrintable(path);
    HunksRead([Hunk()], []);
    assert lines[2..] == PrintHunks([Hunk()]) + [];
    OneFileReads(lines, Patch(path));
  }

  /** A diff from `f` to `g` is refused by both parsers. */
  lemma {:induction false} TwoNamesRefused()
    ensures BothFail(Unlines([OldLine("f"), NewLine("g")] + PrintHunks([Hunk()])), TargetPathMismatch)
  {
    var lines := [OldLine("f"), NewLine("g")] + PrintHunks([Hunk()]);
    assert StablePath("f") && StablePath("g") by { assert !IsSpace("f"[0]) && !IsSpace("g"[0]); }
    forall line | line in lines ensures BreakFree(line) && ScanLine(line) == Clean {
      if line in PrintHunks([Hunk()]) {
        HunkLinesAllowed(line);
      } else {
        assert NoP("--- a/f") && NoP("+++ b/g") && BreakFree("--- a/f") && BreakFree("+++ b/g");
        assert OldLine("f") == "--- a/f" && NewLine("g") == "+++ b/g";
        NoPhraseWithoutP(line);
      }
      ScanPrinted(line);
    }
    PrintedHeadersRefused("f", "g", PrintHunks([Hunk()]));
  }

  /** Lines that a printed diff can hold, none of them refused, are parsed as the grammar says. */
  lemma {:induction false} ParseAllowed(lines: seq<string>)
    requires lines != [] && forall line :: line in lines ==> DiffShaped(line) && !RefusedPhrase(line)
    requires lines[0] != "" && lines[0][0] != ' ' && FileList(lines).Success? && FileList(lines).value != []
    ensures ParsedDiff(Unlines(lines)) == FileList(lines)
  {
    assert forall i :: 0 <= i < |lines| ==> lines[i] in lines;
    ScanAllPrinted(lines);
    ParseJoined(lines);
  }

  lemma {:induction false} TabbedParses(path: string)
    requires path == "x patch"
    ensures ParsedDiff(Unlines(TabbedLines(path))) == Success([Patch(path)])
  {
    var lines := TabbedLines(path);
    TabbedReads(path, lines);
    TabbedLinesAllowed(path, lines);
    ParseAllowed(lines);
  }

  lemma {:induction false} TabbedLinesAllowed(path: string, lines: seq<string>)
    requires path == "x patch" && lines == TabbedLines(path)
    ensures lines != [] && lines[0] != "" && lines[0][0] == '-'
    ensures forall line :: line in lines ==> DiffShaped(line) && !RefusedPhrase(line)
  {
    forall line | line in lines ensures DiffShaped(line) && !RefusedPhrase(line) {
      if line in PrintHunks([Hunk()]) {
        HunkLinesAllowed(line);
      } else {
        assert line == "--- x patch\t" || line == "+++ x patch\t";
        TabbedLineAllowed(line);
      }
    }
  }

  /** This diff is accepted, and what was read from it, printed, is refused. */
  lemma {:induction false} ReprintedDiffIsRefused(path: string)
    requires path == "x patch"
    ensures ParsedDiff(Unlines(TabbedLines(path))) == Success([Patch(path)])
    ensures ParsedDiff(PrintDiff([Patch(path)])) == Failure(ShellExecutionRequestRejected)
  {
    TabbedParses(path);
    PhraseInHeader(path);
    RefusedAtOnce(path);
  }

  lemma {:induction false} RefusedAtOnce(path: string)
    requires BreakFree(path) && RefusedPhrase(OldLine(path))
    ensures ParsedDiff(PrintDiff([Patch(path)])) == Failure(ShellExecutionRequestRejected)
  {
    var lines := PrintPatches([Patch(path)]);
    PatchIsPrintable("f");
    PrintPatchesBreakFree([Patch(path)]);
    assert forall i :: 0 <= i < |lines| ==> lines[i] in lines;
    ScanPrinted(lines[0]);
    ParseJoined(lines);
  }

  lemma {:induction false} PhraseInHeader(path: string)
    requires path == "x patch"
    ensures BreakFree(path) && RefusedPhrase(OldLine(path))
  {
    var padded := " " + Lower(OldLine(path)) + " ";
    assert padded[8..] == " patch ";
    assert OccursAt(padded, " patch ", 8);
  }
}
