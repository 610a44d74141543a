/** Where the two diff parsers part on the output of `git diff`: the `diff --git` and `index` lines in
    front of each file. Both parsers skip them in front of the first file; behind a hunk the strict one
    calls the diff malformed, while the lenient one reads on. */
module GitHeaders {
  import opened Dedupe
  import opened Lines
  import opened UnifiedDiff
  import opened DiffParser
  import opened DiffPrinting
  import opened ProposalDiff

  /** A file patch with the header lines that stand in front of it. */
  datatype GitFile = GitFile(header: seq<string>, patch: FilePatch)

  /** A file that prints and is read back, behind `diff --git` and `index` lines. */
  predicate GitReady(f: GitFile) {
    PrintablePatch(f.patch) && forall i :: 0 <= i < |f.header| ==> GitNoise(f.header[i]) && BreakFree(f.header[i])
  }

  predicate AllReady(files: seq<GitFile>) {
    forall i :: 0 <= i < |files| ==> GitReady(files[i])
  }

  function PrintGit(files: seq<GitFile>): seq<string> {
    if files == [] then [] else
    files[0].header + (PrintPatches([files[0].patch]) + PrintGit(files[1..]))
  }

  function Patches(files: seq<GitFile>): (r: seq<FilePatch>)
    ensures |r| == |files|
  {
    seq(|files|, i requires 0 <= i < |files| => files[i].patch)
  }

  /** No file has header lines. */
  predicate Headerless(files: seq<GitFile>) {
    forall i :: 0 <= i < |files| ==> files[i].header == []
  }

  // ---------------------------------------------------------------- the strict side

  lemma {:induction false} BodyRefusesNoise(ls: seq<DiffLine>, noise: string, rest: seq<string>)
    requires forall i :: 0 <= i < |ls| ==> ls[i].kind in {' ', '-', '+'}
    requires NoFileLookalike(ls) && GitNoise(noise)
    ensures HunkBody(PrintBody(ls) + ([noise] + rest)) == Failure(MalformedUnifiedDiff)
  {
    NoiseOpensNothing(noise);
    if ls == [] {
      assert PrintBody(ls) + ([noise] + rest) == [noise] + rest;
    } else {
      var all := PrintBody(ls) + ([noise] + rest);
      var line := [ls[0].kind] + ls[0].text;
      assert all[0] == line && all[1..] == PrintBody(ls[1..]) + ([noise] + rest);
      assert line[0] == ls[0].kind;
      LookalikePrefix(ls[0]);
      BodyRefusesNoise(ls[1..], noise, rest);
    }
  }

  lemma {:induction false} HunksRefuseNoise(hunks: seq<DiffHunk>, noise: string, rest: seq<string>)
    requires hunks != [] && AllPrintable(hunks) && GitNoise(noise)
    ensures HunkList(PrintHunks(hunks) + ([noise] + rest)) == Failure(MalformedUnifiedDiff)
  {
    var h, tail := hunks[0], hunks[1..];
    var behind := [noise] + rest;
    HeadOfPrintedHunks(hunks, behind);
    ReadOneHunk(h, PrintHunks(hunks) + behind);
    SplitAll(hunks);
    if tail == [] {
      assert PrintHunks(tail) + behind == behind;
      BodyRefusesNoise(h.lines, noise, rest);
    } else {
      HeaderShape(tail[0]);
      BodyRead(h.lines, PrintHunks(tail) + behind);
      HunksRefuseNoise(tail, noise, rest);
    }
  }

  lemma {:induction false} HeaderSkipped(header: seq<string>, rest: seq<string>)
    requires forall i :: 0 <= i < |header| ==> GitNoise(header[i])
    ensures FileList(header + rest) == FileList(rest) && TargetList(header + rest) == TargetList(rest)
  {
    if header == [] {
      assert header + rest == rest;
    } else {
      assert (header + rest)[1..] == header[1..] + rest;
      NoiseOpensNothing(header[0]);
      HeaderSkipped(header[1..], rest);
    }
  }

  lemma {:induction false} HeadOfFile(p: FilePatch, rest: seq<string>)
    ensures var all := PrintPatches([p]) + rest;
      && |all| >= 2 && StartsFile(all[0])
      && all[0] == OldLine(p.targetPath) && all[1] == NewLine(p.targetPath)
      && all[2..] == PrintHunks(p.hunks) + rest
  {
    HeadOfPrintedPatches([p]);
    assert [p][1..] == [] && PrintHunks(p.hunks) + PrintPatches([]) == PrintHunks(p.hunks);
    DropTwo(PrintPatches([p]), rest);
  }

  lemma {:induction false} DropTwo<T>(xs: seq<T>, ys: seq<T>)
    requires |xs| >= 2
    ensures (xs + ys)[2..] == xs[2..] + ys && (xs + ys)[0] == xs[0] && (xs + ys)[1] == xs[1]
  {
  }

  lemma {:induction false} PrintGitShape(files: seq<GitFile>)
    requires files != [] && files[0].header == []
    ensures EndsHunks(PrintGit(files))
  {
    HeadOfFile(files[0].patch, PrintGit(files[1..]));
    assert [] + (PrintPatches([files[0].patch]) + PrintGit(files[1..])) ==
      PrintPatches([files[0].patch]) + PrintGit(files[1..]);
  }

  /** The hunks of a file are read unless header lines of the next file follow. */
  lemma {:induction false} HunksBefore(p: FilePatch, next: seq<GitFile>)
    requires PrintablePatch(p) && AllReady(next)
    ensures HunkList(PrintHunks(p.hunks) + PrintGit(next)) ==
      if next == [] || next[0].header == [] then Success((p.hunks, PrintGit(next))) else Failure(MalformedUnifiedDiff)
  {
    assert AllClean(p.hunks) by {
      forall i | 0 <= i < |p.hunks| ensures CleanHunk(p.hunks[i]) { assert PrintableHunk(p.hunks[i]); }
    }
    if next == [] {
      HunksRead(p.hunks, []);
    } else if next[0].header == [] {
      PrintGitShape(next);
      HunksRead(p.hunks, PrintGit(next));
    } else {
      var header := next[0].header;
      var behind := header[1..] + (PrintPatches([next[0].patch]) + PrintGit(next[1..]));
      assert GitReady(next[0]) && header == [header[0]] + header[1..];
      Regroup([header[0]], header[1..], PrintPatches([next[0].patch]) + PrintGit(next[1..]));
      HunksRefuseNoise(p.hunks, header[0], behind);
    }
  }

  lemma {:induction false} StrictReadsFirst(files: seq<GitFile>)
    requires files != [] && GitReady(files[0]) && AllReady(files[1..])
    ensures var p, tail := files[0].patch, files[1..];
      FileList(PrintGit(files)) ==
        if tail == [] || tail[0].header == [] then Prepend([p], FileList(PrintGit(tail)))
            else Failure(MalformedUnifiedDiff)
  {
    var p, tail := files[0].patch, files[1..];
    var lines := PrintPatches([p]) + PrintGit(tail);
    HeaderSkipped(files[0].header, lines);
    HeadOfFile(p, PrintGit(tail));
    HeaderOfLines(p.targetPath, lines);
    HunksBefore(p, tail);
    if tail == [] || tail[0].header == [] {
      FileListUnfolds(lines, p, PrintGit(tail));
    }
  }

  lemma {:induction false} StrictReadsGit(files: seq<GitFile>)
    requires files != [] && AllReady(files)
    ensures FileList(PrintGit(files)) ==
      if Headerless(files[1..]) then Success(Patches(files)) else Failure(MalformedUnifiedDiff)
  {
    var p, tail := files[0].patch, files[1..];
    assert forall i :: 0 <= i < |tail| ==> tail[i] == files[i + 1];
    StrictReadsFirst(files);
    assert Patches(files) == [p] + Patches(tail);
    if tail != [] {
      StrictReadsGit(tail);
      HeaderlessCons(tail);
    }
  }

  lemma {:induction false} HeaderlessCons(files: seq<GitFile>)
    requires files != []
    ensures Headerless(files) <==> files[0].header == [] && Headerless(files[1..])
  {
    assert forall i :: 0 <= i < |files[1..]| ==> files[1..][i] == files[i + 1];
    if files[0].header == [] && Headerless(files[1..]) {
      forall i | 0 <= i < |files| ensures files[i].header == [] {
        if i > 0 { assert files[1..][i - 1].header == []; }
      }
    }
  }

  // ---------------------------------------------------------------- the lenient side

  lemma {:induction false} SectionRuns(lines: seq<string>, rest: seq<string>)
    requires forall i :: 0 <= i < |lines| ==> !StartsFile(lines[i])
    requires EndsHunks(rest)
    ensures Section(lines + rest).1 == rest
    ensures (exists i :: 0 <= i < |lines| && StartsHunk(lines[i])) ==> Section(lines + rest).0
  {
    if lines == [] {
      assert lines + rest == rest;
    } else {
      assert (lines + rest)[1..] == lines[1..] + rest;
      SectionRuns(lines[1..], rest);
      if i :| 0 <= i < |lines| && StartsHunk(lines[i]) {
        assert i > 0 ==> lines[1..][i - 1] == lines[i];
      }
    }
  }

  lemma {:induction false} NoFileLineInHunks(hunks: seq<DiffHunk>)
    requires AllPrintable(hunks)
    ensures forall i :: 0 <= i < |PrintHunks(hunks)| ==> !StartsFile(PrintHunks(hunks)[i])
  {
    if hunks != [] {
      var h := hunks[0];
      SplitAll(hunks);
      HeaderShape(h);
      NoFileLineInHunks(hunks[1..]);
      forall i | 0 <= i < |h.lines| ensures !StartsFile(PrintBody(h.lines)[i]) {
        LookalikePrefix(h.lines[i]);
      }
    }
  }

  lemma {:induction false} SectionOfFile(p: FilePatch, extra: seq<string>, rest: seq<string>)
    requires PrintablePatch(p) && EndsHunks(rest)
    requires forall i :: 0 <= i < |extra| ==> !StartsFile(extra[i])
    ensures Section(PrintHunks(p.hunks) + (extra + rest)) == (true, rest)
  {
    var hunkLines := PrintHunks(p.hunks);
    NoFileLineInHunks(p.hunks);
    HeaderShape(p.hunks[0]);
    HeadOfPrintedHunks(p.hunks, []);
    assert hunkLines + [] == hunkLines;
    assert hunkLines[0] == HunkHeader(p.hunks[0]);
    NoFileLineInBoth(hunkLines, extra);
    assert StartsHunk((hunkLines + extra)[0]);
    SectionRuns(hunkLines + extra, rest);
    Regroup(hunkLines, extra, rest);
  }

  lemma {:induction false} NoFileLineInBoth(xs: seq<string>, ys: seq<string>)
    requires forall i :: 0 <= i < |xs| ==> !StartsFile(xs[i])
    requires forall i :: 0 <= i < |ys| ==> !StartsFile(ys[i])
    ensures forall i :: 0 <= i < |xs + ys| ==> !StartsFile((xs + ys)[i])
  {
  }

  lemma {:induction false} OneTarget(path: string, lines: seq<string>, rest: seq<string>)
    requires |lines| >= 2 && StartsFile(lines[0]) && FileHeader(lines) == Success(path)
    requires Section(lines[2..]) == (true, rest)
    ensures TargetList(lines) == Prepend([path], TargetList(rest))
  {
  }

  lemma {:induction false} SectionBefore(p: FilePatch, next: seq<GitFile>)
    requires PrintablePatch(p) && AllReady(next)
    ensures
      var rest := if next == [] then [] else PrintPatches([next[0].patch]) + PrintGit(next[1..]);
      Section(PrintHunks(p.hunks) + PrintGit(next)) == (true, rest) && TargetList(rest) == TargetList(PrintGit(next))
  {
    if next == [] {
      SectionOfFile(p, [], []);
      assert [] + [] == PrintGit(next);
    } else {
      var header, rest := next[0].header, PrintPatches([next[0].patch]) + PrintGit(next[1..]);
      assert GitReady(next[0]);
      forall i | 0 <= i < |header| ensures !StartsFile(header[i]) {
        NoiseOpensNothing(header[i]);
      }
      HeadOfFile(next[0].patch, PrintGit(next[1..]));
      SectionOfFile(p, header, rest);
      HeaderSkipped(header, rest);
    }
  }

  lemma {:induction false} LenientReadsFirst(files: seq<GitFile>)
    requires files != [] && GitReady(files[0]) && AllReady(files[1..])
    ensures TargetList(PrintGit(files)) == Prepend([files[0].patch.targetPath], TargetList(PrintGit(files[1..])))
  {
    var p, tail := files[0].patch, files[1..];
    var lines := PrintPatches([p]) + PrintGit(tail);
    HeaderSkipped(files[0].header, lines);
    HeadOfFile(p, PrintGit(tail));
    HeaderOfLines(p.targetPath, lines);
    SectionBefore(p, tail);
    OneTarget(p.targetPath, lines, Section(lines[2..]).1);
  }

  lemma {:induction false} TargetsCons(files: seq<GitFile>)
    requires files != []
    ensures Targets(Patches(files)) == [files[0].patch.targetPath] + Targets(Patches(files[1..]))
  {
    assert Patches(files) == [files[0].patch] + Patches(files[1..]);
  }

  lemma {:induction false} LenientReadsGit(files: seq<GitFile>)
    requires AllReady(files)
    ensures TargetList(PrintGit(files)) == Success(Targets(Patches(files)))
  {
    if files != [] {
      var tail := files[1..];
      assert forall i :: 0 <= i < |tail| ==> tail[i] == files[i + 1];
      LenientReadsFirst(files);
      LenientReadsGit(tail);
      TargetsCons(files);
    }
  }

  // ---------------------------------------------------------------- on text

  /** A line of a `git diff` that no refusal but the phrases can hit. */
  predicate GitShaped(line: string) {
    DiffShaped(line) || (GitNoise(line) && BreakFree(line))
  }

  lemma {:induction false} ScanGitLine(line: string)
    requires GitShaped(line) && !RefusedPhrase(line)
    ensures ScanLine(line) == Clean
  {
    if DiffShaped(line) {
      ScanPrinted(line);
    } else {
      ScanNoise(line);
    }
  }

  lemma {:induction false} ScanNoise(line: string)
    requires GitNoise(line) && !RefusedPhrase(line)
    ensures ScanLine(line) == Clean
  {
    assert (line[0] == "diff --git "[0] && line[1] == "diff --git "[1]) || line[0] == "index "[0];
    assert "deleted file mode"[0] == 'd' && "deleted file mode"[1] == 'e';
    assert "Binary files "[0] == 'B' && "GIT binary patch"[0] == 'G' && "new file mode"[0] == 'n';
    assert "old mode "[0] == 'o' && "new mode "[0] == 'n';
    assert "rename from "[0] == 'r' && "rename to "[0] == 'r' && "copy from "[0] == 'c' && "copy to "[0] == 'c';
  }

  lemma {:induction false} ScanGit(lines: seq<string>)
    requires forall i :: 0 <= i < |lines| ==> GitShaped(lines[i]) && !RefusedPhrase(lines[i])
    ensures ScanLines(lines) == Clean
  {
    if lines != [] {
      ScanGitLine(lines[0]);
      ScanGit(lines[1..]);
    }
  }

  lemma {:induction false} PrintGitShaped(files: seq<GitFile>)
    requires AllReady(files)
    ensures forall line :: line in PrintGit(files) ==> GitShaped(line)
  {
    if files != [] {
      var f := files[0];
      assert GitReady(f);
      assert CleanPatch([f.patch][0]) by {
        forall i | 0 <= i < |f.patch.hunks| ensures CleanHunk(f.patch.hunks[i]) {
          assert PrintableHunk(f.patch.hunks[i]);
        }
      }
      PrintPatchesBreakFree([f.patch]);
      assert forall i :: 0 <= i < |files[1..]| ==> files[1..][i] == files[i + 1];
      PrintGitShaped(files[1..]);
    }
  }

  lemma {:induction false} FirstGitLine(files: seq<GitFile>)
    requires files != [] && AllReady(files)
    ensures var lines := PrintGit(files); lines != [] && lines[0] != "" && !IsSpace(lines[0][0])
  {
    assert GitReady(files[0]);
    if files[0].header == [] {
      HeadOfFile(files[0].patch, PrintGit(files[1..]));
      assert "--- "[0] == '-';
    } else {
      var line := files[0].header[0];
      assert line[0] == "diff --git "[0] || line[0] == "index "[0];
    }
  }

  lemma {:induction false} TargetsJoined(lines: seq<string>)
    requires lines != [] && lines[0] != "" && !IsSpace(lines[0][0])
    requires forall i :: 0 <= i < |lines| ==> BreakFree(lines[i])
    requires ScanLines(lines) == Clean && TargetList(lines).Success? && TargetList(lines).value != []
    ensures ProposedTargets(Unlines(lines)) == Success(FirstSeen(TargetList(lines).value))
  {
    SplitLinesOfUnlines(lines);
    assert Unlines(lines)[0] == lines[0][0];
    assert !Blank(Unlines(lines));
  }

  /** For every non-empty list of printable files, each behind any number of `diff --git` and `index`
      lines, with no refused phrase in any line: the lenient parser returns all targets, and the strict
      one returns the patches if only the first file has such lines, and otherwise calls the diff
      malformed. */
  lemma {:induction false} ParsersOnGitDiff(files: seq<GitFile>)
    requires files != [] && AllReady(files)
    requires forall line :: line in PrintGit(files) ==> !RefusedPhrase(line)
    ensures var diffText := Unlines(PrintGit(files));
      && ProposedTargets(diffText) == Success(FirstSeen(Targets(Patches(files))))
      && ParsedDiff(diffText) ==
        if Headerless(files[1..]) then Success(Patches(files)) else Failure(MalformedUnifiedDiff)
  {
    var lines := PrintGit(files);
    PrintGitShaped(files);
    forall i | 0 <= i < |lines| ensures GitShaped(lines[i]) && BreakFree(lines[i]) && !RefusedPhrase(lines[i]) {
      assert lines[i] in lines;
    }
    ScanGit(lines);
    FirstGitLine(files);
    StrictReadsGit(files);
    LenientReadsGit(files);
    ParseJoined(lines);
    TargetsJoined(lines);
  }
}
