/** What the parsers make of single lines: the lines they refuse, the paths in file headers, and the numbers
    in hunk headers. */
module DiffHeaders {
  import opened Lines
  import opened Numerals
  import opened UnifiedDiff
  import opened DiffParser
  import opened DiffPrinting
  import opened ProposalDiff

  // ---------------------------------------------------------------- the path in a header line

  /** A word that stripping leaves alone: not empty, no white space at its ends, no tab inside. */
  predicate Trimmed(s: string) {
    s != "" && !IsSpace(s[0]) && !IsSpace(s[|s| - 1]) && '\t' !in s
  }

  lemma {:induction false} StripLeftOfBlank(blank: string, s: string)
    requires Blank(blank) && s != "" && !IsSpace(s[0])
    ensures StripLeft(blank + s) == s
  {
    if blank == "" {
      assert blank + s == s;
    } else {
      assert (blank + s)[1..] == blank[1..] + s;
      StripLeftOfBlank(blank[1..], s);
    }
  }

  lemma {:induction false} StripRightOfBlank(s: string, blank: string)
    requires Blank(blank) && s != "" && !IsSpace(s[|s| - 1])
    ensures StripRight(s + blank) == s
  {
    if blank == "" {
      assert s + blank == s;
    } else {
      assert (s + blank)[..|s + blank| - 1] == s + blank[..|blank| - 1];
      StripRightOfBlank(s, blank[..|blank| - 1]);
    }
  }

  lemma {:induction false} BeforeTabOf(s: string, rest: string)
    requires '\t' !in s && (rest == "" || rest[0] == '\t')
    ensures BeforeTab(s + rest) == s
  {
    if s == "" {
      assert s + rest == rest;
    } else {
      assert (s + rest)[1..] == s[1..] + rest;
      BeforeTabOf(s[1..], rest);
    }
  }

  /** White space around a path and whatever follows it behind a tab are cut off; of what is left, `a/` or
      `b/` in front is dropped, except from `/dev/null`, which has neither. */
  lemma {:induction false} PathInHeader(before: string, path: string, behind: string, after: string)
    requires Trimmed(path) && Blank(before) && Blank(after)
    requires behind == "" || (behind[0] == '\t' && !IsSpace(behind[|behind| - 1]))
    ensures StripDiffPath(before + path + behind + after) ==
      if "a/" <= path || "b/" <= path then path[2..] else path
  {
    var core := path + behind;
    assert before + path + behind + after == (before + core) + after;
    assert (before + core)[|before + core| - 1] == core[|core| - 1];
    StripRightOfBlank(before + core, after);
    assert core[0] == path[0];
    StripLeftOfBlank(before, core);
    BeforeTabOf(path, behind);
    assert "/dev/null"[0] == '/' && !("a/" <= "/dev/null") && !("b/" <= "/dev/null");
  }

  // ---------------------------------------------------------------- headers that are refused

  /** Lines that come through the splitting and are not refused as such. */
  predicate Readable(lines: seq<string>) {
    forall line :: line in lines ==> BreakFree(line) && ScanLine(line) == Clean
  }

  lemma {:induction false} ReadableScans(lines: seq<string>)
    requires Readable(lines)
    ensures ScanLines(lines) == Clean
  {
    if lines != [] {
      assert lines[0] in lines;
      ReadableScans(lines[1..]);
    }
  }

  lemma {:induction false} ReadableReads(lines: seq<string>)
    requires Readable(lines) && lines != [] && lines[0] != "" && !IsSpace(lines[0][0])
    ensures ParsedDiff(Unlines(lines)) ==
      if FileList(lines) == Success([]) then Failure(MalformedUnifiedDiff) else FileList(lines)
    ensures TargetList(lines).Failure? ==> ProposedTargets(Unlines(lines)) == Failure(TargetList(lines).error)
  {
    assert forall i :: 0 <= i < |lines| ==> lines[i] in lines;
    ReadableScans(lines);
    ParseJoined(lines);
    SplitLinesOfUnlines(lines);
    assert Unlines(lines)[0] == lines[0][0];
    assert !Blank(Unlines(lines));
  }

  /** Both parsers refuse a diff whose first header names no file on the old side, none on the new side, or
      two different files, whatever follows it. */
  lemma {:induction false} HeadersRefused(first: string, second: string, rest: seq<string>)
    requires "--- " <= first && "+++ " <= second && Readable([first, second] + rest)
    ensures var diffText := Unlines([first, second] + rest);
      var one, other := StripDiffPath(first[4..]), StripDiffPath(second[4..]);
      && (one == "/dev/null" ==> BothFail(diffText, NewFileRejected))
      && (one != "/dev/null" && other == "/dev/null" ==> BothFail(diffText, DeleteFileRejected))
      && (one != "/dev/null" && other != "/dev/null" && one != other ==> BothFail(diffText, TargetPathMismatch))
  {
    var lines := [first, second] + rest;
    assert first[0] == "--- "[0];
    ReadableReads(lines);
    assert lines[0] == first && lines[1] == second;
  }

  predicate BothFail(diffText: string, error: DiffError) {
    ParsedDiff(diffText) == Failure(error) && ProposedTargets(diffText) == Failure(error)
  }

  /** For printed headers: two different paths, or `/dev/null` on either side. */
  lemma {:induction false} PrintedHeadersRefused(p: string, q: string, rest: seq<string>)
    requires StablePath(p) && StablePath(q) && p != q
    ensures Readable([OldLine(p), NewLine(q)] + rest) ==>
      BothFail(Unlines([OldLine(p), NewLine(q)] + rest), TargetPathMismatch)
    ensures Readable(["--- /dev/null", NewLine(q)] + rest) ==>
      BothFail(Unlines(["--- /dev/null", NewLine(q)] + rest), NewFileRejected)
    ensures Readable([OldLine(p), "+++ /dev/null"] + rest) ==>
      BothFail(Unlines([OldLine(p), "+++ /dev/null"] + rest), DeleteFileRejected)
  {
    assert OldLine(p)[4..] == "a/" + p && NewLine(q)[4..] == "b/" + q;
    StripPrinted("a/", p);
    StripPrinted("b/", q);
    assert "--- /dev/null"[4..] == "/dev/null" && "+++ /dev/null"[4..] == "/dev/null";
    DevNullStays("/dev/null");
    if Readable([OldLine(p), NewLine(q)] + rest) { HeadersRefused(OldLine(p), NewLine(q), rest); }
    if Readable(["--- /dev/null", NewLine(q)] + rest) { HeadersRefused("--- /dev/null", NewLine(q), rest); }
    if Readable([OldLine(p), "+++ /dev/null"] + rest) { HeadersRefused(OldLine(p), "+++ /dev/null", rest); }
  }

  lemma {:induction false} DevNullStays(path: string)
    requires path == "/dev/null"
    ensures StripDiffPath(path) == path
  {
    assert "" + path + "" + "" == path;
    PathInHeader("", path, "", "");
  }

  // ---------------------------------------------------------------- headers that are accepted

  /** Line `k` and the next are the header of a file whose path, on both sides, is this one. */
  predicate HeaderAt(lines: seq<string>, k: nat, path: string) {
    && k + 1 < |lines| && "--- " <= lines[k] && "+++ " <= lines[k + 1]
    && StripDiffPath(lines[k][4..]) == path && StripDiffPath(lines[k + 1][4..]) == path && path != "/dev/null"
  }

  ghost predicate HasHeader(lines: seq<string>, path: string) {
    exists k: nat :: k < |lines| && HeaderAt(lines, k, path)
  }

  lemma {:induction false} HeaderBehind(front: seq<string>, lines: seq<string>, path: string)
    requires HasHeader(lines, path)
    ensures HasHeader(front + lines, path)
  {
    var k: nat :| k < |lines| && HeaderAt(lines, k, path);
    assert (front + lines)[|front| + k] == lines[k] && (front + lines)[|front| + k + 1] == lines[k + 1];
    assert HeaderAt(front + lines, |front| + k, path);
  }

  lemma {:induction false} TargetsHaveHeaders(lines: seq<string>)
    requires TargetList(lines).Success?
    ensures forall t :: t in TargetList(lines).value ==> HasHeader(lines, t)
    decreases |lines|
  {
    if lines == [] {
    } else if !StartsFile(lines[0]) {
      TargetsHaveHeaders(lines[1..]);
      forall t | t in TargetList(lines).value ensures HasHeader(lines, t) {
        HeaderBehind([lines[0]], lines[1..], t);
        assert [lines[0]] + lines[1..] == lines;
      }
    } else {
      var path, rest := FileHeader(lines).value, Section(lines[2..]).1;
      assert HeaderAt(lines, 0, path);
      TargetsHaveHeaders(rest);
      var n := SectionEnds(lines[2..]);
      var front := lines[..2 + n];
      assert lines == front + rest;
      forall t | t in TargetList(rest).value ensures HasHeader(lines, t) {
        HeaderBehind(front, rest, t);
      }
      assert TargetList(lines).value == [path] + TargetList(rest).value;
    }
  }

  /** Every target that either parser returns is the path in both lines of some header. */
  lemma {:induction false} ParsedTargetsHaveHeaders(diffText: string)
    ensures var lines := SplitLines(diffText);
      && (ProposedTargets(diffText).Success? ==>
        forall t :: t in ProposedTargets(diffText).value ==> HasHeader(lines, t))
      && (ParsedDiff(diffText).Success? ==>
        forall i :: 0 <= i < |ParsedDiff(diffText).value| ==>
            HasHeader(lines, ParsedDiff(diffText).value[i].targetPath))
  {
    ParsersSimulate(diffText);
    if ProposedTargets(diffText).Success? {
      TargetsHaveHeaders(SplitLines(diffText));
    }
    if ParsedDiff(diffText).Success? {
      var patches := ParsedDiff(diffText).value;
      forall i | 0 <= i < |patches| ensures HasHeader(SplitLines(diffText), patches[i].targetPath) {
        assert Targets(patches)[i] in Targets(patches);
      }
    }
  }

  // ---------------------------------------------------------------- lines that are refused as such

  /** Each reason with the lines it is for. No line starts in two of these ways, so their order is of no
      account; the phrases decide for all other lines. */
  lemma {:induction false} RefusedLines(line: string)
    ensures ScanLine(line) == Refused(BinaryPatchRejected) <==> "Binary files " <= line || "GIT binary patch" <= line
    ensures ScanLine(line) == Refused(NewFileRejected) <==> "new file mode" <= line
    ensures ScanLine(line) == Refused(DeleteFileRejected) <==> "deleted file mode" <= line
    ensures ScanLine(line) == Refused(ModeChangeRejected) <==> "old mode " <= line || "new mode " <= line
    ensures ScanLine(line) == Refused(RenameOrCopyRejected) <==>
      "rename from " <= line || "rename to " <= line || "copy from " <= line || "copy to " <= line
    ensures ScanLine(line) == Refused(ShellExecutionRequestRejected) <==> RefusedPhrase(line) && !StartsRefused(line)
    ensures ScanLine(line) == Clean <==> !RefusedPhrase(line) && !StartsRefused(line)
  {
    assert "Binary files "[0] == 'B' && "GIT binary patch"[0] == 'G' && "deleted file mode"[0] == 'd';
    assert "new file mode"[0] == 'n' && "new file mode"[4] == 'f' && "new mode "[0] == 'n' && "new mode "[4] == 'm';
    assert "old mode "[0] == 'o' && "rename from "[0] == 'r' && "rename to "[0] == 'r';
    assert "copy from "[0] == 'c' && "copy to "[0] == 'c';
  }

  predicate StartsRefused(line: string) {
    || "Binary files " <= line || "GIT binary patch" <= line || "new file mode" <= line || "deleted file mode" <= line
    || "old mode " <= line || "new mode " <= line
    || "rename from " <= line || "rename to " <= line || "copy from " <= line || "copy to " <= line
  }

  /** The first line that is refused decides, for both parsers. */
  lemma {:induction false} FirstRefusedLineDecides(front: seq<string>, line: string, rest: seq<string>,
                                                   error: DiffError)
    requires Readable(front) && BreakFree(line) && ScanLine(line) == Refused(error)
    requires (forall other :: other in rest ==> BreakFree(other)) && !Blank(Unlines(front + [line] + rest))
    ensures BothFail(Unlines(front + [line] + rest), error)
  {
    var lines := front + [line] + rest;
    SplitLinesOfUnlines(lines);
    ScanBehind(front, [line] + rest);
    assert front + ([line] + rest) == lines;
  }

  lemma {:induction false} ScanBehind(front: seq<string>, lines: seq<string>)
    requires Readable(front)
    ensures ScanLines(front + lines) == ScanLines(lines)
  {
    if front == [] {
      assert front + lines == lines;
    } else {
      assert front[0] in front && (front + lines)[1..] == front[1..] + lines;
      ScanBehind(front[1..], lines);
    }
  }

  // ---------------------------------------------------------------- numbers in hunk headers

  /** A count that is left out is 1, on either side; what follows the header is of no account. */
  lemma {:induction false} CountsLeftOut(a: nat, b: nat, c: nat, d: nat, tail: string)
    ensures ParseHunkHeader("@@ -" + (Numeral(a) + (" +" + (Numeral(c) + (" @@" + tail))))) == Success((a, 1, c, 1))
    ensures ParseHunkHeader("@@ -" + (Numeral(a) + ("," + (Numeral(b) + (" +" + (Numeral(c) + (" @@" + tail)))))))
      == Success((a, b, c, 1))
    ensures ParseHunkHeader("@@ -" + (Numeral(a) + (" +" + (Numeral(c) + ("," + (Numeral(d) + (" @@" + tail)))))))
      == Success((a, 1, c, d))
  {
    NewSideRead(c, d, tail);
    HeaderOf(a, b, c, 1, Numeral(c) + (" @@" + tail));
    HeaderOf(a, b, c, d, Numeral(c) + ("," + (Numeral(d) + (" @@" + tail))));
  }

  /** What is read of the new side, given what it begins with. */
  predicate NewSideIs(rest: string, start: nat, count: nat) {
    && ReadNumber(rest).Number? && ReadNumber(rest).value == start
    && var number := ReadCount(ReadNumber(rest).rest); number.value == count && " @@" <= number.rest
  }

  lemma {:induction false} HeaderOf(a: nat, b: nat, c: nat, d: nat, rest: string)
    requires NewSideIs(rest, c, d)
    ensures ParseHunkHeader("@@ -" + (Numeral(a) + (" +" + rest))) == Success((a, 1, c, d))
    ensures ParseHunkHeader("@@ -" + (Numeral(a) + ("," + (Numeral(b) + (" +" + rest))))) == Success((a, b, c, d))
  {
    OldSideRead(a, b, rest);
    assert (" +" + rest)[2..] == rest;
  }

  lemma {:induction false} NewSideRead(c: nat, d: nat, tail: string)
    ensures NewSideIs(Numeral(c) + (" @@" + tail), c, 1)
    ensures NewSideIs(Numeral(c) + ("," + (Numeral(d) + (" @@" + tail))), c, d)
  {
    ReadPrinted(c, " @@" + tail);
    ReadPrinted(c, "," + (Numeral(d) + (" @@" + tail)));
    ReadPrinted(d, " @@" + tail);
    assert ("," + (Numeral(d) + (" @@" + tail)))[1..] == Numeral(d) + (" @@" + tail);
  }

  lemma {:induction false} OldSideRead(a: nat, b: nat, rest: string)
    ensures ("@@ -" + (Numeral(a) + (" +" + rest)))[4..] == Numeral(a) + (" +" + rest)
    ensures ReadNumber(Numeral(a) + (" +" + rest)) == Number(a, " +" + rest)
    ensures ReadCount(" +" + rest) == Number(1, " +" + rest)
    ensures ("@@ -" + (Numeral(a) + ("," + (Numeral(b) + (" +" + rest)))))[4..] ==
      Numeral(a) + ("," + (Numeral(b) + (" +" + rest)))
    ensures ReadNumber(Numeral(a) + ("," + (Numeral(b) + (" +" + rest)))) ==
      Number(a, "," + (Numeral(b) + (" +" + rest)))
    ensures ReadCount("," + (Numeral(b) + (" +" + rest))) == Number(b, " +" + rest)
  {
    ReadPrinted(a, " +" + rest);
    ReadPrinted(a, "," + (Numeral(b) + (" +" + rest)));
    ReadPrinted(b, " +" + rest);
    assert ("," + (Numeral(b) + (" +" + rest)))[1..] == Numeral(b) + (" +" + rest);
  }
}
