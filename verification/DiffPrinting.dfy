/** Printing file patches in the unified format of POSIX.1-2017 (`diff` utility, "Diff -u or -U
    Output Format"), and the exact set of patches that parsing gives back unchanged. */
module DiffPrinting {
  import opened Lines
  import opened UnifiedDiff
  import opened DiffParser
  import opened Numerals

  // ---------------------------------------------------------------- decimal numerals

  /** A header number; a negative one prints with a sign, which the parser refuses. */
  function Decimal(n: int): string {
    if n >= 0 then Numeral(n) else "-" + Numeral(-n)
  }

  lemma {:induction false} NatOfNumeral(n: nat)
    ensures NatOf(Numeral(n)) == n
  {
    var s := Numeral(n);
    if n < 10 {
      assert s[..0] == "";
    } else {
      NatOfNumeral(n / 10);
      assert s[..|s| - 1] == Numeral(n / 10);
    }
  }

  lemma {:induction false} DigitRunStops(digits: string, rest: string)
    requires forall i :: 0 <= i < |digits| ==> IsDigit(digits[i])
    requires rest == "" || !IsDigit(rest[0])
    ensures DigitRun(digits + rest) == |digits|
  {
    if digits == "" {
      assert digits + rest == rest;
    } else {
      assert (digits + rest)[1..] == digits[1..] + rest;
      DigitRunStops(digits[1..], rest);
    }
  }

  lemma {:induction false} ReadPrinted(n: nat, rest: string)
    requires rest == "" || !IsDigit(rest[0])
    ensures ReadNumber(Numeral(n) + rest) == Number(n, rest)
  {
    var s := Numeral(n) + rest;
    DigitRunStops(Numeral(n), rest);
    NatOfNumeral(n);
    assert s[..|Numeral(n)|] == Numeral(n) && s[|Numeral(n)|..] == rest;
  }

  // ---------------------------------------------------------------- printing

  function HeaderTail(newStart: int, newCount: int): string {
    " +" + (Decimal(newStart) + ("," + (Decimal(newCount) + " @@")))
  }

  function HunkHeader(h: DiffHunk): string {
    "@@ -" + (Decimal(h.oldStart) + ("," + (Decimal(h.oldCount) + HeaderTail(h.newStart, h.newCount))))
  }

  function PrintBody(ls: seq<DiffLine>): (r: seq<string>)
    ensures |r| == |ls|
  {
    seq(|ls|, i requires 0 <= i < |ls| => [ls[i].kind] + ls[i].text)
  }

  function PrintHunks(hunks: seq<DiffHunk>): seq<string> {
    if hunks == [] then [] else
    [HunkHeader(hunks[0])] + (PrintBody(hunks[0].lines) + PrintHunks(hunks[1..]))
  }

  function OldLine(path: string): string { "--- a/" + path }

  function NewLine(path: string): string { "+++ b/" + path }

  function PrintPatches(patches: seq<FilePatch>): seq<string> {
    if patches == [] then [] else
    [OldLine(patches[0].targetPath)]
    + ([NewLine(patches[0].targetPath)] + (PrintHunks(patches[0].hunks) + PrintPatches(patches[1..])))
  }

  function PrintDiff(patches: seq<FilePatch>): string {
    Unlines(PrintPatches(patches))
  }

  // ---------------------------------------------------------------- what survives printing

  /** The path is left alone when the parser strips what follows `a/` or `b/`. */
  predicate StablePath(path: string) {
    && BreakFree(path)
    && path != "/dev/null"
    && '\t' !in path
    && (path != "" ==> !IsSpace(path[|path| - 1]))
  }

  /** A deletion whose text starts with `-- ` prints as a `--- ` line and would end the hunk. */
  predicate LooksLikeFile(l: DiffLine) {
    l.kind == '-' && "-- " <= l.text
  }

  predicate CleanHunk(h: DiffHunk) {
    h.oldStart >= 0 && h.oldCount >= 0 && h.newStart >= 0 && h.newCount >= 0 && WellFormedHunk(h)
  }

  predicate NoFileLookalike(ls: seq<DiffLine>) {
    forall i :: 0 <= i < |ls| ==> !LooksLikeFile(ls[i])
  }

  predicate PrintableHunk(h: DiffHunk) {
    CleanHunk(h) && NoFileLookalike(h.lines)
  }

  predicate AllClean(hunks: seq<DiffHunk>) {
    forall i :: 0 <= i < |hunks| ==> CleanHunk(hunks[i])
  }

  predicate AllPrintable(hunks: seq<DiffHunk>) {
    forall i :: 0 <= i < |hunks| ==> PrintableHunk(hunks[i])
  }

  /** What the parser can return: see `ParsedDiffIsClean`. */
  predicate CleanPatch(p: FilePatch) {
    BreakFree(p.targetPath) && p.hunks != [] && AllClean(p.hunks)
  }

  predicate PrintablePatch(p: FilePatch) {
    StablePath(p.targetPath) && p.hunks != [] && AllPrintable(p.hunks)
  }

  /** The patches that can be written as a diff and read back: see `ParseUndoesPrint`. */
  ghost predicate Printable(patches: seq<FilePatch>) {
    && patches != []
    && (forall i :: 0 <= i < |patches| ==> PrintablePatch(patches[i]))
    && forall line :: line in PrintPatches(patches) ==> !RefusedPhrase(line)
  }

  // ---------------------------------------------------------------- headers

  lemma {:induction false} HeaderTailRead(newStart: nat, newCount: nat)
    ensures var s := HeaderTail(newStart, newCount);
      && " +" <= s
      && ReadNumber(s[2..]).Number? && ReadNumber(s[2..]).value == newStart
      && var c := ReadCount(ReadNumber(s[2..]).rest);
        c == Number(newCount, " @@")
  {
    var s := HeaderTail(newStart, newCount);
    var c := "," + (Decimal(newCount) + " @@");
    assert s[2..] == Decimal(newStart) + c;
    ReadPrinted(newStart, c);
    assert c[1..] == Decimal(newCount) + " @@";
    ReadPrinted(newCount, " @@");
  }

  lemma {:induction false} HunkHeaderRead(h: DiffHunk)
    requires h.oldStart >= 0 && h.oldCount >= 0 && h.newStart >= 0 && h.newCount >= 0
    ensures ParseHunkHeader(HunkHeader(h)) == Success((h.oldStart, h.oldCount, h.newStart, h.newCount))
  {
    var s := HunkHeader(h);
    var tail := HeaderTail(h.newStart, h.newCount);
    var c := "," + (Decimal(h.oldCount) + tail);
    assert s[4..] == Decimal(h.oldStart) + c;
    ReadPrinted(h.oldStart, c);
    assert c[1..] == Decimal(h.oldCount) + tail;
    ReadPrinted(h.oldCount, tail);
    HeaderTailRead(h.newStart, h.newCount);
  }

  // ---------------------------------------------------------------- paths

  lemma {:induction false} StripRightBehind(prefix: string, s: string)
    requires prefix != "" && !IsSpace(prefix[|prefix| - 1])
    ensures StripRight(prefix + s) == prefix + StripRight(s)
    decreases |s|
  {
    if s == "" {
      assert prefix + s == prefix;
    } else {
      assert (prefix + s)[..|prefix + s| - 1] == prefix + s[..|s| - 1];
      if IsSpace(s[|s| - 1]) {
        StripRightBehind(prefix, s[..|s| - 1]);
      }
    }
  }

  lemma {:induction false} BeforeTabFixed(s: string)
    ensures |BeforeTab(s)| <= |s|
    ensures BeforeTab(s) == s <==> '\t' !in s
    ensures BeforeTab(s) != s ==> |BeforeTab(s)| < |s|
  {
    if s != "" && s[0] != '\t' {
      BeforeTabFixed(s[1..]);
      assert s == [s[0]] + s[1..];
    }
  }

  lemma {:induction false} StripRightShortens(s: string)
    ensures |StripRight(s)| <= |s|
    ensures StripRight(s) == s <==> s == "" || !IsSpace(s[|s| - 1])
    ensures StripRight(s) != s ==> |StripRight(s)| < |s|
  {
    if s != "" && IsSpace(s[|s| - 1]) {
      StripRightShortens(s[..|s| - 1]);
    }
  }

  lemma {:induction false} BeforeTabBehind(side: string, s: string)
    requires |side| == 2 && side[0] != '\t' && side[1] != '\t'
    ensures BeforeTab(side + s) == side + BeforeTab(s)
  {
    assert (side + s)[1..] == [side[1]] + s;
    assert ([side[1]] + s)[1..] == s;
    assert side + BeforeTab(s) == [side[0]] + ([side[1]] + BeforeTab(s));
  }

  lemma {:induction false} StripDiffPathBehind(side: string, path: string)
    requires side == "a/" || side == "b/"
    ensures StripDiffPath(side + path) == BeforeTab(StripRight(path))
  {
    var kept := StripRight(path);
    StripRightBehind(side, path);
    assert (side + kept)[0] == side[0];
    assert StripLeft(side + kept) == side + kept;
    BeforeTabBehind(side, kept);
    var cut := side + BeforeTab(kept);
    assert cut[0] != "/dev/null"[0];
    assert cut[2..] == BeforeTab(kept);
  }

  /** Stripping `a/path` or `b/path` gives the path back exactly when nothing in it is cut off. */
  lemma {:induction false} StripPrinted(side: string, path: string)
    requires side == "a/" || side == "b/"
    ensures StripDiffPath(side + path) == path
      <==> '\t' !in path && (path != "" ==> !IsSpace(path[|path| - 1]))
  {
    StripDiffPathBehind(side, path);
    StripRightShortens(path);
    BeforeTabFixed(StripRight(path));
  }

  // ---------------------------------------------------------------- reading printed hunks

  /** The next line, if there is one, ends a hunk body. */
  predicate EndsBody(rest: seq<string>) {
    rest != [] ==> StartsHunk(rest[0]) || StartsFile(rest[0])
  }

  predicate EndsHunks(rest: seq<string>) {
    rest != [] ==> StartsFile(rest[0])
  }

  /** A printed hunk body is read up to the first deletion that looks like a file header. */
  lemma {:induction false} BodyRead(ls: seq<DiffLine>, rest: seq<string>)
    requires forall i :: 0 <= i < |ls| ==> ls[i].kind in {' ', '-', '+'}
    requires EndsBody(rest)
    ensures NoFileLookalike(ls) ==> HunkBody(PrintBody(ls) + rest) == Success((ls, rest))
    ensures !NoFileLookalike(ls) ==>
      var r := HunkBody(PrintBody(ls) + rest); r.Success? && |r.value.0| < |ls|
  {
    if ls == [] {
      assert PrintBody(ls) + rest == rest;
    } else {
      var line := [ls[0].kind] + ls[0].text;
      var all := PrintBody(ls) + rest;
      assert all[0] == line && all[1..] == PrintBody(ls[1..]) + rest;
      assert line[0] == ls[0].kind && line[1..] == ls[0].text;
      assert "@@ "[0] == '@' && "\\"[0] == '\\';
      LookalikePrefix(ls[0]);
      BodyRead(ls[1..], rest);
      assert ls == [ls[0]] + ls[1..];
    }
  }

  lemma {:induction false} LookalikePrefix(l: DiffLine)
    ensures StartsFile([l.kind] + l.text) <==> LooksLikeFile(l)
  {
    var line := [l.kind] + l.text;
    assert line[1..] == l.text;
    assert "--- " == ['-'] + "-- ";
    if LooksLikeFile(l) {
      assert l.text == "-- " + l.text[3..];
      assert line == "--- " + l.text[3..];
    }
    if StartsFile(line) {
      assert line[0] == "--- "[0];
      assert l.text[..3] == line[1..4] == "-- ";
    }
  }

  lemma {:induction false} HeaderShape(h: DiffHunk)
    ensures StartsHunk(HunkHeader(h)) && !StartsFile(HunkHeader(h)) && !GitNoise(HunkHeader(h))
  {
    var s := HunkHeader(h);
    assert s[0] == '@' && s[..3] == "@@ ";
    assert "--- "[0] == '-' && "diff --git "[0] == 'd' && "index "[0] == 'i';
  }

  lemma {:induction false} PrintHunksShape(hunks: seq<DiffHunk>, rest: seq<string>)
    requires EndsHunks(rest)
    ensures EndsBody(PrintHunks(hunks) + rest)
  {
    if hunks == [] {
      assert PrintHunks(hunks) + rest == rest;
    } else {
      HeaderShape(hunks[0]);
    }
  }

  lemma {:induction false} Unstack<T>(x: T, ys: seq<T>, zs: seq<T>, rest: seq<T>)
    ensures ([x] + (ys + zs) + rest)[1..] == ys + (zs + rest)
  {
  }

  lemma {:induction false} HeadOfPrintedHunks(hunks: seq<DiffHunk>, rest: seq<string>)
    requires hunks != []
    ensures var all := PrintHunks(hunks) + rest;
      all != [] && all[0] == HunkHeader(hunks[0])
      && all[1..] == PrintBody(hunks[0].lines) + (PrintHunks(hunks[1..]) + rest)
  {
    Unstack(HunkHeader(hunks[0]), PrintBody(hunks[0].lines), PrintHunks(hunks[1..]), rest);
  }

  lemma {:induction false} ReadOneHunk(h: DiffHunk, lines: seq<string>)
    requires CleanHunk(h) && lines != [] && lines[0] == HunkHeader(h)
    ensures HunkList(lines) ==
      var body := HunkBody(lines[1..]);
      if body.Failure? then Failure(body.error)
      else if body.value.0 == [] then Failure(MalformedUnifiedDiff)
      else PutBefore([h.(lines := body.value.0)], HunkList(body.value.1))
  {
    HeaderShape(h);
    HunkHeaderRead(h);
  }

  lemma {:induction false} PutFirstHunk(h: DiffHunk, tail: seq<DiffHunk>, r: Result<(seq<DiffHunk>, seq<string>)>,
                                        h': DiffHunk)
    ensures r.Success? && r.value.0 == tail ==> PutBefore([h], r) == Success(([h] + tail, r.value.1))
    ensures var out := PutBefore([h'], r);
      out.Success? && out.value.0 == [h] + tail ==> h' == h && r.value.0 == tail
  {
    var out := PutBefore([h'], r);
    if out.Success? && out.value.0 == [h] + tail {
      assert out.value.0[0] == h' && out.value.0[1..] == r.value.0 && ([h] + tail)[1..] == tail;
    }
  }

  lemma {:induction false} SplitAll(hunks: seq<DiffHunk>)
    requires hunks != []
    ensures AllClean(hunks) <==> CleanHunk(hunks[0]) && AllClean(hunks[1..])
    ensures AllPrintable(hunks) <==> PrintableHunk(hunks[0]) && AllPrintable(hunks[1..])
    ensures hunks == [hunks[0]] + hunks[1..]
  {
    assert forall i :: 1 <= i < |hunks| ==> hunks[i] == hunks[1..][i - 1];
  }

  /** Printed hunks are read back as they are exactly when no line looks like a file header. */
  lemma {:induction false} HunksRead(hunks: seq<DiffHunk>, rest: seq<string>)
    requires AllClean(hunks)
    requires EndsHunks(rest)
    ensures
      var r := HunkList(PrintHunks(hunks) + rest);
      if AllPrintable(hunks)
      then r == Success((hunks, rest))
      else r.Failure? || r.value.0 != hunks
  {
    if hunks == [] {
      assert PrintHunks(hunks) + rest == rest;
    } else {
      var h, tail := hunks[0], hunks[1..];
      var after := PrintHunks(tail) + rest;
      HeadOfPrintedHunks(hunks, rest);
      PrintHunksShape(tail, rest);
      BodyRead(h.lines, after);
      ReadOneHunk(h, PrintHunks(hunks) + rest);
      SplitAll(hunks);
      var body := HunkBody(PrintBody(h.lines) + after).value;
      PutFirstHunk(h, tail, HunkList(body.1), h.(lines := body.0));
      if NoFileLookalike(h.lines) {
        HunksRead(tail, rest);
      }
    }
  }

  // ---------------------------------------------------------------- reading printed files

  lemma {:induction false} HeadOfPrintedPatches(patches: seq<FilePatch>)
    requires patches != []
    ensures var all := PrintPatches(patches);
      && |all| >= 2
      && all[0] == OldLine(patches[0].targetPath) && all[1] == NewLine(patches[0].targetPath)
      && all[2..] == PrintHunks(patches[0].hunks) + PrintPatches(patches[1..])
      && StartsFile(all[0])
  {
    var all := PrintPatches(patches);
    assert all[1..][1..] == all[2..];
  }

  lemma {:induction false} HeaderOfLines(path: string, lines: seq<string>)
    requires |lines| >= 2 && lines[0] == OldLine(path) && lines[1] == NewLine(path)
    ensures FileHeader(lines) == Success(path) <==>
      path != "/dev/null" && '\t' !in path && (path != "" ==> !IsSpace(path[|path| - 1]))
  {
    assert OldLine(path)[4..] == "a/" + path;
    assert NewLine(path)[4..] == "b/" + path && NewLine(path)[..4] == "+++ ";
    StripPrinted("a/", path);
    StripPrinted("b/", path);
  }

  lemma {:induction false} PrintedFileHeader(patches: seq<FilePatch>)
    requires patches != []
    ensures var path := patches[0].targetPath;
      FileHeader(PrintPatches(patches)) == Success(path) <==>
      path != "/dev/null" && '\t' !in path && (path != "" ==> !IsSpace(path[|path| - 1]))
  {
    HeadOfPrintedPatches(patches);
    HeaderOfLines(patches[0].targetPath, PrintPatches(patches));
  }

  lemma {:induction false} PrintPatchesShape(patches: seq<FilePatch>)
    ensures EndsHunks(PrintPatches(patches))
  {
    if patches != [] {
      HeadOfPrintedPatches(patches);
    }
  }

  lemma {:induction false} FilesRead(patches: seq<FilePatch>)
    requires forall i :: 0 <= i < |patches| ==> CleanPatch(patches[i])
    ensures FileList(PrintPatches(patches)) == Success(patches)
      <==> forall i :: 0 <= i < |patches| ==> PrintablePatch(patches[i])
  {
    if patches != [] {
      var p, tail := patches[0], patches[1..];
      FilesRead(tail);
      assert patches == [p] + tail;
      if PrintablePatch(p) {
        FirstPatchRead(patches);
        PutFirst(p, tail, FileList(PrintPatches(tail)));
      } else {
        FirstPatchDiffers(patches);
      }
    }
  }

  lemma {:induction false} PutFirst(p: FilePatch, tail: seq<FilePatch>, r: Result<seq<FilePatch>>)
    ensures Prepend([p], r) == Success([p] + tail) <==> r == Success(tail)
  {
    if Prepend([p], r) == Success([p] + tail) {
      assert ([p] + r.value)[1..] == r.value && ([p] + tail)[1..] == tail;
    }
  }

  lemma {:induction false} FirstPatchRead(patches: seq<FilePatch>)
    requires patches != [] && CleanPatch(patches[0])
    requires PrintablePatch(patches[0])
    ensures FileList(PrintPatches(patches)) == Prepend([patches[0]], FileList(PrintPatches(patches[1..])))
  {
    HeadOfPrintedPatches(patches);
    PrintedFileHeader(patches);
    PrintPatchesShape(patches[1..]);
    HunksRead(patches[0].hunks, PrintPatches(patches[1..]));
    FileListUnfolds(PrintPatches(patches), patches[0], PrintPatches(patches[1..]));
  }

  lemma {:induction false} FirstPatchDiffers(patches: seq<FilePatch>)
    requires patches != [] && CleanPatch(patches[0])
    requires !PrintablePatch(patches[0])
    ensures FileList(PrintPatches(patches)) != Success(patches)
  {
    var p, all := patches[0], PrintPatches(patches);
    HeadOfPrintedPatches(patches);
    PrintedFileHeader(patches);
    PrintPatchesShape(patches[1..]);
    HunksRead(p.hunks, PrintPatches(patches[1..]));
    var r := FileList(all);
    if r.Success? && r.value != [] {
      assert FileHeader(all).Success? && HunkList(all[2..]).Success?;
      assert r.value[0] == FilePatch(FileHeader(all).value, HunkList(all[2..]).value.0);
    }
  }

  // ---------------------------------------------------------------- what the parser can return

  lemma {:induction false} HunkBodyClean(lines: seq<string>)
    requires forall i :: 0 <= i < |lines| ==> BreakFree(lines[i])
    requires HunkBody(lines).Success?
    ensures var (ls, rest) := HunkBody(lines).value;
      && (forall i :: 0 <= i < |ls| ==> ls[i].kind in {' ', '-', '+'} && BreakFree(ls[i].text))
      && (forall i :: 0 <= i < |rest| ==> BreakFree(rest[i]))
  {
    if lines == [] || StartsHunk(lines[0]) || StartsFile(lines[0]) {
    } else {
      HunkBodyClean(lines[1..]);
    }
  }

  lemma {:induction false} HunkListClean(lines: seq<string>)
    requires forall i :: 0 <= i < |lines| ==> BreakFree(lines[i])
    requires HunkList(lines).Success?
    ensures var (hunks, rest) := HunkList(lines).value;
      && AllClean(hunks)
      && (forall i :: 0 <= i < |rest| ==> BreakFree(rest[i]))
    decreases |lines|
  {
    if lines == [] || StartsFile(lines[0]) {
    } else if GitNoise(lines[0]) {
      HunkListClean(lines[1..]);
    } else {
      HunkBodyClean(lines[1..]);
      HunkListClean(HunkBody(lines[1..]).value.1);
    }
  }

  lemma {:induction false} StripBreakFree(s: string)
    requires BreakFree(s)
    ensures BreakFree(StripRight(s)) && BreakFree(StripLeft(s)) && BreakFree(BeforeTab(s))
  {
    if s != "" {
      StripBreakFree(s[1..]);
      StripBreakFree(s[..|s| - 1]);
    }
  }

  lemma {:induction false} StripDiffPathBreakFree(s: string)
    requires BreakFree(s)
    ensures BreakFree(StripDiffPath(s))
  {
    StripBreakFree(s);
    StripBreakFree(StripRight(s));
    StripBreakFree(StripLeft(StripRight(s)));
  }

  lemma {:induction false} FileListClean(lines: seq<string>)
    requires forall i :: 0 <= i < |lines| ==> BreakFree(lines[i])
    requires FileList(lines).Success?
    ensures forall i :: 0 <= i < |FileList(lines).value| ==>
      CleanPatch(FileList(lines).value[i])
    decreases |lines|
  {
    if lines == [] {
    } else if !StartsFile(lines[0]) {
      FileListClean(lines[1..]);
    } else {
      StripDiffPathBreakFree(lines[1][4..]);
      HunkListClean(lines[2..]);
      FileListClean(HunkList(lines[2..]).value.1);
    }
  }

  /** Every patch the parser returns has hunks, every hunk has lines of the three kinds, and no
      text in it contains a line break. */
  lemma {:induction false} ParsedDiffIsClean(diffText: string)
    requires ParsedDiff(diffText).Success?
    ensures var patches := ParsedDiff(diffText).value;
      patches != [] && forall i :: 0 <= i < |patches| ==>
        CleanPatch(patches[i])
  {
    SplitLinesBreakFree(diffText);
    FileListClean(SplitLines(diffText));
  }

  // ---------------------------------------------------------------- the round trip

  /** A line of a printed diff: no break in it, and one of four first characters. */
  predicate DiffShaped(line: string) {
    BreakFree(line) && line != "" && line[0] in {'@', ' ', '-', '+'}
  }

  lemma {:induction false} DecimalBreakFree(n: int)
    ensures BreakFree(Decimal(n))
  {
    assert forall c: char :: IsDigit(c) ==> !IsBreak(c);
  }

  lemma {:induction false} HunkHeaderBreakFree(h: DiffHunk)
    ensures BreakFree(HunkHeader(h))
  {
    DecimalBreakFree(h.oldStart);
    DecimalBreakFree(h.oldCount);
    DecimalBreakFree(h.newStart);
    DecimalBreakFree(h.newCount);
    assert BreakFree("@@ -") && BreakFree(",") && BreakFree(" +") && BreakFree(" @@");
  }

  lemma {:induction false} PrintBodyShaped(ls: seq<DiffLine>)
    requires forall i :: 0 <= i < |ls| ==> ls[i].kind in {' ', '-', '+'} && BreakFree(ls[i].text)
    ensures forall line :: line in PrintBody(ls) ==> DiffShaped(line)
  {
    forall i | 0 <= i < |ls| ensures DiffShaped(PrintBody(ls)[i]) {
      assert PrintBody(ls)[i] == [ls[i].kind] + ls[i].text;
    }
  }

  lemma {:induction false} PrintHunksBreakFree(hunks: seq<DiffHunk>)
    requires AllClean(hunks)
    ensures forall line :: line in PrintHunks(hunks) ==> DiffShaped(line)
  {
    if hunks != [] {
      HunkHeaderBreakFree(hunks[0]);
      assert DiffShaped(HunkHeader(hunks[0]));
      PrintBodyShaped(hunks[0].lines);
      PrintHunksBreakFree(hunks[1..]);
    }
  }

  lemma {:induction false} PrintPatchesBreakFree(patches: seq<FilePatch>)
    requires forall i :: 0 <= i < |patches| ==> CleanPatch(patches[i])
    ensures forall line :: line in PrintPatches(patches) ==> DiffShaped(line)
  {
    if patches != [] {
      assert BreakFree("--- a/") && BreakFree("+++ b/");
      assert DiffShaped(OldLine(patches[0].targetPath)) && DiffShaped(NewLine(patches[0].targetPath));
      PrintHunksBreakFree(patches[0].hunks);
      PrintPatchesBreakFree(patches[1..]);
    }
  }

  /** Of the refusals, only the phrases can hit a printed line. */
  lemma {:induction false} ScanPrinted(line: string)
    requires DiffShaped(line)
    ensures ScanLine(line) == if RefusedPhrase(line) then Refused(ShellExecutionRequestRejected) else Clean
  {
    assert "Binary files "[0] == 'B' && "GIT binary patch"[0] == 'G' && "new file mode"[0] == 'n';
    assert "deleted file mode"[0] == 'd' && "old mode "[0] == 'o' && "new mode "[0] == 'n';
    assert "rename from "[0] == 'r' && "rename to "[0] == 'r' && "copy from "[0] == 'c' && "copy to "[0] == 'c';
  }

  lemma {:induction false} ScanAllPrinted(lines: seq<string>)
    requires forall line :: line in lines ==> DiffShaped(line)
    ensures ScanLines(lines) == Clean <==> forall line :: line in lines ==> !RefusedPhrase(line)
  {
    if lines != [] {
      assert lines[0] in lines;
      forall line | line in lines[1..] ensures line in lines {}
      ScanPrinted(lines[0]);
      ScanAllPrinted(lines[1..]);
      assert lines == [lines[0]] + lines[1..];
    }
  }

  /** Parsing text that was joined from break-free lines parses those lines. */
  lemma {:induction false} ParseJoined(lines: seq<string>)
    requires lines != [] && lines[0] != "" && !IsSpace(lines[0][0])
    requires forall i :: 0 <= i < |lines| ==> BreakFree(lines[i])
    ensures ParsedDiff(Unlines(lines)) ==
      if ScanLines(lines).Refused? then Failure(ScanLines(lines).error)
      else if FileList(lines) == Success([]) then Failure(MalformedUnifiedDiff)
      else FileList(lines)
  {
    SplitLinesOfUnlines(lines);
    assert Unlines(lines)[0] == lines[0][0];
    assert !Blank(Unlines(lines));
  }

  lemma {:induction false} ParsePrinted(patches: seq<FilePatch>)
    requires patches != []
    requires forall i :: 0 <= i < |patches| ==> CleanPatch(patches[i])
    ensures ParsedDiff(PrintDiff(patches)) == Success(patches) <==> Printable(patches)
  {
    var lines := PrintPatches(patches);
    HeadOfPrintedPatches(patches);
    PrintPatchesBreakFree(patches);
    assert forall i :: 0 <= i < |lines| ==> BreakFree(lines[i]) by {
      assert forall i :: 0 <= i < |lines| ==> lines[i] in lines;
    }
    ParseJoined(lines);
    ScanAllPrinted(lines);
    FilesRead(patches);
  }

  /** Parsing undoes printing exactly for the printable patches. */
  lemma {:induction false} ParseUndoesPrint(patches: seq<FilePatch>)
    ensures ParsedDiff(PrintDiff(patches)) == Success(patches) <==> Printable(patches)
  {
    if ParsedDiff(PrintDiff(patches)) == Success(patches) {
      ParsedDiffIsClean(PrintDiff(patches));
      ParsePrinted(patches);
    } else if Printable(patches) {
      forall i | 0 <= i < |patches| ensures CleanPatch(patches[i]) {
        assert PrintablePatch(patches[i]);
      }
      ParsePrinted(patches);
    }
  }
}
