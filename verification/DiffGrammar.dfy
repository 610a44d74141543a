/** The diff grammar said without its parser: which header lines match, which lines make up a hunk, which
    may stand in front of one, and which phrases are refused. */
module DiffGrammar {
  import opened Lines
  import opened Substrings
  import opened Numerals
  import opened UnifiedDiff
  import opened DiffParser
  import opened DiffPrinting
  import opened DiffReprinting
  import opened DiffHeaders
  import opened ProposalDiff

  // ---------------------------------------------------------------- white space

  const SPACES: set<char> := {
    '\U{09}', '\U{0A}', '\U{0B}', '\U{0C}', '\U{0D}', '\U{1C}', '\U{1D}', '\U{1E}', '\U{1F}', '\U{20}', '\U{85}',
    '\U{A0}', '\U{1680}', '\U{2000}', '\U{2001}', '\U{2002}', '\U{2003}', '\U{2004}', '\U{2005}', '\U{2006}',
    '\U{2007}', '\U{2008}', '\U{2009}', '\U{200A}', '\U{2028}', '\U{2029}', '\U{202F}', '\U{205F}', '\U{3000}'}

  /** The 29 characters that stripping removes. */
  lemma {:induction false} SpaceCharacters(c: char)
    ensures IsSpace(c) <==> c in SPACES
  {
  }

  // ---------------------------------------------------------------- the header of a hunk

  /** One or more digits that spell `n`; leading zeros are allowed. */
  predicate NumberText(s: string, n: nat) {
    s != "" && (forall i :: 0 <= i < |s| ==> IsDigit(s[i])) && NatOf(s) == n
  }

  /** Nothing, for a count of 1, or a comma and a number. */
  predicate CountText(s: string, n: nat) {
    if s == "" then n == 1 else s[0] == ',' && NumberText(s[1..], n)
  }

  /** The text of a start and a count. */
  datatype Side = Side(start: string, count: string)

  predicate SideText(side: Side, start: nat, count: nat) {
    NumberText(side.start, start) && CountText(side.count, count)
  }

  function Spell(oldSide: Side, newSide: Side, tail: string): string {
    "@@ -" + (oldSide.start + (oldSide.count + (" +" + (newSide.start + (newSide.count + (" @@" + tail))))))
  }

  predicate Spells(header: string, oldSide: Side, newSide: Side, tail: string, a: nat, b: nat, c: nat, d: nat) {
    SideText(oldSide, a, b) && SideText(newSide, c, d) && header == Spell(oldSide, newSide, tail)
  }

  lemma {:induction false} ReadNumberOf(digits: string, n: nat, rest: string)
    requires NumberText(digits, n) && (rest == "" || !IsDigit(rest[0]))
    ensures ReadNumber(digits + rest) == Number(n, rest)
  {
    DigitRunStops(digits, rest);
    assert (digits + rest)[..|digits|] == digits && (digits + rest)[|digits|..] == rest;
  }

  lemma {:induction false} ReadCountOf(s: string, n: nat, rest: string)
    requires CountText(s, n) && rest != "" && !IsDigit(rest[0]) && rest[0] != ','
    ensures ReadCount(s + rest) == Number(n, rest)
  {
    if s == "" {
      assert s + rest == rest;
    } else {
      ReadNumberOf(s[1..], n, rest);
      assert (s + rest)[1..] == s[1..] + rest;
    }
  }

  lemma {:induction false} NumberRead(s: string) returns (digits: string)
    requires ReadNumber(s).Number?
    ensures NumberText(digits, ReadNumber(s).value) && s == digits + ReadNumber(s).rest
  {
    digits := s[..DigitRun(s)];
  }

  lemma {:induction false} CountRead(s: string) returns (t: string)
    ensures CountText(t, ReadCount(s).value) && s == t + ReadCount(s).rest
  {
    if s != "" && s[0] == ',' && ReadNumber(s[1..]).Number? {
      var digits := NumberRead(s[1..]);
      t := "," + digits;
      assert t[1..] == digits && s == [','] + s[1..];
    } else {
      t := "";
    }
  }

  /** A line is read as a hunk header with these four numbers exactly when it spells them: `@@ -`, a number,
      perhaps a comma and a count, ` +`, the same again, ` @@`, and anything. */
  lemma {:induction false} HeaderMeans(header: string, a: nat, b: nat, c: nat, d: nat)
    ensures ParseHunkHeader(header) == Success((a, b, c, d)) <==>
      exists oldSide, newSide, tail :: Spells(header, oldSide, newSide, tail, a, b, c, d)
  {
    if ParseHunkHeader(header) == Success((a, b, c, d)) {
      SpeltOut(header, a, b, c, d);
    }
    if oldSide, newSide, tail :| Spells(header, oldSide, newSide, tail, a, b, c, d) {
      SpellingRead(oldSide, newSide, tail, a, b, c, d);
    }
  }

  lemma {:induction false} SpeltOut(header: string, a: nat, b: nat, c: nat, d: nat)
    requires ParseHunkHeader(header) == Success((a, b, c, d))
    ensures exists oldSide, newSide, tail :: Spells(header, oldSide, newSide, tail, a, b, c, d)
  {
    var oldSide, between := SideRead(header[4..]);
    var newSide, behind := SideRead(between[2..]);
    Behind("@@ -", header);
    Behind(" +", between);
    Behind(" @@", behind);
    assert Spells(header, oldSide, newSide, behind[3..], a, b, c, d);
  }

  lemma {:induction false} SideRead(text: string) returns (side: Side, rest: string)
    requires ReadNumber(text).Number?
    ensures SideText(side, ReadNumber(text).value, ReadCount(ReadNumber(text).rest).value)
    ensures rest == ReadCount(ReadNumber(text).rest).rest && text == side.start + (side.count + rest)
  {
    var start := NumberRead(text);
    var count := CountRead(ReadNumber(text).rest);
    side, rest := Side(start, count), ReadCount(ReadNumber(text).rest).rest;
  }

  lemma {:induction false} Behind(prefix: string, s: string)
    requires prefix <= s
    ensures s == prefix + s[|prefix|..]
  {
  }

  lemma {:induction false} SpellingRead(oldSide: Side, newSide: Side, tail: string, a: nat, b: nat, c: nat, d: nat)
    requires SideText(oldSide, a, b) && SideText(newSide, c, d)
    ensures ParseHunkHeader(Spell(oldSide, newSide, tail)) == Success((a, b, c, d))
  {
    var behind := " @@" + tail;
    var between := " +" + (newSide.start + (newSide.count + behind));
    var header := Spell(oldSide, newSide, tail);
    assert header[4..] == oldSide.start + (oldSide.count + between);
    assert between[2..] == newSide.start + (newSide.count + behind);
    ReadNumberOf(oldSide.start, a, oldSide.count + between);
    ReadCountOf(oldSide.count, b, between);
    ReadNumberOf(newSide.start, c, newSide.count + behind);
    ReadCountOf(newSide.count, d, behind);
  }

  // ---------------------------------------------------------------- the lines of a hunk

  /** No line starts with `@@ ` or `--- `. */
  predicate InsideHunk(lines: seq<string>) {
    forall i :: 0 <= i < |lines| ==> !("@@ " <= lines[i]) && !("--- " <= lines[i])
  }

  predicate BodyLine(line: string) {
    line != "" && line[0] in {' ', '-', '+', '\\'}
  }

  predicate AllBodyLines(lines: seq<string>) {
    forall i :: 0 <= i < |lines| ==> BodyLine(lines[i])
  }

  lemma {:induction false} FirstBodyLine(lines: seq<string>)
    requires lines != []
    ensures AllBodyLines(lines) <==> BodyLine(lines[0]) && AllBodyLines(lines[1..])
    ensures InsideHunk(lines) ==> InsideHunk(lines[1..])
  {
    assert forall i :: 0 < i < |lines| ==> lines[i] == lines[1..][i - 1];
  }

  /** The lines that do not begin with a backslash. */
  function Unmarked(lines: seq<string>): seq<string> {
    if lines == [] then [] else (if "\\" <= lines[0] then [] else [lines[0]]) + Unmarked(lines[1..])
  }

  /** A hunk reaches to the next line that starts with `@@ ` or `--- `. It is read exactly when each of its
      lines begins with a blank, a sign or a backslash, and what is read are its lines without the last kind. */
  lemma {:induction false} BodyMeans(body: seq<string>, rest: seq<string>)
    requires InsideHunk(body) && (rest == [] || "@@ " <= rest[0] || "--- " <= rest[0])
    ensures var r := HunkBody(body + rest);
      if AllBodyLines(body)
      then r.Success? && r.value.1 == rest && PrintBody(r.value.0) == Unmarked(body)
      else r == Failure(MalformedUnifiedDiff)
  {
    if body == [] {
      assert body + rest == rest;
    } else {
      assert body + rest == [body[0]] + (body[1..] + rest);
      FirstBodyLine(body);
      BodyMeans(body[1..], rest);
      BodyLineRead(body[0], body[1..] + rest);
    }
  }

  /** One line of it. */
  lemma {:induction false} BodyLineRead(line: string, rest: seq<string>)
    requires !("@@ " <= line) && !("--- " <= line)
    ensures var r, tail := HunkBody([line] + rest), HunkBody(rest);
      if !BodyLine(line) || tail.Failure? then
        r == Failure(if BodyLine(line) then tail.error else MalformedUnifiedDiff)
      else
        && r.Success? && r.value.1 == tail.value.1
        && PrintBody(r.value.0) == (if "\\" <= line then [] else [line]) + PrintBody(tail.value.0)
  {
    assert ([line] + rest)[1..] == rest;
    if BodyLine(line) && !("\\" <= line) && HunkBody(rest).Success? {
      assert line == [line[0]] + line[1..];
      PrintBodyCons(DiffLine(line[0], line[1..]), HunkBody(rest).value.0);
    }
  }

  lemma {:induction false} PrintBodyCons(l: DiffLine, ls: seq<DiffLine>)
    ensures PrintBody([l] + ls) == [[l.kind] + l.text] + PrintBody(ls)
  {
    assert ([l] + ls)[1..] == ls;
  }

  // ---------------------------------------------------------------- in front of the first hunk

  /** Between the header lines of a file and its hunks, only a line of these two kinds may stand. */
  lemma {:induction false} LineBeforeHunks(p: FilePatch, line: string)
    requires CleanPatch(p) && PrintablePatch(p) && NoneRefused([OldLine(p.targetPath), NewLine(p.targetPath)])
    requires NoneRefused(PrintHunks(p.hunks)) && BreakFree(line) && ScanLine(line) == Clean
    requires !("@@ " <= line) && !("--- " <= line)
    ensures ParsedDiff(Unlines([OldLine(p.targetPath), NewLine(p.targetPath), line] + PrintHunks(p.hunks))) ==
      if "diff --git " <= line || "index " <= line then Success([p]) else Failure(MalformedUnifiedDiff)
  {
    var lines := [OldLine(p.targetPath), NewLine(p.targetPath), line] + PrintHunks(p.hunks);
    AllReadable(p, line);
    LineThenHunks(p.hunks, line);
    assert lines[2..] == [line] + PrintHunks(p.hunks);
    OneFile(lines, p);
  }

  lemma {:induction false} LineThenHunks(hunks: seq<DiffHunk>, line: string)
    requires AllClean(hunks) && AllPrintable(hunks) && !("@@ " <= line) && !("--- " <= line)
    ensures HunkList([line] + PrintHunks(hunks)) ==
      if "diff --git " <= line || "index " <= line then Success((hunks, [])) else Failure(MalformedUnifiedDiff)
  {
    HunksRead(hunks, []);
    assert ([line] + PrintHunks(hunks))[1..] == PrintHunks(hunks) && PrintHunks(hunks) + [] == PrintHunks(hunks);
  }

  lemma {:induction false} OneFile(lines: seq<string>, p: FilePatch)
    requires |lines| >= 2 && lines[0] == OldLine(p.targetPath) && lines[1] == NewLine(p.targetPath)
    requires Readable(lines) && PrintablePatch(p) && p.hunks != []
    ensures HunkList(lines[2..]) == Success((p.hunks, [])) ==> ParsedDiff(Unlines(lines)) == Success([p])
    ensures HunkList(lines[2..]).Failure? ==> ParsedDiff(Unlines(lines)) == Failure(HunkList(lines[2..]).error)
  {
    assert OldLine(p.targetPath)[0] == '-' && !IsSpace('-');
    ReadableReads(lines);
    HeaderOfLines(p.targetPath, lines);
    assert [p] + [] == [p];
  }

  lemma {:induction false} AllReadable(p: FilePatch, line: string)
    requires CleanPatch(p) && NoneRefused([OldLine(p.targetPath), NewLine(p.targetPath)])
    requires NoneRefused(PrintHunks(p.hunks)) && BreakFree(line) && ScanLine(line) == Clean
    ensures Readable([OldLine(p.targetPath), NewLine(p.targetPath), line] + PrintHunks(p.hunks))
  {
    var names, hunks := [OldLine(p.targetPath), NewLine(p.targetPath)], PrintHunks(p.hunks);
    NamesShaped(p.targetPath);
    ShapedIsReadable(names);
    PrintHunksBreakFree(p.hunks);
    ShapedIsReadable(hunks);
    assert names + [line] + hunks == [OldLine(p.targetPath), NewLine(p.targetPath), line] + hunks;
    ReadableParts(names, [line], hunks);
  }

  lemma {:induction false} NamesShaped(path: string)
    requires BreakFree(path)
    ensures forall line :: line in [OldLine(path), NewLine(path)] ==> DiffShaped(line)
  {
    assert BreakFree("--- a/") && BreakFree("+++ b/");
    assert OldLine(path)[0] == '-' && NewLine(path)[0] == '+';
  }

  lemma {:induction false} ShapedIsReadable(lines: seq<string>)
    requires NoneRefused(lines) && forall line :: line in lines ==> DiffShaped(line)
    ensures Readable(lines)
  {
    forall line | line in lines ensures ScanLine(line) == Clean {
      ScanPrinted(line);
    }
  }

  lemma {:induction false} ReadableParts(a: seq<string>, b: seq<string>, c: seq<string>)
    requires Readable(a) && Readable(b) && Readable(c)
    ensures Readable(a + b + c)
  {
  }

  // ---------------------------------------------------------------- what the lenient parser asks for

  /** No line starts a file. */
  predicate NoFiles(lines: seq<string>) {
    forall i :: 0 <= i < |lines| ==> !("--- " <= lines[i])
  }

  predicate HasHunk(lines: seq<string>) {
    exists i :: 0 <= i < |lines| && "@@ " <= lines[i]
  }

  /** The list begins with a header that names one file, and a hunk starts before the next file does. */
  ghost predicate GoodStart(lines: seq<string>) {
    && |lines| >= 2 && "--- " <= lines[0] && HeaderAt(lines, 0, StripDiffPath(lines[0][4..]))
    && exists m: nat :: 2 <= m <= |lines| && HunkBefore(lines, m)
  }

  predicate HunkBefore(lines: seq<string>, m: nat)
    requires 2 <= m <= |lines|
  {
    NoFiles(lines[2..m]) && HasHunk(lines[2..m])
  }

  /** From every `--- ` line on. */
  ghost predicate SectionsGood(lines: seq<string>) {
    forall k :: 0 <= k < |lines| && "--- " <= lines[k] ==> GoodStart(lines[k..])
  }

  lemma {:induction false} GoodParts(front: seq<string>, rest: seq<string>)
    requires front != [] && NoFiles(front[1..])
    ensures SectionsGood(front + rest) <==>
      ("--- " <= front[0] ==> GoodStart(front + rest)) && SectionsGood(rest)
  {
    var all, n := front + rest, |front|;
    assert all[0..] == all && all[0] == front[0];
    forall k | 0 <= k < |rest| ensures all[n + k..] == rest[k..] && all[n + k] == rest[k] {}
    if SectionsGood(all) {
      forall k | 0 <= k < |rest| && "--- " <= rest[k] ensures GoodStart(rest[k..]) {
        assert "--- " <= all[n + k];
      }
    }
    if ("--- " <= front[0] ==> GoodStart(all)) && SectionsGood(rest) {
      forall k | 0 <= k < |all| && "--- " <= all[k] ensures GoodStart(all[k..]) {
        if k >= n {
          assert all[k] == rest[k - n] && all[k..] == rest[k - n..];
        } else if k > 0 {
          assert all[k] == front[1..][k - 1];
        }
      }
    }
  }

  /** Where a section ends, and whether it has a hunk. */
  lemma {:induction false} SectionMeans(lines: seq<string>) returns (n: nat)
    ensures n <= |lines| && Section(lines) == (HasHunk(lines[..n]), lines[n..])
    ensures NoFiles(lines[..n]) && (n < |lines| ==> "--- " <= lines[n])
  {
    if lines == [] || StartsFile(lines[0]) {
      n := 0;
    } else {
      var m := SectionMeans(lines[1..]);
      n := m + 1;
      assert lines[1..][m..] == lines[n..] && lines[..n] == [lines[0]] + lines[1..][..m];
      HunkInFront(lines[0], lines[1..][..m]);
    }
  }

  lemma {:induction false} HunkInFront(line: string, lines: seq<string>)
    ensures HasHunk([line] + lines) <==> "@@ " <= line || HasHunk(lines)
  {
    var all := [line] + lines;
    if "@@ " <= line {
      assert all[0] == line;
    }
    if i :| 0 <= i < |lines| && "@@ " <= lines[i] {
      assert all[i + 1] == lines[i];
    }
  }

  lemma {:induction false} FirstSectionGood(lines: seq<string>, n: nat)
    requires |lines| >= 2 && "--- " <= lines[0] && n <= |lines| - 2
    requires NoFiles(lines[2..2 + n]) && (2 + n < |lines| ==> "--- " <= lines[2 + n])
    ensures GoodStart(lines) <==> FileHeader(lines).Success? && HasHunk(lines[2..2 + n])
  {
    if GoodStart(lines) {
      var m: nat :| 2 <= m <= |lines| && HunkBefore(lines, m);
      var i :| 0 <= i < m - 2 && "@@ " <= lines[2..m][i];
      forall k | 2 <= k < m ensures !("--- " <= lines[k]) {
        assert lines[2..m][k - 2] == lines[k];
      }
      assert m <= 2 + n;
      assert lines[2..2 + n][i] == lines[2..m][i];
    }
    if FileHeader(lines).Success? && HasHunk(lines[2..2 + n]) {
      assert HunkBefore(lines, 2 + n);
    }
  }

  /** The lenient parser reads a list of lines exactly when every `--- ` line of it begins the header of one
      file, with a `@@ ` line before the next such line. */
  lemma {:induction false} LenientReads(lines: seq<string>)
    ensures TargetList(lines).Success? <==> SectionsGood(lines)
    decreases |lines|
  {
    if lines == [] {
    } else if !StartsFile(lines[0]) {
      LenientReads(lines[1..]);
      GoodParts([lines[0]], lines[1..]);
      assert [lines[0]] + lines[1..] == lines;
    } else if |lines| < 2 || !("+++ " <= lines[1]) {
      assert lines[0..] == lines && !GoodStart(lines);
    } else {
      var n := SectionMeans(lines[2..]);
      assert lines[2..][..n] == lines[2..2 + n] && lines[2..][n..] == lines[2 + n..];
      FirstSectionGood(lines, n);
      LenientReads(lines[2 + n..]);
      FrontOfSection(lines, 2 + n);
      GoodParts(lines[..2 + n], lines[2 + n..]);
    }
  }

  lemma {:induction false} FrontOfSection(lines: seq<string>, m: nat)
    requires 2 <= m <= |lines| && "+++ " <= lines[1] && NoFiles(lines[2..m])
    ensures lines[..m] + lines[m..] == lines && NoFiles(lines[..m][1..])
  {
    assert "+++ "[0] == '+' && "--- "[0] == '-';
    assert lines[..m][1..] == [lines[1]] + lines[2..m];
  }

  // ---------------------------------------------------------------- refused phrases

  /** The letters stand at `i`, each in lower or in upper case. */
  predicate LettersAt(s: string, i: int, lower: string, upper: string)
    requires |lower| == |upper|
  {
    0 <= i <= |s| - |lower| && forall k :: 0 <= k < |lower| ==> s[i + k] == lower[k] || s[i + k] == upper[k]
  }

  /** The word `patch` stands at `i`, between blanks or the ends of the line. */
  predicate PatchAt(s: string, i: int) {
    && LettersAt(s, i, "patch", "PATCH")
    && (i == 0 || s[i - 1] == ' ') && (i + 5 == |s| || s[i + 5] == ' ')
  }

  lemma {:induction false} OccursLowered(s: string, i: int, lower: string, upper: string)
    requires |lower| == |upper|
    requires forall k :: 0 <= k < |lower| ==> forall c: char :: LowerChar(c) == lower[k] <==> c in {lower[k], upper[k]}
    ensures OccursAt(Lower(s), lower, i) <==> LettersAt(s, i, lower, upper)
  {
    if OccursAt(Lower(s), lower, i) {
      forall k | 0 <= k < |lower| ensures s[i + k] == lower[k] || s[i + k] == upper[k] {
        OccurrenceHas(Lower(s), lower, i, k);
        assert Lower(s)[i + k] == LowerChar(s[i + k]);
      }
    }
    if LettersAt(s, i, lower, upper) {
      forall k | 0 <= k < |lower| ensures Lower(s)[i..][k] == lower[k] {
        assert Lower(s)[i + k] == LowerChar(s[i + k]);
      }
    }
  }

  /** A line is refused for its wording exactly when it says `git apply` anywhere, or `patch` as a word between
      blanks, in whatever case. */
  lemma {:induction false} RefusedPhraseMeans(line: string)
    ensures RefusedPhrase(line) <==>
      (exists i :: LettersAt(line, i, "git apply", "GIT APPLY")) || exists i :: PatchAt(line, i)
  {
    forall i ensures OccursAt(Lower(line), "git apply", i) <==> LettersAt(line, i, "git apply", "GIT APPLY") {
      OccursLowered(line, i, "git apply", "GIT APPLY");
    }
    forall i ensures OccursAt(" " + Lower(line) + " ", " patch ", i) <==> PatchAt(line, i) {
      PatchPadded(line, i);
    }
  }

  lemma {:induction false} PatchPadded(line: string, i: int)
    ensures OccursAt(" " + Lower(line) + " ", " patch ", i) <==> PatchAt(line, i)
  {
    var padded := " " + Lower(line) + " ";
    OccursLowered(line, i, "patch", "PATCH");
    assert " patch " == " " + "patch" + " ";
    if OccursAt(padded, " patch ", i) {
      forall k | 0 <= k < 7 ensures i + k < |padded| && padded[i + k] == " patch "[k] {
        OccurrenceHas(padded, " patch ", i, k);
      }
      forall k | 0 <= k < 5 ensures Lower(line)[i..][k] == "patch"[k] {
        assert padded[i + k + 1] == Lower(line)[i + k];
      }
      assert padded[i] == ' ' && padded[i + 6] == ' ';
      assert i > 0 ==> padded[i] == LowerChar(line[i - 1]);
      assert i + 5 < |line| ==> padded[i + 6] == LowerChar(line[i + 5]);
    }
    if PatchAt(line, i) {
      forall k | 0 <= k < 5 ensures padded[i + k + 1] == "patch"[k] {
        OccurrenceHas(Lower(line), "patch", i, k);
      }
      assert padded[i] == ' ' && padded[i + 6] == ' ';
      assert padded[i..][..7] == " patch ";
    }
  }
}
