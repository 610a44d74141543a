/** The strict unified-diff parser of the apply side (runtime_lab/patch_apply/diff_apply.py). */
module DiffParser {
  import opened Lines
  import opened Substrings
  import opened Numerals
  import opened UnifiedDiff

  // ---------------------------------------------------------------- string helpers

  /** The characters `str.strip` removes. */
  predicate IsSpace(c: char) {
    || '\t' <= c <= '\r' || '\U{1C}' <= c <= ' ' || c == '\U{85}' || c == '\U{A0}' || c == '\U{1680}'
    || '\U{2000}' <= c <= '\U{200A}' || c == '\U{2028}' || c == '\U{2029}' || c == '\U{202F}'
    || c == '\U{205F}' || c == '\U{3000}'
  }

  predicate Blank(s: string) {
    forall i :: 0 <= i < |s| ==> IsSpace(s[i])
  }

  function StripLeft(s: string): string {
    if s != "" && IsSpace(s[0]) then StripLeft(s[1..]) else s
  }

  function StripRight(s: string): string {
    if s != "" && IsSpace(s[|s| - 1]) then StripRight(s[..|s| - 1]) else s
  }

  /** `s.split("\t", 1)[0]` */
  function BeforeTab(s: string): string {
    if s == "" || s[0] == '\t' then "" else [s[0]] + BeforeTab(s[1..])
  }

  function LowerChar(c: char): char {
    if 'A' <= c <= 'Z' then (c as int + 32) as char else c
  }

  function Lower(s: string): string {
    seq(|s|, i requires 0 <= i < |s| => LowerChar(s[i]))
  }

  /** `_strip_diff_path` */
  function StripDiffPath(rawPath: string): string {
    var path := BeforeTab(StripLeft(StripRight(rawPath)));
    if path == "/dev/null" then path
    else if "a/" <= path || "b/" <= path then path[2..]
    else path
  }

  // ---------------------------------------------------------------- refused lines

  /** The phrases that look like a request to run a shell. */
  predicate RefusedPhrase(line: string) {
    Contains(Lower(line), "git apply") || Contains(" " + Lower(line) + " ", " patch ")
  }

  datatype Scan = Clean | Refused(error: DiffError)

  function ScanLine(line: string): Scan {
    if "Binary files " <= line || "GIT binary patch" <= line then Refused(BinaryPatchRejected)
    else if "new file mode" <= line then Refused(NewFileRejected)
    else if "deleted file mode" <= line then Refused(DeleteFileRejected)
    else if "old mode " <= line || "new mode " <= line then Refused(ModeChangeRejected)
    else if "rename from " <= line || "rename to " <= line || "copy from " <= line || "copy to " <= line
    then Refused(RenameOrCopyRejected)
    else if RefusedPhrase(line) then Refused(ShellExecutionRequestRejected)
    else Clean
  }

  /** The first refused line decides. */
  function ScanLines(lines: seq<string>): Scan {
    if lines == [] then Clean
    else if ScanLine(lines[0]).Refused? then ScanLine(lines[0])
    else ScanLines(lines[1..])
  }

  method ScanUnsupported(lines: seq<string>) returns (scan: Scan)
    ensures scan == ScanLines(lines)
    ensures scan == Clean <==> forall i :: 0 <= i < |lines| ==> ScanLine(lines[i]) == Clean
  {
    assert lines[0..] == lines;
    for i := 0 to |lines|
      invariant ScanLines(lines) == ScanLines(lines[i..])
      invariant forall j :: 0 <= j < i ==> ScanLine(lines[j]) == Clean
    {
      assert lines[i..][0] == lines[i] && lines[i..][1..] == lines[i + 1..];
      scan := ScanLine(lines[i]);
      if scan.Refused? {
        return;
      }
    }
    scan := Clean;
  }

  // ---------------------------------------------------------------- the hunk header

  /** How many leading digits `s` has: the greedy `\d+`. */
  function DigitRun(s: string): (n: nat)
    ensures n <= |s| && forall i :: 0 <= i < n ==> IsDigit(s[i])
    ensures n < |s| ==> !IsDigit(s[n])
  {
    if s == "" || !IsDigit(s[0]) then 0 else 1 + DigitRun(s[1..])
  }

  function NatOf(digits: string): nat
    requires forall i :: 0 <= i < |digits| ==> IsDigit(digits[i])
  {
    if digits == "" then 0 else
    var last := |digits| - 1;
    assert IsDigit(digits[last]);
    NatOf(digits[..last]) * 10 + (digits[last] as int - '0' as int)
  }

  datatype Number = NoNumber | Number(value: nat, rest: string)

  /** `(\d+)` */
  function ReadNumber(s: string): (r: Number) {
    var n := DigitRun(s);
    if n == 0 then NoNumber else Number(NatOf(s[..n]), s[n..])
  }

  /** `(?:,(\d+))?` with the default of 1 */
  function ReadCount(s: string): (r: Number)
    ensures r.Number?
  {
    if s != "" && s[0] == ',' && ReadNumber(s[1..]).Number? then ReadNumber(s[1..]) else Number(1, s)
  }

  /** `_parse_hunk_header`: the four numbers of `@@ -a,b +c,d @@`; whatever follows is ignored. */
  function ParseHunkHeader(header: string): Result<(nat, nat, nat, nat)> {
    if !("@@ -" <= header) then Failure(MalformedUnifiedDiff) else
    var oldStart := ReadNumber(header[4..]);
    if oldStart.NoNumber? then Failure(MalformedUnifiedDiff) else
    var oldCount := ReadCount(oldStart.rest);
    if !(" +" <= oldCount.rest) then Failure(MalformedUnifiedDiff) else
    var newStart := ReadNumber(oldCount.rest[2..]);
    if newStart.NoNumber? then Failure(MalformedUnifiedDiff) else
    var newCount := ReadCount(newStart.rest);
    if !(" @@" <= newCount.rest) then Failure(MalformedUnifiedDiff) else
    Success((oldStart.value, oldCount.value, newStart.value, newCount.value))
  }

  // ---------------------------------------------------------------- the grammar, on line lists

  predicate StartsFile(line: string) { "--- " <= line }

  predicate StartsHunk(line: string) { "@@ " <= line }

  predicate GitNoise(line: string) { "diff --git " <= line || "index " <= line }

  /** A partial parse: what was read so far goes in front of what the rest yields. */
  function PutBefore<T>(done: seq<T>, r: Result<(seq<T>, seq<string>)>): Result<(seq<T>, seq<string>)> {
    match r
    case Success((more, rest)) => Success((done + more, rest))
    case Failure(e) => Failure(e)
  }

  /** The body of one hunk and the lines behind it. */
  function HunkBody(lines: seq<string>): (r: Result<(seq<DiffLine>, seq<string>)>)
    ensures r.Success? ==> |r.value.1| <= |lines|
  {
    if lines == [] || StartsHunk(lines[0]) || StartsFile(lines[0]) then Success(([], lines))
    else if "\\" <= lines[0] then HunkBody(lines[1..])
    else if lines[0] == "" || lines[0][0] !in {' ', '-', '+'} then Failure(MalformedUnifiedDiff)
    else PutBefore([DiffLine(lines[0][0], lines[0][1..])], HunkBody(lines[1..]))
  }

  /** A hunk header, its body, and the lines behind it. */
  function OneHunk(lines: seq<string>): (r: Result<(DiffHunk, seq<string>)>)
    requires lines != []
    ensures r.Success? ==> |r.value.1| < |lines|
  {
    var (oldStart, oldCount, newStart, newCount) :- ParseHunkHeader(lines[0]);
    var (body, rest) :- HunkBody(lines[1..]);
    if body == [] then Failure(MalformedUnifiedDiff)
    else Success((DiffHunk(oldStart, oldCount, newStart, newCount, body), rest))
  }

  /** The hunks of one file and the lines behind them. */
  function HunkList(lines: seq<string>): (r: Result<(seq<DiffHunk>, seq<string>)>)
    ensures r.Success? ==> |r.value.1| <= |lines|
    decreases |lines|
  {
    if lines == [] || StartsFile(lines[0]) then Success(([], lines))
    else if GitNoise(lines[0]) then HunkList(lines[1..])
    else if !StartsHunk(lines[0]) then Failure(MalformedUnifiedDiff)
    else
      var (hunk, rest) :- OneHunk(lines);
      PutBefore([hunk], HunkList(rest))
  }

  /** The `---` and `+++` lines of one file: both parsers treat them alike. */
  function FileHeader(lines: seq<string>): Result<string>
    requires lines != []
  {
    if |lines| < 2 || !("+++ " <= lines[1]) then Failure(MalformedUnifiedDiff) else
    var oldPath := StripDiffPath(if |lines[0]| < 4 then "" else lines[0][4..]);
    var newPath := StripDiffPath(lines[1][4..]);
    if oldPath == "/dev/null" then Failure(NewFileRejected)
    else if newPath == "/dev/null" then Failure(DeleteFileRejected)
    else if oldPath != newPath then Failure(TargetPathMismatch)
    else Success(newPath)
  }

  function Prepend<T>(done: seq<T>, r: Result<seq<T>>): Result<seq<T>> {
    match r
    case Success(more) => Success(done + more)
    case Failure(e) => Failure(e)
  }

  /** All file patches of a line list; lines before a `---` line are skipped. */
  function FileList(lines: seq<string>): Result<seq<FilePatch>>
    decreases |lines|
  {
    if lines == [] then Success([])
    else if !StartsFile(lines[0]) then FileList(lines[1..])
    else
      var path :- FileHeader(lines);
      var (hunks, rest) :- HunkList(lines[2..]);
      if hunks == [] then Failure(MalformedUnifiedDiff) else
      Prepend([FilePatch(path, hunks)], FileList(rest))
  }

  /** What `parse_unified_diff` computes, as a value. */
  function ParsedDiff(diffText: string): Result<seq<FilePatch>> {
    if Blank(diffText) then Failure(MalformedUnifiedDiff) else
    var lines := SplitLines(diffText);
    var scan := ScanLines(lines);
    if scan.Refused? then Failure(scan.error) else
    var patches :- FileList(lines);
    if patches == [] then Failure(MalformedUnifiedDiff) else Success(patches)
  }

  // ---------------------------------------------------------------- the parser's loops

  lemma {:induction false} PutNothingBefore<T>(r: Result<(seq<T>, seq<string>)>)
    ensures PutBefore([], r) == r
  {
    if r.Success? { assert [] + r.value.0 == r.value.0; }
  }

  lemma {:induction false} PutBeforeTwice<T>(done: seq<T>, more: seq<T>, r: Result<(seq<T>, seq<string>)>)
    ensures PutBefore(done, PutBefore(more, r)) == PutBefore(done + more, r)
  {
    if r.Success? { assert done + (more + r.value.0) == done + more + r.value.0; }
  }

  lemma {:induction false} PrependNothing<T>(r: Result<seq<T>>)
    ensures Prepend([], r) == r
  {
    if r.Success? { assert [] + r.value == r.value; }
  }

  lemma {:induction false} PrependTwice<T>(done: seq<T>, x: T, r: Result<seq<T>>)
    ensures Prepend(done, Prepend([x], r)) == Prepend(done + [x], r)
  {
    if r.Success? { assert done + ([x] + r.value) == done + [x] + r.value; }
  }

  method ParseHunkLines(lines: seq<string>, start: nat) returns (r: Result<seq<DiffLine>>, index: nat)
    requires start <= |lines|
    ensures start <= index <= |lines|
    ensures r.Success? ==> HunkBody(lines[start..]) == Success((r.value, lines[index..]))
    ensures r.Failure? ==> HunkBody(lines[start..]) == Failure(r.error)
  {
    index := start;
    var hunkLines: seq<DiffLine> := [];
    PutNothingBefore(HunkBody(lines[start..]));
    while index < |lines|
      invariant start <= index <= |lines|
      invariant HunkBody(lines[start..]) == PutBefore(hunkLines, HunkBody(lines[index..]))
    {
      var hunkLine := lines[index];
      assert lines[index..][0] == hunkLine && lines[index..][1..] == lines[index + 1..];
      if "@@ " <= hunkLine || "--- " <= hunkLine {
        break;
      }
      if "\\" <= hunkLine {
        index := index + 1;
        continue;
      }
      if hunkLine == "" || hunkLine[0] !in {' ', '-', '+'} {
        return Failure(MalformedUnifiedDiff), index;
      }
      PutBeforeTwice(hunkLines, [DiffLine(hunkLine[0], hunkLine[1..])], HunkBody(lines[index + 1..]));
      hunkLines := hunkLines + [DiffLine(hunkLine[0], hunkLine[1..])];
      index := index + 1;
    }
    assert hunkLines + [] == hunkLines;
    r := Success(hunkLines);
  }

  lemma {:induction false} FileListUnfolds(lines: seq<string>, patch: FilePatch, rest: seq<string>)
    requires lines != [] && StartsFile(lines[0]) && FileHeader(lines) == Success(patch.targetPath)
    requires HunkList(lines[2..]) == Success((patch.hunks, rest)) && patch.hunks != []
    ensures FileList(lines) == Prepend([patch], FileList(rest))
  {
  }

  method ParseHunk(lines: seq<string>, start: nat) returns (r: Result<DiffHunk>, index: nat)
    requires start < |lines|
    ensures start < index <= |lines|
    ensures r.Success? ==> OneHunk(lines[start..]) == Success((r.value, lines[index..]))
    ensures r.Failure? ==> OneHunk(lines[start..]) == Failure(r.error)
  {
    index := start + 1;
    assert lines[start..][0] == lines[start] && lines[start..][1..] == lines[index..];
    var header := ParseHunkHeader(lines[start]);
    if header.Failure? {
      return Failure(header.error), index;
    }
    var hunkLines;
    hunkLines, index := ParseHunkLines(lines, index);
    if hunkLines.Failure? {
      return Failure(hunkLines.error), index;
    }
    if hunkLines.value == [] {
      return Failure(MalformedUnifiedDiff), index;
    }
    var (oldStart, oldCount, newStart, newCount) := header.value;
    r := Success(DiffHunk(oldStart, oldCount, newStart, newCount, hunkLines.value));
  }

  /** One line of a file's part, or one hunk. */
  method ParseNext(lines: seq<string>, start: nat) returns (r: Result<seq<DiffHunk>>, index: nat)
    requires start < |lines| && !StartsFile(lines[start])
    ensures start < index <= |lines|
    ensures r.Success? ==> HunkList(lines[start..]) == PutBefore(r.value, HunkList(lines[index..]))
    ensures r.Failure? ==> HunkList(lines[start..]) == Failure(r.error)
  {
    index := start + 1;
    assert lines[start..][0] == lines[start] && lines[start..][1..] == lines[index..];
    if GitNoise(lines[start]) {
      PutNothingBefore(HunkList(lines[index..]));
      return Success([]), index;
    }
    if !StartsHunk(lines[start]) {
      return Failure(MalformedUnifiedDiff), index;
    }
    var hunk;
    hunk, index := ParseHunk(lines, start);
    r := if hunk.Failure? then Failure(hunk.error) else Success([hunk.value]);
  }

  method ParseHunks(lines: seq<string>, start: nat) returns (r: Result<seq<DiffHunk>>, index: nat)
    requires start <= |lines|
    ensures start <= index <= |lines|
    ensures r.Success? ==> HunkList(lines[start..]) == Success((r.value, lines[index..]))
    ensures r.Failure? ==> HunkList(lines[start..]) == Failure(r.error)
  {
    index := start;
    var hunks: seq<DiffHunk> := [];
    PutNothingBefore(HunkList(lines[start..]));
    while index < |lines|
      invariant start <= index <= |lines|
      invariant HunkList(lines[start..]) == PutBefore(hunks, HunkList(lines[index..]))
    {
      if StartsFile(lines[index]) {
        break;
      }
      var found, next := ParseNext(lines, index);
      if found.Failure? {
        return Failure(found.error), index;
      }
      PutBeforeTwice(hunks, found.value, HunkList(lines[next..]));
      hunks := hunks + found.value;
      index := next;
    }
    assert HunkList(lines[index..]) == Success(([], lines[index..]));
    assert hunks + [] == hunks;
    r := Success(hunks);
  }

  /** The outer loop: one file patch after the other. */
  method ParseFiles(lines: seq<string>) returns (r: Result<seq<FilePatch>>)
    ensures r == FileList(lines)
  {
    var patches: seq<FilePatch> := [];
    var index := 0;
    assert lines[0..] == lines;
    PrependNothing(FileList(lines));
    while index < |lines|
      invariant 0 <= index <= |lines|
      invariant FileList(lines) == Prepend(patches, FileList(lines[index..]))
    {
      var line := lines[index];
      assert lines[index..][0] == line && lines[index..][1..] == lines[index + 1..];
      if "diff --git " <= line || "index " <= line {
        assert line[0] == "diff --git "[0] || line[0] == "index "[0];
        index := index + 1;
        continue;
      }
      if !("--- " <= line) {
        index := index + 1;
        continue;
      }
      var path := FileHeader(lines[index..]);
      if path.Failure? {
        return Failure(path.error);
      }
      assert lines[index..][2..] == lines[index + 2..];
      var hunks, next := ParseHunks(lines, index + 2);
      if hunks.Failure? {
        return Failure(hunks.error);
      }
      if hunks.value == [] {
        return Failure(MalformedUnifiedDiff);
      }
      var patch := FilePatch(path.value, hunks.value);
      FileListUnfolds(lines[index..], patch, lines[next..]);
      PrependTwice(patches, patch, FileList(lines[next..]));
      patches := patches + [patch];
      index := next;
    }
    assert patches + [] == patches;
    r := Success(patches);
  }

  method ParseUnifiedDiff(diffText: string) returns (r: Result<seq<FilePatch>>)
    ensures r == ParsedDiff(diffText)
  {
    if Blank(diffText) {
      return Failure(MalformedUnifiedDiff);
    }
    var lines := SplitLines(diffText);
    var scan := ScanUnsupported(lines);
    if scan.Refused? {
      return Failure(scan.error);
    }
    var patches := ParseFiles(lines);
    if patches.Failure? {
      return patches;
    }
    if patches.value == [] {
      return Failure(MalformedUnifiedDiff);
    }
    r := patches;
  }
}
