/** The lenient unified-diff parser of the proposal side (runtime_lab/patch_proposal/diff_parser.py)
    and how it relates to the strict one. It repeats the refusals and the file-header rules of the
    strict parser and differs in what it asks of hunk bodies. */
module ProposalDiff {
  import opened Dedupe
  import opened Lines
  import opened UnifiedDiff
  import opened DiffParser

  /** The lines of one file section: was there a hunk header, and what follows the section. */
  function Section(lines: seq<string>): (r: (bool, seq<string>))
    ensures |r.1| <= |lines|
  {
    if lines == [] || StartsFile(lines[0]) then (false, lines) else
    var (saw, rest) := Section(lines[1..]);
    (saw || StartsHunk(lines[0]), rest)
  }

  /** The target of every file section, repeats included. */
  function TargetList(lines: seq<string>): Result<seq<string>>
    decreases |lines|
  {
    if lines == [] then Success([])
    else if !StartsFile(lines[0]) then TargetList(lines[1..])
    else
      var path :- FileHeader(lines);
      var (saw, rest) := Section(lines[2..]);
      if !saw then Failure(MalformedUnifiedDiff) else Prepend([path], TargetList(rest))
  }

  /** What the proposal's `parse_unified_diff` computes, as a value. */
  function ProposedTargets(diffText: string): Result<seq<string>> {
    if Blank(diffText) then Failure(MalformedUnifiedDiff) else
    var lines := SplitLines(diffText);
    var scan := ScanLines(lines);
    if scan.Refused? then Failure(scan.error) else
    var targets :- TargetList(lines);
    if targets == [] then Failure(MalformedUnifiedDiff) else Success(FirstSeen(targets))
  }

  /** The inner loop: run to the next `---` line, noting hunk headers on the way. */
  method SkipSection(lines: seq<string>, start: nat) returns (fileHasHunk: bool, index: nat)
    requires start <= |lines|
    ensures start <= index <= |lines|
    ensures Section(lines[start..]) == (fileHasHunk, lines[index..])
  {
    index := start;
    fileHasHunk := false;
    while index < |lines|
      invariant start <= index <= |lines|
      invariant Section(lines[start..]).1 == Section(lines[index..]).1
      invariant Section(lines[start..]).0 == (fileHasHunk || Section(lines[index..]).0)
    {
      var current := lines[index];
      assert lines[index..][0] == current && lines[index..][1..] == lines[index + 1..];
      if "--- " <= current {
        break;
      }
      if "@@ " <= current {
        fileHasHunk := true;
      }
      index := index + 1;
    }
  }

  method ParseProposalDiff(diffText: string) returns (r: Result<seq<string>>)
    ensures r == ProposedTargets(diffText)
  {
    if Blank(diffText) {
      return Failure(MalformedUnifiedDiff);
    }
    var lines := SplitLines(diffText);
    var targets: seq<string> := [];
    var index := 0;
    var sawHunk := false;
    var scan := ScanUnsupported(lines);
    if scan.Refused? {
      return Failure(scan.error);
    }
    assert lines[0..] == lines;
    PrependNothing(TargetList(lines));
    while index < |lines|
      invariant 0 <= index <= |lines|
      invariant TargetList(lines) == Prepend(targets, TargetList(lines[index..]))
      invariant sawHunk <==> targets != []
    {
      var line := lines[index];
      assert lines[index..][0] == line && lines[index..][1..] == lines[index + 1..];
      if "diff --git " <= line || "index " <= line {
        assert line[0] == "diff --git "[0] || line[0] == "index "[0];
        index := index + 1;
        continue;
      }
      if !("--- " <= line) {
        index := index + 1;
        continue;
      }
      var path := FileHeader(lines[index..]);
      if path.Failure? {
        return Failure(path.error);
      }
      assert lines[index..][2..] == lines[index + 2..];
      var fileHasHunk, next := SkipSection(lines, index + 2);
      if !fileHasHunk {
        return Failure(MalformedUnifiedDiff);
      }
      assert TargetList(lines[index..]) == Prepend([path.value], TargetList(lines[next..]));
      sawHunk := true;
      PrependTwice(targets, path.value, TargetList(lines[next..]));
      targets := targets + [path.value];
      index := next;
    }
    if targets == [] || !sawHunk {
      return Failure(MalformedUnifiedDiff);
    }
    assert targets + [] == targets;
    r := Success(FirstSeen(targets));
  }

  // ---------------------------------------------------------------- simulation

  function Targets(patches: seq<FilePatch>): (r: seq<string>)
    ensures |r| == |patches|
  {
    seq(|patches|, i requires 0 <= i < |patches| => patches[i].targetPath)
  }

  /** A hunk body the strict parser reads is a stretch the lenient one skips without seeing a hunk. */
  lemma {:induction false} BodyIsSkipped(lines: seq<string>)
    requires HunkBody(lines).Success?
    ensures Section(lines) == Section(HunkBody(lines).value.1)
  {
    if lines == [] || StartsHunk(lines[0]) || StartsFile(lines[0]) {
    } else {
      BodyIsSkipped(lines[1..]);
    }
  }

  /** Strict hunks end where the lenient section ends, and the lenient parser sees a hunk header
      exactly when there is a hunk. */
  lemma {:induction false} HunksAreSection(lines: seq<string>)
    requires HunkList(lines).Success?
    ensures Section(lines) == (HunkList(lines).value.0 != [], HunkList(lines).value.1)
    decreases |lines|
  {
    if lines == [] || StartsFile(lines[0]) {
    } else if GitNoise(lines[0]) {
      assert lines[0][0] == "diff --git "[0] || lines[0][0] == "index "[0];
      HunksAreSection(lines[1..]);
    } else {
      BodyIsSkipped(lines[1..]);
      HunksAreSection(HunkBody(lines[1..]).value.1);
    }
  }

  lemma {:induction false} HunkListFailsMalformed(lines: seq<string>)
    requires HunkList(lines).Failure?
    ensures HunkList(lines).error == MalformedUnifiedDiff
    decreases |lines|
  {
    if GitNoise(lines[0]) {
      HunkListFailsMalformed(lines[1..]);
    } else if StartsHunk(lines[0]) {
      HunkBodyFailsMalformed(lines[1..]);
      if ParseHunkHeader(lines[0]).Success? && HunkBody(lines[1..]).Success? && HunkBody(lines[1..]).value.0 != [] {
        HunkListFailsMalformed(HunkBody(lines[1..]).value.1);
      }
    }
  }

  lemma {:induction false} HunkBodyFailsMalformed(lines: seq<string>)
    ensures HunkBody(lines).Failure? ==> HunkBody(lines).error == MalformedUnifiedDiff
  {
    if lines != [] {
      HunkBodyFailsMalformed(lines[1..]);
    }
  }

  lemma {:induction false} FilesSimulate(lines: seq<string>)
    ensures FileList(lines).Success? ==> TargetList(lines) == Success(Targets(FileList(lines).value))
    ensures FileList(lines).Failure? && TargetList(lines).Success? ==>
      FileList(lines).error == MalformedUnifiedDiff
    ensures TargetList(lines).Failure? ==>
      && FileList(lines).Failure?
      && FileList(lines).error in {TargetList(lines).error, MalformedUnifiedDiff}
    decreases |lines|
  {
    if lines == [] {
    } else if !StartsFile(lines[0]) {
      FilesSimulate(lines[1..]);
    } else if FileHeader(lines).Success? {
      var path := FileHeader(lines).value;
      if HunkList(lines[2..]).Failure? {
        HunkListFailsMalformed(lines[2..]);
      } else {
        HunksAreSection(lines[2..]);
        var (hunks, rest) := HunkList(lines[2..]).value;
        FilesSimulate(rest);
        if hunks != [] && FileList(rest).Success? {
          assert Targets([FilePatch(path, hunks)] + FileList(rest).value) == [path] + Targets(FileList(rest).value);
        }
      }
    }
  }

  /** Every diff the strict parser accepts, the lenient one accepts with the strict targets in
      first-seen order. They part ways only over malformed hunk bodies: any other code the strict
      parser gives, the lenient one gives too, and whatever the lenient parser refuses the strict
      one refuses, with the same code or as malformed. */
  lemma {:induction false} ParsersSimulate(diffText: string)
    ensures
      var strict, lenient := ParsedDiff(diffText), ProposedTargets(diffText);
      && (strict.Success? ==> lenient == Success(FirstSeen(Targets(strict.value))))
      && (strict.Failure? && strict.error != MalformedUnifiedDiff ==> lenient == Failure(strict.error))
      && (lenient.Failure? ==> strict.Failure? && strict.error in {lenient.error, MalformedUnifiedDiff})
  {
    FilesSimulate(SplitLines(diffText));
  }

  // ---------------------------------------------------------------- when the strict parser accepts

  /** One scan over the lines of a file section, up to the next `---` line. `open`: a hunk header was seen;
      `filled`: that hunk has a line. Before the first hunk only `diff --git` and `index` lines may stand; a
      hunk header must have its numbers and close a filled hunk; in a hunk stand the three kinds of line
      and lines that start with a backslash. */
  predicate WellFormedSection(lines: seq<string>, open: bool, filled: bool) {
    if lines == [] || StartsFile(lines[0]) then open ==> filled
    else if StartsHunk(lines[0]) then
      (open ==> filled) && ParseHunkHeader(lines[0]).Success? && WellFormedSection(lines[1..], true, false)
    else if !open then GitNoise(lines[0]) && WellFormedSection(lines[1..], false, false)
    else if "\\" <= lines[0] then WellFormedSection(lines[1..], true, filled)
    else lines[0] != "" && lines[0][0] in {' ', '-', '+'} && WellFormedSection(lines[1..], true, true)
  }

  /** Every file section is well formed: what follows any `---` line and the line behind it. */
  predicate SectionsWellFormed(lines: seq<string>) {
    forall i :: 0 <= i < |lines| - 1 && StartsFile(lines[i]) ==> WellFormedSection(lines[i + 2..], false, false)
  }

  /** A scan that stands in a hunk goes through the strict parser's body and stops with it. */
  lemma {:induction false} ScanOfBody(lines: seq<string>, filled: bool)
    ensures WellFormedSection(lines, true, filled) <==>
      var body := HunkBody(lines);
      && body.Success? && (filled || body.value.0 != [])
      && WellFormedSection(body.value.1, true, true)
  {
    if lines == [] || StartsHunk(lines[0]) || StartsFile(lines[0]) {
    } else if "\\" <= lines[0] {
      ScanOfBody(lines[1..], filled);
    } else if lines[0] != "" && lines[0][0] in {' ', '-', '+'} {
      ScanOfBody(lines[1..], true);
    }
  }

  /** Behind a body the next line opens a hunk, opens a file, or is none. */
  lemma {:induction false} BodyEnds(lines: seq<string>)
    requires HunkBody(lines).Success?
    ensures var rest := HunkBody(lines).value.1; rest == [] || StartsHunk(rest[0]) || StartsFile(rest[0])
  {
    if lines == [] || StartsHunk(lines[0]) || StartsFile(lines[0]) {
    } else {
      BodyEnds(lines[1..]);
    }
  }

  /** At a hunk boundary it makes no difference whether a filled hunk stands before it. */
  lemma {:induction false} BoundaryScan(rest: seq<string>)
    requires rest == [] || StartsHunk(rest[0]) || StartsFile(rest[0])
    ensures WellFormedSection(rest, true, true) <==> WellFormedSection(rest, false, false)
  {
  }

  /** The strict parser reads the hunks of a section exactly when the section is well formed. */
  lemma {:induction false} HunksReadIffWellFormed(lines: seq<string>)
    ensures HunkList(lines).Success? <==> WellFormedSection(lines, false, false)
    decreases |lines|
  {
    if lines == [] || StartsFile(lines[0]) {
    } else if GitNoise(lines[0]) {
      NoiseOpensNothing(lines[0]);
      HunksReadIffWellFormed(lines[1..]);
    } else if StartsHunk(lines[0]) && ParseHunkHeader(lines[0]).Success? {
      ScanOfBody(lines[1..], false);
      var body := HunkBody(lines[1..]);
      if body.Success? {
        BodyEnds(lines[1..]);
        BoundaryScan(body.value.1);
        HunksReadIffWellFormed(body.value.1);
      }
    }
  }

  lemma {:induction false} NoiseOpensNothing(line: string)
    requires GitNoise(line)
    ensures line != "" && line[0] !in {' ', '-', '+'} && !StartsFile(line) && !StartsHunk(line) && !("\\" <= line)
  {
    assert line[0] == "diff --git "[0] || line[0] == "index "[0];
  }

  /** Where the lenient section ends. */
  lemma {:induction false} SectionEnds(lines: seq<string>) returns (n: nat)
    ensures n <= |lines| && Section(lines).1 == lines[n..]
    ensures forall i :: 0 <= i < n ==> !StartsFile(lines[i])
  {
    n := 0;
    if lines != [] && !StartsFile(lines[0]) {
      var m := SectionEnds(lines[1..]);
      n := m + 1;
      assert lines[1..][m..] == lines[n..];
      assert forall i :: 1 <= i < n ==> lines[i] == lines[1..][i - 1];
    }
  }

  lemma {:induction false} SectionsCons(lines: seq<string>)
    requires lines != []
    ensures SectionsWellFormed(lines) <==>
      && (StartsFile(lines[0]) && |lines| >= 2 ==> WellFormedSection(lines[2..], false, false))
      && SectionsWellFormed(lines[1..])
  {
    var tail := lines[1..];
    forall i | 0 <= i < |tail| - 1 ensures tail[i] == lines[i + 1] && tail[i + 2..] == lines[i + 1 + 2..] {}
    if SectionsWellFormed(tail) && (StartsFile(lines[0]) && |lines| >= 2 ==>
                                    WellFormedSection(lines[2..], false, false)) {
      forall i | 0 <= i < |lines| - 1 && StartsFile(lines[i]) ensures WellFormedSection(lines[i + 2..], false, false) {
        if i > 0 {
          assert StartsFile(tail[i - 1]) && tail[i - 1 + 2..] == lines[i + 2..];
        }
      }
    }
    if SectionsWellFormed(lines) {
      forall i | 0 <= i < |tail| - 1 && StartsFile(tail[i]) ensures WellFormedSection(tail[i + 2..], false, false) {
        assert StartsFile(lines[i + 1]);
      }
    }
  }

  /** Lines that open no file carry no section of their own. */
  lemma {:induction false} SectionsBehind(lines: seq<string>, n: nat)
    requires n <= |lines| && forall i :: 0 <= i < n ==> !StartsFile(lines[i])
    ensures SectionsWellFormed(lines) <==> SectionsWellFormed(lines[n..])
  {
    if n == 0 {
      assert lines[0..] == lines;
    } else {
      SectionsCons(lines);
      SectionsBehind(lines[1..], n - 1);
      assert lines[1..][n - 1..] == lines[n..];
    }
  }

  /** On line lists: what the lenient parser accepts, the strict one accepts exactly when every file
      section is well formed. */
  lemma {:induction false} StrictIffWellFormed(lines: seq<string>)
    requires TargetList(lines).Success?
    ensures FileList(lines).Success? <==> SectionsWellFormed(lines)
    decreases |lines|
  {
    if lines == [] {
    } else if !StartsFile(lines[0]) {
      SectionsCons(lines);
      StrictIffWellFormed(lines[1..]);
    } else {
      var rest := Section(lines[2..]).1;
      var n := SectionEnds(lines[2..]);
      assert !StartsFile(lines[1]) by { assert lines[1][0] == "+++ "[0]; }
      SectionsCons(lines);
      SectionsCons(lines[1..]);
      assert lines[1..][1..] == lines[2..];
      SectionsBehind(lines[2..], n);
      StrictIffWellFormed(rest);
      HunksReadIffWellFormed(lines[2..]);
      if HunkList(lines[2..]).Success? {
        HunksAreSection(lines[2..]);
      }
    }
  }

  /** When the strict parser accepts a diff: exactly when the lenient one does and every file section is
      well formed. Otherwise, if the lenient parser accepts, the strict one calls the diff malformed. */
  lemma {:induction false} StrictIffLenientAndWellFormed(diffText: string)
    ensures
      var strict, lenient := ParsedDiff(diffText), ProposedTargets(diffText);
      && (strict.Success? <==> lenient.Success? && SectionsWellFormed(SplitLines(diffText)))
      && (lenient.Success? && strict.Failure? ==> strict.error == MalformedUnifiedDiff)
  {
    var lines := SplitLines(diffText);
    ParsersSimulate(diffText);
    if TargetList(lines).Success? {
      StrictIffWellFormed(lines);
      FilesSimulate(lines);
    }
  }

  /** `{patch.target_path: patch for patch in patches}`: a later patch replaces an earlier one. */
  function PatchDict(patches: seq<FilePatch>): (d: map<string, FilePatch>)
    ensures forall t :: t in d <==> t in Targets(patches)
  {
    if patches == [] then map[] else
    var last := patches[|patches| - 1];
    assert Targets(patches) == Targets(patches[..|patches| - 1]) + [last.targetPath];
    PatchDict(patches[..|patches| - 1])[last.targetPath := last]
  }

  lemma {:induction false} PatchDictLosesNothing(patches: seq<FilePatch>)
    requires NoRepeats(Targets(patches))
    ensures forall i :: 0 <= i < |patches| ==> PatchDict(patches)[Targets(patches)[i]] == patches[i]
  {
    if patches != [] {
      var init := patches[..|patches| - 1];
      assert forall i :: 0 <= i < |init| ==> Targets(init)[i] == Targets(patches)[i];
      PatchDictLosesNothing(init);
    }
  }

  /** A target list that came out of an accepted proposal and that also passes the apply-side
      comparison names each file once, so the patch dictionary keeps every patch. */
  lemma {:induction false} AgreedTargetsAreDistinct(diffText: string, targets: seq<string>)
    requires ProposedTargets(diffText) == Success(targets)
    requires ParsedDiff(diffText).Success? && Targets(ParsedDiff(diffText).value) == targets
    ensures NoRepeats(targets)
    ensures var patches := ParsedDiff(diffText).value;
      forall i :: 0 <= i < |patches| ==> PatchDict(patches)[targets[i]] == patches[i]
  {
    ParsersSimulate(diffText);
    FirstSeenKeepsAll(targets);
    PatchDictLosesNothing(ParsedDiff(diffText).value);
  }
}
