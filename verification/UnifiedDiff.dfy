/** The parsed form of a unified diff, and the results of the functions that work on it. */
module UnifiedDiff {
  import opened Lines

  datatype DiffLine = DiffLine(kind: char, text: string)

  datatype DiffHunk = DiffHunk(oldStart: int, oldCount: int, newStart: int, newCount: int, lines: seq<DiffLine>)

  datatype FilePatch = FilePatch(targetPath: string, hunks: seq<DiffHunk>)

  /** The rejection codes raised while parsing a diff or applying it to text. */
  datatype DiffError =
    | MalformedUnifiedDiff
    | BinaryPatchRejected
    | NewFileRejected
    | DeleteFileRejected
    | ModeChangeRejected
    | RenameOrCopyRejected
    | ShellExecutionRequestRejected
    | TargetPathMismatch
    | HunkContextMismatch

  datatype Result<+T> = Success(value: T) | Failure(error: DiffError) {
    predicate IsFailure() { Failure? }
    function PropagateFailure<U>(): Result<U>
      requires Failure?
    {
      Failure(error)
    }
    function Extract(): T
      requires Success?
    {
      value
    }
  }

  /** What the parser guarantees of every hunk it returns: see `DiffPrinting.ParsedDiffIsClean`. */
  predicate WellFormedHunk(h: DiffHunk) {
    && h.lines != []
    && forall i :: 0 <= i < |h.lines| ==> h.lines[i].kind in {' ', '-', '+'} && BreakFree(h.lines[i].text)
  }

  /** The lines a hunk expects to find, as they stand in the file. */
  function OldSide(ls: seq<DiffLine>): (r: seq<string>)
    ensures |r| <= |ls|
  {
    if ls == [] then [] else
    var last := ls[|ls| - 1];
    OldSide(ls[..|ls| - 1]) + (if last.kind == ' ' || last.kind == '-' then [last.text + "\n"] else [])
  }

  /** The lines a hunk leaves in their place. */
  function NewSide(ls: seq<DiffLine>): (r: seq<string>)
    ensures |r| <= |ls|
  {
    if ls == [] then [] else
    var last := ls[|ls| - 1];
    NewSide(ls[..|ls| - 1]) + (if last.kind == ' ' || last.kind == '+' then [last.text + "\n"] else [])
  }

  lemma {:induction false} SidesAppend(a: seq<DiffLine>, b: seq<DiffLine>)
    ensures OldSide(a + b) == OldSide(a) + OldSide(b)
    ensures NewSide(a + b) == NewSide(a) + NewSide(b)
  {
    if b == [] {
      assert a + b == a;
    } else {
      SidesAppend(a, b[..|b| - 1]);
      assert (a + b)[..|a + b| - 1] == a + b[..|b| - 1];
    }
  }

  lemma {:induction false} Regroup<T>(xs: seq<T>, ys: seq<T>, zs: seq<T>)
    ensures xs + (ys + zs) == (xs + ys) + zs
  {
  }
}
