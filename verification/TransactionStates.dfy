/** What a patch transaction keeps: the hypotheses on names, and what holds before, while and after its
    targets are patched (runtime_lab/patch_apply/transaction.py, runtime_lab/patch_apply/rollback.py). */
module TransactionStates {
  import opened Json
  import opened Dedupe
  import opened Lines
  import opened UnifiedDiff
  import opened DiffApply
  import opened PatchPolicy
  import opened FaultSchedule

  datatype TxState =
    | Planned | ApprovalVerified | PreimageVerified | RollbackPrepared | ApplyStarted | ApplyCompleted
    | PostimageVerified | ReceiptIsWritten | CommittedLocalTransaction
    | RollbackRequired | RollbackCompleted | RejectedFailClosed

  /** What `rollback.json` records: the raw preimage of every target, in first-seen order. */
  datatype RollbackArtifact = RollbackArtifact(order: seq<string>, preimageTexts: map<string, string>)

  datatype Receipt = Receipt(
    transactionId: string, bindings: Bindings, targetFiles: seq<string>,
    preimageHashes: map<string, string>, postimageHashes: map<string, string>)

  /** How a call ends: an accepted result, a rejected result, or an exception that leaves the call. */
  datatype Outcome =
    | Accepted(receipt: Receipt, changedFiles: seq<string>, states: seq<TxState>)
    | Rejected(codes: seq<Code>, states: seq<TxState>, rollbackPerformed: bool)
    | Escaped(stage: Stage)

  /** Where the exception came from: from validation, from a read of the result, or from the undo. */
  datatype Stage = WhileValidating | WhileReading | WhileUndoing

  /** The writes that matter, in the order they happen. */
  datatype Step = RollbackWritten | TargetReplaced(path: string) | ReceiptStored

  // ---------------------------------------------------------------- names and hypotheses

  function TempName(target: string, transactionId: string, host: Host): string {
    host.at(target) + "." + transactionId + ".tmp"
  }

  function RollbackTempName(target: string, host: Host): string {
    host.at(target) + ".rollback.tmp"
  }

  ghost function Places(targets: seq<string>, host: Host): set<string> {
    set t | t in targets :: host.at(t)
  }

  ghost function Temps(targets: seq<string>, transactionId: string, host: Host): set<string> {
    (set t | t in targets :: TempName(t, transactionId, host)) + (set t | t in targets :: RollbackTempName(t, host))
  }

  /** No temporary name of the transaction is itself a target. */
  ghost predicate TempsApart(targets: seq<string>, transactionId: string, host: Host) {
    Places(targets, host) !! Temps(targets, transactionId, host)
  }

  /** Different targets are different files. */
  ghost predicate NoAliases(targets: seq<string>, host: Host) {
    forall i, j :: 0 <= i < j < |targets| ==> host.at(targets[i]) != host.at(targets[j])
  }

  ghost predicate SameAt(p: string, before: Files, after: Files) {
    (p in before <==> p in after) && (p in before ==> before[p] == after[p])
  }

  ghost predicate SameOutside(before: Files, after: Files, touched: set<string>) {
    forall p :: p !in touched ==> SameAt(p, before, after)
  }

  /** `p` holds what it holds in one of two states. */
  ghost predicate HoldsOneOf(p: string, after: Files, a: Files, b: Files) {
    p in after && ((p in a && after[p] == a[p]) || (p in b && after[p] == b[p]))
  }

  /** All targets hold what they held in `before`. */
  ghost predicate AllAs(before: Files, after: Files, targets: seq<string>, host: Host) {
    forall t :: t in targets ==> host.at(t) in before && host.at(t) in after && after[host.at(t)] == before[host.at(t)]
  }

  // ---------------------------------------------------------------- what applying should give

  /** The target holds its patched preimage: text-mode reading translates newlines before patching. */
  ghost predicate Patched(patches: map<string, FilePatch>, before: Files, after: Files, host: Host, target: string) {
    && target in patches
    && host.at(target) in before && before[host.at(target)].TextFile?
    && var post := PatchedText(Translate(before[host.at(target)].text), patches[target]);
      post.Success? && host.at(target) in after && after[host.at(target)] == TextFile(post.value)
  }

  ghost predicate AllText(files: Files, targets: seq<string>, host: Host) {
    forall t :: t in targets ==> host.at(t) in files && files[host.at(t)].TextFile?
  }

  /** The patch of a target fits its preimage. */
  ghost predicate Fits(target: string, patches: map<string, FilePatch>, before: Files, host: Host)
    requires target in patches && host.at(target) in before && before[host.at(target)].TextFile?
  {
    PatchedText(Translate(before[host.at(target)].text), patches[target]).Success?
  }

  /** Every patch fits the preimage of its target. */
  ghost predicate AllApply(targets: seq<string>, patches: map<string, FilePatch>, before: Files, host: Host)
    requires AllText(before, targets, host)
    requires forall t :: t in targets ==> t in patches
  {
    forall t :: t in targets ==> Fits(t, patches, before, host)
  }

  /** The first target from `k` on whose patch does not fit. */
  ghost function FirstMisfit(targets: seq<string>, k: nat, patches: map<string, FilePatch>, before: Files,
                             host: Host): (m: nat)
    requires k <= |targets| && AllText(before, targets, host) && forall t :: t in targets ==> t in patches
    ensures k <= m <= |targets|
    ensures m < |targets| ==> !Fits(targets[m], patches, before, host)
    ensures forall i :: k <= i < m ==> Fits(targets[i], patches, before, host)
    decreases |targets| - k
  {
    if k == |targets| then k
    else
      assert targets[k] in targets;
      if Fits(targets[k], patches, before, host) then FirstMisfit(targets, k + 1, patches, before, host) else k
  }

  /** The first `k` targets are patched and the others are as they were. */
  ghost predicate Progress(targets: seq<string>, patches: map<string, FilePatch>, before: Files, after: Files,
                           host: Host, k: nat)
    requires k <= |targets|
  {
    && (forall i :: 0 <= i < k ==> Patched(patches, before, after, host, targets[i]))
    && (forall i :: k <= i < |targets| ==> SameAt(host.at(targets[i]), before, after))
  }

  ghost function Touched(targets: seq<string>, transactionId: string, host: Host): set<string> {
    Places(targets, host) + Temps(targets, transactionId, host)
  }

  /** What holds while patches are being applied. */
  ghost predicate Midway(targets: seq<string>, patches: map<string, FilePatch>, before: Files, now: Files,
                         transactionId: string, host: Host) {
    && SameOutside(before, now, Touched(targets, transactionId, host))
    && (TempsApart(targets, transactionId, host) ==> AllText(now, targets, host))
    && (TempsApart(targets, transactionId, host) && NoAliases(targets, host) ==>
      exists k :: 0 <= k <= |targets| && Progress(targets, patches, before, now, host, k))
  }

  /** What the applying loop maintains after `k` targets. */
  ghost predicate LoopState(targets: seq<string>, patches: map<string, FilePatch>, before: Files, now: Files,
                            host: Host, transactionId: string, k: nat)
    requires k <= |targets|
  {
    && SameOutside(before, now, Touched(targets, transactionId, host))
    && (TempsApart(targets, transactionId, host) ==> AllText(now, targets, host))
    && (TempsApart(targets, transactionId, host) && NoAliases(targets, host) ==>
      Progress(targets, patches, before, now, host, k))
  }

  /** Every target holds what it holds in one of two states. */
  ghost predicate EachHoldsOneOf(targets: seq<string>, host: Host, after: Files, a: Files, b: Files) {
    forall t :: t in targets ==> HoldsOneOf(host.at(t), after, a, b)
  }

  ghost predicate EachOldOrPatched(targets: seq<string>, patches: map<string, FilePatch>, before: Files, after: Files,
                                   host: Host) {
    forall t :: t in targets ==> SameAt(host.at(t), before, after) || Patched(patches, before, after, host, t)
  }

  /** The artifact holds the raw preimage of every target. */
  ghost predicate Preserves(artifact: RollbackArtifact, targets: seq<string>, preimage: Files, host: Host) {
    && artifact.order == FirstSeen(targets)
    && forall t :: t in targets ==>
      t in artifact.preimageTexts && host.at(t) in preimage &&
        preimage[host.at(t)] == TextFile(artifact.preimageTexts[t])
  }

  ghost predicate RecordsHashes(hashes: map<string, string>, files: Files, targets: seq<string>, host: Host) {
    forall t :: t in targets ==>
      t in hashes && host.at(t) in files && files[host.at(t)].TextFile? &&
        hashes[t] == host.digest(files[host.at(t)].text)
  }

  /** The receipt carries the preimage hashes of the approved proposal. */
  ghost predicate RecordsPreimages(receipt: Receipt, proposal: Object) {
    forall t :: t in TargetFiles(proposal) ==>
      t in receipt.preimageHashes && Str(receipt.preimageHashes[t]) == Get(RecordedHashes(proposal), t)
  }

  /** In what was added to the journal, the rollback artifact comes before every target write. */
  ghost predicate RollbackFirst(before: seq<Step>, after: seq<Step>) {
    && before <= after
    && (|after| > |before| ==> after[|before|] == RollbackWritten)
  }

  const COMMITTED_STATES: seq<TxState> := [
    Planned, ApprovalVerified, PreimageVerified, RollbackPrepared, ApplyStarted, ApplyCompleted,
    PostimageVerified, ReceiptIsWritten, CommittedLocalTransaction]

  const STARTED_STATES: seq<TxState> := [Planned, ApprovalVerified, PreimageVerified, RollbackPrepared, ApplyStarted]

  const UNDONE_STATES: seq<TxState> := [RollbackRequired, RollbackCompleted, RejectedFailClosed]

  /** A rejection after validation names the step that failed, and its states show how far the run came. */
  ghost predicate RejectedAtStep(o: Outcome)
    requires o.Rejected?
  {
    || (o.codes == [RollbackArtifactWriteFailed] && !o.rollbackPerformed
        && o.states == [Planned, ApprovalVerified, PreimageVerified, RejectedFailClosed])
    || (o.codes in {[PatchApplyWriteFailed], [Diff(HunkContextMismatch)]} && o.states == STARTED_STATES + UNDONE_STATES)
    || (o.codes == [ReceiptWriteFailed] && o.rollbackPerformed
        && o.states == STARTED_STATES + [ApplyCompleted] + [PostimageVerified] + UNDONE_STATES)
  }

  /** A request that does not pass is rejected before anything is done. */
  predicate RefusedAtOnce(o: Outcome) {
    o.Rejected? && o.states == [Planned, RejectedFailClosed]
  }

  /** Every target is its patched preimage. */
  ghost predicate AllPatched(targets: seq<string>, patches: map<string, FilePatch>, before: Files, after: Files,
                             host: Host) {
    forall t :: t in targets ==> Patched(patches, before, after, host, t)
  }

  /** How a run of this course ends. */
  ghost predicate Ends(o: Outcome, course: Course, fails: Schedule, n: nat) {
    match course
    case NotPrepared => o.Rejected? && o.codes == [RollbackArtifactWriteFailed]
    case Undone(_) =>
      if UndoHit(fails, course, n) then o == Escaped(WhileUndoing)
      else o.Rejected? && o.codes != [RollbackArtifactWriteFailed]
    case ResultUnread => o == Escaped(WhileReading)
    case Completed => o.Accepted?
  }

  // ---------------------------------------------------------------- steps of the loops

  lemma {:induction false} SameOutsideTrans(a: Files, b: Files, c: Files, step: set<string>, touched: set<string>)
    requires SameOutside(a, b, touched) && SameOutside(b, c, step) && step <= touched
    ensures SameOutside(a, c, touched)
  {
    forall p | p !in touched ensures SameAt(p, a, c) {
      assert SameAt(p, a, b) && SameAt(p, b, c);
    }
  }

  lemma {:induction false} LongerName(path: string, suffix: string)
    requires suffix != ""
    ensures path + suffix != path
  {
    assert |path + suffix| > |path|;
  }

  /** The temporary names of two transactions differ, and that of an undo is the name a transaction called
      `rollback` would use, and no other. */
  lemma {:induction false} TempNamesApart(target: string, one: string, other: string, host: Host)
    ensures TempName(target, one, host) == TempName(target, other, host) <==> one == other
    ensures TempName(target, one, host) == RollbackTempName(target, host) <==> one == "rollback"
  {
    var path := host.at(target);
    BetweenEnds(path + ".", one, other, ".tmp");
    BetweenEnds(path + ".", one, "rollback", ".tmp");
    assert ".rollback.tmp" == "." + "rollback" + ".tmp";
    assert RollbackTempName(target, host) == path + "." + "rollback" + ".tmp";
  }

  lemma {:induction false} BetweenEnds(front: string, x: string, y: string, end: string)
    ensures front + x + end == front + y + end <==> x == y
  {
    if front + x + end == front + y + end {
      assert x == (front + x + end)[|front|..|front| + |x|];
      assert y == (front + y + end)[|front|..|front| + |y|];
    }
  }

  lemma {:induction false} TempNameLonger(target: string, transactionId: string, host: Host)
    ensures TempName(target, transactionId, host) != host.at(target)
  {
    var suffix := "." + transactionId + ".tmp";
    assert TempName(target, transactionId, host) == host.at(target) + suffix;
    LongerName(host.at(target), suffix);
  }

  lemma {:induction false} ProgressReads(targets: seq<string>, patches: map<string, FilePatch>, before: Files,
                                         now: Files, host: Host, k: nat)
    requires k < |targets| && Progress(targets, patches, before, now, host, k)
    requires AllText(before, targets, host) && forall t :: t in targets ==> t in patches
    ensures var p := host.at(targets[k]); p in now && now[p] == before[p]
    ensures targets[k] in targets
  {
    assert targets[k] in targets && SameAt(host.at(targets[k]), before, now);
  }

  lemma {:induction false} AllTextStep(targets: seq<string>, host: Host, mid: Files, after: Files, temp: string,
                                       path: string)
    requires AllText(mid, targets, host) && temp !in Places(targets, host)
    requires SameOutside(mid, after, {temp})
      || (SameOutside(mid, after, {temp, path}) && path in after && after[path].TextFile?)
    ensures AllText(after, targets, host)
  {
    forall t | t in targets ensures host.at(t) in after && after[host.at(t)].TextFile? {
      assert host.at(t) in Places(targets, host);
      if SameOutside(mid, after, {temp}) || host.at(t) != path {
        assert SameAt(host.at(t), mid, after);
      }
    }
  }

  lemma {:induction false} ProgressStays(targets: seq<string>, patches: map<string, FilePatch>, before: Files,
                                         mid: Files, after: Files, host: Host, k: nat, temp: string)
    requires k <= |targets| && Progress(targets, patches, before, mid, host, k)
    requires temp !in Places(targets, host) && SameOutside(mid, after, {temp})
    ensures Progress(targets, patches, before, after, host, k)
  {
    forall i | 0 <= i < |targets| ensures SameAt(host.at(targets[i]), mid, after) {
      assert host.at(targets[i]) in Places(targets, host);
    }
    forall i | k <= i < |targets| ensures SameAt(host.at(targets[i]), before, after) {
      assert SameAt(host.at(targets[i]), before, mid);
    }
  }

  lemma {:induction false} ProgressStep(targets: seq<string>, patches: map<string, FilePatch>, before: Files,
                                        mid: Files, after: Files, host: Host, k: nat, temp: string)
    requires k < |targets| && Progress(targets, patches, before, mid, host, k) && NoAliases(targets, host)
    requires temp !in Places(targets, host) && SameOutside(mid, after, {temp, host.at(targets[k])})
    requires Patched(patches, before, after, host, targets[k])
    ensures Progress(targets, patches, before, after, host, k + 1)
  {
    forall i | 0 <= i < |targets| && i != k ensures SameAt(host.at(targets[i]), mid, after) {
      assert host.at(targets[i]) in Places(targets, host);
      assert host.at(targets[i]) != host.at(targets[k]);
    }
    forall i | k + 1 <= i < |targets| ensures SameAt(host.at(targets[i]), before, after) {
      assert SameAt(host.at(targets[i]), before, mid);
    }
  }

  lemma {:induction false} LoopStateIsMidway(targets: seq<string>, patches: map<string, FilePatch>, before: Files,
                                             now: Files, host: Host, transactionId: string, k: nat)
    requires k <= |targets| && LoopState(targets, patches, before, now, host, transactionId, k)
    ensures Midway(targets, patches, before, now, transactionId, host)
  {
  }

  lemma {:induction false} LoopStateReads(targets: seq<string>, patches: map<string, FilePatch>, before: Files,
                                          now: Files, host: Host, transactionId: string, k: nat)
    requires k < |targets| && LoopState(targets, patches, before, now, host, transactionId, k)
    requires AllText(before, targets, host) && forall t :: t in targets ==> t in patches
    ensures targets[k] in targets
    ensures TempsApart(targets, transactionId, host) && NoAliases(targets, host) ==>
      var p := host.at(targets[k]); p in now && now[p] == before[p]
  {
    if TempsApart(targets, transactionId, host) && NoAliases(targets, host) {
      ProgressReads(targets, patches, before, now, host, k);
    }
  }

  lemma {:induction false} LoopStateStays(targets: seq<string>, patches: map<string, FilePatch>, before: Files,
                                          mid: Files, after: Files, host: Host, transactionId: string, k: nat)
    requires k < |targets| && LoopState(targets, patches, before, mid, host, transactionId, k)
    requires SameOutside(mid, after, {TempName(targets[k], transactionId, host)})
    ensures LoopState(targets, patches, before, after, host, transactionId, k)
  {
    var temp := TempName(targets[k], transactionId, host);
    assert targets[k] in targets && temp in Temps(targets, transactionId, host);
    SameOutsideTrans(before, mid, after, {temp}, Touched(targets, transactionId, host));
    if TempsApart(targets, transactionId, host) {
      AllTextStep(targets, host, mid, after, temp, host.at(targets[k]));
      if NoAliases(targets, host) {
        ProgressStays(targets, patches, before, mid, after, host, k, temp);
      }
    }
  }

  lemma {:induction false} LoopStateStep(targets: seq<string>, patches: map<string, FilePatch>, before: Files,
                                         mid: Files, after: Files, host: Host, transactionId: string, k: nat)
    requires k < |targets| && LoopState(targets, patches, before, mid, host, transactionId, k)
    requires AllText(before, targets, host) && forall t :: t in targets ==> t in patches
    requires var path := host.at(targets[k]);
      && SameOutside(mid, after, {TempName(targets[k], transactionId, host), path})
      && path in mid && mid[path].TextFile? && path in after && after[path].TextFile?
      && PatchedText(Translate(mid[path].text), patches[targets[k]]) == Success(after[path].text)
    ensures LoopState(targets, patches, before, after, host, transactionId, k + 1)
  {
    var path, temp := host.at(targets[k]), TempName(targets[k], transactionId, host);
    assert targets[k] in targets && path in Places(targets, host) && temp in Temps(targets, transactionId, host);
    SameOutsideTrans(before, mid, after, {temp, path}, Touched(targets, transactionId, host));
    if TempsApart(targets, transactionId, host) {
      AllTextStep(targets, host, mid, after, temp, path);
      if NoAliases(targets, host) {
        ProgressReads(targets, patches, before, mid, host, k);
        ProgressStep(targets, patches, before, mid, after, host, k, temp);
      }
    }
  }

  /** A swap that wrote the preimage, or changed only the temporary file, keeps every target in one
      of the two states. */
  lemma {:induction false} EachHoldsStep(targets: seq<string>, host: Host, a: Files, b: Files,
                                         mid: Files, after: Files, temp: string, path: string)
    requires EachHoldsOneOf(targets, host, mid, a, b)
    requires temp !in Places(targets, host)
    requires SameOutside(mid, after, {temp}) || (SameOutside(mid, after, {temp, path}) && HoldsOneOf(path, after, a, b))
    ensures EachHoldsOneOf(targets, host, after, a, b)
  {
    forall t | t in targets ensures HoldsOneOf(host.at(t), after, a, b) {
      assert host.at(t) in Places(targets, host);
      assert HoldsOneOf(host.at(t), mid, a, b);
      if SameOutside(mid, after, {temp}) || host.at(t) != path {
        assert SameAt(host.at(t), mid, after);
      }
    }
  }

  lemma {:induction false} AllAsStep(before: Files, mid: Files, after: Files, targets: seq<string>,
                                     order: seq<string>, k: nat, host: Host, temp: string)
    requires k < |order| && forall t :: t in order ==> t in targets
    requires AllAs(before, mid, order[..k], host) && temp !in Places(targets, host)
    requires SameOutside(mid, after, {temp, host.at(order[k])})
    requires host.at(order[k]) in before && host.at(order[k]) in after
    requires after[host.at(order[k])] == before[host.at(order[k])]
    ensures AllAs(before, after, order[..k + 1], host)
  {
    forall t | t in order[..k + 1]
      ensures host.at(t) in before && host.at(t) in after && after[host.at(t)] == before[host.at(t)]
    {
      assert t in targets && host.at(t) in Places(targets, host);
      if host.at(t) != host.at(order[k]) {
        assert t in order[..k];
        assert SameAt(host.at(t), mid, after);
      }
    }
  }

  /** A restore that was cut short leaves every target as it was or as it was patched. */
  lemma {:induction false} EscapesOldOrPatched(targets: seq<string>, patches: map<string, FilePatch>, before: Files,
                                               applying: Files, after: Files, transactionId: string, host: Host)
    requires TempsApart(targets, transactionId, host) ==> EachHoldsOneOf(targets, host, after, before, applying)
    requires TempsApart(targets, transactionId, host) && NoAliases(targets, host) ==>
      exists k :: 0 <= k <= |targets| && Progress(targets, patches, before, applying, host, k)
    requires AllText(before, targets, host)
    ensures TempsApart(targets, transactionId, host) && NoAliases(targets, host) ==>
      EachOldOrPatched(targets, patches, before, after, host)
  {
    if TempsApart(targets, transactionId, host) && NoAliases(targets, host) {
      var k :| 0 <= k <= |targets| && Progress(targets, patches, before, applying, host, k);
      forall t | t in targets ensures SameAt(host.at(t), before, after) || Patched(patches, before, after, host, t) {
        var i :| 0 <= i < |targets| && targets[i] == t;
        assert HoldsOneOf(host.at(t), after, before, applying);
        if i < k {
          assert Patched(patches, before, applying, host, targets[i]);
        } else {
          assert SameAt(host.at(targets[i]), before, applying);
        }
      }
    }
  }

  lemma {:induction false} FullProgress(targets: seq<string>, patches: map<string, FilePatch>, before: Files,
                                        after: Files, host: Host)
    requires AllText(before, targets, host) && forall t :: t in targets ==> t in patches
    requires Progress(targets, patches, before, after, host, |targets|)
    ensures AllPatched(targets, patches, before, after, host) && AllApply(targets, patches, before, host)
  {
    forall t | t in targets ensures Patched(patches, before, after, host, t) {
      var i :| 0 <= i < |targets| && targets[i] == t;
      assert Patched(patches, before, after, host, targets[i]);
    }
  }

  lemma {:induction false} AllApplyIffNoMisfit(targets: seq<string>, patches: map<string, FilePatch>, before: Files,
                                               host: Host)
    requires AllText(before, targets, host) && forall t :: t in targets ==> t in patches
    ensures AllApply(targets, patches, before, host) <==> FirstMisfit(targets, 0, patches, before, host) == |targets|
  {
    var m := FirstMisfit(targets, 0, patches, before, host);
    if m < |targets| {
      assert targets[m] in targets;
    } else {
      forall t | t in targets ensures Fits(t, patches, before, host) {
        var i :| 0 <= i < |targets| && targets[i] == t;
      }
    }
  }

  /** Targets that are different files are listed once, so the artifact has as many entries. */
  lemma {:induction false} DistinctTargets(targets: seq<string>, host: Host)
    requires NoAliases(targets, host)
    ensures FirstSeen(targets) == targets
  {
    FirstSeenKeepsAll(targets);
    assert forall i, j :: 0 <= i < j < |targets| ==> host.at(targets[i]) != host.at(targets[j]);
  }

  lemma {:induction false} RollbackFirstExtends(before: seq<Step>, prepared: seq<Step>, after: seq<Step>)
    requires prepared == before + [RollbackWritten] && prepared <= after
    ensures RollbackFirst(before, after)
  {
    assert after[|before|] == prepared[|before|];
  }
}
