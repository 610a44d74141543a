/** The patch-apply transaction and its rollback (runtime_lab/patch_apply/transaction.py,
    runtime_lab/patch_apply/rollback.py) over a workspace in which every file operation can fail. */
module PatchTransaction {
  import opened Wrappers
  import opened Json
  import opened Dedupe
  import opened Lines
  import opened UnifiedDiff
  import opened DiffParser
  import opened DiffApply
  import opened ProposalDiff
  import opened PatchPolicy
  import opened PatchAcceptance
  import opened PatchValidation
  import opened FaultSchedule
  import opened TransactionStates

  datatype ApplyResult = AllApplied | PolicyFailure(code: Code) | OsFailure

  datatype SealStep = Stored(receipt: Receipt) | NotStored | Unread

  /** The patches of the proposal's diff, by target. */
  function PatchesOf(proposal: Object): map<string, FilePatch> {
    match ParsedDiff(DiffText(proposal))
    case Success(patches) => PatchDict(patches)
    case Failure(_) => map[]
  }

  lemma {:induction false} AuthorisedMeans(request: Json, files: Files, policy: Policy, host: Host)
    requires Authorised(request, files, policy, host)
    ensures var proposal := Proposal(request.fields);
      && ParsedDiff(DiffText(proposal)).Success?
      && AllText(files, TargetFiles(proposal), host)
      && forall t :: t in TargetFiles(proposal) ==> t in PatchesOf(proposal)
  {
    PassedRequest(request.fields, files, policy, host);
  }

  class Workspace {
    var files: Files
    var rollback: Option<RollbackArtifact>
    var receipt: Option<Receipt>
    var tick: nat
    const fails: Schedule
    const torn: nat -> nat
    ghost var journal: seq<Step>

    constructor (files: Files, fails: Schedule, torn: nat -> nat)
      ensures this.files == files && this.fails == fails && this.torn == torn
      ensures rollback == None && receipt == None && tick == 0 && journal == []
    {
      this.files, this.fails, this.torn := files, fails, torn;
      rollback, receipt, tick, journal := None, None, 0, [];
    }

    // -------------------------------------------------------------- what a transaction does

    /** How the run ends is decided by the schedule and by the first patch that does not fit; and unless
        an undo is itself hit, all targets are patched or all are as they were. */
    ghost predicate AllOrNothing(targets: seq<string>, patches: map<string, FilePatch>, before: Files, after: Files,
                                 host: Host, o: Outcome, from: nat)
      requires AllText(before, targets, host) && forall t :: t in targets ==> t in patches
    {
      var course := CourseOf(fails, from, |targets|, FirstMisfit(targets, 0, patches, before, host));
      && Ends(o, course, fails, |targets|)
      && (o.Escaped? <==> LeftByException(fails, from, |targets|, FirstMisfit(targets, 0, patches, before, host)))
      && (if UndoHit(fails, course, |targets|) then EachOldOrPatched(targets, patches, before, after, host)
          else if o.Rejected? then AllAs(before, after, targets, host)
          else AllPatched(targets, patches, before, after, host))
    }

    /** What a transaction over validated targets has done when it ends with `o`. */
    ghost predicate Transacted(targets: seq<string>, patches: map<string, FilePatch>, transactionId: string,
                               before: Files, after: Files, host: Host, o: Outcome, from: nat, to: nat)
      requires AllText(before, targets, host) && forall t :: t in targets ==> t in patches
    {
      && SameOutside(before, after, Touched(targets, transactionId, host))
      && (o.Accepted? ==>
        && o.changedFiles == targets && o.receipt.targetFiles == targets && o.states == COMMITTED_STATES
        && RecordsHashes(o.receipt.postimageHashes, after, targets, host))
      && (o.Rejected? ==> RejectedAtStep(o)) && o != Escaped(WhileValidating)
      && (o.Rejected? && o.codes == [RollbackArtifactWriteFailed] ==> after == before)
      && (TempsApart(targets, transactionId, host) ==>
        && (o.Rejected? ==> AllAs(before, after, targets, host))
        && (o.Rejected? && !Faulted(fails, from, to) ==> o.codes == [Diff(HunkContextMismatch)])
        && (o.Escaped? ==> Faulted(fails, from, to)))
      && (TempsApart(targets, transactionId, host) && NoAliases(targets, host) ==>
        AllOrNothing(targets, patches, before, after, host, o, from)
        && (o.Accepted? <==> !Faulted(fails, from, to) && AllApply(targets, patches, before, host)))
    }

    /** At tick `from` the loop ended early: at the first operation that was hit, or behind the read of the
        first target that does not fit. */
    ghost predicate LoopEnded(targets: seq<string>, patches: map<string, FilePatch>, transactionId: string,
                              before: Files, host: Host, applied: ApplyResult, start: nat, from: nat)
      requires AllText(before, targets, host) && forall t :: t in targets ==> t in patches
    {
      var n, m := |targets|, FirstMisfit(targets, 0, patches, before, host);
      var applying := start + 2 + n;
      && !applied.AllApplied? && (applied.PolicyFailure? ==> applied.code == Diff(HunkContextMismatch))
      && !Faulted(fails, start, applying) && applying <= from
      && (TempsApart(targets, transactionId, host) && applied.OsFailure? ==> Faulted(fails, applying, from))
      && (TempsApart(targets, transactionId, host) && NoAliases(targets, host) ==>
        && (applied.PolicyFailure? ==> m < n && Done(fails, applying, applying + 3 * m + 1, from))
        && (applied.OsFailure? ==> Stopped(fails, applying, applying + 3 * m + (if m < n then 1 else 0), from)))
    }

    /** From tick `from`: the first fault hits one of the two rounds of reads around the receipt. */
    ghost predicate UnreadAt(from: nat, n: nat) {
      exists k :: from <= k <= from + 2 * n && k != from + n && fails(k) && !Faulted(fails, from, k)
    }

    /** The first fault hits the receipt, and a further one hits the undo behind it or does not. */
    ghost predicate UndoneAt(from: nat, n: nat, hit: bool) {
      && fails(from + n) && !Faulted(fails, from, from + n)
      && (hit <==> Faulted(fails, from + n + 1, from + n + 1 + 2 * n))
    }

    // -------------------------------------------------------------- single operations

    method ReadText(path: string) returns (r: Option<string>)
      modifies this`tick
      ensures tick == old(tick) + 1
      ensures r.Some? <==> !fails(old(tick)) && path in files && files[path].TextFile?
      ensures r.Some? ==> r.value == files[path].text
    {
      var fault := fails(tick);
      tick := tick + 1;
      if !fault && path in files && files[path].TextFile? {
        return Some(files[path].text);
      }
      r := None;
    }

    /** A failing write can leave any prefix of the text behind. */
    method WriteText(path: string, text: string) returns (ok: bool)
      modifies this`files, this`tick
      ensures tick == old(tick) + 1
      ensures ok == !fails(old(tick))
      ensures ok ==> files == old(files)[path := TextFile(text)]
      ensures SameOutside(old(files), files, {path})
    {
      ok := !fails(tick);
      if ok {
        files := files[path := TextFile(text)];
      } else if torn(tick) <= |text| {
        files := files[path := TextFile(text[..torn(tick)])];
      }
      tick := tick + 1;
    }

    /** `temp_path.replace(path)`: all or nothing. */
    method Replace(source: string, path: string) returns (ok: bool)
      requires source in files && source != path
      modifies this`files, this`tick, this`journal
      ensures tick == old(tick) + 1
      ensures ok == !fails(old(tick))
      ensures ok ==> files == (old(files) - {source})[path := old(files)[source]]
      ensures ok ==> journal == old(journal) + [TargetReplaced(path)]
      ensures !ok ==> files == old(files) && journal == old(journal)
    {
      ok := !fails(tick);
      if ok {
        files := (files - {source})[path := files[source]];
        journal := journal + [TargetReplaced(path)];
      }
      tick := tick + 1;
    }

    /** Write beside the target, then move over it: the target changes completely or not at all. */
    method SwapIn(temp: string, path: string, text: string) returns (ok: bool)
      requires temp != path
      modifies this`files, this`tick, this`journal
      ensures ok ==> Done(fails, old(tick), old(tick) + 2, tick)
      ensures !ok ==> Stopped(fails, old(tick), old(tick) + 2, tick)
      ensures ok ==> path in files && files[path] == TextFile(text) && journal == old(journal) + [TargetReplaced(path)]
      ensures ok ==> SameOutside(old(files), files, {temp, path})
      ensures !ok ==> SameOutside(old(files), files, {temp}) && journal == old(journal)
    {
      ok := WriteText(temp, text);
      if ok {
        ok := Replace(temp, path);
      }
    }

    /** A write into the transaction directory. */
    method Fault() returns (fault: bool)
      modifies this`tick
      ensures tick == old(tick) + 1 && fault == fails(old(tick))
    {
      fault := fails(tick);
      tick := tick + 1;
    }

    // -------------------------------------------------------------- rollback

    /** `build_rollback_artifact` */
    method BuildRollbackArtifact(targets: seq<string>, host: Host) returns (r: Option<RollbackArtifact>)
      modifies this`tick
      ensures tick >= old(tick)
      ensures r.Some? ==>
        Preserves(r.value, targets, files, host) && Done(fails, old(tick), old(tick) + |targets|, tick)
      ensures r == None && AllText(files, targets, host) ==> Stopped(fails, old(tick), old(tick) + |targets|, tick)
    {
      var texts: map<string, string> := map[];
      for k := 0 to |targets|
        invariant Done(fails, old(tick), old(tick) + k, tick)
        invariant forall t :: t in targets[..k] ==>
          t in texts && host.at(t) in files && files[host.at(t)] == TextFile(texts[t])
      {
        var data := ReadText(host.at(targets[k]));
        assert targets[..k + 1] == targets[..k] + [targets[k]];
        if data == None {
          assert targets[k] in targets;
          return None;
        }
        texts := texts[targets[k] := data.value];
      }
      assert targets[..|targets|] == targets;
      r := Some(RollbackArtifact(FirstSeen(targets), texts));
    }

    /** `restore_rollback_artifact`: rewrite the targets one by one. When an operation of the restore
        itself fails, every target still holds either its preimage or what it held before. */
    method Restore(artifact: RollbackArtifact, ghost preimage: Files, ghost targets: seq<string>,
                   ghost transactionId: string, host: Host) returns (ok: bool)
      requires Preserves(artifact, targets, preimage, host)
      requires TempsApart(targets, transactionId, host) ==> AllText(files, targets, host)
      modifies this`files, this`tick, this`journal
      ensures ok ==> Done(fails, old(tick), old(tick) + 2 * |artifact.order|, tick)
      ensures !ok ==> Stopped(fails, old(tick), old(tick) + 2 * |artifact.order|, tick)
      ensures old(journal) <= journal
      ensures SameOutside(old(files), files, Places(targets, host) + Temps(targets, transactionId, host))
      ensures TempsApart(targets, transactionId, host) && ok ==> AllAs(preimage, files, targets, host)
      ensures TempsApart(targets, transactionId, host) ==> EachHoldsOneOf(targets, host, files, preimage, old(files))
    {
      var order := artifact.order;
      ghost var touched := Places(targets, host) + Temps(targets, transactionId, host);
      ghost var apart := TempsApart(targets, transactionId, host);
      for k := 0 to |order|
        invariant Done(fails, old(tick), old(tick) + 2 * k, tick)
        invariant old(journal) <= journal
        invariant SameOutside(old(files), files, touched)
        invariant apart ==> AllAs(preimage, files, order[..k], host)
        invariant apart ==> EachHoldsOneOf(targets, host, files, preimage, old(files))
      {
        var target := order[k];
        var path := host.at(target);
        var temp := RollbackTempName(target, host);
        assert target in targets && path in Places(targets, host) && temp in Temps(targets, transactionId, host);
        LongerName(path, ".rollback.tmp");
        ghost var mid := files;
        var replaced := SwapIn(temp, path, artifact.preimageTexts[target]);
        if apart {
          EachHoldsStep(targets, host, preimage, old(files), mid, files, temp, path);
        }
        if !replaced {
          SameOutsideTrans(old(files), mid, files, {temp}, touched);
          return false;
        }
        SameOutsideTrans(old(files), mid, files, {temp, path}, touched);
        if apart {
          AllAsStep(preimage, mid, files, targets, order, k, host, temp);
        }
      }
      assert order[..|order|] == order;
      ok := true;
    }

    // -------------------------------------------------------------- applying

    /** The body of that loop for one target: read, patch, swap in. */
    method PatchTarget(path: string, temp: string, patch: FilePatch) returns (r: ApplyResult)
      requires temp != path
      modifies this`files, this`tick, this`journal
      ensures tick >= old(tick) && old(journal) <= journal
      ensures r.AllApplied? ==>
        Done(fails, old(tick), old(tick) + 3, tick) && SameOutside(old(files), files, {temp, path})
      ensures r.AllApplied? ==> path in old(files) && old(files)[path].TextFile? && path in files
      ensures r.AllApplied? ==> files[path].TextFile?
      ensures r.AllApplied? ==> PatchedText(Translate(old(files)[path].text), patch) == Success(files[path].text)
      ensures r.PolicyFailure? ==> Done(fails, old(tick), old(tick) + 1, tick)
      ensures r.PolicyFailure? ==> files == old(files) && path in files && files[path].TextFile?
      ensures r.PolicyFailure? ==> PatchedText(Translate(files[path].text), patch) == Failure(HunkContextMismatch)
      ensures r.PolicyFailure? ==> r.code == Diff(HunkContextMismatch)
      ensures r.OsFailure? ==> SameOutside(old(files), files, {temp})
      ensures r.OsFailure? && path in old(files) && old(files)[path].TextFile? ==>
        var planned := if PatchedText(Translate(old(files)[path].text), patch).Success? then 3 else 1;
        Stopped(fails, old(tick), old(tick) + planned, tick)
    {
      var raw := ReadText(path);
      if raw == None {
        return OsFailure;
      }
      var patched := ApplyFilePatchToText(Translate(raw.value), patch);
      if patched.Failure? {
        return PolicyFailure(Diff(patched.error));
      }
      var replaced := SwapIn(temp, path, patched.value);
      r := if replaced then AllApplied else OsFailure;
    }

    /** One round of the loop, with what it leaves of the loop's invariant. */
    method ApplyNext(targets: seq<string>, k: nat, patches: map<string, FilePatch>, ghost before: Files,
                     transactionId: string, host: Host) returns (r: ApplyResult)
      requires k < |targets| && forall t :: t in targets ==> t in patches
      requires AllText(before, targets, host)
      requires LoopState(targets, patches, before, files, host, transactionId, k)
      modifies this`files, this`tick, this`journal
      ensures tick >= old(tick) && old(journal) <= journal
      ensures targets[k] in targets
      ensures r.AllApplied? ==> Done(fails, old(tick), old(tick) + 3, tick)
      ensures r.AllApplied? ==> LoopState(targets, patches, before, files, host, transactionId, k + 1)
      ensures !r.AllApplied? ==> Midway(targets, patches, before, files, transactionId, host)
      ensures r.PolicyFailure? ==> r.code == Diff(HunkContextMismatch) && Done(fails, old(tick), old(tick) + 1, tick)
      ensures TempsApart(targets, transactionId, host) && r.OsFailure? ==> Faulted(fails, old(tick), tick)
      ensures TempsApart(targets, transactionId, host) && NoAliases(targets, host) ==>
        var fits := Fits(targets[k], patches, before, host);
        && (r.AllApplied? ==> fits)
        && (r.PolicyFailure? ==> !fits)
        && (r.OsFailure? ==> Stopped(fails, old(tick), old(tick) + (if fits then 3 else 1), tick))
    {
      var target := targets[k];
      var path, temp := host.at(target), TempName(target, transactionId, host);
      TempNameLonger(target, transactionId, host);
      LoopStateReads(targets, patches, before, files, host, transactionId, k);
      ghost var mid := files;
      r := PatchTarget(path, temp, patches[target]);
      if r.AllApplied? {
        LoopStateStep(targets, patches, before, mid, files, host, transactionId, k);
      } else {
        LoopStateStays(targets, patches, before, mid, files, host, transactionId, k);
        LoopStateIsMidway(targets, patches, before, files, host, transactionId, k);
      }
    }

    /** The loop that patches the targets one by one. */
    method ApplyPatches(targets: seq<string>, patches: map<string, FilePatch>, transactionId: string, host: Host)
      returns (r: ApplyResult, changedFiles: seq<string>)
      requires forall t :: t in targets ==> t in patches
      requires AllText(files, targets, host)
      modifies this`files, this`tick, this`journal
      ensures tick >= old(tick)
      ensures old(journal) <= journal
      ensures Midway(targets, patches, old(files), files, transactionId, host)
      ensures changedFiles <= targets && (r.AllApplied? ==> changedFiles == targets)
      ensures r.PolicyFailure? ==> r.code == Diff(HunkContextMismatch)
      ensures r.AllApplied? ==> Done(fails, old(tick), old(tick) + 3 * |targets|, tick)
      ensures TempsApart(targets, transactionId, host) && r.OsFailure? ==> Faulted(fails, old(tick), tick)
      ensures TempsApart(targets, transactionId, host) && NoAliases(targets, host) ==>
        var n, m := |targets|, FirstMisfit(targets, 0, patches, old(files), host);
        && (r.AllApplied? ==> m == n && Progress(targets, patches, old(files), files, host, n))
        && (r.PolicyFailure? ==> m < n && Done(fails, old(tick), old(tick) + 3 * m + 1, tick))
        && (r.OsFailure? ==> Stopped(fails, old(tick), old(tick) + 3 * m + (if m < n then 1 else 0), tick))
    {
      changedFiles := [];
      var k := 0;
      while k < |targets|
        invariant 0 <= k <= |targets| && Done(fails, old(tick), old(tick) + 3 * k, tick)
        invariant old(journal) <= journal
        invariant changedFiles == targets[..k]
        invariant LoopState(targets, patches, old(files), files, host, transactionId, k)
        invariant TempsApart(targets, transactionId, host) && NoAliases(targets, host) ==>
          FirstMisfit(targets, 0, patches, old(files), host) == FirstMisfit(targets, k, patches, old(files), host)
      {
        r := ApplyNext(targets, k, patches, old(files), transactionId, host);
        if !r.AllApplied? {
          return r, changedFiles;
        }
        changedFiles := changedFiles + [targets[k]];
        k := k + 1;
      }
      assert targets[..|targets|] == targets;
      LoopStateIsMidway(targets, patches, old(files), files, host, transactionId, |targets|);
      r := AllApplied;
    }

    // -------------------------------------------------------------- the transaction

    /** Create the transaction directory, read every preimage, write `rollback.json`. */
    method PrepareRollback(targets: seq<string>, host: Host) returns (r: Option<RollbackArtifact>)
      modifies this`tick, this`rollback, this`journal
      ensures tick >= old(tick)
      ensures r.Some? ==> rollback == r && Preserves(r.value, targets, files, host)
      ensures r.Some? ==> Done(fails, old(tick), old(tick) + 2 + |targets|, tick)
      ensures r.Some? ==> journal == old(journal) + [RollbackWritten]
      ensures r == None ==> journal == old(journal) && rollback == old(rollback)
      ensures r == None && AllText(files, targets, host) ==> Stopped(fails, old(tick), old(tick) + 2 + |targets|, tick)
    {
      var noDirectory := Fault();
      if noDirectory {
        return None;
      }
      r := BuildRollbackArtifact(targets, host);
      if r == None {
        return;
      }
      var notWritten := Fault();
      if notWritten {
        return None;
      }
      rollback := r;
      journal := journal + [RollbackWritten];
    }

    /** Hash every target as it now stands. A failing read here is not caught. */
    method HashPostimages(targets: seq<string>, host: Host) returns (r: Option<map<string, string>>)
      modifies this`tick
      ensures tick >= old(tick)
      ensures r.Some? ==>
        RecordsHashes(r.value, files, targets, host) && Done(fails, old(tick), old(tick) + |targets|, tick)
      ensures r == None && AllText(files, targets, host) ==> Stopped(fails, old(tick), old(tick) + |targets|, tick)
    {
      var hashes: map<string, string> := map[];
      for k := 0 to |targets|
        invariant Done(fails, old(tick), old(tick) + k, tick)
        invariant RecordsHashes(hashes, files, targets[..k], host)
      {
        var data := ReadText(host.at(targets[k]));
        assert targets[..k + 1] == targets[..k] + [targets[k]];
        if data == None {
          assert targets[k] in targets;
          return None;
        }
        hashes := hashes[targets[k] := host.digest(data.value)];
      }
      assert targets[..|targets|] == targets;
      r := Some(hashes);
    }

    /** Undo what was applied; `before` is the workspace as the transaction found it. */
    method UndoAll(artifact: RollbackArtifact, ghost before: Files, ghost targets: seq<string>,
                   ghost patches: map<string, FilePatch>, ghost transactionId: string, host: Host) returns (ok: bool)
      requires Preserves(artifact, targets, before, host) && AllText(before, targets, host)
      requires Midway(targets, patches, before, files, transactionId, host)
      modifies this`files, this`tick, this`journal
      ensures tick >= old(tick) && old(journal) <= journal
      ensures !ok ==> Faulted(fails, old(tick), tick)
      ensures NoAliases(targets, host) ==> (ok <==> !Faulted(fails, old(tick), old(tick) + 2 * |targets|))
      ensures SameOutside(before, files, Touched(targets, transactionId, host))
      ensures TempsApart(targets, transactionId, host) && ok ==> AllAs(before, files, targets, host)
      ensures TempsApart(targets, transactionId, host) && NoAliases(targets, host) ==>
        EachOldOrPatched(targets, patches, before, files, host)
    {
      ghost var applying := files;
      ok := Restore(artifact, before, targets, transactionId, host);
      var touched := Touched(targets, transactionId, host);
      SameOutsideTrans(before, applying, files, touched, touched);
      EscapesOldOrPatched(targets, patches, before, applying, files, transactionId, host);
      if NoAliases(targets, host) {
        DistinctTargets(targets, host);
      }
    }

    /** Write `receipt.json`. */
    method StoreReceipt(sealed: Receipt) returns (ok: bool)
      modifies this`tick, this`receipt, this`journal
      ensures tick == old(tick) + 1 && ok == !fails(old(tick))
      ensures ok ==> receipt == Some(sealed) && journal == old(journal) + [ReceiptStored]
      ensures !ok ==> receipt == old(receipt) && journal == old(journal)
    {
      var notWritten := Fault();
      if notWritten {
        return false;
      }
      receipt := Some(sealed);
      journal := journal + [ReceiptStored];
      ok := true;
    }

    /** Hash the result, write the receipt, count the bytes. A read that fails lets an exception out. */
    method SealReceipt(targets: seq<string>, transactionId: string, bindings: Bindings,
                       preimageHashes: map<string, string>, host: Host) returns (r: SealStep)
      modifies this`tick, this`receipt, this`journal
      ensures tick >= old(tick) && old(journal) <= journal
      ensures r.Stored? ==> receipt == Some(r.receipt) && RecordsHashes(r.receipt.postimageHashes, files, targets, host)
      ensures r.Stored? ==> r.receipt == Receipt(transactionId, bindings, targets, preimageHashes,
                                                 r.receipt.postimageHashes)
      ensures r.Stored? ==> Done(fails, old(tick), old(tick) + 2 * |targets| + 1, tick)
      ensures r.NotStored? ==> receipt == old(receipt) && tick == old(tick) + |targets| + 1
      ensures r.NotStored? ==> fails(old(tick) + |targets|) && !Faulted(fails, old(tick), old(tick) + |targets|)
      ensures r.Unread? && AllText(files, targets, host) ==>
        UnreadAt(old(tick), |targets|) && Faulted(fails, old(tick), tick)
    {
      var hashes := HashPostimages(targets, host);
      if hashes == None {
        assert AllText(files, targets, host) ==> fails(tick - 1);
        return Unread;
      }
      var sealed := Receipt(transactionId, bindings, targets, preimageHashes, hashes.value);
      var stored := StoreReceipt(sealed);
      if !stored {
        return NotStored;
      }
      var counted := HashPostimages(targets, host);
      if counted == None {
        assert AllText(files, targets, host) ==> fails(tick - 1);
        return Unread;
      }
      r := Stored(sealed);
    }

    /** What follows the loop: seal the receipt; undo everything if it cannot be written. */
    method Commit(targets: seq<string>, ghost patches: map<string, FilePatch>, transactionId: string,
                  bindings: Bindings,
                  preimageHashes: map<string, string>, artifact: RollbackArtifact, ghost before: Files,
                  host: Host, states: seq<TxState>) returns (o: Outcome)
      requires Preserves(artifact, targets, before, host) && AllText(before, targets, host)
      requires Midway(targets, patches, before, files, transactionId, host)
      requires states == STARTED_STATES + [ApplyCompleted]
      modifies this
      ensures tick >= old(tick) && old(journal) <= journal && rollback == old(rollback)
      ensures SameOutside(before, files, Touched(targets, transactionId, host))
      ensures o.Accepted? || o == Escaped(WhileReading) ==> files == old(files)
      ensures o.Accepted? ==> receipt == Some(o.receipt) && o.changedFiles == targets
      ensures o.Accepted? ==>
        o.receipt == Receipt(transactionId, bindings, targets, preimageHashes, o.receipt.postimageHashes)
      ensures o.Accepted? ==> RecordsHashes(o.receipt.postimageHashes, files, targets, host)
      ensures o.Accepted? ==> o.states == COMMITTED_STATES
      ensures o.Accepted? ==> Done(fails, old(tick), old(tick) + 2 * |targets| + 1, tick)
      ensures o.Rejected? ==> receipt == old(receipt) && o.codes == [ReceiptWriteFailed] && RejectedAtStep(o)
      ensures o.Escaped? ==> o.stage != WhileValidating
      ensures TempsApart(targets, transactionId, host) ==>
        && (o.Rejected? ==> AllAs(before, files, targets, host))
        && (!o.Accepted? ==> Faulted(fails, old(tick), tick))
        && (o == Escaped(WhileReading) ==> UnreadAt(old(tick), |targets|))
      ensures TempsApart(targets, transactionId, host) && NoAliases(targets, host) ==>
        && (o == Escaped(WhileUndoing) ==> EachOldOrPatched(targets, patches, before, files, host))
        && (o == Escaped(WhileUndoing) || o.Rejected? ==> UndoneAt(old(tick), |targets|, o == Escaped(WhileUndoing)))
    {
      var step := SealReceipt(targets, transactionId, bindings, preimageHashes, host);
      if step.Unread? {
        return Escaped(WhileReading);
      }
      if step.Stored? {
        return Accepted(step.receipt, targets, states + [PostimageVerified, ReceiptIsWritten,
                                                         CommittedLocalTransaction]);
      }
      var restored := UndoAll(artifact, before, targets, patches, transactionId, host);
      o := if restored then Rejected([ReceiptWriteFailed], states + [PostimageVerified] + UNDONE_STATES, true)
           else Escaped(WhileUndoing);
    }

    /** The loop, which began in tick `start + 2 + |targets|`, ended early with `applied`: undo what it did. */
    method UndoLoop(targets: seq<string>, ghost patches: map<string, FilePatch>, transactionId: string,
                    applied: ApplyResult,
                    changed: bool, artifact: RollbackArtifact, ghost before: Files, host: Host, states: seq<TxState>,
                    ghost start: nat)
      returns (o: Outcome)
      requires Preserves(artifact, targets, before, host) && AllText(before, targets, host)
      requires forall t :: t in targets ==> t in patches
      requires Midway(targets, patches, before, files, transactionId, host)
      requires states == STARTED_STATES
      requires LoopEnded(targets, patches, transactionId, before, host, applied, start, tick)
      modifies this`files, this`tick, this`journal
      ensures old(journal) <= journal
      ensures !o.Accepted? && (o.Rejected? ==> o.codes != [RollbackArtifactWriteFailed])
      ensures Transacted(targets, patches, transactionId, before, files, host, o, start, tick)
    {
      ghost var from := tick;
      var code := if applied.PolicyFailure? then applied.code else PatchApplyWriteFailed;
      var restored := UndoAll(artifact, before, targets, patches, transactionId, host);
      o := if restored then Rejected([code], states + UNDONE_STATES, changed) else Escaped(WhileUndoing);
      UndoneTransacted(targets, patches, transactionId, before, files, host, o, applied, start, from, tick);
    }

    /** Everything behind the rollback artifact; the transaction began at tick `start`. */
    method ApplyAndCommit(targets: seq<string>, patches: map<string, FilePatch>, transactionId: string,
                          bindings: Bindings, preimageHashes: map<string, string>, artifact: RollbackArtifact,
                            host: Host, ghost start: nat)
      returns (o: Outcome)
      requires forall t :: t in targets ==> t in patches
      requires AllText(files, targets, host) && Preserves(artifact, targets, files, host)
      requires Done(fails, start, start + 2 + |targets|, tick)
      modifies this
      ensures old(journal) <= journal && rollback == old(rollback)
      ensures Transacted(targets, patches, transactionId, old(files), files, host, o, start, tick)
      ensures o.Accepted? ==> receipt == Some(o.receipt) && o.receipt.bindings == bindings
      ensures o.Accepted? ==> o.receipt.transactionId == transactionId && o.receipt.preimageHashes == preimageHashes
      ensures o.Rejected? ==> receipt == old(receipt) && o.codes != [RollbackArtifactWriteFailed]
    {
      var states := STARTED_STATES;
      var applied, changedFiles := ApplyPatches(targets, patches, transactionId, host);
      ghost var from := tick;
      if !applied.AllApplied? {
        o := UndoLoop(targets, patches, transactionId, applied, changedFiles != [], artifact, old(files), host,
                      states, start);
        return;
      }
      ghost var applying := files;
      o := Commit(targets, patches, transactionId, bindings, preimageHashes, artifact, old(files), host,
                  states + [ApplyCompleted]);
      CommittedTransacted(targets, patches, transactionId, old(files), applying, files, host, o, start, from, tick);
    }

    lemma {:induction false} UndoneTransacted(targets: seq<string>, patches: map<string, FilePatch>,
                                              transactionId: string, before: Files, after: Files, host: Host,
                                                o: Outcome, applied: ApplyResult,
                                              start: nat, from: nat, to: nat)
      requires AllText(before, targets, host) && forall t :: t in targets ==> t in patches
      requires LoopEnded(targets, patches, transactionId, before, host, applied, start, from) && from <= to
      requires SameOutside(before, after, Touched(targets, transactionId, host))
      requires o == Escaped(WhileUndoing) || (o.Rejected? && RejectedAtStep(o)
        && o.codes == [if applied.PolicyFailure? then applied.code else PatchApplyWriteFailed])
      requires o.Escaped? ==> Faulted(fails, from, to)
      requires TempsApart(targets, transactionId, host) && o.Rejected? ==> AllAs(before, after, targets, host)
      requires TempsApart(targets, transactionId, host) && NoAliases(targets, host) ==>
        && EachOldOrPatched(targets, patches, before, after, host)
        && (o.Escaped? <==> Faulted(fails, from, from + 2 * |targets|))
      ensures Transacted(targets, patches, transactionId, before, after, host, o, start, to)
    {
      if TempsApart(targets, transactionId, host) && NoAliases(targets, host) {
        var n, m := |targets|, FirstMisfit(targets, 0, patches, before, host);
        UndoneCourse(fails, start, n, m, from);
        ExceptionWindows(fails, start, n, m);
        AllApplyIffNoMisfit(targets, patches, before, host);
      }
    }

    lemma {:induction false} CommittedTransacted(targets: seq<string>, patches: map<string, FilePatch>,
                                                 transactionId: string, before: Files, applying: Files, after: Files,
                                                   host: Host, o: Outcome,
                                                 start: nat, from: nat, to: nat)
      requires AllText(before, targets, host) && forall t :: t in targets ==> t in patches
      requires var n := |targets|; from == start + 2 + 4 * n && from <= to && !Faulted(fails, start, from)
      requires SameOutside(before, after, Touched(targets, transactionId, host))
      requires o.Accepted? ==>
        && o.changedFiles == targets && o.receipt.targetFiles == targets && o.states == COMMITTED_STATES
        && RecordsHashes(o.receipt.postimageHashes, after, targets, host)
        && Done(fails, from, from + 2 * |targets| + 1, to)
      requires o.Rejected? ==> RejectedAtStep(o) && o.codes == [ReceiptWriteFailed]
      requires o.Escaped? ==> o.stage != WhileValidating
      requires o.Accepted? || o == Escaped(WhileReading) ==> after == applying
      requires TempsApart(targets, transactionId, host) ==>
        && (o.Rejected? ==> AllAs(before, after, targets, host))
        && (!o.Accepted? ==> Faulted(fails, from, to))
        && (o == Escaped(WhileReading) ==> UnreadAt(from, |targets|))
      requires TempsApart(targets, transactionId, host) && NoAliases(targets, host) ==>
        && FirstMisfit(targets, 0, patches, before, host) == |targets|
        && Progress(targets, patches, before, applying, host, |targets|)
        && (o == Escaped(WhileUndoing) ==> EachOldOrPatched(targets, patches, before, after, host))
        && (o == Escaped(WhileUndoing) || o.Rejected? ==> UndoneAt(from, |targets|, o == Escaped(WhileUndoing)))
      ensures Transacted(targets, patches, transactionId, before, after, host, o, start, to)
    {
      if TempsApart(targets, transactionId, host) && NoAliases(targets, host) {
        var n := |targets|;
        FullProgress(targets, patches, before, applying, host);
        CommitCourse(o, from, start, n, n, to);
        ExceptionWindows(fails, start, n, n);
      }
    }

    /** Everything after validation. */
    method RunValidated(targets: seq<string>, patches: map<string, FilePatch>, transactionId: string,
                        bindings: Bindings, preimageHashes: map<string, string>, host: Host) returns (o: Outcome)
      requires forall t :: t in targets ==> t in patches
      requires AllText(files, targets, host)
      modifies this
      ensures RollbackFirst(old(journal), journal)
      ensures Transacted(targets, patches, transactionId, old(files), files, host, o, old(tick), tick)
      ensures o.Accepted? ==> receipt == Some(o.receipt) && o.receipt.bindings == bindings
      ensures o.Accepted? ==> o.receipt.transactionId == transactionId && o.receipt.preimageHashes == preimageHashes
      ensures o.Accepted? ==> rollback.Some? && Preserves(rollback.value, targets, old(files), host)
      ensures o.Rejected? ==> receipt == old(receipt)
      ensures o.Rejected? && o.codes == [RollbackArtifactWriteFailed] ==> journal == old(journal)
    {
      ghost var start := tick;
      var prepared := PrepareRollback(targets, host);
      if prepared == None {
        NotPreparedCourse(fails, start, |targets|, FirstMisfit(targets, 0, patches, files, host), tick);
        ExceptionWindows(fails, start, |targets|, FirstMisfit(targets, 0, patches, files, host));
        return Rejected([RollbackArtifactWriteFailed], [Planned, ApprovalVerified, PreimageVerified,
                                                        RejectedFailClosed], false);
      }
      ghost var afterPrepare := journal;
      o := ApplyAndCommit(targets, patches, transactionId, bindings, preimageHashes, prepared.value, host, start);
      RollbackFirstExtends(old(journal), afterPrepare, journal);
    }

    /** `apply_patch_transaction`. For every workspace, request and schedule of faults:
        - a request that does not validate, or passes every check but lacks a field that the result
          copies, changes nothing;
        - otherwise only targets and temporary names are touched, and no target before the rollback
          artifact is written;
        - if no temporary name is a target, a rejected run leaves every target as it was, and only a
          fault can make an exception leave the call;
        - if moreover no two targets are one file, the schedule and the patches decide how the run ends;
          accepted, or left by a failing read of the result, every target is its patched preimage; only
          an undo that is itself hit can leave some targets patched and others as they were. */
    method ApplyPatchTransaction(request: Json, policy: Policy, host: Host) returns (o: Outcome)
      modifies this
      ensures !Authorised(request, old(files), policy, host) ==>
        && (if PassesChecks(request, old(files), policy, host) then o == Escaped(WhileValidating)
            else RefusedAtOnce(o) && forall code :: code in o.codes <==>
                RefusedFor(request, old(files), policy, host, code))
        && files == old(files) && rollback == old(rollback) && receipt == old(receipt)
        && journal == old(journal) && tick == old(tick)
      ensures Authorised(request, old(files), policy, host) ==>
        var targets, patches := TargetFiles(Proposal(request.fields)), PatchesOf(Proposal(request.fields));
        && RollbackFirst(old(journal), journal)
        && AllText(old(files), targets, host) && (forall t :: t in targets ==> t in patches)
        && Transacted(targets, patches, TransactionId(request.fields), old(files), files, host, o, old(tick), tick)
      ensures o.Accepted? ==> receipt == Some(o.receipt) && RecordsPreimages(o.receipt, Proposal(request.fields))
      ensures o.Accepted? ==> Grantable(request, old(files), policy, host)
      ensures o.Accepted? ==> CarriesApproval(o.receipt.bindings, request.fields, host)
      ensures o.Accepted? ==> Get(request.fields, "transaction_id") == Str(o.receipt.transactionId)
      ensures o.Accepted? ==> Get(Carried(request.fields), "target_files") == StrList(o.receipt.targetFiles)
      ensures o.Accepted? ==> rollback.Some?
      ensures o.Accepted? ==> Preserves(rollback.value, TargetFiles(Proposal(request.fields)), old(files), host)
    {
      AuthorisedIffGrantable(request, files, policy, host);
      var validation := ValidatePatchApplyRequest(request, files, policy, host);
      if validation.Invalid? {
        return Rejected(validation.codes, [Planned, RejectedFailClosed], false);
      }
      if validation.Raised? {
        return Escaped(WhileValidating);
      }
      var targets := validation.targetFiles;
      AuthorisedMeans(request, files, policy, host);
      GrantedHandsOn(request, files, policy, host);
      var parsed := ParseUnifiedDiff(DiffText(Proposal(request.fields)));
      var patches := PatchDict(parsed.value);
      o := RunValidated(targets, patches, validation.transactionId, validation.bindings, validation.preimageHashes,
                        host);
    }

    /** From a commit that starts at `committing`, how the run ends. */
    lemma {:induction false} CommitCourse(o: Outcome, committing: nat, start: nat, n: nat, m: nat, to: nat)
      requires m == n && committing == start + 2 + 4 * n && !Faulted(fails, start, committing)
      requires o.Accepted? ==> Done(fails, committing, committing + 2 * n + 1, to)
      requires o.Escaped? ==> o.stage != WhileValidating
      requires o == Escaped(WhileReading) ==> UnreadAt(committing, n)
      requires o == Escaped(WhileUndoing) || o.Rejected? ==> UndoneAt(committing, n, o == Escaped(WhileUndoing))
      requires o.Rejected? ==> o.codes != [RollbackArtifactWriteFailed]
      ensures Ends(o, CourseOf(fails, start, n, m), fails, n)
      ensures o.Rejected? ==> !UndoHit(fails, CourseOf(fails, start, n, m), n)
    {
      var end := start + 3 + 6 * n;
      if o.Accepted? {
        CompletedCourse(fails, start, n);
      } else if o == Escaped(WhileReading) {
        var k :| committing <= k <= committing + 2 * n && k != committing + n && fails(k) &&
          !Faulted(fails, committing, k);
        FirstFaultIs(fails, start, end, k);
      } else {
        FirstFaultIs(fails, start, end, committing + n);
      }
    }
  }
}
