/** One run of the supervised agent loop (runtime_lab/agent_loop/supervisor.py) with its patch transaction
    inside it: the order of its calls, how it ends, and what it leaves in the workspace and on disk. */
module SupervisedRun {
  import opened Wrappers
  import opened Json
  import opened Dedupe
  import opened HashChain
  import opened FaultSchedule
  import opened PatchPolicy
  import opened TransactionStates
  import opened PatchTransaction
  import opened TransitionHistory
  import opened Supervisor
  import LoopLedger
  import StateMachine

  // ---------------------------------------------------------------- calls and answers

  datatype Answer = Accepts | RejectsWith(codes: seq<RunCode>) | Raises

  /** `codes or ["REJECTED_CONTEXT_READ"]` */
  function ContextRejection(contexts: seq<ContextResult>): seq<RunCode> {
    if ContextCodes(contexts) == [] then [Named("REJECTED_CONTEXT_READ")] else ContextCodes(contexts)
  }

  function AnswerOf(call: Call, parts: Parts): Answer {
    match call
    case FetchContext =>
      if ContextRaised in parts.given.contexts then Raises
      else if AllContextAccepted(parts.given.contexts) then Accepts
      else RejectsWith(ContextRejection(parts.given.contexts))
    case MakeProposal =>
      (match parts.given.proposal
       case ProposalAccepted(_, _, _) => Accepts
       case ProposalRejected(codes) => RejectsWith(codes)
       case ProposalRaised => Raises)
    case ApplyPatch => PartAnswer(parts.apply)
    case RunTest => PartAnswer(parts.given.test)
  }

  function PartAnswer(p: PartResult): Answer {
    match p
    case PartAccepted(_) => Accepts
    case PartRejected(codes) => RejectsWith(codes)
    case PartRaised => Raises
  }

  /** The calls a run makes: none before it is admitted; then context before proposal before application
      before tests, each only when everything before it was accepted. */
  function CallsMade(q: LoopRequest, parts: Parts): seq<Call> {
    if Admitted(parts.given) then PartCalls(q, parts) else []
  }

  function PartCalls(q: LoopRequest, parts: Parts): seq<Call> {
    FirstCalls(parts)
    + if AllContextAccepted(parts.given.contexts) && parts.given.proposal.ProposalAccepted? && q.mode == SupervisedApply
      then LastCalls(q, parts.apply) else []
  }

  function FirstCalls(parts: Parts): seq<Call> {
    [FetchContext] + if AllContextAccepted(parts.given.contexts) then [MakeProposal] else []
  }

  function LastCalls(q: LoopRequest, apply: PartResult): seq<Call> {
    [ApplyPatch] + if apply.PartAccepted? && q.testCommand then [RunTest] else []
  }

  /** The calls end with one that gives this answer, the only one that does not accept. */
  predicate EndsWith(calls: seq<Call>, parts: Parts, answer: Answer) {
    && calls != [] && !answer.Accepts? && AnswerOf(calls[|calls| - 1], parts) == answer
    && forall i :: 0 <= i < |calls| - 1 ==> AnswerOf(calls[i], parts).Accepts?
  }

  /** Everything before the transaction was accepted. */
  predicate ComesToApply(q: LoopRequest, given: Given) {
    Admitted(given) && AllContextAccepted(given.contexts) && given.proposal.ProposalAccepted? &&
      q.mode == SupervisedApply
  }

  lemma {:induction false} ComesToApplyIffCalled(q: LoopRequest, parts: Parts)
    ensures ComesToApply(q, parts.given) <==> ApplyPatch in CallsMade(q, parts)
  {
  }

  /** What the transaction and the tests behind it answer. */
  function LastAnswer(q: LoopRequest, given: Given, apply: PartResult): Answer {
    if apply.PartAccepted? && q.testCommand then PartAnswer(given.test) else PartAnswer(apply)
  }

  lemma {:induction false} LastCallsDecide(q: LoopRequest, parts: Parts)
    requires AllContextAccepted(parts.given.contexts) && parts.given.proposal.ProposalAccepted? &&
      q.mode == SupervisedApply
    requires !LastAnswer(q, parts.given, parts.apply).Accepts?
    ensures EndsWith(PartCalls(q, parts), parts, LastAnswer(q, parts.given, parts.apply))
  {
  }

  lemma {:induction false} LastReceipts(q: LoopRequest, parts: Parts)
    requires ComesToApply(q, parts.given) && LastAnswer(q, parts.given, parts.apply).Accepts?
    ensures AllPartsAccept(q, parts)
    ensures ExecutorReceipts(q, parts) ==
      (AcceptedContext(parts.given.contexts) + [ReceiptHash(parts.given.proposal.receipt)])
      + ([ReceiptHash(parts.apply.receipt)] + if q.testCommand then [ReceiptHash(parts.given.test.receipt)] else [])
  {
  }

  /** What stops a run that does not come to its evidence: the last component it called, if it was admitted. */
  function StopAnswer(q: LoopRequest, parts: Parts): Answer {
    if parts.given.validationCodes != [] then RejectsWith(parts.given.validationCodes)
    else if parts.given.setupRaises then Raises
    else if parts.given.planHasToolCalls then RejectsWith([Named("REJECTED_MODEL_TOOL_CALL")])
    else AnswerOf(PartCalls(q, parts)[|PartCalls(q, parts)| - 1], parts)
  }

  /** `_failure`, or the exception. A rejection says that no patch was applied. */
  function Stop(answer: Answer): (r: LoopResult)
    requires !answer.Accepts?
    ensures !r.LoopAccepted?
  {
    match answer
    case RejectsWith(codes) => LoopRejected(FirstSeen(codes), false)
    case Raises => LoopRaised
  }

  /** The run was stopped by that answer, and every component called before it accepted. */
  ghost predicate StoppedRun(q: LoopRequest, parts: Parts, r: LoopResult) {
    && !StopAnswer(q, parts).Accepts? && r == Stop(StopAnswer(q, parts))
    && (Admitted(parts.given) ==> EndsWith(PartCalls(q, parts), parts, StopAnswer(q, parts)))
  }

  lemma {:induction false} StoppedByLast(q: LoopRequest, parts: Parts, answer: Answer)
    requires Admitted(parts.given) && EndsWith(PartCalls(q, parts), parts, answer)
    ensures StoppedRun(q, parts, Stop(answer))
  {
  }

  // ---------------------------------------------------------------- the transaction of a run

  /** What `_run_patch_apply` hands over besides the run's own names: the proposal as it is read back from
      its artifact, unless that raises, the approval packet, and the JSON form of a receipt. */
  datatype ApplyCall = ApplyCall(
    proposal: Option<Json>, approval: Json, policy: Policy, host: Host, receiptJson: Receipt -> Object)

  function TransactionRequest(q: LoopRequest, call: ApplyCall): Object
    requires call.proposal.Some?
  {
    map[
      "transaction_id" := Str(q.runId + "-patch-apply"), "proposal" := call.proposal.value,
      "approval_packet" := call.approval, "base_commit" := Str(q.baseCommit)]
  }

  /** The part's result, by how the transaction ended. */
  function PartOf(o: Outcome, call: ApplyCall): PartResult {
    match o
    case Accepted(receipt, _, _) => PartAccepted(call.receiptJson(receipt))
    case Rejected(codes, _, _) => PartRejected(seq(|codes|, i requires 0 <= i < |codes| => OfPatch(codes[i])))
    case Escaped(_) => PartRaised
  }

  /** No two targets of the proposal are one file, and no temporary name is a target. */
  ghost predicate NamesApart(r: Object, host: Host) {
    NoAliases(TargetFiles(Proposal(r)), host) && TempsApart(TargetFiles(Proposal(r)), TransactionId(r), host)
  }

  ghost predicate TargetsPatched(r: Object, host: Host, before: Files, after: Files) {
    AllPatched(TargetFiles(Proposal(r)), PatchesOf(Proposal(r)), before, after, host)
  }

  ghost predicate TargetsKept(r: Object, host: Host, before: Files, after: Files) {
    AllAs(before, after, TargetFiles(Proposal(r)), host)
  }

  ghost predicate TargetsMixed(r: Object, host: Host, before: Files, after: Files) {
    EachOldOrPatched(TargetFiles(Proposal(r)), PatchesOf(Proposal(r)), before, after, host)
  }

  /** The schedule of the workspace, from this tick on, and the patches decide how the transaction ends. */
  ghost predicate EndsOnSchedule(r: Object, host: Host, before: Files, o: Outcome, fails: Schedule, from: nat) {
    var targets, patches := TargetFiles(Proposal(r)), PatchesOf(Proposal(r));
    && AllText(before, targets, host) && (forall t :: t in targets ==> t in patches)
    && Ends(o, CourseOf(fails, from, |targets|, FirstMisfit(targets, 0, patches, before, host)), fails, |targets|)
  }

  /** What the workspace holds behind a transaction that began at tick `from` and ended with `o`. */
  ghost predicate TargetsAfter(r: Object, call: ApplyCall, before: Files, after: Files, o: Outcome, fails: Schedule,
                               from: nat) {
    if !Authorised(Obj(r), before, call.policy, call.host) then
      after == before && (o.Rejected? || o == Escaped(WhileValidating))
    else
      && o != Escaped(WhileValidating)
      && (NamesApart(r, call.host) ==>
        && EndsOnSchedule(r, call.host, before, o, fails, from)
        && (o.Accepted? || o == Escaped(WhileReading) ==> TargetsPatched(r, call.host, before, after))
        && (o.Rejected? ==> TargetsKept(r, call.host, before, after))
        && (o == Escaped(WhileUndoing) ==> TargetsMixed(r, call.host, before, after)))
  }

  lemma {:induction false} TransactedTargets(w: Workspace, r: Object, call: ApplyCall, before: Files, after: Files,
                                             o: Outcome, from: nat, to: nat)
    requires Authorised(Obj(r), before, call.policy, call.host)
    requires var targets, patches := TargetFiles(Proposal(r)), PatchesOf(Proposal(r));
      && AllText(before, targets, call.host) && (forall t :: t in targets ==> t in patches)
      && w.Transacted(targets, patches, TransactionId(r), before, after, call.host, o, from, to)
    ensures TargetsAfter(r, call, before, after, o, w.fails, from)
  {
  }

  /** The transaction runs exactly when the run comes to it and its proposal can be read back; without it the
      workspace is left alone. */
  ghost predicate Transaction(q: LoopRequest, parts: Parts, call: ApplyCall, before: Files, after: Files,
                              o: Option<Outcome>, fails: Schedule, from: nat) {
    && (o.Some? <==> ComesToApply(q, parts.given) && call.proposal.Some?)
    && (o.None? ==> after == before)
    && (o.None? && ComesToApply(q, parts.given) ==> parts.apply == PartRaised)
    && (o.Some? ==>
      parts.apply == PartOf(o.value, call)
      && TargetsAfter(TransactionRequest(q, call), call, before, after, o.value, fails, from))
  }

  // ---------------------------------------------------------------- what is left on disk

  /** An evidence file: what was written, or a write that broke off. */
  datatype Content = Whole(value: Object) | Cut

  type Disk = map<string, Content>

  const MANIFEST: string := "replay_manifest.json"
  const REPORT: string := "final_report.json"
  const RECEIPT: string := "agent_loop_receipt.json"

  /** The loop receipt records the hashes of the other two files and of the proposal. */
  ghost predicate RecordsFiles(parts: Parts, r: LoopResult, hash: Hash)
    requires r.LoopAccepted? && parts.given.proposal.ProposalAccepted?
  {
    Get(r.loopReceipt, "artifact_hashes") == Obj(map[
      "patch_proposal" := Str(parts.given.proposal.artifactHash),
      "replay_manifest" := Str(hash(r.manifest)),
      "final_report" := Str(hash(r.report))])
  }

  /** The three evidence files are written, whole. */
  ghost predicate LeftBehind(r: LoopResult, before: Disk, after: Disk)
    requires r.LoopAccepted?
  {
    after == before[MANIFEST := Whole(r.manifest)][REPORT := Whole(r.report)][RECEIPT := Whole(r.loopReceipt)]
  }

  /** Only the file `name` may have changed, and then its write broke off. */
  predicate AtMostCut(name: string, before: Disk, after: Disk) {
    after == before || after == before[name := Cut]
  }

  /** The first write that is hit decides how much evidence there is: no loop receipt, in any case. */
  ghost predicate EvidenceCut(fails: Schedule, from: nat, before: Disk, after: Disk) {
    if fails(from) then AtMostCut(MANIFEST, before, after)
    else exists m: Object :: CutBehind(fails, from, before[MANIFEST := Whole(m)], after)
  }

  /** The same behind the manifest. */
  ghost predicate CutBehind(fails: Schedule, from: nat, before: Disk, after: Disk) {
    if fails(from + 1) then AtMostCut(REPORT, before, after)
    else fails(from + 2) && exists r: Object :: AtMostCut(RECEIPT, before[REPORT := Whole(r)], after)
  }

  lemma {:induction false} NoNewReceipt(fails: Schedule, from: nat, before: Disk, after: Disk)
    requires EvidenceCut(fails, from, before, after)
    ensures RECEIPT in after && after[RECEIPT].Whole? ==> RECEIPT in before && before[RECEIPT] == after[RECEIPT]
  {
    assert RECEIPT != MANIFEST && RECEIPT != REPORT;
  }

  // ---------------------------------------------------------------- the run

  /** Ledger, manifest, report, receipt, and the ledger once more with the loop's own receipt. Each file is
      hashed into what comes after it; nothing here depends on whether its write succeeds. */
  method BuildEvidence(q: LoopRequest, parts: Parts, log: seq<Object>, receipts: seq<Json>, hash: Hash)
      returns (r: LoopResult)
    requires AllPartsAccept(q, parts) && receipts == ExecutorReceipts(q, parts)
    requires StateMachine.BuiltLog(Pairs(q.mode), q.runId, hash) == StateMachine.Ok(log)
    ensures r.LoopAccepted? && Aligned(q, parts, r, hash) && RecordsFiles(parts, r, hash)
    ensures NamesAll(q, parts, r) && (r.applyPerformed <==> q.mode == SupervisedApply)
  {
    PairsReachDone(q.mode, q.runId, hash);
    BuiltIsVerifiedPath(Pairs(q.mode), q.runId, hash);
    var stateHash := TailHash(log, StateMachine.OWN);
    var artifacts := map["patch_proposal" := Str(parts.given.proposal.artifactHash)];
    var events := LoopLedger.BuildLedgerEvents(q.runId, receipts, hash);
    var tail := TailHash(events, LoopLedger.OWN);
    var manifest := BuildManifest(q, stateHash, artifacts, receipts, tail, hash);
    artifacts := artifacts["replay_manifest" := Str(hash(manifest))];
    var report := BuildReport(q, parts, log, tail, manifest);
    artifacts := artifacts["final_report" := Str(hash(report))];
    var loopReceipt := BuildLoopReceipt(q, parts, stateHash, artifacts, receipts, hash);
    var ledgerEvents := LoopLedger.BuildLedgerEvents(q.runId, receipts + [ReceiptHash(loopReceipt)], hash);
    OneEventMore(q.runId, receipts, ReceiptHash(loopReceipt), hash);
    r := LoopAccepted(manifest, report, loopReceipt, ledgerEvents, q.mode == SupervisedApply);
  }

  /** What the run leaves in the targets of its transaction, should it have come to it. Only a run whose
      transaction was rejected, or was left while undoing, leaves a target unpatched. */
  ghost predicate TargetsLeft(q: LoopRequest, parts: Parts, call: ApplyCall, before: Files, after: Files,
                              r: LoopResult, o: Option<Outcome>) {
    o.Some? && call.proposal.Some? ==>
      var request := TransactionRequest(q, call);
      if !Authorised(Obj(request), before, call.policy, call.host) then after == before && !r.LoopAccepted?
      else NamesApart(request, call.host) ==>
        match r
        case LoopAccepted(_, _, _, _, _) => TargetsPatched(request, call.host, before, after)
        case LoopRejected(_, _) =>
          if RunTest in CallsMade(q, parts) then TargetsPatched(request, call.host, before, after)
          else TargetsKept(request, call.host, before, after)
        case LoopRaised =>
          if o.value == Escaped(WhileUndoing) then TargetsMixed(request, call.host, before, after)
          else TargetsPatched(request, call.host, before, after)
  }

  /** The result says whether the transaction was accepted, except for a run that its tests rejected. */
  ghost predicate ReportsApply(q: LoopRequest, parts: Parts, r: LoopResult, o: Option<Outcome>) {
    !r.LoopRaised? ==>
      ((r.applyPerformed <==> o.Some? && o.value.Accepted?) <==> !(r.LoopRejected? && RunTest in CallsMade(q, parts)))
  }

  /** A run that is not left to its evidence and write faults ends as its components answered. */
  ghost predicate EndsByParts(q: LoopRequest, parts: Parts, r: LoopResult) {
    && (AllPartsAccept(q, parts) ==>
      !r.LoopRejected? && (r.LoopAccepted? ==> (r.applyPerformed <==> q.mode == SupervisedApply)))
    && (!AllPartsAccept(q, parts) ==> StoppedRun(q, parts, r))
  }

  /** What the end of the run says of the apply part. */
  lemma {:induction false} EndTellsApply(q: LoopRequest, parts: Parts, r: LoopResult)
    requires EndsByParts(q, parts, r)
    ensures RunTest in CallsMade(q, parts) ==> ApplyPatch in CallsMade(q, parts) && parts.apply.PartAccepted?
    ensures ApplyPatch in CallsMade(q, parts) ==>
      && (r.LoopAccepted? ==> parts.apply.PartAccepted?)
      && (r.LoopRejected? ==> if RunTest in CallsMade(q, parts) then parts.apply.PartAccepted?
          else parts.apply.PartRejected?)
      && (r.LoopRaised? ==> !parts.apply.PartRejected?)
    ensures r.LoopRejected? ==> !r.applyPerformed
    ensures r.LoopAccepted? ==>
      (r.applyPerformed <==> ApplyPatch in CallsMade(q, parts)) &&
        (ApplyPatch in CallsMade(q, parts) ==> parts.apply.PartAccepted?)
  {
  }

  /** How a run ends and how its transaction ended, put together. */
  lemma {:induction false} RunLeaves(q: LoopRequest, parts: Parts, call: ApplyCall, before: Files, after: Files,
                                     r: LoopResult, o: Option<Outcome>, fails: Schedule, from: nat)
    requires Transaction(q, parts, call, before, after, o, fails, from)
    requires EndsByParts(q, parts, r)
    ensures TargetsLeft(q, parts, call, before, after, r, o)
  {
    EndTellsApply(q, parts, r);
    ComesToApplyIffCalled(q, parts);
    if o.Some? && call.proposal.Some? {
      ApplyTellsOutcome(parts.apply, o.value, call);
      EscapeStages(o.value);
    }
  }

  lemma {:induction false} EscapeStages(o: Outcome)
    ensures o.Escaped? ==> o in {Escaped(WhileValidating), Escaped(WhileReading), Escaped(WhileUndoing)}
  {
    if o.Escaped? {
      match o.stage
      case WhileValidating =>
      case WhileReading =>
      case WhileUndoing =>
    }
  }

  lemma {:induction false} ApplyTellsOutcome(p: PartResult, o: Outcome, call: ApplyCall)
    requires p == PartOf(o, call)
    ensures p.PartAccepted? <==> o.Accepted?
    ensures p.PartRejected? <==> o.Rejected?
  {
  }

  lemma {:induction false} RunReports(q: LoopRequest, parts: Parts, r: LoopResult, call: ApplyCall, before: Files,
                                      after: Files, o: Option<Outcome>, fails: Schedule, from: nat)
    requires Transaction(q, parts, call, before, after, o, fails, from)
    requires EndsByParts(q, parts, r)
    ensures ReportsApply(q, parts, r, o)
  {
    EndTellsApply(q, parts, r);
    ComesToApplyIffCalled(q, parts);
    if o.Some? {
      ApplyTellsOutcome(parts.apply, o.value, call);
    }
  }

  class Run {
    const workspace: Workspace
    const fails: Schedule
    const torn: nat -> bool
    var written: Disk
    var tick: nat
    ghost var calls: seq<Call>

    constructor (workspace: Workspace, fails: Schedule, torn: nat -> bool)
      ensures this.workspace == workspace && this.fails == fails && this.torn == torn
      ensures written == map[] && tick == 0 && calls == []
    {
      this.workspace, this.fails, this.torn := workspace, fails, torn;
      written, tick, calls := map[], 0, [];
    }

    /** Accepted components leave aligned evidence, unless a write of it is hit. */
    ghost predicate EvidenceEnds(q: LoopRequest, parts: Parts, r: LoopResult, from: nat, before: Disk, after: Disk,
                                 hash: Hash)
      requires AllPartsAccept(q, parts)
    {
      && !r.LoopRejected? && (r.LoopAccepted? <==> !Faulted(fails, from, from + 3))
      && (r.LoopAccepted? ==>
        && Aligned(q, parts, r, hash) && NamesAll(q, parts, r)
        && RecordsFiles(parts, r, hash) && LeftBehind(r, before, after)
        && (r.applyPerformed <==> q.mode == SupervisedApply))
      && (r.LoopRaised? ==> EvidenceCut(fails, from, before, after))
    }

    /** How the run ends. */
    ghost predicate EndsAs(q: LoopRequest, parts: Parts, r: LoopResult, from: nat, before: Disk, after: Disk,
                           hash: Hash) {
      if AllPartsAccept(q, parts) then EvidenceEnds(q, parts, r, from, before, after, hash)
      else after == before && StoppedRun(q, parts, r)
    }

    /** `_write_json`: the hash of what was written, unless the write fails. */
    method WriteJson(name: string, value: Object, hash: Hash) returns (h: Option<string>)
      modifies this`written, this`tick
      ensures tick == old(tick) + 1
      ensures h == if fails(old(tick)) then None else Some(hash(value))
      ensures h.Some? ==> written == old(written)[name := Whole(value)]
      ensures h.None? ==> written == old(written) || written == old(written)[name := Cut]
    {
      if !fails(tick) {
        written := written[name := Whole(value)];
        h := Some(hash(value));
      } else {
        if torn(tick) {
          written := written[name := Cut];
        }
        h := None;
      }
      tick := tick + 1;
    }

    /** `_run_context_requests`: collect the receipts, skip what was not accepted. */
    method RunContextRequests(contexts: seq<ContextResult>) returns (receipts: Option<seq<Json>>)
      modifies this`calls
      ensures receipts == if ContextRaised in contexts then None else Some(AcceptedContext(contexts))
      ensures calls == old(calls) + [FetchContext]
    {
      calls := calls + [FetchContext];
      var found: seq<Json> := [];
      for i := 0 to |contexts|
        invariant ContextRaised !in contexts[..i] && found == AcceptedContext(contexts[..i])
      {
        assert contexts[..i + 1][..i] == contexts[..i];
        if contexts[i].ContextRaised? {
          return None;
        }
        if contexts[i].accepted {
          found := found + [ReceiptHash(contexts[i].receipt)];
        }
      }
      assert contexts[..|contexts|] == contexts;
      receipts := Some(found);
    }

    /** `_run_patch_apply` */
    method RunPatchApply(q: LoopRequest, call: ApplyCall) returns (p: PartResult, ghost o: Option<Outcome>)
      modifies workspace, this`calls
      ensures calls == old(calls) + [ApplyPatch]
      ensures o.Some? <==> call.proposal.Some?
      ensures o.None? ==> p == PartRaised && workspace.files == old(workspace.files)
      ensures o.Some? ==> p == PartOf(o.value, call)
      ensures o.Some? ==>
        TargetsAfter(TransactionRequest(q, call), call, old(workspace.files), workspace.files, o.value,
                     workspace.fails, old(workspace.tick))
    {
      calls := calls + [ApplyPatch];
      if call.proposal.None? {
        return PartRaised, None;
      }
      var request := TransactionRequest(q, call);
      ghost var before, from := workspace.files, workspace.tick;
      var outcome := workspace.ApplyPatchTransaction(Obj(request), call.policy, call.host);
      p, o := PartOf(outcome, call), Some(outcome);
      if Authorised(Obj(request), before, call.policy, call.host) {
        TransactedTargets(workspace, request, call, before, workspace.files, outcome, from, workspace.tick);
      }
    }

    /** Context and proposal. */
    method CallFirstParts(given: Given) returns (answer: Answer, receipts: seq<Json>)
      modifies this`calls
      ensures answer.Accepts? <==> AllContextAccepted(given.contexts) && given.proposal.ProposalAccepted?
      ensures answer.Accepts? ==> receipts == AcceptedContext(given.contexts) + [ReceiptHash(given.proposal.receipt)]
      ensures forall parts: Parts :: parts.given == given ==>
        calls == old(calls) + FirstCalls(parts) && (!answer.Accepts? ==> EndsWith(FirstCalls(parts), parts, answer))
    {
      receipts := [];
      var context := RunContextRequests(given.contexts);
      answer := AnswerOf(FetchContext, Parts(given, PartRaised));
      if answer.Accepts? {
        calls := calls + [MakeProposal];
        answer := AnswerOf(MakeProposal, Parts(given, PartRaised));
        if answer.Accepts? {
          receipts := context.value + [ReceiptHash(given.proposal.receipt)];
        }
      }
    }

    /** The transaction and, behind it, the tests. */
    method ApplyAndTest(q: LoopRequest, given: Given, call: ApplyCall)
      returns (answer: Answer, receipts: seq<Json>, p: PartResult, ghost o: Option<Outcome>)
      modifies workspace, this`calls
      ensures calls == old(calls) + LastCalls(q, p)
      ensures answer == LastAnswer(q, given, p)
      ensures answer.Accepts? ==>
        receipts == [ReceiptHash(p.receipt)] + if q.testCommand then [ReceiptHash(given.test.receipt)] else []
      ensures o.Some? <==> call.proposal.Some?
      ensures o.None? ==> p == PartRaised && workspace.files == old(workspace.files)
      ensures o.Some? ==> p == PartOf(o.value, call)
      ensures o.Some? ==>
        TargetsAfter(TransactionRequest(q, call), call, old(workspace.files), workspace.files, o.value,
                     workspace.fails, old(workspace.tick))
    {
      receipts := [];
      p, o := RunPatchApply(q, call);
      answer := PartAnswer(p);
      if answer.Accepts? {
        receipts := [ReceiptHash(p.receipt)];
        if q.testCommand {
          calls := calls + [RunTest];
          answer := PartAnswer(given.test);
          receipts := receipts + if answer.Accepts? then [ReceiptHash(given.test.receipt)] else [];
        }
      }
    }

    /** The part of a run that calls components, with the transaction among them. */
    method CallParts(q: LoopRequest, given: Given, call: ApplyCall)
      returns (answer: Answer, receipts: seq<Json>, parts: Parts, ghost o: Option<Outcome>)
      requires Admitted(given)
      modifies workspace, this`calls
      ensures parts.given == given && calls == old(calls) + PartCalls(q, parts)
      ensures answer.Accepts? <==> AllPartsAccept(q, parts)
      ensures answer.Accepts? ==> receipts == ExecutorReceipts(q, parts)
      ensures !answer.Accepts? ==> EndsWith(PartCalls(q, parts), parts, answer)
      ensures Transaction(q, parts, call, old(workspace.files), workspace.files, o, workspace.fails,
                          old(workspace.tick))
    {
      parts, o := Parts(given, PartRaised), None;
      answer, receipts := CallFirstParts(given);
      if answer.Accepts? && q.mode == SupervisedApply {
        var more, p;
        answer, more, p, o := ApplyAndTest(q, given, call);
        parts := Parts(given, p);
        receipts := receipts + more;
        if answer.Accepts? {
          LastReceipts(q, parts);
        } else {
          LastCallsDecide(q, parts);
        }
      }
    }

    /** The three writes of the evidence, in this order; the first that fails ends them. */
    method WriteEvidence(manifest: Object, report: Object, loopReceipt: Object, hash: Hash) returns (ok: bool)
      modifies this`written, this`tick
      ensures ok <==> !Faulted(fails, old(tick), old(tick) + 3)
      ensures ok ==>
        written == old(written)[MANIFEST := Whole(manifest)][REPORT := Whole(report)][RECEIPT := Whole(loopReceipt)]
      ensures !ok ==> EvidenceCut(fails, old(tick), old(written), written)
    {
      var manifestHash := WriteJson(MANIFEST, manifest, hash);
      if manifestHash.None? {
        return false;
      }
      var reportHash := WriteJson(REPORT, report, hash);
      if reportHash.None? {
        assert CutBehind(fails, old(tick), old(written)[MANIFEST := Whole(manifest)], written);
        return false;
      }
      var receiptHash := WriteJson(RECEIPT, loopReceipt, hash);
      if receiptHash.None? {
        assert AtMostCut(RECEIPT, old(written)[MANIFEST := Whole(manifest)][REPORT := Whole(report)], written);
        assert CutBehind(fails, old(tick), old(written)[MANIFEST := Whole(manifest)], written);
        return false;
      }
      ok := true;
    }

    /** The evidence of a run whose components accepted. A write that fails lets an exception out. */
    method AssembleEvidence(q: LoopRequest, parts: Parts, log: seq<Object>, receipts: seq<Json>, hash: Hash)
      returns (r: LoopResult)
      requires AllPartsAccept(q, parts) && receipts == ExecutorReceipts(q, parts)
      requires StateMachine.BuiltLog(Pairs(q.mode), q.runId, hash) == StateMachine.Ok(log)
      modifies this`written, this`tick
      ensures EvidenceEnds(q, parts, r, old(tick), old(written), written, hash)
    {
      r := BuildEvidence(q, parts, log, receipts, hash);
      var ok := WriteEvidence(r.manifest, r.report, r.loopReceipt, hash);
      if !ok {
        r := LoopRaised;
      }
    }

    /** The run behind validation, planning and its transition log. */
    method RunAdmitted(q: LoopRequest, given: Given, call: ApplyCall, log: seq<Object>, hash: Hash)
      returns (r: LoopResult, ghost parts: Parts, ghost o: Option<Outcome>)
      requires Admitted(given)
      requires StateMachine.BuiltLog(Pairs(q.mode), q.runId, hash) == StateMachine.Ok(log)
      modifies this, workspace
      ensures parts.given == given && calls == old(calls) + PartCalls(q, parts)
      ensures Transaction(q, parts, call, old(workspace.files), workspace.files, o, workspace.fails,
                          old(workspace.tick))
      ensures EndsAs(q, parts, r, old(tick), old(written), written, hash)
    {
      var answer, receipts, actual;
      answer, receipts, actual, o := CallParts(q, given, call);
      parts := actual;
      if answer.Accepts? {
        r := AssembleEvidence(q, actual, log, receipts, hash);
      } else {
        StoppedByLast(q, parts, answer);
        r := Stop(answer);
      }
    }

    /** `run_agent_loop`, for every run directory, workspace, request and pair of fault schedules. Accepted
        exactly when every component that is called accepts and every write of evidence succeeds, and then
        with aligned evidence. A rejected run writes none, and one left by an exception no loop receipt. The
        workspace holds what `TargetsLeft` says. */
    method RunAgentLoop(q: LoopRequest, given: Given, call: ApplyCall, hash: Hash)
      returns (r: LoopResult, ghost parts: Parts, ghost o: Option<Outcome>)
      modifies this, workspace
      ensures parts.given == given && calls == old(calls) + CallsMade(q, parts)
      ensures Transaction(q, parts, call, old(workspace.files), workspace.files, o, workspace.fails,
                          old(workspace.tick))
      ensures EndsAs(q, parts, r, old(tick), old(written), written, hash)
      ensures r.LoopAccepted? ==>
        AllPartsAccept(q, parts) && RecordsInOrder(q, parts, r) && ListsAsRecorded(r) && ReportRepeats(q, parts, r)
      ensures TargetsLeft(q, parts, call, old(workspace.files), workspace.files, r, o)
      ensures ReportsApply(q, parts, r, o)
    {
      parts, o := Parts(given, PartRaised), None;
      if given.validationCodes != [] {
        r := Stop(RejectsWith(given.validationCodes));
      } else if given.setupRaises {
        r := Stop(Raises);
      } else if given.planHasToolCalls {
        r := Stop(RejectsWith([Named("REJECTED_MODEL_TOOL_CALL")]));
      } else {
        var log := BuildRunLog(q, hash);
        r, parts, o := RunAdmitted(q, given, call, log, hash);
      }
      if r.LoopAccepted? {
        AlignedInOrder(q, parts, r, hash);
      }
      RunLeaves(q, parts, call, old(workspace.files), workspace.files, r, o, workspace.fails, old(workspace.tick));
      RunReports(q, parts, r, call, old(workspace.files), workspace.files, o, workspace.fails, old(workspace.tick));
    }
  }
}
