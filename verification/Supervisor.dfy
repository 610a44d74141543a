/** The supervised agent loop: how the evidence of an accepted run is put together
    (runtime_lab/agent_loop/supervisor.py). */
module Supervisor {
  import opened Wrappers
  import opened Json
  import opened HashChain
  import opened StateMachine
  import opened TransitionHistory
  import opened LoopLedger
  import PatchPolicy

  datatype Mode = DryRun | SupervisedApply

  // ---------------------------------------------------------------- the transition pairs

  /** The pair that leaves state `s` by `step`. */
  function Take(s: State, step: Step): Item { Pair(Name(s), StepName(step)) }

  /** `_transition_pairs`: both values of `test_requested` give the same pairs. */
  method TransitionPairs(mode: Mode, testRequested: bool) returns (pairs: seq<Item>)
    ensures pairs == Pairs(mode)
  {
    pairs := [
      Take(TaskReceived, CheckAuthority),
      Take(AuthorityChecked, CreatePlan),
      Take(PlanCreated, ReadContext),
      Take(ContextRead, CreatePatchProposal)];
    if mode == DryRun {
      pairs := pairs + [Take(PatchProposalCreated, WriteFinalArtifact)];
    } else {
      pairs := pairs + [
        Take(PatchProposalCreated, RequireHumanApproval),
        Take(HumanApprovalRequired, VerifyHumanApproval),
        Take(HumanApprovalVerified, StartPatchApply),
        Take(PatchApplyStarted, CompletePatchApply)];
      if testRequested {
        pairs := pairs + [
          Take(PatchApplyCompleted, RequestTests),
          Take(TestsRequested, CompleteTests),
          Take(TestsCompleted, WriteFinalArtifact)];
      } else {
        OneByOne(pairs, Take(PatchApplyCompleted, RequestTests),
                 Take(TestsRequested, CompleteTests),
                 Take(TestsCompleted, WriteFinalArtifact));
        pairs := pairs + [Take(PatchApplyCompleted, RequestTests)];
        pairs := pairs + [Take(TestsRequested, CompleteTests)];
        pairs := pairs + [Take(TestsCompleted, WriteFinalArtifact)];
      }
    }
    pairs := pairs + [
      Take(FinalArtifactWritten, VerifyReceipts),
      Take(ReceiptsVerified, SealLedger),
      Take(LedgerSealed, Finish)];
    if mode == DryRun { DryRunPairs(); } else { SupervisedPairs(); }
  }

  lemma {:induction false} DryRunPairs()
    ensures Pairs(DryRun) ==
      [Take(TaskReceived, CheckAuthority), Take(AuthorityChecked, CreatePlan), Take(PlanCreated, ReadContext),
       Take(ContextRead, CreatePatchProposal)]
      + [Take(PatchProposalCreated, WriteFinalArtifact)]
      + [Take(FinalArtifactWritten, VerifyReceipts), Take(ReceiptsVerified, SealLedger), Take(LedgerSealed, Finish)]
  {
  }

  lemma {:induction false} SupervisedPairs()
    ensures Pairs(SupervisedApply) ==
      [Take(TaskReceived, CheckAuthority), Take(AuthorityChecked, CreatePlan), Take(PlanCreated, ReadContext),
       Take(ContextRead, CreatePatchProposal)]
      + [Take(PatchProposalCreated, RequireHumanApproval), Take(HumanApprovalRequired, VerifyHumanApproval),
         Take(HumanApprovalVerified, StartPatchApply), Take(PatchApplyStarted, CompletePatchApply)]
      + [Take(PatchApplyCompleted, RequestTests), Take(TestsRequested, CompleteTests),
         Take(TestsCompleted, WriteFinalArtifact)]
      + [Take(FinalArtifactWritten, VerifyReceipts), Take(ReceiptsVerified, SealLedger), Take(LedgerSealed, Finish)]
  {
  }

  lemma {:induction false} OneByOne<T>(s: seq<T>, a: T, b: T, c: T)
    ensures s + [a] + [b] + [c] == s + [a, b, c]
  {
  }

  /** The states a run goes through, and the transitions it leaves them by. */
  function States(mode: Mode): seq<State> {
    [TaskReceived, AuthorityChecked, PlanCreated, ContextRead, PatchProposalCreated]
    + (if mode == DryRun then [] else
       [HumanApprovalRequired, HumanApprovalVerified, PatchApplyStarted, PatchApplyCompleted, TestsRequested,
        TestsCompleted])
    + [FinalArtifactWritten, ReceiptsVerified, LedgerSealed, Done]
  }

  function Steps(mode: Mode): (r: seq<Step>)
    ensures |r| + 1 == |States(mode)|
  {
    [CheckAuthority, CreatePlan, ReadContext, CreatePatchProposal]
    + (if mode == DryRun then [] else
       [RequireHumanApproval, VerifyHumanApproval, StartPatchApply, CompletePatchApply, RequestTests, CompleteTests])
    + [WriteFinalArtifact, VerifyReceipts, SealLedger, Finish]
  }

  function Route(states: seq<State>, steps: seq<Step>): (r: seq<Item>)
    requires |steps| < |states|
    ensures |r| == |steps|
  {
    seq(|steps|, i requires 0 <= i < |steps| => Take(states[i], steps[i]))
  }

  function Pairs(mode: Mode): seq<Item> {
    Route(States(mode), Steps(mode))
  }

  /** The items build a log that reaches `state`. */
  ghost predicate Builds(items: seq<Item>, state: State, runId: string, hash: Hash) {
    var r := BuiltLog(items, runId, hash);
    r.Ok? && Reached(r.value) == Name(state)
  }

  /** An item is a move of the machine from one state to another. */
  predicate IsMove(item: Item, from: State, to: State) {
    item.Pair? && item.state == Name(from) && Follow(from, StepOf(item.transition)) == Some(to)
  }

  lemma {:induction false} MoveAdvances(item: Item, from: State, to: State)
    requires IsMove(item, from, to)
    ensures Advance(item, Name(from)) == Ok(Name(to))
  {
    StateOfName(from);
  }

  lemma {:induction false} BuildsOn(items: seq<Item>, from: State, item: Item, to: State, runId: string, hash: Hash)
    requires Builds(items, from, runId, hash) && IsMove(item, from, to)
    ensures Builds(items + [item], to, runId, hash)
  {
    var log := BuiltLog(items, runId, hash).value;
    assert (items + [item])[..|items|] == items;
    MoveAdvances(item, from, to);
    ExtendBy(log, item, Name(to), runId, hash);
    EntryFields(runId, |log| + 1, item.state, item.transition, Name(to), TailHash(log, StateMachine.OWN), hash);
  }

  /** A walk through `states` by `items`. */
  ghost predicate Walk(items: seq<Item>, states: seq<State>) {
    |states| == |items| + 1 && forall i :: 0 <= i < |items| ==> IsMove(items[i], states[i], states[i + 1])
  }

  lemma {:induction false} WalkPrefix(items: seq<Item>, states: seq<State>, n: nat)
    requires Walk(items, states) && n < |items|
    ensures Walk(items[..n], states[..n + 1]) && IsMove(items[n], states[n], states[n + 1])
  {
    forall i | 0 <= i < n ensures IsMove(items[..n][i], states[..n + 1][i], states[..n + 1][i + 1]) {
      assert IsMove(items[i], states[i], states[i + 1]);
    }
  }

  lemma {:induction false} WalkBuilds(items: seq<Item>, states: seq<State>, runId: string, hash: Hash)
    requires Walk(items, states) && states[0] == TaskReceived
    ensures Builds(items, states[|items|], runId, hash)
  {
    if items != [] {
      var n := |items| - 1;
      WalkPrefix(items, states, n);
      WalkBuilds(items[..n], states[..n + 1], runId, hash);
      SplitLast(items);
      BuildsOn(items[..n], states[n], items[n], states[n + 1], runId, hash);
    }
  }

  lemma {:induction false} MoveIsMade(from: State, step: Step, to: State)
    requires Table(from, step) == Some(to)
    ensures IsMove(Take(from, step), from, to)
  {
    StepOfName(step);
  }

  lemma {:induction false} RouteWalks(states: seq<State>, steps: seq<Step>)
    requires |states| == |steps| + 1
    requires forall i :: 0 <= i < |steps| ==> Table(states[i], steps[i]) == Some(states[i + 1])
    ensures Walk(Route(states, steps), states)
  {
    forall i | 0 <= i < |steps| ensures IsMove(Route(states, steps)[i], states[i], states[i + 1]) {
      MoveIsMade(states[i], steps[i], states[i + 1]);
    }
  }

  /** In both modes the supervisor's own pairs build, and end in `DONE`. */
  lemma {:induction false} PairsReachDone(mode: Mode, runId: string, hash: Hash)
    ensures Builds(Pairs(mode), Done, runId, hash)
  {
    RouteWalks(States(mode), Steps(mode));
    WalkBuilds(Pairs(mode), States(mode), runId, hash);
  }

  // ---------------------------------------------------------------- what the components return

  /** The code of a rejection: a component's own, or one of the patch transaction. */
  datatype RunCode = Named(name: string) | OfPatch(code: PatchPolicy.Code)

  datatype ContextResult =
    | ContextResult(accepted: bool, receipt: Object, codes: seq<RunCode>)
    | ContextRaised

  datatype PartResult = PartAccepted(receipt: Object) | PartRejected(codes: seq<RunCode>) | PartRaised

  datatype ProposalResult =
    | ProposalAccepted(receipt: Object, artifactPath: string, artifactHash: string)
    | ProposalRejected(codes: seq<RunCode>)
    | ProposalRaised

  datatype LoopRequest = LoopRequest(
    taskId: string, runId: string, mode: Mode, baseCommit: string, inputs: Object, testCommand: bool, nonClaims: Json)

  /** What the components return, should they be called, and the values of clock and policy. `setupRaises`:
      an exception leaves the call before its first component, say because the run directory cannot be made. */
  datatype Given = Given(
    validationCodes: seq<RunCode>, setupRaises: bool, plan: Json, planHasToolCalls: bool,
    contexts: seq<ContextResult>, proposal: ProposalResult, test: PartResult,
    now: string, policyHash: string, authorityHash: string, workspaceHash: string)

  /** The same with what the patch transaction returned. */
  datatype Parts = Parts(given: Given, apply: PartResult)

  /** The calls with effects, in order. */
  datatype Call = FetchContext | MakeProposal | ApplyPatch | RunTest

  /** How the call ends: an accepted result, a rejected one, or an exception. */
  datatype LoopResult =
    | LoopAccepted(manifest: Object, report: Object, loopReceipt: Object, ledgerEvents: seq<Object>,
                   applyPerformed: bool)
    | LoopRejected(codes: seq<RunCode>, applyPerformed: bool)
    | LoopRaised

  function ReceiptHash(receipt: Object): Json { Get(receipt, "receipt_hash") }

  /** The receipts that were accepted, in the order of the context requests. */
  function AcceptedContext(results: seq<ContextResult>): seq<Json> {
    if results == [] then [] else
    var last := results[|results| - 1];
    AcceptedContext(results[..|results| - 1])
    + (if last.ContextResult? && last.accepted then [ReceiptHash(last.receipt)] else [])
  }

  /** Requests keep their order, and one that is not accepted leaves nothing behind. */
  lemma {:induction false} AcceptedContextParts(a: seq<ContextResult>, b: seq<ContextResult>, r: ContextResult)
    ensures AcceptedContext(a + b) == AcceptedContext(a) + AcceptedContext(b)
    ensures AcceptedContext([r]) ==
      if r.ContextResult? && r.accepted then [Get(r.receipt, "receipt_hash")] else []
  {
    assert [r][..0] == [];
    if b == [] {
      assert a + b == a;
    } else {
      AcceptedContextParts(a, b[..|b| - 1], r);
      assert (a + b)[..|a + b| - 1] == a + b[..|b| - 1];
    }
  }

  lemma {:induction false} AcceptedInOrder(results: seq<ContextResult>)
    requires AllContextAccepted(results)
    ensures |AcceptedContext(results)| == |results|
    ensures forall i :: 0 <= i < |results| ==> AcceptedContext(results)[i] == Get(results[i].receipt, "receipt_hash")
  {
    if results != [] {
      AcceptedInOrder(results[..|results| - 1]);
    }
  }

  function ContextCodes(results: seq<ContextResult>): seq<RunCode> {
    if results == [] then [] else
    (if results[0].ContextResult? then results[0].codes else []) + ContextCodes(results[1..])
  }

  /** The codes of all requests, in their order. */
  lemma {:induction false} ContextCodesParts(a: seq<ContextResult>, b: seq<ContextResult>, r: ContextResult)
    ensures ContextCodes(a + b) == ContextCodes(a) + ContextCodes(b)
    ensures ContextCodes([r]) == if r.ContextResult? then r.codes else []
  {
    assert [r][1..] == [];
    if a == [] {
      assert a + b == b;
    } else {
      assert (a + b)[1..] == a[1..] + b;
      ContextCodesParts(a[1..], b, r);
    }
  }

  predicate AllContextAccepted(results: seq<ContextResult>) {
    forall i :: 0 <= i < |results| ==> results[i].ContextResult? && results[i].accepted
  }

  /** The receipts of the executors in the order the run produced them. */
  function ExecutorReceipts(q: LoopRequest, parts: Parts): seq<Json>
    requires parts.given.proposal.ProposalAccepted?
    requires q.mode == SupervisedApply ==>
      parts.apply.PartAccepted? && (q.testCommand ==> parts.given.test.PartAccepted?)
  {
    AcceptedContext(parts.given.contexts)
    + [ReceiptHash(parts.given.proposal.receipt)]
    + (if q.mode == SupervisedApply then [ReceiptHash(parts.apply.receipt)] else [])
    + (if q.mode == SupervisedApply && q.testCommand then [ReceiptHash(parts.given.test.receipt)] else [])
  }

  /** Validation, set-up and planning let the run begin. */
  predicate Admitted(given: Given) {
    given.validationCodes == [] && !given.setupRaises && !given.planHasToolCalls
  }

  /** Every component that is called accepts. */
  predicate AllPartsAccept(q: LoopRequest, parts: Parts) {
    && Admitted(parts.given)
    && AllContextAccepted(parts.given.contexts) && parts.given.proposal.ProposalAccepted?
    && (q.mode == SupervisedApply ==>
      parts.apply.PartAccepted? && (q.testCommand ==> parts.given.test.PartAccepted?))
  }

  /** The run's transition log; the code rejects the run if it fails to build or to verify, and it cannot. */
  method BuildRunLog(q: LoopRequest, hash: Hash) returns (log: seq<Object>)
    ensures BuiltLog(Pairs(q.mode), q.runId, hash) == Ok(log) && Verified(log, hash)
  {
    var pairs := TransitionPairs(q.mode, q.testCommand);
    PairsReachDone(q.mode, q.runId, hash);
    var built := BuildTransitionLog(pairs, q.runId, hash);
    log := built.value;
    BuiltIsVerifiedPath(pairs, q.runId, hash);
    var verified := VerifyTransitionLog(log, hash);
    assert verified;
  }

  // ---------------------------------------------------------------- manifest, report and receipt

  const MILESTONE: Json := Str("R128_SUPERVISED_LOCAL_AGENT_LOOP_V0_LOCAL_VALIDATION")

  function ModeName(mode: Mode): Json {
    if mode == DryRun then Str("DRY_RUN") else Str("SUPERVISED_APPLY")
  }

  method ManifestBody(q: LoopRequest, stateHash: Json, artifacts: Object, receipts: seq<Json>, tail: Json)
    returns (m: Object)
    ensures Get(m, "run_id") == Str(q.runId) && Get(m, "base_commit") == Str(q.baseCommit) &&
      Get(m, "inputs") == Obj(q.inputs)
    ensures Get(m, "state_transition_hash") == stateHash && Get(m, "artifact_hashes") == Obj(artifacts)
    ensures Get(m, "receipt_hashes") == List(receipts) && Get(m, "ledger_tail_hash") == tail
    ensures "replay_hash" !in m
  {
    m := map[
      "schema_version" := Str("1.0"),
      "replay_version" := Str("agent_loop_replay.v0"),
      "milestone" := MILESTONE,
      "run_id" := Str(q.runId),
      "base_commit" := Str(q.baseCommit),
      "inputs" := Obj(q.inputs),
      "state_transition_hash" := stateHash,
      "artifact_hashes" := Obj(artifacts),
      "receipt_hashes" := List(receipts),
      "ledger_tail_hash" := tail,
      "replay_scope" := Str("local_deterministic_artifact_replay"),
      "non_claim_boundary" := Obj(map[
        "remote_replay" := Bool(false), "remote_sealed_pass" := Bool(false),
        "scientific_reproducibility" := Bool(false), "production_readiness" := Bool(false)])];
  }

  /** `verify_replay_manifest` */
  predicate VerifyReplayManifest(manifest: Object, hash: Hash) {
    && ("replay_hash" in manifest || "replay_manifest_hash" in manifest)
    && var expected := if Truthy(Get(manifest, "replay_manifest_hash"))
                       then Get(manifest, "replay_manifest_hash") else Get(manifest, "replay_hash");
      Str(hash(manifest - {"replay_hash", "replay_manifest_hash"})) == expected
  }

  function ReportBody(q: LoopRequest, parts: Parts, log: seq<Object>, tail: Json, manifest: Object): Object
    requires AllPartsAccept(q, parts)
  {
    map[
      "schema_version" := Str("1.0"),
      "report_version" := Str("agent_loop_final_report.v0"),
      "milestone" := MILESTONE,
      "task_id" := Str(q.taskId),
      "run_id" := Str(q.runId),
      "mode" := ModeName(q.mode),
      "base_commit" := Str(q.baseCommit),
      "final_result" := Str("SUCCESS"),
      "created_at_utc" := Str(parts.given.now),
      "plan" := parts.given.plan,
      "transition_log" := ObjList(log),
      "context_receipt_hashes" := List(AcceptedContext(parts.given.contexts)),
      "patch_proposal_receipt_hash" := ReceiptHash(parts.given.proposal.receipt),
      "patch_apply_receipt_hash" := if q.mode == SupervisedApply then ReceiptHash(parts.apply.receipt) else Null,
      "test_runner_receipt_hashes" :=
        List(if q.mode == SupervisedApply && q.testCommand then [ReceiptHash(parts.given.test.receipt)] else []),
      "ledger_hash" := tail,
      "replay_hash" := Get(manifest, "replay_manifest_hash"),
      "non_claims" := q.nonClaims]
  }

  function ObjList(log: seq<Object>): Json {
    List(seq(|log|, i requires 0 <= i < |log| => Obj(log[i])))
  }

  /** The run and its outcome, as report and receipt name them. */
  predicate NamesTask(o: Object, q: LoopRequest) {
    && Get(o, "task_id") == Str(q.taskId) && Get(o, "run_id") == Str(q.runId)
    && Get(o, "base_commit") == Str(q.baseCommit)
    && Get(o, "mode") == (match q.mode case DryRun => Str("DRY_RUN") case SupervisedApply => Str("SUPERVISED_APPLY"))
    && Get(o, "final_result") == Str("SUCCESS")
  }

  /** The receipt also names workspace, policy and authority decision. */
  predicate NamesSurroundings(o: Object, q: LoopRequest, given: Given) {
    && NamesTask(o, q)
    && Get(o, "workspace_root_hash") == Str(given.workspaceHash) && Get(o, "policy_hash") == Str(given.policyHash)
    && Get(o, "authority_decision_hash") == Str(given.authorityHash)
    && Get(o, "created_at_utc") == Str(given.now) && Get(o, "rejection_codes") == List([])
    && Get(o, "non_claim_boundary") == q.nonClaims
  }

  method LoopReceiptBody(q: LoopRequest, parts: Parts, stateHash: Json, artifacts: Object, receipts: seq<Json>)
    returns (r: Object)
    ensures Get(r, "receipt_version") == Str("agent_loop.v0")
    ensures Get(r, "task_id") == Str(q.taskId) && Get(r, "run_id") == Str(q.runId) &&
      Get(r, "base_commit") == Str(q.baseCommit)
    ensures Get(r, "state_transition_hash_chain") == stateHash
    ensures Get(r, "executor_receipt_hashes") == List(receipts)
    ensures Get(r, "artifact_hashes") == Obj(artifacts)
    ensures NamesSurroundings(r, q, parts.given)
  {
    r := map[
      "schema_version" := Str("1.0"),
      "receipt_version" := Str("agent_loop.v0"),
      "milestone" := MILESTONE,
      "task_id" := Str(q.taskId),
      "run_id" := Str(q.runId),
      "base_commit" := Str(q.baseCommit),
      "workspace_root_hash" := Str(parts.given.workspaceHash),
      "mode" := ModeName(q.mode),
      "policy_hash" := Str(parts.given.policyHash),
      "authority_decision_hash" := Str(parts.given.authorityHash),
      "state_transition_hash_chain" := stateHash,
      "executor_receipt_hashes" := List(receipts),
      "artifact_hashes" := Obj(artifacts),
      "final_result" := Str("SUCCESS"),
      "rejection_codes" := List([]),
      "created_at_utc" := Str(parts.given.now),
      "non_claim_boundary" := q.nonClaims];
  }

  /** `verify_agent_loop_receipt` */
  predicate VerifyLoopReceipt(receipt: Object, hash: Hash) {
    && "receipt_hash" in receipt
    && Str(hash(receipt - {"receipt_hash"})) == receipt["receipt_hash"]
    && Get(receipt, "receipt_version") == Str("agent_loop.v0")
  }

  ghost predicate NonEmptyHashes(hash: Hash) {
    forall o :: hash(o) != ""
  }

  lemma {:induction false} SealedManifestVerifies(body: Object, hash: Hash)
    requires NonEmptyHashes(hash) && "replay_hash" !in body
    ensures VerifyReplayManifest(Seal(body, "replay_manifest_hash", hash), hash)
  {
    var m := Seal(body, "replay_manifest_hash", hash);
    SealIsSealed(body, "replay_manifest_hash", hash);
    assert "replay_hash" !in m;
    assert m - {"replay_hash", "replay_manifest_hash"} == body - {"replay_manifest_hash"};
  }

  /** `build_replay_manifest` */
  method BuildManifest(q: LoopRequest, stateHash: Json, artifacts: Object, receipts: seq<Json>, tail: Json, hash: Hash)
    returns (m: Object)
    ensures Get(m, "run_id") == Str(q.runId) && Get(m, "base_commit") == Str(q.baseCommit) &&
      Get(m, "inputs") == Obj(q.inputs)
    ensures Get(m, "state_transition_hash") == stateHash && Get(m, "artifact_hashes") == Obj(artifacts)
    ensures Get(m, "receipt_hashes") == List(receipts) && Get(m, "ledger_tail_hash") == tail
    ensures NonEmptyHashes(hash) ==> VerifyReplayManifest(m, hash)
  {
    var body := ManifestBody(q, stateHash, artifacts, receipts, tail);
    m := Seal(body, "replay_manifest_hash", hash);
    SealIsSealed(body, "replay_manifest_hash", hash);
    if NonEmptyHashes(hash) {
      SealedManifestVerifies(body, hash);
    }
  }

  /** `build_agent_loop_receipt` */
  method BuildLoopReceipt(q: LoopRequest, parts: Parts, stateHash: Json, artifacts: Object, receipts: seq<Json>,
                          hash: Hash)
    returns (r: Object)
    ensures VerifyLoopReceipt(r, hash)
    ensures Get(r, "task_id") == Str(q.taskId) && Get(r, "run_id") == Str(q.runId) &&
      Get(r, "base_commit") == Str(q.baseCommit)
    ensures Get(r, "state_transition_hash_chain") == stateHash
    ensures Get(r, "executor_receipt_hashes") == List(receipts)
    ensures Get(r, "artifact_hashes") == Obj(artifacts)
    ensures NamesSurroundings(r, q, parts.given)
  {
    var body := LoopReceiptBody(q, parts, stateHash, artifacts, receipts);
    r := Seal(body, "receipt_hash", hash);
    SealIsSealed(body, "receipt_hash", hash);
  }

  method BuildReport(q: LoopRequest, parts: Parts, log: seq<Object>, tail: Json, manifest: Object)
      returns (report: Object)
    requires AllPartsAccept(q, parts)
    ensures Get(report, "transition_log") == ObjList(log) && Get(report, "ledger_hash") == tail
    ensures Get(report, "context_receipt_hashes") == List(AcceptedContext(parts.given.contexts))
    ensures Get(report, "patch_proposal_receipt_hash") == ReceiptHash(parts.given.proposal.receipt)
    ensures Get(report, "replay_hash") == Get(manifest, "replay_manifest_hash")
    ensures Get(report, "patch_apply_receipt_hash") ==
      if q.mode == SupervisedApply then ReceiptHash(parts.apply.receipt) else Null
    ensures Get(report, "test_runner_receipt_hashes") ==
      List(if q.mode == SupervisedApply && q.testCommand then [ReceiptHash(parts.given.test.receipt)] else [])
    ensures NamesTask(report, q) && Get(report, "plan") == parts.given.plan && Get(report, "non_claims") == q.nonClaims
    ensures Get(report, "created_at_utc") == Str(parts.given.now)
  {
    report := ReportBody(q, parts, log, tail, manifest);
    ReportReceipts(q, parts, log, tail, manifest);
    ReportNames(q, parts, log, tail, manifest);
  }

  lemma {:induction false} ReportReceipts(q: LoopRequest, parts: Parts, log: seq<Object>, tail: Json, manifest: Object)
    requires AllPartsAccept(q, parts)
    ensures var report := ReportBody(q, parts, log, tail, manifest);
      && Get(report, "patch_apply_receipt_hash") ==
        (if q.mode == SupervisedApply then ReceiptHash(parts.apply.receipt) else Null)
      && Get(report, "test_runner_receipt_hashes") ==
        List(if q.mode == SupervisedApply && q.testCommand then [ReceiptHash(parts.given.test.receipt)] else [])
  {
  }

  lemma {:induction false} ReportNames(q: LoopRequest, parts: Parts, log: seq<Object>, tail: Json, manifest: Object)
    requires AllPartsAccept(q, parts)
    ensures var report := ReportBody(q, parts, log, tail, manifest);
      && NamesTask(report, q) && Get(report, "plan") == parts.given.plan && Get(report, "non_claims") == q.nonClaims
      && Get(report, "created_at_utc") == Str(parts.given.now)
  {
  }

  // ---------------------------------------------------------------- the evidence

  /** The evidence of an accepted run. */
  ghost predicate Aligned(q: LoopRequest, parts: Parts, r: LoopResult, hash: Hash)
    requires r.LoopAccepted? && AllPartsAccept(q, parts)
  {
    PairsReachDone(q.mode, q.runId, hash);
    var receipts := ExecutorReceipts(q, parts);
    var log := BuiltLog(Pairs(q.mode), q.runId, hash).value;
    var n := |receipts|;
    // the ledger verifies and records the executors' receipts in order, then the loop's own
    && Linked(r.ledgerEvents, LoopLedger.PREVIOUS, LoopLedger.OWN, hash)
    && |r.ledgerEvents| == n + 1
    && (forall i :: 0 <= i < n ==> Records(r.ledgerEvents, i, q.runId, receipts[i]))
    && Records(r.ledgerEvents, n, q.runId, ReceiptHash(r.loopReceipt))
    // it is the manifest's ledger and one event more, linked to the manifest's tail
    && Get(r.manifest, "receipt_hashes") == List(receipts)
    && r.ledgerEvents[..n] == BuiltEvents(q.runId, receipts, hash)
    && Get(r.manifest, "ledger_tail_hash") == TailHash(r.ledgerEvents[..n], LoopLedger.OWN)
    && Get(r.ledgerEvents[n], LoopLedger.PREVIOUS) == Get(r.manifest, "ledger_tail_hash")
    // manifest and loop receipt verify and name the same transitions and receipts
    && (NonEmptyHashes(hash) ==> VerifyReplayManifest(r.manifest, hash))
    && VerifyLoopReceipt(r.loopReceipt, hash)
    && Verified(log, hash) && Reached(log) == Name(Done)
    && Get(r.manifest, "state_transition_hash") == TailHash(log, StateMachine.OWN)
    && Get(r.loopReceipt, "state_transition_hash_chain") == TailHash(log, StateMachine.OWN)
    && Get(r.loopReceipt, "executor_receipt_hashes") == List(receipts)
    // the report holds that log and names the manifest and its tail
    && Get(r.report, "transition_log") == ObjList(log)
    && Get(r.report, "ledger_hash") == Get(r.manifest, "ledger_tail_hash")
    && Get(r.report, "replay_hash") == Get(r.manifest, "replay_manifest_hash")
  }

  /** The ledger records, in this order: the receipts of the context requests, as they were made, of the
      proposal, of the patch and of the tests, where there were any, and of the loop. */
  ghost predicate RecordsInOrder(q: LoopRequest, parts: Parts, r: LoopResult)
    requires r.LoopAccepted? && AllPartsAccept(q, parts)
  {
    var contexts, events := parts.given.contexts, r.ledgerEvents;
    var n := |contexts|;
    var applied := if q.mode == SupervisedApply then 1 else 0;
    var tested := if q.mode == SupervisedApply && q.testCommand then 1 else 0;
    && |events| == n + 1 + applied + tested + 1
    && (forall i :: 0 <= i < n ==>
      contexts[i].ContextResult? && Get(events[i], "receipt_hash") == Get(contexts[i].receipt, "receipt_hash"))
    && Get(events[n], "receipt_hash") == Get(parts.given.proposal.receipt, "receipt_hash")
    && (applied == 1 ==> Get(events[n + 1], "receipt_hash") == Get(parts.apply.receipt, "receipt_hash"))
    && (tested == 1 ==> Get(events[n + 2], "receipt_hash") == Get(parts.given.test.receipt, "receipt_hash"))
    && Get(events[|events| - 1], "receipt_hash") == Get(r.loopReceipt, "receipt_hash")
    && forall i :: 0 <= i < |events| ==>
      Get(events[i], "sequence") == Int(i + 1) && Get(events[i], "run_id") == Str(q.runId)
  }

  /** Manifest and loop receipt list the same receipts in the same order, all but the loop's own. */
  ghost predicate ListsAsRecorded(r: LoopResult)
    requires r.LoopAccepted? && r.ledgerEvents != []
  {
    var n := |r.ledgerEvents| - 1;
    ListsReceipts(Get(r.manifest, "receipt_hashes"), r.ledgerEvents, n)
    && ListsReceipts(Get(r.loopReceipt, "executor_receipt_hashes"), r.ledgerEvents, n)
  }

  ghost predicate ListsReceipts(j: Json, events: seq<Object>, n: nat)
    requires n <= |events|
  {
    j.List? && |j.items| == n && forall i :: 0 <= i < n ==> j.items[i] == Get(events[i], "receipt_hash")
  }

  /** The report repeats what the ledger records, each receipt under the name of its part. */
  ghost predicate ReportRepeats(q: LoopRequest, parts: Parts, r: LoopResult)
    requires r.LoopAccepted? && AllPartsAccept(q, parts) && RecordsInOrder(q, parts, r)
  {
    var events, n := r.ledgerEvents, |parts.given.contexts|;
    && ListsReceipts(Get(r.report, "context_receipt_hashes"), events, n)
    && Get(r.report, "patch_proposal_receipt_hash") == Get(events[n], "receipt_hash")
    && Get(r.report, "patch_apply_receipt_hash") ==
      (if q.mode == SupervisedApply then Get(events[n + 1], "receipt_hash") else Null)
    && Get(r.report, "test_runner_receipt_hashes") ==
      List(if q.mode == SupervisedApply && q.testCommand then [Get(events[n + 2], "receipt_hash")] else [])
  }

  /** Manifest, report and receipt are of this run. */
  ghost predicate NameTheRun(q: LoopRequest, given: Given, r: LoopResult)
    requires r.LoopAccepted?
  {
    && Get(r.manifest, "run_id") == Str(q.runId) && Get(r.manifest, "base_commit") == Str(q.baseCommit)
    && Get(r.manifest, "inputs") == Obj(q.inputs)
    && NamesTask(r.report, q) && Get(r.report, "plan") == given.plan && Get(r.report, "non_claims") == q.nonClaims
    && Get(r.report, "created_at_utc") == Str(given.now)
    && NamesSurroundings(r.loopReceipt, q, given)
  }

  /** The evidence is of this run, and the report names each receipt under its part. */
  ghost predicate NamesAll(q: LoopRequest, parts: Parts, r: LoopResult)
    requires r.LoopAccepted? && AllPartsAccept(q, parts)
  {
    && NameTheRun(q, parts.given, r)
    && Get(r.report, "context_receipt_hashes") == List(AcceptedContext(parts.given.contexts))
    && Get(r.report, "patch_proposal_receipt_hash") == ReceiptHash(parts.given.proposal.receipt)
    && Get(r.report, "patch_apply_receipt_hash") ==
      (if q.mode == SupervisedApply then ReceiptHash(parts.apply.receipt) else Null)
    && Get(r.report, "test_runner_receipt_hashes") ==
      List(if q.mode == SupervisedApply && q.testCommand then [ReceiptHash(parts.given.test.receipt)] else [])
  }

  lemma {:induction false} AlignedInOrder(q: LoopRequest, parts: Parts, r: LoopResult, hash: Hash)
    requires r.LoopAccepted? && AllPartsAccept(q, parts) && Aligned(q, parts, r, hash) && NamesAll(q, parts, r)
    ensures RecordsInOrder(q, parts, r) && ListsAsRecorded(r) && ReportRepeats(q, parts, r)
  {
    var receipts := ExecutorReceipts(q, parts);
    RecordedFields(r.ledgerEvents, receipts, ReceiptHash(r.loopReceipt), q.runId);
    OrderOfReceipts(q, parts, r);
    ReceiptsListed(receipts, r.ledgerEvents);
    AcceptedInOrder(parts.given.contexts);
  }

  /** What `Records` says of every event. */
  ghost predicate RecordsEach(events: seq<Object>, receipts: seq<Json>, last: Json, runId: string) {
    && |events| == |receipts| + 1
    && (forall i :: 0 <= i < |receipts| ==> Get(events[i], "receipt_hash") == receipts[i])
    && Get(events[|receipts|], "receipt_hash") == last
    && forall i :: 0 <= i < |events| ==>
      Get(events[i], "sequence") == Int(i + 1) && Get(events[i], "run_id") == Str(runId)
  }

  lemma {:induction false} RecordedFields(events: seq<Object>, receipts: seq<Json>, last: Json, runId: string)
    requires |events| == |receipts| + 1
    requires forall i :: 0 <= i < |receipts| ==> Records(events, i, runId, receipts[i])
    requires Records(events, |receipts|, runId, last)
    ensures RecordsEach(events, receipts, last, runId)
  {
    forall i | 0 <= i < |events|
      ensures Get(events[i], "sequence") == Int(i + 1) && Get(events[i], "run_id") == Str(runId)
    {
      if i < |receipts| { assert Records(events, i, runId, receipts[i]); }
    }
  }

  lemma {:induction false} OrderOfReceipts(q: LoopRequest, parts: Parts, r: LoopResult)
    requires r.LoopAccepted? && AllPartsAccept(q, parts)
    requires RecordsEach(r.ledgerEvents, ExecutorReceipts(q, parts), ReceiptHash(r.loopReceipt), q.runId)
    ensures RecordsInOrder(q, parts, r)
  {
    ReceiptsByIndex(q, parts);
  }

  lemma {:induction false} ReceiptsListed(receipts: seq<Json>, events: seq<Object>)
    requires |events| == |receipts| + 1
    requires forall i :: 0 <= i < |receipts| ==> Get(events[i], "receipt_hash") == receipts[i]
    ensures ListsReceipts(List(receipts), events, |receipts|)
  {
  }

  lemma {:induction false} ReceiptsByIndex(q: LoopRequest, parts: Parts)
    requires AllPartsAccept(q, parts)
    ensures var receipts, n := ExecutorReceipts(q, parts), |parts.given.contexts|;
      && |receipts| == n + 1 + (if q.mode == SupervisedApply then if q.testCommand then 2 else 1 else 0)
      && (forall i :: 0 <= i < n ==> receipts[i] == Get(parts.given.contexts[i].receipt, "receipt_hash"))
      && receipts[n] == Get(parts.given.proposal.receipt, "receipt_hash")
      && (q.mode == SupervisedApply ==> receipts[n + 1] == Get(parts.apply.receipt, "receipt_hash"))
      && (q.mode == SupervisedApply && q.testCommand ==>
        receipts[n + 2] == Get(parts.given.test.receipt, "receipt_hash"))
  {
    AcceptedInOrder(parts.given.contexts);
  }

  /** The returned ledger is the manifest's ledger with the loop's receipt recorded behind it. */
  lemma {:induction false} OneEventMore(runId: string, receipts: seq<Json>, last: Json, hash: Hash)
    ensures
      var events := BuiltEvents(runId, receipts + [last], hash);
      var n := |receipts|;
      && Linked(events, LoopLedger.PREVIOUS, LoopLedger.OWN, hash)
      && |events| == n + 1 && events[..n] == BuiltEvents(runId, receipts, hash)
      && (forall i :: 0 <= i < n ==> Records(events, i, runId, receipts[i]))
      && Records(events, n, runId, last)
      && Get(events[n], LoopLedger.PREVIOUS) == TailHash(events[..n], LoopLedger.OWN)
  {
    var all := receipts + [last];
    var events := BuiltEvents(runId, all, hash);
    var n := |receipts|;
    assert all[..n] == receipts;
    BuiltEventsVerify(runId, all, hash);
    assert EntryLinked(events, n, LoopLedger.PREVIOUS, LoopLedger.OWN, hash);
    assert events[..n] == BuiltEvents(runId, receipts, hash);
    forall i | 0 <= i < n ensures Records(events, i, runId, receipts[i]) {
      assert Records(events, i, runId, all[i]);
    }
    assert Records(events, n, runId, all[n]);
  }
}
