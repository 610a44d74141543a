/** The agent loop's state machine and its transition log (runtime_lab/agent_loop/state_machine.py). */
module StateMachine {
  import opened Wrappers
  import opened Json
  import opened HashChain

  datatype State =
    | TaskReceived | AuthorityChecked | PlanCreated | ContextRead | PatchProposalCreated
    | HumanApprovalRequired | HumanApprovalVerified | PatchApplyStarted | PatchApplyCompleted
    | TestsRequested | TestsCompleted | FinalArtifactWritten | ReceiptsVerified | LedgerSealed | Done

  function Name(s: State): string {
    match s
    case TaskReceived => "TASK_RECEIVED"
    case AuthorityChecked => "AUTHORITY_CHECKED"
    case PlanCreated => "PLAN_CREATED"
    case ContextRead => "CONTEXT_READ"
    case PatchProposalCreated => "PATCH_PROPOSAL_CREATED"
    case HumanApprovalRequired => "HUMAN_APPROVAL_REQUIRED"
    case HumanApprovalVerified => "HUMAN_APPROVAL_VERIFIED"
    case PatchApplyStarted => "PATCH_APPLY_TRANSACTION_STARTED"
    case PatchApplyCompleted => "PATCH_APPLY_TRANSACTION_COMPLETED"
    case TestsRequested => "ALLOWLISTED_TESTS_REQUESTED"
    case TestsCompleted => "ALLOWLISTED_TESTS_COMPLETED"
    case FinalArtifactWritten => "FINAL_ARTIFACT_WRITTEN"
    case ReceiptsVerified => "RECEIPTS_VERIFIED"
    case LedgerSealed => "LEDGER_SEALED_LOCALLY"
    case Done => "DONE"
  }

  /** The keys of the transition table. */
  const STATES: seq<State> := [
    TaskReceived, AuthorityChecked, PlanCreated, ContextRead, PatchProposalCreated,
    HumanApprovalRequired, HumanApprovalVerified, PatchApplyStarted, PatchApplyCompleted,
    TestsRequested, TestsCompleted, FinalArtifactWritten, ReceiptsVerified, LedgerSealed, Done]

  function Find(name: string, states: seq<State>): (r: Option<State>)
    ensures r.Some? ==> Name(r.value) == name
    ensures r.None? ==> forall s :: s in states ==> Name(s) != name
  {
    if states == [] then None
    else if Name(states[0]) == name then Some(states[0])
    else Find(name, states[1..])
  }

  /** The state a string names, if it is a key of the transition table. */
  function StateOf(name: string): (r: Option<State>)
    ensures r.Some? ==> Name(r.value) == name
  {
    Find(name, STATES)
  }

  lemma {:induction false} NamesDiffer(s: State, t: State)
    requires Name(s) == Name(t)
    ensures s == t
  {
  }

  lemma {:induction false} StatesAreAll(s: State)
    ensures s in STATES
  {
    assert STATES[Rank(s)] == s;
  }

  lemma {:induction false} StateOfName(s: State)
    ensures StateOf(Name(s)) == Some(s)
  {
    StatesAreAll(s);
    NamesDiffer(s, StateOf(Name(s)).value);
  }

  /** The names of the transitions. */
  datatype Step =
    | CheckAuthority | CreatePlan | ReadContext | CreatePatchProposal | RequireHumanApproval | VerifyHumanApproval
    | StartPatchApply | CompletePatchApply | RequestTests | CompleteTests | WriteFinalArtifact | VerifyReceipts
    | SealLedger | Finish

  function StepName(step: Step): string {
    match step
    case CheckAuthority => "check_authority"
    case CreatePlan => "create_plan"
    case ReadContext => "read_context"
    case CreatePatchProposal => "create_patch_proposal"
    case RequireHumanApproval => "require_human_approval"
    case VerifyHumanApproval => "verify_human_approval"
    case StartPatchApply => "start_patch_apply"
    case CompletePatchApply => "complete_patch_apply"
    case RequestTests => "request_tests"
    case CompleteTests => "complete_tests"
    case WriteFinalArtifact => "write_final_artifact"
    case VerifyReceipts => "verify_receipts"
    case SealLedger => "seal_ledger"
    case Finish => "done"
  }

  const STEPS: seq<Step> := [
    CheckAuthority, CreatePlan, ReadContext, CreatePatchProposal, RequireHumanApproval, VerifyHumanApproval,
    StartPatchApply, CompletePatchApply, RequestTests, CompleteTests, WriteFinalArtifact, VerifyReceipts,
    SealLedger, Finish]

  function FindStep(name: string, steps: seq<Step>): (r: Option<Step>)
    ensures r.Some? ==> StepName(r.value) == name
    ensures r.None? ==> forall step :: step in steps ==> StepName(step) != name
  {
    if steps == [] then None
    else if StepName(steps[0]) == name then Some(steps[0])
    else FindStep(name, steps[1..])
  }

  function StepOf(name: string): (r: Option<Step>)
    ensures r.Some? ==> StepName(r.value) == name
  {
    FindStep(name, STEPS)
  }

  lemma {:induction false} StepNamesDiffer(s: Step, t: Step)
    requires StepName(s) == StepName(t)
    ensures s == t
  {
  }

  lemma {:induction false} StepOfName(step: Step)
    ensures StepOf(StepName(step)) == Some(step)
  {
    assert step in STEPS by {
      var i := match step
        case CheckAuthority => 0 case CreatePlan => 1 case ReadContext => 2 case CreatePatchProposal => 3
        case RequireHumanApproval => 4 case VerifyHumanApproval => 5 case StartPatchApply => 6
        case CompletePatchApply => 7 case RequestTests => 8 case CompleteTests => 9 case WriteFinalArtifact => 10
        case VerifyReceipts => 11 case SealLedger => 12 case Finish => 13;
      assert STEPS[i] == step;
    }
    StepNamesDiffer(step, StepOf(StepName(step)).value);
  }

  /** The transition table. */
  function Table(s: State, step: Step): Option<State> {
    match (s, step)
    case (TaskReceived, CheckAuthority) => Some(AuthorityChecked)
    case (AuthorityChecked, CreatePlan) => Some(PlanCreated)
    case (PlanCreated, ReadContext) => Some(ContextRead)
    case (ContextRead, CreatePatchProposal) => Some(PatchProposalCreated)
    case (PatchProposalCreated, RequireHumanApproval) => Some(HumanApprovalRequired)
    case (PatchProposalCreated, WriteFinalArtifact) => Some(FinalArtifactWritten)
    case (HumanApprovalRequired, VerifyHumanApproval) => Some(HumanApprovalVerified)
    case (HumanApprovalVerified, StartPatchApply) => Some(PatchApplyStarted)
    case (PatchApplyStarted, CompletePatchApply) => Some(PatchApplyCompleted)
    case (PatchApplyCompleted, RequestTests) => Some(TestsRequested)
    case (TestsRequested, CompleteTests) => Some(TestsCompleted)
    case (TestsCompleted, WriteFinalArtifact) => Some(FinalArtifactWritten)
    case (FinalArtifactWritten, VerifyReceipts) => Some(ReceiptsVerified)
    case (ReceiptsVerified, SealLedger) => Some(LedgerSealed)
    case (LedgerSealed, Finish) => Some(Done)
    case _ => None
  }

  function Follow(s: State, step: Option<Step>): Option<State> {
    if step.None? then None else Table(s, step.value)
  }

  datatype Error = UnknownState | UnknownTransition

  datatype Result<T> = Ok(value: T) | Err(error: Error)

  /** `next_state` */
  function NextState(current: string, transition: string): Result<string> {
    match StateOf(current)
    case None => Err(UnknownState)
    case Some(s) =>
      match Follow(s, StepOf(transition))
      case None => Err(UnknownTransition)
      case Some(t) => Ok(Name(t))
  }

  /** Every transition leads to a state of higher rank. */
  function Rank(s: State): nat {
    match s
    case TaskReceived => 0 case AuthorityChecked => 1 case PlanCreated => 2 case ContextRead => 3
    case PatchProposalCreated => 4 case HumanApprovalRequired => 5 case HumanApprovalVerified => 6
    case PatchApplyStarted => 7 case PatchApplyCompleted => 8 case TestsRequested => 9 case TestsCompleted => 10
    case FinalArtifactWritten => 11 case ReceiptsVerified => 12 case LedgerSealed => 13 case Done => 14
  }

  // ---------------------------------------------------------------- the log

  const PREVIOUS: string := "previous_transition_hash"
  const OWN: string := "transition_hash"

  /** An input item: with or without the target the caller expects. */
  datatype Item = Pair(state: string, transition: string) | Triple(state: string, transition: string, target: string)

  /** One round of the builder's loop: where an item leads from `current`. */
  function Advance(item: Item, current: string): Result<string> {
    var target := NextState(item.state, item.transition);
    if item.Pair? && target.Err? then target
    else if item.state != current then Err(UnknownState)
    else if target.Err? then target
    else if item.Triple? && target.value != item.target then Err(UnknownTransition)
    else target
  }

  function EntryBody(runId: string, sequence: int, from: string, transition: string, to: string,
                     previous: Json): Object {
    map[
      "run_id" := Str(runId),
      "sequence" := Int(sequence),
      "from_state" := Str(from),
      "transition" := Str(transition),
      "to_state" := Str(to),
      PREVIOUS := previous]
  }

  /** The state the log has reached. */
  function Reached(log: seq<Object>): string {
    if log == [] then "TASK_RECEIVED" else
    var to := Get(log[|log| - 1], "to_state");
    if to.Str? then to.s else ""
  }

  /** The log with one more item. */
  function Extend(log: seq<Object>, item: Item, runId: string, hash: Hash): Result<seq<Object>> {
    match Advance(item, Reached(log))
    case Err(e) => Err(e)
    case Ok(target) =>
      var body := EntryBody(runId, |log| + 1, item.state, item.transition, target, TailHash(log, OWN));
      Ok(log + [Seal(body, OWN, hash)])
  }

  /** What `build_transition_log` computes, as a value. */
  function BuiltLog(items: seq<Item>, runId: string, hash: Hash): Result<seq<Object>> {
    if items == [] then Ok([]) else
    match BuiltLog(items[..|items| - 1], runId, hash)
    case Err(e) => Err(e)
    case Ok(log) => Extend(log, items[|items| - 1], runId, hash)
  }

  lemma {:induction false} BuiltPrefixFails(items: seq<Item>, n: nat, runId: string, hash: Hash)
    requires n <= |items| && BuiltLog(items[..n], runId, hash).Err?
    ensures BuiltLog(items, runId, hash) == BuiltLog(items[..n], runId, hash)
  {
    if n < |items| {
      var init := items[..|items| - 1];
      assert init[..n] == items[..n];
      BuiltPrefixFails(init, n, runId, hash);
    } else {
      assert items[..n] == items;
    }
  }

  method BuildTransitionLog(items: seq<Item>, runId: string, hash: Hash) returns (r: Result<seq<Object>>)
    ensures r == BuiltLog(items, runId, hash)
  {
    var current := "TASK_RECEIVED";
    var previousHash := Str(GENESIS);
    var log: seq<Object> := [];
    for index := 0 to |items|
      invariant BuiltLog(items[..index], runId, hash) == Ok(log)
      invariant |log| == index && current == Reached(log) && previousHash == TailHash(log, OWN)
    {
      var item := items[index];
      assert items[..index + 1][..index] == items[..index];
      var target := Advance(item, current);
      if target.Err? {
        BuiltPrefixFails(items, index + 1, runId, hash);
        return Err(target.error);
      }
      var body := EntryBody(runId, index + 1, item.state, item.transition, target.value, previousHash);
      var event := Seal(body, OWN, hash);
      SealIsSealed(body, OWN, hash);
      assert Get(event, "to_state") == Str(target.value) by {
        assert "to_state" != OWN;
      }
      log := log + [event];
      previousHash := event[OWN];
      current := target.value;
    }
    assert items[..|items|] == items;
    r := Ok(log);
  }

  /** The entry records a transition of the table. */
  predicate LegalEntry(event: Object) {
    && Get(event, "from_state").Str? && Get(event, "transition").Str?
    && var target := NextState(Get(event, "from_state").s, Get(event, "transition").s);
      target.Ok? && Get(event, "to_state") == Str(target.value)
  }

  /** What verification establishes: right links, right hashes, and each entry legal by itself. */
  ghost predicate Verified(log: seq<Object>, hash: Hash) {
    Linked(log, PREVIOUS, OWN, hash) && forall i :: 0 <= i < |log| ==> LegalEntry(log[i])
  }

  /** One round of the verifier's loop. */
  predicate EntryPasses(event: Object, previousHash: Json, hash: Hash) {
    Get(event, PREVIOUS) == previousHash && LegalEntry(event) && Sealed(event, OWN, hash)
  }

  predicate PassesAt(log: seq<Object>, i: nat, hash: Hash)
    requires i < |log|
  {
    EntryPasses(log[i], Before(log, i, OWN), hash)
  }

  /** The first `n` rounds of the verifier's loop pass. */
  predicate PassesUpTo(log: seq<Object>, n: nat, hash: Hash)
    requires n <= |log|
  {
    n == 0 || (PassesUpTo(log, n - 1, hash) && PassesAt(log, n - 1, hash))
  }

  lemma {:induction false} PassedEntry(log: seq<Object>, i: nat, n: nat, hash: Hash)
    requires i < n <= |log| && PassesUpTo(log, n, hash)
    ensures PassesAt(log, i, hash)
  {
    if i < n - 1 {
      PassedEntry(log, i, n - 1, hash);
    }
  }

  lemma {:induction false} PassesWhenVerified(log: seq<Object>, n: nat, hash: Hash)
    requires n <= |log| && Verified(log, hash)
    ensures PassesUpTo(log, n, hash)
  {
    if n > 0 {
      PassesWhenVerified(log, n - 1, hash);
      assert EntryLinked(log, n - 1, PREVIOUS, OWN, hash) && LegalEntry(log[n - 1]);
    }
  }

  lemma {:induction false} VerifiedByEntries(log: seq<Object>, hash: Hash)
    ensures Verified(log, hash) <==> PassesUpTo(log, |log|, hash)
  {
    if Verified(log, hash) {
      PassesWhenVerified(log, |log|, hash);
    }
    if PassesUpTo(log, |log|, hash) {
      forall i | 0 <= i < |log| ensures EntryLinked(log, i, PREVIOUS, OWN, hash) && LegalEntry(log[i]) {
        PassedEntry(log, i, |log|, hash);
      }
    }
  }

  method VerifyTransitionLog(log: seq<Object>, hash: Hash) returns (ok: bool)
    ensures ok <==> Verified(log, hash)
  {
    VerifiedByEntries(log, hash);
    var previousHash := Str(GENESIS);
    for index := 0 to |log|
      invariant previousHash == Before(log, index, OWN)
      invariant PassesUpTo(log, index, hash)
    {
      var event := log[index];
      if !EntryPasses(event, previousHash, hash) {
        if Verified(log, hash) { PassedEntry(log, index, |log|, hash); }
        return false;
      }
      previousHash := Get(event, OWN);
    }
    ok := true;
  }
}
