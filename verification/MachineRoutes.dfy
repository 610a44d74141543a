/** The runs of the agent loop's state machine, one by one: there are two routes, and every log that can be
    built is the beginning of one of them. */
module MachineRoutes {
  import opened Wrappers
  import opened Json
  import opened HashChain
  import opened StateMachine
  import opened TransitionHistory
  import Supervisor

  /** The states of the route that asks for no approval, and of the one that applies a patch. */
  function RouteStates(mode: Supervisor.Mode): seq<State> {
    match mode
    case DryRun => [
      TaskReceived, AuthorityChecked, PlanCreated, ContextRead, PatchProposalCreated, FinalArtifactWritten,
      ReceiptsVerified, LedgerSealed, Done]
    case SupervisedApply => [
      TaskReceived, AuthorityChecked, PlanCreated, ContextRead, PatchProposalCreated, HumanApprovalRequired,
      HumanApprovalVerified, PatchApplyStarted, PatchApplyCompleted, TestsRequested, TestsCompleted,
      FinalArtifactWritten, ReceiptsVerified, LedgerSealed, Done]
  }

  function RouteSteps(mode: Supervisor.Mode): seq<Step> {
    match mode
    case DryRun => [
      CheckAuthority, CreatePlan, ReadContext, CreatePatchProposal, WriteFinalArtifact, VerifyReceipts, SealLedger,
      Finish]
    case SupervisedApply => [
      CheckAuthority, CreatePlan, ReadContext, CreatePatchProposal, RequireHumanApproval, VerifyHumanApproval,
      StartPatchApply, CompletePatchApply, RequestTests, CompleteTests, WriteFinalArtifact, VerifyReceipts,
      SealLedger, Finish]
  }

  /** Entry `i` is the `i`-th move of the route. */
  predicate OnRoute(e: Object, mode: Supervisor.Mode, i: nat) {
    && i < |RouteSteps(mode)| && i + 1 < |RouteStates(mode)|
    && Get(e, "from_state") == Str(Name(RouteStates(mode)[i]))
    && Get(e, "transition") == Str(StepName(RouteSteps(mode)[i]))
    && Get(e, "to_state") == Str(Name(RouteStates(mode)[i + 1]))
  }

  ghost predicate Follows(log: seq<Object>, mode: Supervisor.Mode) {
    forall i :: 0 <= i < |log| ==> OnRoute(log[i], mode, i)
  }

  /** Only behind the proposal is there a choice, and it is between the two routes. */
  lemma {:induction false} OnlyMove(mode: Supervisor.Mode, i: nat, step: Step, to: State)
    returns (same: Supervisor.Mode)
    requires i < |RouteStates(mode)| && Table(RouteStates(mode)[i], step) == Some(to)
    ensures i < |RouteSteps(same)| && RouteSteps(same)[i] == step && RouteStates(same)[i + 1] == to
    ensures same == mode || i == 4
  {
    if i == 4 {
      same := if step == WriteFinalArtifact then Supervisor.DryRun else Supervisor.SupervisedApply;
    } else {
      same := mode;
      OnlyMoveOnRoute(mode, i, step, to);
    }
  }

  lemma {:induction false} OnlyMoveOnRoute(mode: Supervisor.Mode, i: nat, step: Step, to: State)
    requires i < |RouteStates(mode)| && i != 4 && Table(RouteStates(mode)[i], step) == Some(to)
    ensures i < |RouteSteps(mode)| && RouteSteps(mode)[i] == step && RouteStates(mode)[i + 1] == to
  {
    match mode
    case DryRun => OnlyDryMove(i, step, to);
    case SupervisedApply => if i < 8 { OnlyEarlyMove(i, step, to); } else { OnlyLateMove(i, step, to); }
  }

  lemma {:induction false} OnlyDryMove(i: nat, step: Step, to: State)
    requires i < 9 && i != 4 && Table(RouteStates(Supervisor.DryRun)[i], step) == Some(to)
    ensures i < 8 && RouteSteps(Supervisor.DryRun)[i] == step && RouteStates(Supervisor.DryRun)[i + 1] == to
  {
  }

  lemma {:induction false} OnlyEarlyMove(i: nat, step: Step, to: State)
    requires i < 8 && i != 4 && Table(RouteStates(Supervisor.SupervisedApply)[i], step) == Some(to)
    ensures RouteSteps(Supervisor.SupervisedApply)[i] == step && RouteStates(Supervisor.SupervisedApply)[i + 1] == to
  {
  }

  lemma {:induction false} OnlyLateMove(i: nat, step: Step, to: State)
    requires 8 <= i < 15 && Table(RouteStates(Supervisor.SupervisedApply)[i], step) == Some(to)
    ensures i < 14 && RouteSteps(Supervisor.SupervisedApply)[i] == step
    ensures RouteStates(Supervisor.SupervisedApply)[i + 1] == to
  {
  }

  lemma {:induction false} RoutesAgree(mode: Supervisor.Mode, other: Supervisor.Mode, i: nat)
    requires i < 4
    ensures RouteStates(mode)[i] == RouteStates(other)[i] && RouteSteps(mode)[i] == RouteSteps(other)[i]
    ensures RouteStates(mode)[i + 1] == RouteStates(other)[i + 1]
  {
  }

  /** Where a log that follows a route has come to. */
  lemma {:induction false} ReachedOnRoute(log: seq<Object>, n: nat, mode: Supervisor.Mode)
    requires n <= |log| && Follows(log[..n], mode)
    ensures n < |RouteStates(mode)| && ReachedAt(log, n) == Name(RouteStates(mode)[n])
  {
    if n > 0 {
      assert OnRoute(log[..n][n - 1], mode, n - 1);
    }
  }

  /** The move that a legal entry makes from a state of the table. */
  lemma {:induction false} MoveOf(e: Object, s: State) returns (step: Step, to: State)
    requires LegalEntry(e) && Get(e, "from_state") == Str(Name(s))
    ensures Table(s, step) == Some(to)
    ensures Get(e, "transition") == Str(StepName(step)) && Get(e, "to_state") == Str(Name(to))
  {
    StateOfName(s);
    step := StepOf(Get(e, "transition").s).value;
    to := Table(s, step).value;
  }

  /** A verified path from `TASK_RECEIVED` is the beginning of one of the two routes. */
  lemma {:induction false} PathFollowsRoute(log: seq<Object>, runId: string, hash: Hash) returns (mode: Supervisor.Mode)
    requires Verified(log, hash) && IsPath(log, runId)
    ensures Follows(log, mode)
  {
    if log == [] {
      mode := Supervisor.DryRun;
    } else {
      var n := |log| - 1;
      PrefixIsVerifiedPath(log, n, runId, hash);
      var before := PathFollowsRoute(log[..n], runId, hash);
      ReachedOnRoute(log, n, before);
      assert LegalEntry(log[n]) && Continues(log, n, runId);
      var step, to := MoveOf(log[n], RouteStates(before)[n]);
      mode := OnlyMove(before, n, step, to);
      SwitchAtFour(log, n, before, mode);
    }
  }

  lemma {:induction false} SwitchAtFour(log: seq<Object>, n: nat, before: Supervisor.Mode, mode: Supervisor.Mode)
    requires |log| == n + 1 && Follows(log[..n], before) && (mode == before || n == 4)
    requires n < |RouteSteps(mode)| && n < |RouteStates(before)| && n + 1 < |RouteStates(mode)|
    requires Get(log[n], "from_state") == Str(Name(RouteStates(before)[n]))
    requires Get(log[n], "transition") == Str(StepName(RouteSteps(mode)[n]))
    requires Get(log[n], "to_state") == Str(Name(RouteStates(mode)[n + 1]))
    ensures Follows(log, mode)
  {
    forall i | 0 <= i < |log| ensures OnRoute(log[i], mode, i) {
      if i < n {
        assert OnRoute(log[..n][i], before, i);
        if mode != before { RoutesAgree(mode, before, i); }
      } else if mode != before {
        RoutesAgree(mode, before, 3);
      }
    }
  }

  /** Every log that the machine builds is the beginning of one of the two routes; one that ends in `DONE` is
      all of it. */
  lemma {:induction false} EveryRunIsARoute(items: seq<Item>, runId: string, hash: Hash)
    returns (mode: Supervisor.Mode)
    requires BuiltLog(items, runId, hash).Ok?
    ensures var log := BuiltLog(items, runId, hash).value;
      && Follows(log, mode) && |log| <= |RouteSteps(mode)|
      && (ReachedAt(log, |log|) == "DONE" ==> |log| == |RouteSteps(mode)|)
  {
    var log := BuiltLog(items, runId, hash).value;
    BuiltIsVerifiedPath(items, runId, hash);
    mode := PathFollowsRoute(log, runId, hash);
    assert log[..|log|] == log;
    ReachedOnRoute(log, |log|, mode);
    OnlyLastIsDone(mode, |log|);
  }

  lemma {:induction false} OnlyLastIsDone(mode: Supervisor.Mode, i: nat)
    requires i < |RouteStates(mode)|
    ensures |RouteStates(mode)| == |RouteSteps(mode)| + 1
    ensures Name(RouteStates(mode)[i]) == "DONE" ==> i == |RouteSteps(mode)|
  {
    if Name(RouteStates(mode)[i]) == Name(Done) {
      NamesDiffer(RouteStates(mode)[i], Done);
    }
  }

  // ---------------------------------------------------------------- by name

  function RouteNames(mode: Supervisor.Mode): seq<string> {
    match mode
    case DryRun => [
      "TASK_RECEIVED", "AUTHORITY_CHECKED", "PLAN_CREATED", "CONTEXT_READ", "PATCH_PROPOSAL_CREATED",
      "FINAL_ARTIFACT_WRITTEN", "RECEIPTS_VERIFIED", "LEDGER_SEALED_LOCALLY", "DONE"]
    case SupervisedApply => [
      "TASK_RECEIVED", "AUTHORITY_CHECKED", "PLAN_CREATED", "CONTEXT_READ", "PATCH_PROPOSAL_CREATED",
      "HUMAN_APPROVAL_REQUIRED", "HUMAN_APPROVAL_VERIFIED", "PATCH_APPLY_TRANSACTION_STARTED",
      "PATCH_APPLY_TRANSACTION_COMPLETED", "ALLOWLISTED_TESTS_REQUESTED", "ALLOWLISTED_TESTS_COMPLETED",
      "FINAL_ARTIFACT_WRITTEN", "RECEIPTS_VERIFIED", "LEDGER_SEALED_LOCALLY", "DONE"]
  }

  function RouteTransitions(mode: Supervisor.Mode): seq<string> {
    match mode
    case DryRun => [
      "check_authority", "create_plan", "read_context", "create_patch_proposal", "write_final_artifact",
      "verify_receipts", "seal_ledger", "done"]
    case SupervisedApply => [
      "check_authority", "create_plan", "read_context", "create_patch_proposal", "require_human_approval",
      "verify_human_approval", "start_patch_apply", "complete_patch_apply", "request_tests", "complete_tests",
      "write_final_artifact", "verify_receipts", "seal_ledger", "done"]
  }

  lemma {:induction false} RouteIsNamed(mode: Supervisor.Mode)
    ensures |RouteNames(mode)| == |RouteStates(mode)| && |RouteTransitions(mode)| == |RouteSteps(mode)|
    ensures forall i :: 0 <= i < |RouteStates(mode)| ==> RouteNames(mode)[i] == Name(RouteStates(mode)[i])
    ensures forall i :: 0 <= i < |RouteSteps(mode)| ==> RouteTransitions(mode)[i] == StepName(RouteSteps(mode)[i])
  {
    forall i | 0 <= i < |RouteStates(mode)| ensures RouteNames(mode)[i] == Name(RouteStates(mode)[i]) {
      if mode == Supervisor.DryRun { DryStateNamed(i); } else { SupervisedStateNamed(i); }
    }
    forall i | 0 <= i < |RouteSteps(mode)| ensures RouteTransitions(mode)[i] == StepName(RouteSteps(mode)[i]) {
      if mode == Supervisor.DryRun { DryStepNamed(i); } else { SupervisedStepNamed(i); }
    }
  }

  lemma {:induction false} DryStateNamed(i: nat)
    requires i < 9
    ensures RouteNames(Supervisor.DryRun)[i] == Name(RouteStates(Supervisor.DryRun)[i])
  {
  }

  lemma {:induction false} SupervisedStateNamed(i: nat)
    requires i < 15
    ensures RouteNames(Supervisor.SupervisedApply)[i] == Name(RouteStates(Supervisor.SupervisedApply)[i])
  {
  }

  lemma {:induction false} DryStepNamed(i: nat)
    requires i < 8
    ensures RouteTransitions(Supervisor.DryRun)[i] == StepName(RouteSteps(Supervisor.DryRun)[i])
  {
  }

  lemma {:induction false} SupervisedStepNamed(i: nat)
    requires i < 14
    ensures RouteTransitions(Supervisor.SupervisedApply)[i] == StepName(RouteSteps(Supervisor.SupervisedApply)[i])
  {
  }

  /** The same with the names spelled out, for the whole run of each mode. */
  lemma {:induction false} EveryRunByName(items: seq<Item>, runId: string, hash: Hash)
    returns (mode: Supervisor.Mode)
    requires BuiltLog(items, runId, hash).Ok?
    ensures var log := BuiltLog(items, runId, hash).value;
      && |log| <= |RouteTransitions(mode)| < |RouteNames(mode)|
      && forall i :: 0 <= i < |log| ==>
        && Get(log[i], "from_state") == Str(RouteNames(mode)[i])
        && Get(log[i], "transition") == Str(RouteTransitions(mode)[i])
        && Get(log[i], "to_state") == Str(RouteNames(mode)[i + 1])
  {
    mode := EveryRunIsARoute(items, runId, hash);
    RouteIsNamed(mode);
    var log := BuiltLog(items, runId, hash).value;
    OnlyLastIsDone(mode, 0);
    forall i | 0 <= i < |log|
      ensures Get(log[i], "from_state") == Str(RouteNames(mode)[i])
      ensures Get(log[i], "transition") == Str(RouteTransitions(mode)[i])
      ensures Get(log[i], "to_state") == Str(RouteNames(mode)[i + 1])
    {
      assert OnRoute(log[i], mode, i);
    }
  }
}
