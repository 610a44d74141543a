/** What the calls and the end of a run mean, in terms of what its components returned. */
module RunMeaning {
  import opened Dedupe
  import opened Supervisor
  import opened SupervisedRun

  // ---------------------------------------------------------------- the calls

  predicate Begins(given: Given) {
    given.validationCodes == [] && !given.setupRaises && !given.planHasToolCalls
  }

  /** Every context request was answered and accepted. */
  predicate HasContext(given: Given) {
    forall i :: 0 <= i < |given.contexts| ==> given.contexts[i].ContextResult? && given.contexts[i].accepted
  }

  function Place(call: Call): nat {
    match call case FetchContext => 0 case MakeProposal => 1 case ApplyPatch => 2 case RunTest => 3
  }

  /** When each component is called; no component twice, and always in this order. */
  lemma {:induction false} CallsMean(q: LoopRequest, parts: Parts)
    ensures var given, calls := parts.given, CallsMade(q, parts);
      && (FetchContext in calls <==> Begins(given))
      && (MakeProposal in calls <==> Begins(given) && HasContext(given))
      && (ApplyPatch in calls <==>
        Begins(given) && HasContext(given) && given.proposal.ProposalAccepted? && q.mode == SupervisedApply)
      && (RunTest in calls <==>
        && Begins(given) && HasContext(given) && given.proposal.ProposalAccepted? && q.mode == SupervisedApply
        && parts.apply.PartAccepted? && q.testCommand)
      && forall i, j :: 0 <= i < j < |calls| ==> Place(calls[i]) < Place(calls[j])
  {
  }

  // ---------------------------------------------------------------- the end

  /** A context request was answered and not accepted. */
  predicate LacksContext(given: Given) {
    exists i :: 0 <= i < |given.contexts| && given.contexts[i].ContextResult? && !given.contexts[i].accepted
  }

  predicate FetchRaises(given: Given) {
    exists i :: 0 <= i < |given.contexts| && given.contexts[i].ContextRaised?
  }

  /** Rejected with these codes, each of them once, and without a word of a patch. */
  predicate RejectedWith(r: LoopResult, codes: seq<RunCode>) {
    r == LoopRejected(FirstSeen(codes), false)
  }

  /** The codes of all requests, or one of its own when they gave none. */
  ghost predicate RejectedForContext(r: LoopResult, given: Given) {
    && r.LoopRejected? && !r.applyPerformed && NoRepeats(r.codes)
    && forall code :: code in r.codes <==>
      CodeOfContext(given, code) || (code == Named("REJECTED_CONTEXT_READ") && NoContextCodes(given))
  }

  predicate CodeOfContext(given: Given, code: RunCode) {
    exists i :: 0 <= i < |given.contexts| && given.contexts[i].ContextResult? && code in given.contexts[i].codes
  }

  predicate NoContextCodes(given: Given) {
    forall i :: 0 <= i < |given.contexts| ==> given.contexts[i].ContextResult? ==> given.contexts[i].codes == []
  }

  /** How a run ends that some component did not accept: the first one to object decides. */
  ghost predicate StopsFor(q: LoopRequest, parts: Parts, r: LoopResult) {
    var given := parts.given;
    if given.validationCodes != [] then RejectedWith(r, given.validationCodes)
    else if given.setupRaises then r.LoopRaised?
    else if given.planHasToolCalls then RejectedWith(r, [Named("REJECTED_MODEL_TOOL_CALL")])
    else if FetchRaises(given) then r.LoopRaised?
    else if LacksContext(given) then RejectedForContext(r, given)
    else match given.proposal
      case ProposalRejected(codes) => RejectedWith(r, codes)
      case ProposalRaised => r.LoopRaised?
      case ProposalAccepted(_, _, _) =>
        q.mode == SupervisedApply &&
        match parts.apply
        case PartRejected(codes) => RejectedWith(r, codes)
        case PartRaised => r.LoopRaised?
        case PartAccepted(_) => q.testCommand && TestStops(given.test, r)
  }

  predicate TestStops(test: PartResult, r: LoopResult) {
    match test
    case PartRejected(codes) => RejectedWith(r, codes)
    case PartRaised => r.LoopRaised?
    case PartAccepted(_) => false
  }

  lemma {:induction false} ContextCodesHave(results: seq<ContextResult>, code: RunCode)
    ensures code in ContextCodes(results) <==>
      exists i :: 0 <= i < |results| && results[i].ContextResult? && code in results[i].codes
  {
    if results != [] {
      ContextCodesHave(results[1..], code);
      assert forall i :: 0 < i < |results| ==> results[i] == results[1..][i - 1];
      if i :| 0 <= i < |results| - 1 && results[1..][i].ContextResult? && code in results[1..][i].codes {
        assert results[i + 1] == results[1..][i];
      }
    }
  }

  lemma {:induction false} NoCodesFromContext(given: Given)
    ensures ContextCodes(given.contexts) == [] <==> NoContextCodes(given)
  {
    var codes := ContextCodes(given.contexts);
    if codes != [] {
      ContextCodesHave(given.contexts, codes[0]);
    }
    if i :| 0 <= i < |given.contexts| && given.contexts[i].ContextResult? && given.contexts[i].codes != [] {
      ContextCodesHave(given.contexts, given.contexts[i].codes[0]);
    }
  }

  lemma {:induction false} ContextStops(given: Given, r: LoopResult)
    requires r == LoopRejected(FirstSeen(ContextRejection(given.contexts)), false)
    ensures RejectedForContext(r, given)
  {
    NoCodesFromContext(given);
    forall code
      ensures code in r.codes <==>
        CodeOfContext(given, code) || (code == Named("REJECTED_CONTEXT_READ") && NoContextCodes(given))
    {
      ContextCodesHave(given.contexts, code);
    }
  }

  /** A stopped run ends as the component says that stopped it. */
  lemma {:induction false} StoppedMeans(q: LoopRequest, parts: Parts, r: LoopResult)
    requires StoppedRun(q, parts, r)
    ensures StopsFor(q, parts, r)
  {
    if Begins(parts.given) {
      LastOfCalls(q, parts);
      if !FetchRaises(parts.given) && LacksContext(parts.given) {
        ContextStops(parts.given, r);
      }
    }
  }

  lemma {:induction false} LastOfCalls(q: LoopRequest, parts: Parts)
    ensures var calls := PartCalls(q, parts); var last := calls[|calls| - 1];
      if !HasContext(parts.given) then last == FetchContext
      else if !parts.given.proposal.ProposalAccepted? || q.mode == DryRun then last == MakeProposal
      else last == if parts.apply.PartAccepted? && q.testCommand then RunTest else ApplyPatch
    ensures HasContext(parts.given) <==> !FetchRaises(parts.given) && !LacksContext(parts.given)
    ensures FetchRaises(parts.given) <==> ContextRaised in parts.given.contexts
  {
  }
}
