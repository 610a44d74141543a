/** What a sealed request proves, in terms of the request itself: its action and path, its claims, its
    receipts, and every event of its ledger, field by field. */
module SealMeaning {
  import opened Json
  import opened HashChain
  import opened Ledger
  import opened Replay
  import opened Spine
  import Paths

  // ---------------------------------------------------------------- fields

  /** The event has the value in this field, or does not have the field. */
  predicate NamesOrLacks(event: Object, field: string, value: string) {
    field in event ==> event[field] == Str(value)
  }

  /** Whatever of task, descriptor and receipts the event names is what the state names. */
  predicate EventNames(event: Object, s: ExpectedState) {
    && NamesOrLacks(event, "task_id", s.taskId)
    && NamesOrLacks(event, "descriptor_hash", s.descriptorHash)
    && NamesOrLacks(event, "authority_receipt_hash", s.authorityReceiptHash)
    && NamesOrLacks(event, "workspace_transaction_receipt_hash", s.workspaceReceiptHash)
    && NamesOrLacks(event, "artifact_receipt_hash", s.artifactReceiptHash)
    && NamesOrLacks(event, "executor_receipt_hash", s.executorReceiptHash)
    && NamesOrLacks(event, "validation_receipt_hash", s.validationReceiptHash)
  }

  /** The receipt of a part is there and has this value in this field. */
  predicate Has(graph: Object, node: string, field: string, value: string) {
    Get(graph, node).Obj? && Get(Get(graph, node).fields, field) == Str(value)
  }

  /** It has this value there, or none. */
  predicate MayHave(graph: Object, node: string, field: string, value: string) {
    Get(graph, node).Obj? && Get(Get(graph, node).fields, field) in {Null, Str(value)}
  }

  /** It is of this task and descriptor, if it names any. */
  predicate OfTask(graph: Object, node: string, s: ExpectedState) {
    MayHave(graph, node, "task_id", s.taskId) && MayHave(graph, node, "descriptor_hash", s.descriptorHash)
  }

  /** Each receipt has its own hash and, where it names them, the hashes of the receipts before it. */
  predicate GraphNames(g: Object, s: ExpectedState) {
    && Has(g, "admission", "receipt_hash", s.admissionReceiptHash) && OfTask(g, "admission", s)
    && Has(g, "authority", "receipt_hash", s.authorityReceiptHash) && OfTask(g, "authority", s)
    && Has(g, "workspace_transaction", "transaction_hash", s.workspaceReceiptHash)
    && OfTask(g, "workspace_transaction", s)
    && MayHave(g, "workspace_transaction", "authority_receipt_hash", s.authorityReceiptHash)
    && Has(g, "artifact", "receipt_hash", s.artifactReceiptHash) && OfTask(g, "artifact", s)
    && Has(g, "artifact", "content_hash", s.artifactContentHash)
    && MayHave(g, "artifact", "authority_receipt_hash", s.authorityReceiptHash)
    && MayHave(g, "artifact", "workspace_transaction_receipt_hash", s.workspaceReceiptHash)
    && Has(g, "executor", "receipt_hash", s.executorReceiptHash) && OfTask(g, "executor", s)
    && Has(g, "executor", "content_hash", s.executorOutputHash)
    && MayHave(g, "executor", "authority_receipt_hash", s.authorityReceiptHash)
    && MayHave(g, "executor", "workspace_transaction_receipt_hash", s.workspaceReceiptHash)
    && MayHave(g, "executor", "artifact_receipt_hash", s.artifactReceiptHash)
    && Has(g, "validation", "receipt_hash", s.validationReceiptHash)
    && MayHave(g, "validation", "executor_receipt_hash", s.executorReceiptHash)
  }

  predicate ClaimAllowed(claim: string) {
    || claim == "R120_UNIFIED_LOCAL_SPINE_SEAL_" + "WORKTREE_LOCAL_VALIDATION_PASS"
    || claim == "BOUNDED_LOCAL_RUNTIME_CAPABILITY_" + ("FOR_WRITE_TEXT_ARTIFACT_" + "ONLY_LOCAL_VALIDATION_PASS")
  }

  /** Everything the state names by a hash. */
  function HashesNamed(s: ExpectedState): seq<string> {
    [s.descriptorHash, s.admissionReceiptHash, s.authorityReceiptHash, s.workspaceReceiptHash, s.artifactReceiptHash,
     s.executorReceiptHash, s.ledgerHeadHash, s.replayReceiptHash, s.validationReceiptHash, s.artifactContentHash,
     s.executorOutputHash]
  }

  predicate WellNamed(s: ExpectedState) {
    && s.taskId != "" && s.ledgerEventCount >= 0
    && (forall i :: 0 <= i < |HashesNamed(s)| ==> IsHash(Str(HashesNamed(s)[i])))
    && "" !in s.requiredEventTypes
  }

  lemma {:induction false} WellNamedIffOk(s: ExpectedState)
    ensures WellNamed(s) <==> StateOk(s)
  {
    var h := HashesNamed(s);
    assert h[0] == s.descriptorHash && h[1] == s.admissionReceiptHash && h[2] == s.authorityReceiptHash;
    assert h[3] == s.workspaceReceiptHash && h[4] == s.artifactReceiptHash && h[5] == s.executorReceiptHash;
    assert h[6] == s.ledgerHeadHash && h[7] == s.replayReceiptHash && h[8] == s.validationReceiptHash;
    assert h[9] == s.artifactContentHash && h[10] == s.executorOutputHash;
  }

  /** What the request proves. */
  ghost predicate Proven(r: SealRequest, hash: Hash) {
    var s := r.expected;
    && r.action == "write_text_artifact" && r.taskId == s.taskId && r.descriptorHash == s.descriptorHash
    && WellNamed(s)
    && Paths.PathClear(r.outputPath, Paths.NormalizedSet(r.deniedPaths), r.allowedRoots)
    && (forall i :: 0 <= i < |r.claims| ==> ClaimAllowed(r.claims[i]))
    && GraphNames(r.receiptGraph, s)
    && ValidChain(r.ledger, hash) && |r.ledger| == s.ledgerEventCount && ChainHash(r.ledger, hash) == s.ledgerHeadHash
    && (forall i :: 0 <= i < |r.ledger| ==> EventNames(r.ledger[i], s))
    && TypesOccur(r.ledger, s.requiredEventTypes)
    && r.replayReceipt != map[] && Sealed(r.replayReceipt, "receipt_hash", hash)
    && Get(r.replayReceipt, "receipt_hash") == Str(s.replayReceiptHash)
    && Get(Generated(r, hash), "receipt_hash") == Str(s.replayReceiptHash)
  }

  // ---------------------------------------------------------------- events

  lemma {:induction false} EventFieldsNamed(s: ExpectedState)
    ensures var e := ReplayState(s);
      && Get(e, "task_id") == Str(s.taskId) && Get(e, "descriptor_hash") == Str(s.descriptorHash)
      && Get(e, "authority_receipt_hash") == Str(s.authorityReceiptHash)
      && Get(e, "workspace_transaction_receipt_hash") == Str(s.workspaceReceiptHash)
      && Get(e, "artifact_receipt_hash") == Str(s.artifactReceiptHash)
  {
  }

  lemma {:induction false} OtherFieldsNamed(s: ExpectedState)
    ensures var e := ReplayState(s);
      && Get(e, "executor_receipt_hash") == Str(s.executorReceiptHash)
      && Get(e, "validation_receipt_hash") == Str(s.validationReceiptHash)
      && Get(e, "artifact_content_hash") == Str(s.artifactContentHash)
      && Get(e, "executor_output_hash") == Str(s.executorOutputHash)
  {
  }

  lemma {:induction false} EventNamesIffFaultless(event: Object, s: ExpectedState)
    ensures EventNames(event, s) <==> forall code :: !EventFault(event, ReplayState(s), code)
  {
    EventFieldsNamed(s);
    OtherFieldsNamed(s);
    if forall code :: !EventFault(event, ReplayState(s), code) {
      var e := ReplayState(s);
      assert !EventFault(event, e, TaskBindingMismatch) && !EventFault(event, e, DescriptorHashMismatch);
      assert !EventFault(event, e, AuthorityReceiptMismatch) && !EventFault(event, e, WorkspaceReceiptMismatch);
      assert !EventFault(event, e, ArtifactReceiptMismatch) && !EventFault(event, e, ExecutorReceiptMismatch);
      assert !EventFault(event, e, ValidationReceiptMismatch);
    }
  }

  lemma {:induction false} EventsNameIffFaultless(ledger: seq<Object>, s: ExpectedState)
    ensures (forall i :: 0 <= i < |ledger| ==> EventNames(ledger[i], s)) <==> !AnyEventFault(ledger, ReplayState(s))
  {
    forall i | 0 <= i < |ledger|
      ensures EventNames(ledger[i], s) <==> forall code :: !EventFault(ledger[i], ReplayState(s), code)
    {
      EventNamesIffFaultless(ledger[i], s);
    }
    if !AnyEventFault(ledger, ReplayState(s)) {
      forall i | 0 <= i < |ledger| ensures EventNames(ledger[i], s) {
        forall code ensures !EventFault(ledger[i], ReplayState(s), code) {
          assert !SomeEventFault(ledger, ReplayState(s), code);
        }
      }
    }
  }

  // ---------------------------------------------------------------- receipts

  lemma {:induction false} FaultlessGraphNames(g: Object, s: ExpectedState)
    requires GraphCheckResult(g, s).Pass? && forall code :: !GraphFault(g, ReplayState(s), code)
    ensures GraphNames(g, s)
  {
    var e := ReplayState(s);
    EventFieldsNamed(s);
    OtherFieldsNamed(s);
    assert !GraphFault(g, e, TaskBindingMismatch) && !GraphFault(g, e, DescriptorHashMismatch);
    assert !GraphFault(g, e, AuthorityReceiptMismatch) && !GraphFault(g, e, WorkspaceReceiptMismatch);
    assert !GraphFault(g, e, ArtifactReceiptMismatch) && !GraphFault(g, e, ExecutorReceiptMismatch);
  }

  lemma {:induction false} NamingGraphPasses(g: Object, s: ExpectedState, code: ReplayCode)
    requires GraphNames(g, s)
    ensures GraphCheckResult(g, s).Pass? && !GraphFault(g, ReplayState(s), code)
  {
    EventFieldsNamed(s);
    OtherFieldsNamed(s);
  }

  lemma {:induction false} GraphNamesIff(g: Object, s: ExpectedState)
    ensures GraphNames(g, s) <==> GraphCheckResult(g, s).Pass? && GraphBound(g, ReplayState(s))
  {
    GraphBoundIffFaultless(g, ReplayState(s));
    if GraphNames(g, s) {
      forall code ensures GraphCheckResult(g, s).Pass? && !GraphFault(g, ReplayState(s), code) {
        NamingGraphPasses(g, s, code);
      }
      NamingGraphPasses(g, s, InputMalformed);
    } else if GraphCheckResult(g, s).Pass? && forall code :: !GraphFault(g, ReplayState(s), code) {
      FaultlessGraphNames(g, s);
    }
  }

  // ---------------------------------------------------------------- all of it

  lemma {:induction false} ClaimsMean(claims: seq<string>)
    ensures ClaimCheck(claims).Pass? <==> forall i :: 0 <= i < |claims| ==> ClaimAllowed(claims[i])
  {
    MembershipDecidesClaims(claims);
    forall i | 0 <= i < |claims| ensures claims[i] in ALLOWED_CLAIMS <==> ClaimAllowed(claims[i]) {
      ClaimMeans(claims[i]);
    }
  }

  lemma {:induction false} ClaimMeans(claim: string)
    ensures claim in ALLOWED_CLAIMS <==> ClaimAllowed(claim)
  {
  }

  /** The early checks, each for itself. */
  predicate EarlyGood(r: SealRequest) {
    && r.action == "write_text_artifact" && r.taskId == r.expected.taskId
    && r.descriptorHash == r.expected.descriptorHash && StateOk(r.expected)
    && Paths.PathClear(r.outputPath, Paths.NormalizedSet(r.deniedPaths), r.allowedRoots)
    && (forall i :: 0 <= i < |r.claims| ==> ClaimAllowed(r.claims[i]))
    && GraphCheckResult(r.receiptGraph, r.expected).Pass?
  }

  lemma {:induction false} EarlyIffGood(r: SealRequest)
    ensures AllPass(EarlyChecks(r)) <==> EarlyGood(r)
  {
    ClaimsMean(r.claims);
    SixPass(EarlyChecks(r));
  }

  lemma {:induction false} SixPass(c: seq<StageResult>)
    requires |c| == 6
    ensures AllPass(c) <==> c[0].Pass? && c[1].Pass? && c[2].Pass? && c[3].Pass? && c[4].Pass? && c[5].Pass?
  {
  }

  lemma {:induction false} ReplayMeans(r: SealRequest, hash: Hash)
    requires AllPass(EarlyChecks(r))
    ensures RequestConsistent(ReplayRequest(r), hash) <==>
      && ValidChain(r.ledger, hash) && |r.ledger| == r.expected.ledgerEventCount
      && ChainHash(r.ledger, hash) == r.expected.ledgerHeadHash
      && (forall i :: 0 <= i < |r.ledger| ==> EventNames(r.ledger[i], r.expected))
      && TypesOccur(r.ledger, r.expected.requiredEventTypes) && GraphBound(r.receiptGraph, ReplayState(r.expected))
  {
    ReplayRequestFields(r);
    ReplayRequestIsWellFormed(r);
    ReplayStateExpectations(r.expected);
    RequiredMeans(r.ledger, ReplayState(r.expected));
    TypesOccurIffNoneMissing(r.ledger, r.expected);
    EventsBoundIffFaultless(r.ledger, ReplayState(r.expected));
    EventsNameIffFaultless(r.ledger, r.expected);
  }

  /** A request is sealed exactly when it proves all of this. */
  lemma {:induction false} SealableIffProven(r: SealRequest, hash: Hash)
    ensures Sealable(r, hash) <==> Proven(r, hash)
  {
    WellNamedIffOk(r.expected);
    EarlyIffGood(r);
    GraphNamesIff(r.receiptGraph, r.expected);
    if AllPass(EarlyChecks(r)) {
      ReplayMeans(r, hash);
    }
  }

  // ---------------------------------------------------------------- what an early refusal says

  /** The request has the fault that this code of an early refusal names. */
  predicate EarlyFault(r: SealRequest, code: SpineCode) {
    var s, path, denied := r.expected, r.outputPath, Paths.NormalizedSet(r.deniedPaths);
    match code
    case UnsupportedAction => r.action != "write_text_artifact"
    case DescriptorMismatch =>
      || r.taskId != s.taskId || r.descriptorHash != s.descriptorHash || !OfTask(r.receiptGraph, "admission", s)
    case ExpectedMalformed => !WellNamed(s)
    case OutputAbsolute => Paths.IsAbsolute(path)
    case OutputTraversal => Paths.HasTraversal(path)
    case OutputDenied => Paths.NormalizePath(path) in denied
    case OutputOutsideRoots => !Paths.WithinSome(path, r.allowedRoots)
    case ClaimBoundaryRejected => exists i :: 0 <= i < |r.claims| && !ClaimAllowed(r.claims[i])
    case ReceiptMissing(node) =>
      && node in {"admission", "authority", "workspace_transaction", "artifact", "executor", "validation"}
      && !Get(r.receiptGraph, node).Obj?
    case ReceiptMismatch(node) => OtherReceipt(r.receiptGraph, node, s)
    case ContentHashMismatch => !Has(r.receiptGraph, "artifact", "content_hash", s.artifactContentHash)
    case OutputHashMismatch => !Has(r.receiptGraph, "executor", "content_hash", s.executorOutputHash)
    case _ => false
  }

  /** The receipt of this part does not have the hash that the state names for it. */
  predicate OtherReceipt(g: Object, node: string, s: ExpectedState) {
    || (node == "admission" && !Has(g, node, "receipt_hash", s.admissionReceiptHash))
    || (node == "authority" && !Has(g, node, "receipt_hash", s.authorityReceiptHash))
    || (node == "workspace_transaction" && !Has(g, node, "transaction_hash", s.workspaceReceiptHash))
    || (node == "artifact" && !Has(g, node, "receipt_hash", s.artifactReceiptHash))
    || (node == "executor" && !Has(g, node, "receipt_hash", s.executorReceiptHash))
    || (node == "validation" && !Has(g, node, "receipt_hash", s.validationReceiptHash))
  }

  /** Every early refusal names a fault that the request has. */
  lemma {:induction false} EarlyRefusalIsTrue(r: SealRequest, i: nat, code: SpineCode)
    requires FailsFirstAt(EarlyChecks(r), i, code)
    ensures EarlyFault(r, code)
  {
    if i == 3 {
      PathRefusalIsTrue(r, code);
    } else if i == 4 {
      ClaimsMean(r.claims);
      ClaimFails(r.claims);
    } else if i == 5 {
      GraphRefusalIsTrue(r.receiptGraph, r.expected, code);
    } else {
      WellNamedIffOk(r.expected);
    }
  }

  lemma {:induction false} PathRefusalIsTrue(r: SealRequest, code: SpineCode)
    requires PathCheck(r) == Fail(code)
    ensures EarlyFault(r, code)
  {
  }

  lemma {:induction false} ClaimFails(claims: seq<string>)
    ensures ClaimCheck(claims) in {Pass, Fail(ClaimBoundaryRejected)}
  {
    if claims != [] {
      ClaimFails(claims[1..]);
    }
  }

  lemma {:induction false} GraphRefusalIsTrue(g: Object, s: ExpectedState, code: SpineCode)
    requires GraphCheckResult(g, s) == Fail(code)
    ensures match code
      case ReceiptMissing(node) =>
        && node in {"admission", "authority", "workspace_transaction", "artifact", "executor", "validation"}
        && !Get(g, node).Obj?
      case ReceiptMismatch(node) => OtherReceipt(g, node, s)
      case DescriptorMismatch => !OfTask(g, "admission", s)
      case ContentHashMismatch => !Has(g, "artifact", "content_hash", s.artifactContentHash)
      case OutputHashMismatch => !Has(g, "executor", "content_hash", s.executorOutputHash)
      case _ => false
  {
  }
}
