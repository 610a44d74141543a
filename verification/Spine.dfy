/** The unified spine seal (runtime_lab/spine/__init__.py) and what an accepted seal pins. */
module Spine {
  import opened Wrappers
  import opened Json
  import opened Dedupe
  import opened HashChain
  import opened Ledger
  import opened LedgerHistory
  import opened Replay
  import opened Substrings
  import Paths

  datatype SpineCode =
    | ExpectedMalformed | UnsupportedAction | ClaimBoundaryRejected | DescriptorMismatch
    | ReceiptMissing(node: string) | ReceiptMismatch(node: string)
    | ReplayReceiptMissing | ReplayReceiptMismatch
    | SpineLedgerInvalid | SpineLedgerHeadMismatch | SpineEventCountMismatch | SpineRequiredEventMissing
    | ContentHashMismatch | OutputHashMismatch
    | OutputAbsolute | OutputTraversal | OutputOutsideRoots | OutputDenied

  datatype ExpectedState = ExpectedState(
    taskId: string, descriptorHash: string, admissionReceiptHash: string, authorityReceiptHash: string,
    workspaceReceiptHash: string, artifactReceiptHash: string, executorReceiptHash: string,
    ledgerHeadHash: string, ledgerEventCount: int, replayReceiptHash: string, validationReceiptHash: string,
    artifactContentHash: string, executorOutputHash: string, requiredEventTypes: seq<string>)

  datatype SealRequest = SealRequest(
    action: string, taskId: string, descriptorHash: string, outputPath: string,
    allowedRoots: seq<string>, deniedPaths: seq<string>, ledger: seq<Object>, receiptGraph: Object,
    replayReceipt: Object, expected: ExpectedState, claims: seq<string>)

  const ALLOWED_ACTION: string := "write_text_artifact"

  const ALLOWED_CLAIMS: set<string> := {
    "R120_UNIFIED_LOCAL_SPINE_SEAL_" + "WORKTREE_LOCAL_VALIDATION_PASS",
    "BOUNDED_LOCAL_RUNTIME_CAPABILITY_" + ("FOR_WRITE_TEXT_ARTIFACT_" + "ONLY_LOCAL_VALIDATION_PASS")}

  /** `_state_is_well_formed` */
  predicate StateOk(s: ExpectedState) {
    && s.taskId != "" && s.ledgerEventCount >= 0
    && IsHash(Str(s.descriptorHash)) && IsHash(Str(s.admissionReceiptHash)) && IsHash(Str(s.authorityReceiptHash))
    && IsHash(Str(s.workspaceReceiptHash)) && IsHash(Str(s.artifactReceiptHash)) && IsHash(Str(s.executorReceiptHash))
    && IsHash(Str(s.ledgerHeadHash)) && IsHash(Str(s.replayReceiptHash)) && IsHash(Str(s.validationReceiptHash))
    && IsHash(Str(s.artifactContentHash)) && IsHash(Str(s.executorOutputHash))
    && forall i :: 0 <= i < |s.requiredEventTypes| ==> s.requiredEventTypes[i] != ""
  }

  datatype StageResult = Pass | Fail(code: SpineCode)

  /** `_path_error` */
  function PathCheck(r: SealRequest): (c: StageResult) {
    match Paths.PathCode(r.outputPath, Paths.NormalizedSet(r.deniedPaths), r.allowedRoots)
    case PathsAccepted => Pass
    case AbsoluteRejected => Fail(OutputAbsolute)
    case TraversalRejected => Fail(OutputTraversal)
    case DeniedRejected => Fail(OutputDenied)
    case OutsideRejected => Fail(OutputOutsideRoots)
  }

  const FORBIDDEN_CLAIM_TOKENS: seq<string> := [
    "REMOTE_SEALED_PASS", "GENERAL_TASK_EXECUTION_PROVEN", "ARBITRARY_EXECUTOR_DISPATCH_PROVEN",
    "TOOL_EXECUTION_PROVEN", "LLM_INVOCATION_PROVEN", "NETWORK_EXECUTION_PROVEN", "PRODUCTION_READY",
    "TEAM_RUNTIME_PROVEN", "ORGANIZATION_RUNTIME_PROVEN", "ACS_PROVEN", "R121_EXECUTOR_EXPANSION",
    "R130_TEAM_RUNTIME"]

  predicate HasForbiddenToken(claim: string) {
    exists k :: 0 <= k < |FORBIDDEN_CLAIM_TOKENS| && Contains(claim, FORBIDDEN_CLAIM_TOKENS[k])
  }

  /** `_claim_error`: every claim must be an allowed one and hold no forbidden token. */
  function ClaimCheck(claims: seq<string>): (c: StageResult) {
    if claims == [] then Pass
    else if claims[0] !in ALLOWED_CLAIMS || HasForbiddenToken(claims[0]) then Fail(ClaimBoundaryRejected)
    else ClaimCheck(claims[1..])
  }

  const NODES: seq<string> := ["admission", "authority", "workspace_transaction", "artifact", "executor", "validation"]

  predicate NodesPresent(graph: Object) {
    forall i :: 0 <= i < |NODES| ==> Get(graph, NODES[i]).Obj?
  }

  /** `_graph_error` */
  function GraphCheckResult(graph: Object, s: ExpectedState): (c: StageResult)
    ensures c.Pass? ==> NodesPresent(graph)
  {
    if !Get(graph, "admission").Obj? then Fail(ReceiptMissing("admission"))
    else if !Get(graph, "authority").Obj? then Fail(ReceiptMissing("authority"))
    else if !Get(graph, "workspace_transaction").Obj? then Fail(ReceiptMissing("workspace_transaction"))
    else if !Get(graph, "artifact").Obj? then Fail(ReceiptMissing("artifact"))
    else if !Get(graph, "executor").Obj? then Fail(ReceiptMissing("executor"))
    else if !Get(graph, "validation").Obj? then Fail(ReceiptMissing("validation"))
    else
      var admission := Get(graph, "admission").fields;
      var artifact := Get(graph, "artifact").fields;
      var executor := Get(graph, "executor").fields;
      if Get(admission, "receipt_hash") != Str(s.admissionReceiptHash) then Fail(ReceiptMismatch("admission"))
      else if Get(admission, "task_id") !in {Null, Str(s.taskId)} ||
          Get(admission, "descriptor_hash") !in {Null, Str(s.descriptorHash)}
      then Fail(DescriptorMismatch)
      else if Get(Get(graph, "authority").fields, "receipt_hash") != Str(s.authorityReceiptHash)
          then Fail(ReceiptMismatch("authority"))
      else if Get(Get(graph, "workspace_transaction").fields, "transaction_hash") != Str(s.workspaceReceiptHash)
      then Fail(ReceiptMismatch("workspace_transaction"))
      else if Get(artifact, "receipt_hash") != Str(s.artifactReceiptHash) then Fail(ReceiptMismatch("artifact"))
      else if Get(executor, "receipt_hash") != Str(s.executorReceiptHash) then Fail(ReceiptMismatch("executor"))
      else if Get(Get(graph, "validation").fields, "receipt_hash") != Str(s.validationReceiptHash)
          then Fail(ReceiptMismatch("validation"))
      else if Get(artifact, "content_hash") != Str(s.artifactContentHash) then Fail(ContentHashMismatch)
      else if Get(executor, "content_hash") != Str(s.executorOutputHash) then Fail(OutputHashMismatch)
      else Pass
  }

  /** The expected state as `_replay_request` hands it to the replay. */
  function ReplayState(s: ExpectedState): Object {
    map[
      "expected_event_count" := Int(s.ledgerEventCount),
      "expected_ledger_chain_hash" := Str(s.ledgerHeadHash),
      "required_event_types" := StrList(s.requiredEventTypes),
      "task_id" := Str(s.taskId),
      "descriptor_hash" := Str(s.descriptorHash),
      "authority_receipt_hash" := Str(s.authorityReceiptHash),
      "workspace_transaction_receipt_hash" := Str(s.workspaceReceiptHash),
      "artifact_receipt_hash" := Str(s.artifactReceiptHash),
      "executor_receipt_hash" := Str(s.executorReceiptHash),
      "validation_receipt_hash" := Str(s.validationReceiptHash),
      "artifact_content_hash" := Str(s.artifactContentHash),
      "executor_output_hash" := Str(s.executorOutputHash)]
  }

  function EventList(events: seq<Object>): Json {
    List(seq(|events|, i requires 0 <= i < |events| => Obj(events[i])))
  }

  function ReplayRequest(r: SealRequest): Json {
    Obj(map[
      "ledger" := EventList(r.ledger),
      "expected_state" := Obj(ReplayState(r.expected)),
      "receipt_graph" := Obj(r.receiptGraph)])
  }

  lemma {:induction false} ReplayRequestFields(r: SealRequest)
    ensures var f := ReplayRequest(r).fields;
      && IsEventList(Get(f, "ledger")) && Events(Get(f, "ledger")) == r.ledger
      && Get(f, "expected_state") == Obj(ReplayState(r.expected))
      && Get(f, "receipt_graph") == Obj(r.receiptGraph)
  {
    assert Events(EventList(r.ledger)) == r.ledger;
  }

  /** The receipt that the replay generates for this request. */
  function Generated(r: SealRequest, hash: Hash): Object {
    ReplayReceipt(ReplayState(r.expected), r.ledger, hash)
  }

  /** `_replay_receipt_error`: the supplied receipt carries its own right hash, the expected hash, and
      the hash of the receipt the replay generated. */
  function ReplayReceiptCheck(r: SealRequest, generated: Object, hash: Hash): (c: StageResult)
    ensures c.Pass? <==>
      && r.replayReceipt != map[]
      && IsHash(Get(r.replayReceipt, "receipt_hash")) && Sealed(r.replayReceipt, "receipt_hash", hash)
      && Get(r.replayReceipt, "receipt_hash") == Str(r.expected.replayReceiptHash)
      && Get(generated, "receipt_hash") == Get(r.replayReceipt, "receipt_hash")
  {
    if r.replayReceipt == map[] then Fail(ReplayReceiptMissing) else
    var provided := Get(r.replayReceipt, "receipt_hash");
    if !IsHash(provided) || Str(hash(r.replayReceipt - {"receipt_hash"})) != provided then Fail(ReplayReceiptMismatch)
    else if provided != Str(r.expected.replayReceiptHash) then Fail(ReplayReceiptMismatch)
    else if Get(generated, "receipt_hash") != provided then Fail(ReplayReceiptMismatch)
    else Pass
  }

  /** The fields of the seal receipt that vary; the rest are constant flags. */
  function SealBody(s: ExpectedState, outputPath: string, observed: Json): Object {
    map[
      "schema_version" := Str("unified_local_spine_seal_receipt.v1"),
      "seal" := Str("R120_UNIFIED_LOCAL_SPINE_SEAL"),
      "action" := Str(ALLOWED_ACTION),
      "task_id" := Str(s.taskId),
      "descriptor_hash" := Str(s.descriptorHash),
      "admission_receipt_hash" := Str(s.admissionReceiptHash),
      "authority_receipt_hash" := Str(s.authorityReceiptHash),
      "workspace_transaction_receipt_hash" := Str(s.workspaceReceiptHash),
      "artifact_receipt_hash" := Str(s.artifactReceiptHash),
      "executor_receipt_hash" := Str(s.executorReceiptHash),
      "ledger_head_hash" := Str(s.ledgerHeadHash),
      "ledger_event_count" := Int(s.ledgerEventCount),
      "replay_receipt_hash" := Str(s.replayReceiptHash),
      "validation_receipt_hash" := Str(s.validationReceiptHash),
      "artifact_content_hash" := Str(s.artifactContentHash),
      "executor_output_hash" := Str(s.executorOutputHash),
      "required_event_types" := StrList(s.requiredEventTypes),
      "output_path" := Str(outputPath),
      "replay_receipt_observed" := observed,
      "final_spine_seal_hash" := Str("")]
  }

  function SealReceipt(s: ExpectedState, outputPath: string, observed: Json, hash: Hash): Object {
    Seal(SealBody(s, outputPath, observed), "final_spine_seal_hash", hash)
  }

  datatype SealResult = SealedResult(receipt: Object) | SealRefused(code: SpineCode)

  function Unless(ok: bool, code: SpineCode): StageResult {
    if ok then Pass else Fail(code)
  }

  /** The checks before the replay, in order. */
  function EarlyChecks(r: SealRequest): seq<StageResult> {
    [Unless(r.action == ALLOWED_ACTION, UnsupportedAction),
     Unless(r.taskId == r.expected.taskId && r.descriptorHash == r.expected.descriptorHash, DescriptorMismatch),
     Unless(StateOk(r.expected), ExpectedMalformed),
     PathCheck(r), ClaimCheck(r.claims), GraphCheckResult(r.receiptGraph, r.expected)]
  }

  predicate AllPass(checks: seq<StageResult>) {
    forall i :: 0 <= i < |checks| ==> checks[i].Pass?
  }

  /** The replay accepts, and the supplied replay receipt is the one it generates. */
  ghost predicate ReplayAgrees(r: SealRequest, hash: Hash) {
    && RequestConsistent(ReplayRequest(r), hash)
    && ReplayReceiptCheck(r, Generated(r, hash), hash).Pass?
  }

  /** What a request must satisfy to be sealed. */
  ghost predicate Sealable(r: SealRequest, hash: Hash) {
    AllPass(EarlyChecks(r)) && ReplayAgrees(r, hash)
  }

  /** Check `i` fails with this code and all checks before it pass. */
  predicate FailsFirstAt(checks: seq<StageResult>, i: nat, code: SpineCode) {
    i < |checks| && checks[i] == Fail(code) && forall j :: 0 <= j < i ==> checks[j].Pass?
  }

  /** The first check that fails decides. */
  method FirstFailure(checks: seq<StageResult>) returns (c: StageResult)
    ensures c.Pass? <==> AllPass(checks)
    ensures c.Fail? ==> exists i :: FailsFirstAt(checks, i, c.code)
  {
    for i := 0 to |checks|
      invariant forall j :: 0 <= j < i ==> checks[j].Pass?
    {
      if checks[i].Fail? {
        assert FailsFirstAt(checks, i, checks[i].code);
        return checks[i];
      }
    }
    c := Pass;
  }

  /** `REPLAY_TO_SPINE_REJECTION`, with its default. */
  function SpineRejection(code: ReplayCode): SpineCode {
    match code
    case LedgerHeadMismatch => SpineLedgerHeadMismatch
    case EventCountMismatch => SpineEventCountMismatch
    case RequiredEventMissing => SpineRequiredEventMissing
    case DescriptorHashMismatch => DescriptorMismatch
    case AuthorityReceiptMismatch => ReceiptMismatch("authority")
    case WorkspaceReceiptMismatch => ReceiptMismatch("workspace_transaction")
    case ArtifactReceiptMismatch => ReceiptMismatch("artifact")
    case ExecutorReceiptMismatch => ReceiptMismatch("executor")
    case ValidationReceiptMismatch => ReceiptMismatch("validation")
    case ArtifactContentHashMismatch => ContentHashMismatch
    case ExecutorOutputHashMismatch => OutputHashMismatch
    case _ => SpineLedgerInvalid
  }

  /** `_replay_error`: a wrong event count decides, otherwise the first code. */
  function ReplayRefusal(codes: seq<ReplayCode>): SpineCode {
    if EventCountMismatch in codes then SpineEventCountMismatch
    else if codes != [] then SpineRejection(codes[0])
    else SpineLedgerInvalid
  }

  lemma {:induction false} RefusalIgnoresRepeats(codes: seq<ReplayCode>)
    ensures ReplayRefusal(FirstSeen(codes)) == ReplayRefusal(codes)
  {
    if codes != [] {
      FirstSeenHead(codes);
    }
  }

  /** The code of a refusal after the early checks: the replay's, or that of the receipt comparison. */
  ghost predicate LateRefusal(r: SealRequest, hash: Hash, code: SpineCode) {
    if !RequestConsistent(ReplayRequest(r), hash) then code == ReplayRefusal(RequestCodes(ReplayRequest(r), hash))
    else ReplayReceiptCheck(r, Generated(r, hash), hash) == Fail(code)
  }

  /** `seal_unified_local_spine`, for a request in its dataclass form. A refusal carries the code of the
      first check that fails. */
  method SealUnifiedLocalSpine(r: SealRequest, hash: Hash) returns (result: SealResult)
    ensures result.SealedResult? <==> Sealable(r, hash)
    ensures result.SealRefused? ==>
      if AllPass(EarlyChecks(r)) then LateRefusal(r, hash, result.code)
      else exists i :: FailsFirstAt(EarlyChecks(r), i, result.code)
    ensures result.SealedResult? ==>
      result.receipt == SealReceipt(r.expected, r.outputPath, Str(r.expected.replayReceiptHash), hash)
  {
    var early := FirstFailure(EarlyChecks(r));
    if early.Fail? {
      return SealRefused(early.code);
    }
    result := SealReplayed(r, hash);
  }

  /** The replay and the receipt comparison. */
  method SealReplayed(r: SealRequest, hash: Hash) returns (result: SealResult)
    ensures result.SealedResult? <==> ReplayAgrees(r, hash)
    ensures result.SealRefused? ==> LateRefusal(r, hash, result.code)
    ensures result.SealedResult? ==>
      result.receipt == SealReceipt(r.expected, r.outputPath, Str(r.expected.replayReceiptHash), hash)
  {
    ReplayRequestFields(r);
    var replayed := ReplayLedgerChain(ReplayRequest(r), hash);
    if replayed.ReplayRejected? {
      RefusalIgnoresRepeats(RequestCodes(ReplayRequest(r), hash));
      return SealRefused(ReplayRefusal(replayed.codes));
    }
    var receiptCheck := ReplayReceiptCheck(r, replayed.receipt, hash);
    if receiptCheck.Fail? {
      return SealRefused(receiptCheck.code);
    }
    result := SealedResult(SealReceipt(r.expected, r.outputPath, Get(replayed.receipt, "receipt_hash"), hash));
  }

  // ---------------------------------------------------------------- what a refusal says of the ledger

  /** After the early checks the replay finds the request well formed. */
  lemma {:induction false} ReplayRequestIsWellFormed(r: SealRequest)
    requires AllPass(EarlyChecks(r))
    ensures RequestOk(ReplayRequest(r).fields)
  {
    ReplayRequestFields(r);
    EarlyChecksPassed(r);
    PresentNodesAreOk(r.receiptGraph);
    ReplayStateIsWellFormed(r.expected);
    NothingForbiddenAsked(ReplayRequest(r).fields);
  }

  lemma {:induction false} EarlyChecksPassed(r: SealRequest)
    requires AllPass(EarlyChecks(r))
    ensures StateOk(r.expected) && NodesPresent(r.receiptGraph)
  {
    var checks := EarlyChecks(r);
    assert checks[2].Pass? && checks[5].Pass?;
  }

  lemma {:induction false} NothingForbiddenAsked(request: Object)
    requires request.Keys == {"ledger", "expected_state", "receipt_graph"}
    ensures request.Keys !! FORBIDDEN_REQUEST_FIELDS
  {
    assert "ledger" !in FORBIDDEN_REQUEST_FIELDS;
    assert "expected_state" !in FORBIDDEN_REQUEST_FIELDS;
    assert "receipt_graph" !in FORBIDDEN_REQUEST_FIELDS;
  }

  lemma {:induction false} PresentNodesAreOk(g: Object)
    requires NodesPresent(g)
    ensures GraphOk(g)
  {
    assert g.Keys >= GRAPH_NODES && forall k :: k in GRAPH_NODES ==> Get(g, k).Obj? by {
      assert Get(g, NODES[1]).Obj? && Get(g, NODES[2]).Obj? && Get(g, NODES[3]).Obj?;
      assert Get(g, NODES[4]).Obj? && Get(g, NODES[5]).Obj?;
    }
  }

  lemma {:induction false} ReplayStateIsWellFormed(s: ExpectedState)
    requires StateOk(s)
    ensures ExpectedStateOk(ReplayState(s))
  {
  }

  /** The comparisons of events and graph have codes of their own. */
  lemma {:induction false} ComparisonCodes(ledger: seq<Object>, expected: Object, graph: Object, code: ReplayCode)
    requires SomeEventFault(ledger, expected, code) || GraphFault(graph, expected, code)
    ensures SpineRejection(code) !in {SpineLedgerHeadMismatch, SpineEventCountMismatch, SpineRequiredEventMissing}
  {
  }

  /** Without an expected terminal hash, what a refusal of this evidence says of the ledger. */
  lemma {:induction false} EvidenceRefusalsMean(ledger: seq<Object>, expected: Object, graph: Object, hash: Hash,
                                                asked: Expectations)
    requires ExpectedStateOk(expected) && ChainExpectations(expected) == asked
    requires asked.count.Some? && asked.chainHash.Some? && asked.terminal.None?
    requires !Consistent(ledger, expected, graph, hash)
    ensures LedgerRefusal(ReplayRefusal(EvidenceCodes(ledger, expected, graph, hash)), |ledger| == asked.count.value,
                          ValidChain(ledger, hash), ChainHash(ledger, hash) == asked.chainHash.value,
                          !AnyTypeMissing(ledger, expected))
  {
    var codes := EvidenceCodes(ledger, expected, graph, hash);
    NoCodesIffConsistent(ledger, expected, graph, hash);
    EvidenceCodesMean(ledger, expected, graph, hash, EventCountMismatch);
    EvidenceCodesMean(ledger, expected, graph, hash, codes[0]);
    RequiredMeans(ledger, expected);
    if !ValidChain(ledger, hash) {
      BrokenChainFirst(ledger, asked, hash);
    } else if Meets(ledger, asked, hash) && !AnyTypeMissing(ledger, expected) {
      ComparisonCodes(ledger, expected, graph, codes[0]);
      if EventCountMismatch in codes {
        ComparisonCodes(ledger, expected, graph, EventCountMismatch);
      }
    }
  }

  /** The count differs; or it agrees, and the chain is broken; or that is sound, and its hash differs; or
      that too agrees, and a required event is missing. */
  predicate LedgerRefusal(code: SpineCode, counted: bool, valid: bool, headed: bool, complete: bool) {
    && (code == SpineEventCountMismatch <==> !counted)
    && (counted && !valid ==> code == SpineLedgerInvalid)
    && (code == SpineLedgerHeadMismatch <==> counted && valid && !headed)
    && (code == SpineRequiredEventMissing <==> counted && valid && headed && !complete)
  }

  /** Every one of these types is the type of some event. */
  predicate TypesOccur(ledger: seq<Object>, types: seq<string>) {
    forall t :: t in types ==> exists i :: 0 <= i < |ledger| && Get(ledger[i], "event_type") == Str(t)
  }

  lemma {:induction false} TypesOccurIffNoneMissing(ledger: seq<Object>, s: ExpectedState)
    ensures TypesOccur(ledger, s.requiredEventTypes) <==> !AnyTypeMissing(ledger, ReplayState(s))
  {
    var types, items := s.requiredEventTypes, StrList(s.requiredEventTypes).items;
    assert Get(ReplayState(s), "required_event_types") == StrList(types);
    if TypesOccur(ledger, types) {
      forall t ensures !TypeMissing(ledger, ReplayState(s), t) {
        if t in items {
          var k :| 0 <= k < |items| && items[k] == t;
          assert types[k] in types;
        }
      }
    }
    if !AnyTypeMissing(ledger, ReplayState(s)) {
      forall t | t in types ensures exists i :: 0 <= i < |ledger| && Get(ledger[i], "event_type") == Str(t) {
        var k :| 0 <= k < |types| && types[k] == t;
        assert items[k] == Str(t);
        assert !TypeMissing(ledger, ReplayState(s), Str(t));
      }
    }
  }

  /** What a refusal by the replay says of the ledger. */
  lemma {:induction false} LedgerRefusalsMean(r: SealRequest, hash: Hash)
    requires AllPass(EarlyChecks(r)) && !RequestConsistent(ReplayRequest(r), hash)
    ensures LedgerRefusal(ReplayRefusal(RequestCodes(ReplayRequest(r), hash)),
                          |r.ledger| == r.expected.ledgerEventCount, ValidChain(r.ledger, hash),
                            ChainHash(r.ledger, hash) == r.expected.ledgerHeadHash,
                          TypesOccur(r.ledger, r.expected.requiredEventTypes))
  {
    ReplayRequestFields(r);
    ReplayRequestIsWellFormed(r);
    ReplayStateExpectations(r.expected);
    var asked := Expectations(Some(r.expected.ledgerEventCount), Some(r.expected.ledgerHeadHash), None);
    EvidenceRefusalsMean(r.ledger, ReplayState(r.expected), r.receiptGraph, hash, asked);
    TypesOccurIffNoneMissing(r.ledger, r.expected);
  }

  // ---------------------------------------------------------------- what the checks amount to

  /** Pairs of letters, one of which each forbidden token holds. */
  const TELLTALE_PAIRS: set<(char, char)> := {('P', 'R'), ('M', 'O'), ('M', '_'), ('X', 'P')}

  /** In no allowed claim does any of them occur. */
  lemma {:induction false} AllowedClaimsLackPairs(claim: string, a: char, b: char)
    requires claim in ALLOWED_CLAIMS && (a, b) in TELLTALE_PAIRS
    ensures LacksPair(claim, a, b)
  {
    LacksPairAcross("R120_UNIFIED_LOCAL_SPINE_SEAL_", "WORKTREE_LOCAL_VALIDATION_PASS", a, b);
    LacksPairAcross("FOR_WRITE_TEXT_ARTIFACT_", "ONLY_LOCAL_VALIDATION_PASS", a, b);
    LacksPairAcross("BOUNDED_LOCAL_RUNTIME_CAPABILITY_",
                    "FOR_WRITE_TEXT_ARTIFACT_" + "ONLY_LOCAL_VALIDATION_PASS", a, b);
  }

  /** Every forbidden token holds one of them. */
  lemma {:induction false} TokensHavePairs(k: nat) returns (j: nat)
    requires k < |FORBIDDEN_CLAIM_TOKENS|
    ensures var token := FORBIDDEN_CLAIM_TOKENS[k]; j + 1 < |token| && (token[j], token[j + 1]) in TELLTALE_PAIRS
  {
    j := [2, 23, 28, 15, 15, 18, 0, 13, 21, 4, 15, 8][k];
  }

  lemma {:induction false} AllowedClaimsHaveNoToken(claim: string)
    requires claim in ALLOWED_CLAIMS
    ensures !HasForbiddenToken(claim)
  {
    forall k | 0 <= k < |FORBIDDEN_CLAIM_TOKENS| ensures !Contains(claim, FORBIDDEN_CLAIM_TOKENS[k]) {
      var token := FORBIDDEN_CLAIM_TOKENS[k];
      var j := TokensHavePairs(k);
      AllowedClaimsLackPairs(claim, token[j], token[j + 1]);
      LacksTwoLetters(claim, token, j);
    }
  }

  /** The token test never decides: no allowed claim holds a forbidden token. */
  lemma {:induction false} MembershipDecidesClaims(claims: seq<string>)
    ensures ClaimCheck(claims).Pass? <==> forall i :: 0 <= i < |claims| ==> claims[i] in ALLOWED_CLAIMS
  {
    if claims != [] {
      if claims[0] in ALLOWED_CLAIMS {
        AllowedClaimsHaveNoToken(claims[0]);
      }
      MembershipDecidesClaims(claims[1..]);
      assert claims == [claims[0]] + claims[1..];
    }
  }

  /** The hash tells the supplied replay receipt apart from the generated one. */
  predicate TellsReceiptApart(r: SealRequest, hash: Hash) {
    TellsApart(hash, r.replayReceipt - {"receipt_hash"}, Generated(r, hash) - {"receipt_hash"})
  }

  /** A supplied replay receipt passes exactly when it is the receipt the replay generates and the
      expected state, which the early checks found well formed, names its hash. */
  lemma {:induction false} ReceiptPassesIffGenerated(r: SealRequest, hash: Hash)
    requires TellsReceiptApart(r, hash) && StateOk(r.expected)
    ensures ReplayReceiptCheck(r, Generated(r, hash), hash).Pass? <==>
      r.replayReceipt == Generated(r, hash) && Get(r.replayReceipt, "receipt_hash") == Str(r.expected.replayReceiptHash)
  {
    var body := ReceiptBody(ReplayState(r.expected), |r.ledger|, ChainHash(r.ledger, hash), TailHash(r.ledger, OWN));
    var generated := Generated(r, hash);
    SealIsSealed(body, "receipt_hash", hash);
    assert generated != map[];
    if ReplayReceiptCheck(r, generated, hash).Pass? {
      SealedEntriesEqual(r.replayReceipt, generated, "receipt_hash", hash);
    }
  }

  // ---------------------------------------------------------------- what a seal pins

  lemma {:induction false} ReplayStateExpectations(s: ExpectedState)
    requires ExpectedStateOk(ReplayState(s))
    ensures ChainExpectations(ReplayState(s)) ==
      Expectations(Some(s.ledgerEventCount), Some(s.ledgerHeadHash), None)
  {
    var e := ReplayState(s);
    assert e["expected_event_count"] == Int(s.ledgerEventCount);
    assert e["expected_ledger_chain_hash"] == Str(s.ledgerHeadHash);
    assert "expected_terminal_event_hash" !in e;
  }

  /** A sealable request's ledger is a valid chain whose chain hash is the expected ledger head. */
  lemma {:induction false} SealedLedgerIsExpected(r: SealRequest, hash: Hash)
    requires Sealable(r, hash)
    ensures ValidChain(r.ledger, hash)
    ensures ChainHash(r.ledger, hash) == r.expected.ledgerHeadHash
    ensures |r.ledger| == r.expected.ledgerEventCount
  {
    ReplayRequestFields(r);
    ReplayStateExpectations(r.expected);
  }

  /** The replay receipt a sealable request supplies is the one the replay regenerates. */
  lemma {:induction false} SuppliedReplayReceiptIsGenerated(r: SealRequest, hash: Hash)
    requires TellsReceiptApart(r, hash) && Sealable(r, hash)
    ensures r.replayReceipt == Generated(r, hash)
  {
    EarlyChecksPassed(r);
    ReceiptPassesIffGenerated(r, hash);
  }

  /** The hash tells the evidence of the two requests apart. */
  ghost predicate TellsEvidenceApart(a: SealRequest, b: SealRequest, hash: Hash) {
    TellsLedgersApart(a.ledger, b.ledger, hash) && TellsReceiptApart(a, hash) && TellsReceiptApart(b, hash)
  }

  /** Two accepted seal requests with the same expected state have the same ledger and the same replay
      receipt, and with the same output path they are given the same seal receipt. */
  lemma {:induction false} SealPinsEvidence(a: SealRequest, b: SealRequest, hash: Hash)
    requires TellsEvidenceApart(a, b, hash) && Sealable(a, hash) && Sealable(b, hash)
    requires a.expected == b.expected
    ensures a.ledger == b.ledger && a.replayReceipt == b.replayReceipt
    ensures a.outputPath == b.outputPath ==>
      SealReceipt(a.expected, a.outputPath, Get(a.replayReceipt, "receipt_hash"), hash)
      == SealReceipt(b.expected, b.outputPath, Get(b.replayReceipt, "receipt_hash"), hash)
  {
    SealedLedgerIsExpected(a, hash);
    SealedLedgerIsExpected(b, hash);
    ChainHashPinsLedger(a.ledger, b.ledger, hash);
    SuppliedReplayReceiptIsGenerated(a, hash);
    SuppliedReplayReceiptIsGenerated(b, hash);
  }

  /** What the seal hash of an accepted request is made of. */
  function SealedPart(r: SealRequest): Object {
    SealBody(r.expected, r.outputPath, Str(r.expected.replayReceiptHash)) - {"final_spine_seal_hash"}
  }

  /** Conversely the seal hash pins the expected state and the output path, and so the evidence. */
  lemma {:induction false} SealHashPinsEverything(a: SealRequest, b: SealRequest, hash: Hash)
    requires Sealable(a, hash) && Sealable(b, hash)
    requires TellsEvidenceApart(a, b, hash) && TellsApart(hash, SealedPart(a), SealedPart(b))
    requires
      Get(SealReceipt(a.expected, a.outputPath, Str(a.expected.replayReceiptHash), hash), "final_spine_seal_hash")
      == Get(SealReceipt(b.expected, b.outputPath, Str(b.expected.replayReceiptHash), hash), "final_spine_seal_hash")
    ensures a.expected == b.expected && a.outputPath == b.outputPath
    ensures a.ledger == b.ledger && a.replayReceipt == b.replayReceipt
  {
    SealIsSealed(SealBody(a.expected, a.outputPath, Str(a.expected.replayReceiptHash)), "final_spine_seal_hash", hash);
    SealIsSealed(SealBody(b.expected, b.outputPath, Str(b.expected.replayReceiptHash)), "final_spine_seal_hash", hash);
    assert SealedPart(a) == SealedPart(b);
    SealBodyInjective(a.expected, a.outputPath, b.expected, b.outputPath);
    SealPinsEvidence(a, b, hash);
  }

  lemma {:induction false} SealBodyInjective(s: ExpectedState, p: string, t: ExpectedState, q: string)
    requires SealBody(s, p, Str(s.replayReceiptHash)) - {"final_spine_seal_hash"}
      == SealBody(t, q, Str(t.replayReceiptHash)) - {"final_spine_seal_hash"}
    ensures s == t && p == q
  {
    EqualBut(SealBody(s, p, Str(s.replayReceiptHash)), SealBody(t, q, Str(t.replayReceiptHash)),
             "final_spine_seal_hash");
    SealReceiptHashes(s, p);
    SealReceiptHashes(t, q);
    SealOtherFields(s, p);
    SealOtherFields(t, q);
    StrListInjective(s.requiredEventTypes, t.requiredEventTypes);
  }

  lemma {:induction false} EqualBut(a: Object, b: Object, key: string)
    requires a - {key} == b - {key}
    ensures forall k :: k != key ==> Get(a, k) == Get(b, k)
  {
    forall k | k != key ensures Get(a, k) == Get(b, k) {
      assert Get(a - {key}, k) == Get(a, k) && Get(b - {key}, k) == Get(b, k);
    }
  }

  /** Each varying field of the seal receipt comes from one field of the expected state, or is the path. */
  lemma {:induction false} SealReceiptHashes(s: ExpectedState, p: string)
    ensures var o := SealBody(s, p, Str(s.replayReceiptHash));
      && Get(o, "admission_receipt_hash") == Str(s.admissionReceiptHash)
      && Get(o, "authority_receipt_hash") == Str(s.authorityReceiptHash)
      && Get(o, "workspace_transaction_receipt_hash") == Str(s.workspaceReceiptHash)
      && Get(o, "artifact_receipt_hash") == Str(s.artifactReceiptHash)
      && Get(o, "executor_receipt_hash") == Str(s.executorReceiptHash)
      && Get(o, "replay_receipt_hash") == Str(s.replayReceiptHash)
      && Get(o, "validation_receipt_hash") == Str(s.validationReceiptHash)
  {
  }

  lemma {:induction false} SealKind(s: ExpectedState, p: string, observed: Json)
    ensures var o := SealBody(s, p, observed);
      && Get(o, "schema_version") == Str("unified_local_spine_seal_receipt.v1")
      && Get(o, "seal") == Str("R120_UNIFIED_LOCAL_SPINE_SEAL")
      && Get(o, "replay_receipt_observed") == observed
  {
  }

  lemma {:induction false} SealOtherFields(s: ExpectedState, p: string)
    ensures var o := SealBody(s, p, Str(s.replayReceiptHash));
      && Get(o, "task_id") == Str(s.taskId) && Get(o, "descriptor_hash") == Str(s.descriptorHash)
      && Get(o, "ledger_head_hash") == Str(s.ledgerHeadHash) && Get(o, "ledger_event_count") == Int(s.ledgerEventCount)
      && Get(o, "artifact_content_hash") == Str(s.artifactContentHash)
      && Get(o, "executor_output_hash") == Str(s.executorOutputHash)
      && Get(o, "required_event_types") == StrList(s.requiredEventTypes)
      && Get(o, "output_path") == Str(p)
  {
  }

  lemma {:induction false} StrListInjective(xs: seq<string>, ys: seq<string>)
    requires StrList(xs) == StrList(ys)
    ensures xs == ys
  {
    assert |StrList(xs).items| == |StrList(ys).items|;
    forall i | 0 <= i < |xs| ensures xs[i] == ys[i] {
      assert StrList(xs).items[i] == StrList(ys).items[i];
    }
  }
}
