/** That requests can be sealed: every ledger grown by appends, whose events agree with an expected state,
    has a request that passes all checks of the seal. */
module SealableRequests {
  import opened Json
  import opened HashChain
  import opened Ledger
  import opened LedgerHistory
  import opened Replay
  import opened Spine
  import Paths

  // ---------------------------------------------------------------- the request for a ledger

  /** The receipts of a graph that agrees with the expected state. */
  function GraphFor(s: ExpectedState): Object {
    map[
      "admission" := Obj(map["receipt_hash" := Str(s.admissionReceiptHash)]),
      "authority" := Obj(map["receipt_hash" := Str(s.authorityReceiptHash)]),
      "workspace_transaction" := Obj(map["transaction_hash" := Str(s.workspaceReceiptHash)]),
      "artifact" := Obj(map["receipt_hash" := Str(s.artifactReceiptHash),
                            "content_hash" := Str(s.artifactContentHash)]),
      "executor" := Obj(map["receipt_hash" := Str(s.executorReceiptHash), "content_hash" := Str(s.executorOutputHash)]),
      "validation" := Obj(map["receipt_hash" := Str(s.validationReceiptHash)])]
  }

  /** The state that names this ledger: its length, its chain hash and the hash of its replay receipt. */
  function Naming(s: ExpectedState, ledger: seq<Object>, hash: Hash): ExpectedState {
    var named := s.(ledgerEventCount := |ledger|, ledgerHeadHash := ChainHash(ledger, hash));
    named.(replayReceiptHash := hash(ReceiptPart(named, ledger, hash)))
  }

  /** What the hash of the replay receipt is made of. */
  function ReceiptPart(s: ExpectedState, ledger: seq<Object>, hash: Hash): Object {
    ReceiptBody(ReplayState(s), |ledger|, ChainHash(ledger, hash), TailHash(ledger, OWN)) - {"receipt_hash"}
  }

  function RequestFor(s: ExpectedState, ledger: seq<Object>, outputPath: string, roots: seq<string>,
                      hash: Hash): SealRequest {
    var named := Naming(s, ledger, hash);
    SealRequest(ALLOWED_ACTION, s.taskId, s.descriptorHash, outputPath, roots, [], ledger, GraphFor(named),
                ReplayReceipt(ReplayState(named), ledger, hash), named, [])
  }

  // ---------------------------------------------------------------- its checks pass

  lemma {:induction false} GraphPasses(s: ExpectedState)
    ensures GraphCheckResult(GraphFor(s), s).Pass?
  {
  }

  lemma {:induction false} EarlyChecksPass(r: SealRequest)
    requires r.action == ALLOWED_ACTION && r.taskId == r.expected.taskId &&
      r.descriptorHash == r.expected.descriptorHash
    requires StateOk(r.expected) && PathCheck(r).Pass? && r.claims == [] && r.receiptGraph == GraphFor(r.expected)
    ensures AllPass(EarlyChecks(r))
  {
    GraphPasses(r.expected);
    AllSixPass(EarlyChecks(r));
  }

  lemma {:induction false} AllSixPass(checks: seq<StageResult>)
    requires checks == [Pass, Pass, Pass, Pass, Pass, Pass]
    ensures AllPass(checks)
  {
  }

  lemma {:induction false} NamingKeepsShape(s: ExpectedState, ledger: seq<Object>, hash: Hash)
    requires HashShaped(hash) && StateOk(s)
    ensures StateOk(Naming(s, ledger, hash))
  {
    assert IsHash(Str(hash(ChainBody(ledger))));
    var named := s.(ledgerEventCount := |ledger|, ledgerHeadHash := ChainHash(ledger, hash));
    assert IsHash(Str(hash(ReceiptPart(named, ledger, hash))));
  }

  lemma {:induction false} GraphAgrees(s: ExpectedState)
    ensures GraphBound(GraphFor(s), ReplayState(s))
  {
    forall c | 0 <= c < |GRAPH_FIELDS| ensures CheckHolds(GRAPH_FIELDS[c], GraphFor(s), ReplayState(s)) {
      if c < 10 { FirstGraphFields(s, c); } else { LastGraphFields(s, c); }
    }
  }

  lemma {:induction false} FirstGraphFields(s: ExpectedState, c: nat)
    requires c < 10
    ensures CheckHolds(GRAPH_FIELDS[c], GraphFor(s), ReplayState(s))
  {
  }

  lemma {:induction false} LastGraphFields(s: ExpectedState, c: nat)
    requires 10 <= c < |GRAPH_FIELDS|
    ensures CheckHolds(GRAPH_FIELDS[c], GraphFor(s), ReplayState(s))
  {
  }

  /** The generated receipt is the supplied one and carries its own hash. */
  lemma {:induction false} ReceiptPasses(s: ExpectedState, ledger: seq<Object>, outputPath: string,
                                         roots: seq<string>, hash: Hash)
    requires HashShaped(hash)
    ensures var r := RequestFor(s, ledger, outputPath, roots, hash);
      ReplayReceiptCheck(r, Generated(r, hash), hash).Pass?
  {
    var r := RequestFor(s, ledger, outputPath, roots, hash);
    var named := r.expected;
    var body := ReceiptBody(ReplayState(named), |ledger|, ChainHash(ledger, hash), TailHash(ledger, OWN));
    SealIsSealed(body, "receipt_hash", hash);
    assert IsHash(Str(hash(ReceiptPart(named, ledger, hash))));
    assert ReplayState(named) == ReplayState(named.(replayReceiptHash := s.replayReceiptHash));
    assert Generated(r, hash) != map[];
  }

  // ---------------------------------------------------------------- sealable

  /** The events of the ledger agree with the state, and the types it asks for occur. */
  ghost predicate Agrees(ledger: seq<Object>, s: ExpectedState) {
    && (forall i :: 0 <= i < |ledger| ==> EventBound(ledger[i], ReplayState(s)))
    && TypesOccur(ledger, s.requiredEventTypes)
  }

  lemma {:induction false} ConsistentWhenAgreeing(r: SealRequest, hash: Hash)
    requires AllPass(EarlyChecks(r)) && ValidChain(r.ledger, hash) && Agrees(r.ledger, r.expected)
    requires r.expected.ledgerEventCount == |r.ledger| && r.expected.ledgerHeadHash == ChainHash(r.ledger, hash)
    requires GraphBound(r.receiptGraph, ReplayState(r.expected))
    ensures RequestConsistent(ReplayRequest(r), hash)
  {
    ReplayRequestIsWellFormed(r);
    ReplayRequestFields(r);
    ReplayStateExpectations(r.expected);
    TypesOccurIffNoneMissing(r.ledger, r.expected);
    RequiredMeans(r.ledger, ReplayState(r.expected));
  }

  lemma {:induction false} RequestPasses(s: ExpectedState, ledger: seq<Object>, outputPath: string,
                                         roots: seq<string>, hash: Hash)
    requires HashShaped(hash) && StateOk(s) && Paths.PathClear(outputPath, {}, roots)
    ensures AllPass(EarlyChecks(RequestFor(s, ledger, outputPath, roots, hash)))
  {
    var r := RequestFor(s, ledger, outputPath, roots, hash);
    NamingKeepsShape(s, ledger, hash);
    assert Paths.NormalizedSet([]) == {};
    EarlyChecksPass(r);
  }

  /** Whatever was appended to a ledger that began empty: if its events agree with a well-formed state, then
      the state that names this ledger has a request that is sealed. */
  lemma {:induction false} GrownLedgerIsSealable(inputs: seq<Object>, s: ExpectedState, outputPath: string,
                                                 roots: seq<string>, hash: Hash)
    requires HashShaped(hash) && StateOk(s) && Paths.PathClear(outputPath, {}, roots)
    requires var ledger := Run([], inputs, hash); Agrees(ledger, Naming(s, ledger, hash))
    ensures Sealable(RequestFor(s, Run([], inputs, hash), outputPath, roots, hash), hash)
  {
    var ledger := Run([], inputs, hash);
    var r := RequestFor(s, ledger, outputPath, roots, hash);
    EveryRun([], inputs, hash);
    RequestPasses(s, ledger, outputPath, roots, hash);
    GraphAgrees(r.expected);
    ConsistentWhenAgreeing(r, hash);
    ReceiptPasses(s, ledger, outputPath, roots, hash);
  }

  // ---------------------------------------------------------------- one of them

  const DIGEST: string := "sha256:" + "0000000000000000000000000000000000000000000000000000000000000000"

  /** A hash of the right shape. It tells nothing apart that differs, which the existence of a sealable
      request does not need. */
  function Constant(o: Object): string { DIGEST }

  function FirstEvent(): Object {
    map[
      "schema_version" := Str("ledger_event.v1"), "event_id" := Str("e"), "event_type" := Str("task_admitted"),
      PREVIOUS := Str(GENESIS), "task_id" := Str("t"), "descriptor_hash" := Str(DIGEST),
      "authority_receipt_hash" := Str(DIGEST)]
  }

  function FirstState(): ExpectedState {
    ExpectedState("t", DIGEST, DIGEST, DIGEST, DIGEST, DIGEST, DIGEST, DIGEST, 0, DIGEST, DIGEST, DIGEST, DIGEST,
                  ["task_admitted"])
  }

  lemma {:induction false} FirstEventAppended()
    ensures Run([], [FirstEvent()], Constant) == [Seal(FirstEvent(), OWN, Constant)]
  {
    var event := FirstEvent();
    assert WellFormedEvent(event);
    assert Append([], event, Constant).Appended?;
    assert [event][1..] == [];
    assert [] + [Seal(event, OWN, Constant)] == [Seal(event, OWN, Constant)];
  }

  lemma {:induction false} FirstEventBound(event: Object, s: ExpectedState)
    requires event == Seal(FirstEvent(), OWN, Constant)
    requires s.taskId == "t" && s.descriptorHash == DIGEST && s.authorityReceiptHash == DIGEST
    ensures EventBound(event, ReplayState(s)) && Get(event, "event_type") == Str("task_admitted")
  {
  }

  lemma {:induction false} FirstEventAgrees(ledger: seq<Object>, s: ExpectedState)
    requires ledger == [Seal(FirstEvent(), OWN, Constant)]
    requires s.taskId == "t" && s.descriptorHash == DIGEST && s.authorityReceiptHash == DIGEST
    requires s.requiredEventTypes == ["task_admitted"]
    ensures Agrees(ledger, s)
  {
    FirstEventBound(ledger[0], s);
    assert ReplayState(s)["required_event_types"] == List([Str("task_admitted")]);
  }

  lemma {:induction false} FirstStateOk()
    ensures StateOk(FirstState())
  {
  }

  lemma {:induction false} PathIsClear()
    ensures Paths.PathClear("a", {}, ["a"])
  {
    Paths.SplitComponent("a", "");
    assert "a" + "" == "a";
    assert Paths.PathWithinRoot("a", ["a"][0]);
  }

  /** A ledger of one event has a sealable request. */
  lemma {:induction false} OneEventIsSealable()
    ensures Sealable(RequestFor(FirstState(), Run([], [FirstEvent()], Constant), "a", ["a"], Constant), Constant)
  {
    FirstEventAppended();
    var ledger := Run([], [FirstEvent()], Constant);
    FirstEventAgrees(ledger, Naming(FirstState(), ledger, Constant));
    FirstStateOk();
    PathIsClear();
    GrownLedgerIsSealable([FirstEvent()], FirstState(), "a", ["a"], Constant);
  }
}
