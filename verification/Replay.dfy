/** Read-only replay of a ledger against an expected state (runtime_lab/replay/__init__.py). */
module Replay {
  import opened Wrappers
  import opened Json
  import opened Checks
  import opened Dedupe
  import opened HashChain
  import opened Ledger

  datatype ReplayCode =
    | InputMalformed | ExpectedStateMalformed | ReplayForbiddenField | LedgerInvalid | LedgerHeadMismatch
    | EventCountMismatch | RequiredEventMissing | TaskBindingMismatch | DescriptorHashMismatch
    | AuthorityReceiptMismatch | WorkspaceReceiptMismatch | ArtifactReceiptMismatch | ExecutorReceiptMismatch
    | ValidationReceiptMismatch | ArtifactContentHashMismatch | ExecutorOutputHashMismatch

  const FORBIDDEN_REQUEST_FIELDS: set<string> := {
    "shell_command", "subprocess", "command", "tool_call", "tool_invocation", "llm_call", "llm_invocation",
    "network_endpoint", "http_request", "socket", "executor_dispatch", "workspace_mutation",
    "artifact_mutation", "ledger_mutation", "r120_seal"}

  const EXPECTED_HASH_FIELDS: set<string> := {
    "expected_ledger_chain_hash", "expected_terminal_event_hash", "descriptor_hash", "authority_receipt_hash",
    "workspace_transaction_receipt_hash", "artifact_receipt_hash", "executor_receipt_hash",
    "validation_receipt_hash", "artifact_content_hash", "executor_output_hash"}

  const GRAPH_NODES: set<string> := {"authority", "workspace_transaction", "artifact", "executor", "validation"}

  /** `_expected_state`: the fields that are present have the right type. */
  predicate ExpectedStateOk(e: Object) {
    && ("expected_event_count" in e ==> IsInteger(e["expected_event_count"]))
    && (forall f :: f in EXPECTED_HASH_FIELDS && f in e ==> IsHash(e[f]))
    && ("required_event_types" in e ==>
      e["required_event_types"].List? && forall i :: 0 <= i < |e["required_event_types"].items| ==>
        e["required_event_types"].items[i].Str?)
    && ("task_id" in e ==> NonEmptyString(e["task_id"]))
  }

  /** `_receipt_graph`: the known nodes that are present are objects. */
  predicate GraphOk(g: Object) {
    forall k :: k in GRAPH_NODES && k in g ==> g[k].Obj?
  }

  function Node(g: Object, key: string): Object {
    if key in g && g[key].Obj? then g[key].fields else map[]
  }

  /** What the replay asks of the ledger chain. */
  function ChainExpectations(e: Object): Expectations
    requires ExpectedStateOk(e)
  {
    Expectations(
      if "expected_event_count" in e then Some(IntegerValue(e["expected_event_count"])) else None,
      if "expected_ledger_chain_hash" in e then
        (assert IsHash(e["expected_ledger_chain_hash"]); Some(e["expected_ledger_chain_hash"].s)) else None,
      if "expected_terminal_event_hash" in e then
        (assert IsHash(e["expected_terminal_event_hash"]); Some(e["expected_terminal_event_hash"].s)) else None)
  }

  // ---------------------------------------------------------------- events and graph

  /** The fields an event shares with the expected state, each with the code of its mismatch. */
  const BINDINGS: seq<(string, ReplayCode)> := [
    ("task_id", TaskBindingMismatch),
    ("descriptor_hash", DescriptorHashMismatch),
    ("authority_receipt_hash", AuthorityReceiptMismatch),
    ("workspace_transaction_receipt_hash", WorkspaceReceiptMismatch),
    ("artifact_receipt_hash", ArtifactReceiptMismatch),
    ("executor_receipt_hash", ExecutorReceiptMismatch),
    ("validation_receipt_hash", ValidationReceiptMismatch)]

  /** A field the event has, and the expected state names, agrees with it. */
  predicate FieldBound(event: Object, field: string, expected: Object) {
    field in event && Get(expected, field) != Null ==> event[field] == Get(expected, field)
  }

  predicate EventBound(event: Object, expected: Object) {
    forall b :: 0 <= b < |BINDINGS| ==> FieldBound(event, BINDINGS[b].0, expected)
  }

  /** Field `b` of the event disagrees, and `code` is its code. */
  predicate Unbound(event: Object, b: nat, expected: Object, code: ReplayCode)
    requires b < |BINDINGS|
  {
    !FieldBound(event, BINDINGS[b].0, expected) && code == BINDINGS[b].1
  }

  /** The comparisons of one event. */
  function EventChecks(event: Object, expected: Object): (r: seq<Check<ReplayCode>>)
    ensures |r| == |BINDINGS|
  {
    seq(|BINDINGS|, b requires 0 <= b < |BINDINGS| => Check(FieldBound(event, BINDINGS[b].0, expected), BINDINGS[b].1))
  }

  /** Those of all events, in order. */
  function BindingChecks(ledger: seq<Object>, expected: Object): seq<Check<ReplayCode>> {
    if ledger == [] then [] else
    BindingChecks(ledger[..|ledger| - 1], expected) + EventChecks(ledger[|ledger| - 1], expected)
  }

  lemma {:induction false} EventChecksMean(event: Object, expected: Object, code: ReplayCode)
    ensures AllHold(EventChecks(event, expected)) <==> EventBound(event, expected)
    ensures Names(EventChecks(event, expected), code) <==>
      exists b :: 0 <= b < |BINDINGS| && Unbound(event, b, expected, code)
  {
    var checks := EventChecks(event, expected);
    if AllHold(checks) {
      forall b | 0 <= b < |BINDINGS| ensures FieldBound(event, BINDINGS[b].0, expected) {
        assert checks[b].ok;
      }
    }
    if b :| 0 <= b < |BINDINGS| && Unbound(event, b, expected, code) {
      assert !checks[b].ok && checks[b].code == code;
    }
    if b :| 0 <= b < |checks| && !checks[b].ok && checks[b].code == code {
      assert Unbound(event, b, expected, code);
    }
  }

  /** Some field of some event disagrees, and `code` is its code. */
  predicate SomeUnbound(ledger: seq<Object>, expected: Object, code: ReplayCode) {
    exists i, b :: 0 <= i < |ledger| && 0 <= b < |BINDINGS| && Unbound(ledger[i], b, expected, code)
  }

  lemma {:induction false} BindingChecksMean(ledger: seq<Object>, expected: Object, code: ReplayCode)
    ensures AllHold(BindingChecks(ledger, expected)) <==> forall i :: 0 <= i < |ledger| ==>
      EventBound(ledger[i], expected)
    ensures Names(BindingChecks(ledger, expected), code) <==> SomeUnbound(ledger, expected, code)
  {
    if ledger != [] {
      var init, last := ledger[..|ledger| - 1], ledger[|ledger| - 1];
      BindingChecksMean(init, expected, code);
      EventChecksMean(last, expected, code);
      AllHoldAppend(BindingChecks(init, expected), EventChecks(last, expected));
      NamesAppend(BindingChecks(init, expected), EventChecks(last, expected), code);
      UnboundSnoc(init, last, expected, code);
      assert ledger == init + [last];
    }
  }

  lemma {:induction false} UnboundSnoc(init: seq<Object>, last: Object, expected: Object, code: ReplayCode)
    ensures SomeUnbound(init + [last], expected, code) <==>
      SomeUnbound(init, expected, code) || exists b :: 0 <= b < |BINDINGS| && Unbound(last, b, expected, code)
  {
    var ledger := init + [last];
    if i, b :| 0 <= i < |init| && 0 <= b < |BINDINGS| && Unbound(init[i], b, expected, code) {
      assert Unbound(ledger[i], b, expected, code);
    }
    if b :| 0 <= b < |BINDINGS| && Unbound(last, b, expected, code) {
      assert Unbound(ledger[|init|], b, expected, code);
    }
  }

  /** `_event_binding_errors` */
  method EventBindingErrors(ledger: seq<Object>, expected: Object) returns (codes: seq<ReplayCode>)
    ensures codes == Failing(BindingChecks(ledger, expected))
    ensures codes == [] <==> forall i :: 0 <= i < |ledger| ==> EventBound(ledger[i], expected)
    ensures forall code :: code in codes <==> SomeUnbound(ledger, expected, code)
  {
    codes := [];
    for i := 0 to |ledger|
      invariant codes == Failing(BindingChecks(ledger[..i], expected))
    {
      assert ledger[..i + 1][..i] == ledger[..i];
      FailingAppend(BindingChecks(ledger[..i], expected), EventChecks(ledger[i], expected));
      var found := CollectFailures(EventChecks(ledger[i], expected));
      codes := codes + found;
    }
    assert ledger[..|ledger|] == ledger;
    FailingMeans(BindingChecks(ledger, expected));
    forall code ensures code in codes <==> SomeUnbound(ledger, expected, code) {
      BindingChecksMean(ledger, expected, code);
    }
    BindingChecksMean(ledger, expected, InputMalformed);
  }

  /** One comparison of a graph node with the expected state; an optional one allows null. */
  datatype GraphField = GraphField(node: string, field: string, expectedField: string, optional: bool, code: ReplayCode)

  const GRAPH_FIELDS: seq<GraphField> := [
    GraphField("authority", "receipt_hash", "authority_receipt_hash", false, AuthorityReceiptMismatch),
    GraphField("authority", "task_id", "task_id", true, TaskBindingMismatch),
    GraphField("authority", "descriptor_hash", "descriptor_hash", true, DescriptorHashMismatch),
    GraphField("workspace_transaction", "transaction_hash", "workspace_transaction_receipt_hash", false,
               WorkspaceReceiptMismatch),
    GraphField("workspace_transaction", "authority_receipt_hash", "authority_receipt_hash", true,
               AuthorityReceiptMismatch),
    GraphField("workspace_transaction", "task_id", "task_id", true, TaskBindingMismatch),
    GraphField("workspace_transaction", "descriptor_hash", "descriptor_hash", true, DescriptorHashMismatch),
    GraphField("artifact", "receipt_hash", "artifact_receipt_hash", false, ArtifactReceiptMismatch),
    GraphField("artifact", "authority_receipt_hash", "authority_receipt_hash", true, AuthorityReceiptMismatch),
    GraphField("artifact", "workspace_transaction_receipt_hash", "workspace_transaction_receipt_hash", true,
               WorkspaceReceiptMismatch),
    GraphField("artifact", "content_hash", "artifact_content_hash", false, ArtifactContentHashMismatch),
    GraphField("artifact", "task_id", "task_id", true, TaskBindingMismatch),
    GraphField("artifact", "descriptor_hash", "descriptor_hash", true, DescriptorHashMismatch),
    GraphField("executor", "receipt_hash", "executor_receipt_hash", false, ExecutorReceiptMismatch),
    GraphField("executor", "authority_receipt_hash", "authority_receipt_hash", true, AuthorityReceiptMismatch),
    GraphField("executor", "workspace_transaction_receipt_hash", "workspace_transaction_receipt_hash", true,
               WorkspaceReceiptMismatch),
    GraphField("executor", "artifact_receipt_hash", "artifact_receipt_hash", true, ArtifactReceiptMismatch),
    GraphField("executor", "content_hash", "executor_output_hash", false, ExecutorOutputHashMismatch),
    GraphField("executor", "task_id", "task_id", true, TaskBindingMismatch),
    GraphField("executor", "descriptor_hash", "descriptor_hash", true, DescriptorHashMismatch),
    GraphField("validation", "receipt_hash", "validation_receipt_hash", true, ValidationReceiptMismatch),
    GraphField("validation", "executor_receipt_hash", "executor_receipt_hash", true, ExecutorReceiptMismatch)]

  predicate CheckHolds(c: GraphField, graph: Object, expected: Object) {
    var actual := Get(Node(graph, c.node), c.field);
    (c.optional && actual == Null) || actual == Get(expected, c.expectedField)
  }

  predicate GraphBound(graph: Object, expected: Object) {
    forall c :: 0 <= c < |GRAPH_FIELDS| ==> CheckHolds(GRAPH_FIELDS[c], graph, expected)
  }

  /** Some comparison of the graph fails, and `code` is its code. */
  predicate SomeGraphFault(graph: Object, expected: Object, code: ReplayCode) {
    exists c :: 0 <= c < |GRAPH_FIELDS| && !CheckHolds(GRAPH_FIELDS[c], graph, expected) && GRAPH_FIELDS[c].code == code
  }

  function GraphChecks(graph: Object, expected: Object): (r: seq<Check<ReplayCode>>)
    ensures |r| == |GRAPH_FIELDS|
  {
    ChecksOf(GRAPH_FIELDS, graph, expected)
  }

  function ChecksOf(fields: seq<GraphField>, graph: Object, expected: Object): (r: seq<Check<ReplayCode>>)
    ensures |r| == |fields|
  {
    seq(|fields|, c requires 0 <= c < |fields| => Check(CheckHolds(fields[c], graph, expected), fields[c].code))
  }

  /** `_graph_hash_errors` */
  method GraphHashErrors(graph: Object, expected: Object) returns (codes: seq<ReplayCode>)
    ensures codes == Failing(GraphChecks(graph, expected))
    ensures codes == [] <==> GraphBound(graph, expected)
    ensures forall code :: code in codes <==> SomeGraphFault(graph, expected, code)
  {
    codes := CollectFailures(GraphChecks(graph, expected));
    FailingMeans(GraphChecks(graph, expected));
    forall code ensures Names(GraphChecks(graph, expected), code) <==> SomeGraphFault(graph, expected, code) {
      GraphChecksMean(graph, expected, code);
    }
    GraphChecksMean(graph, expected, InputMalformed);
  }

  lemma {:induction false} GraphChecksMean(graph: Object, expected: Object, code: ReplayCode)
    ensures AllHold(GraphChecks(graph, expected)) <==> GraphBound(graph, expected)
    ensures Names(GraphChecks(graph, expected), code) <==> SomeGraphFault(graph, expected, code)
  {
    var checks, fields := GraphChecks(graph, expected), GRAPH_FIELDS;
    assert forall c :: 0 <= c < |fields| ==> checks[c] == Check(CheckHolds(fields[c], graph, expected), fields[c].code);
  }

  /** Every required event type occurs. */
  predicate RequiredPresent(ledger: seq<Object>, expected: Object) {
    "required_event_types" in expected && expected["required_event_types"].List? ==>
      forall r :: 0 <= r < |expected["required_event_types"].items| ==>
        exists i :: 0 <= i < |ledger| && Get(ledger[i], "event_type") == expected["required_event_types"].items[r]
  }

  // ---------------------------------------------------------------- field by field

  /** The event has this field, the state names it, and they differ. */
  predicate Differs(event: Object, field: string, expected: Object) {
    field in event && Get(expected, field) != Null && event[field] != Get(expected, field)
  }

  /** The event has the fault that `code` names. */
  predicate EventFault(event: Object, expected: Object, code: ReplayCode) {
    match code
    case TaskBindingMismatch => Differs(event, "task_id", expected)
    case DescriptorHashMismatch => Differs(event, "descriptor_hash", expected)
    case AuthorityReceiptMismatch => Differs(event, "authority_receipt_hash", expected)
    case WorkspaceReceiptMismatch => Differs(event, "workspace_transaction_receipt_hash", expected)
    case ArtifactReceiptMismatch => Differs(event, "artifact_receipt_hash", expected)
    case ExecutorReceiptMismatch => Differs(event, "executor_receipt_hash", expected)
    case ValidationReceiptMismatch => Differs(event, "validation_receipt_hash", expected)
    case _ => false
  }

  /** The receipt of a part does not have the expected value in this field. */
  predicate Lacks(graph: Object, node: string, field: string, expected: Object, name: string) {
    Get(Node(graph, node), field) != Get(expected, name)
  }

  /** It has another value there than the expected one, and not none. */
  predicate Departs(graph: Object, node: string, field: string, expected: Object) {
    Get(Node(graph, node), field) != Null && Lacks(graph, node, field, expected, field)
  }

  /** The receipts of the graph have the fault that `code` names. */
  predicate GraphFault(graph: Object, expected: Object, code: ReplayCode) {
    match code
    case TaskBindingMismatch =>
      || Departs(graph, "authority", "task_id", expected) ||
        Departs(graph, "workspace_transaction", "task_id", expected)
      || Departs(graph, "artifact", "task_id", expected) || Departs(graph, "executor", "task_id", expected)
    case DescriptorHashMismatch =>
      || Departs(graph, "authority", "descriptor_hash", expected)
      || Departs(graph, "workspace_transaction", "descriptor_hash", expected)
      || Departs(graph, "artifact", "descriptor_hash", expected) ||
        Departs(graph, "executor", "descriptor_hash", expected)
    case AuthorityReceiptMismatch =>
      || Lacks(graph, "authority", "receipt_hash", expected, "authority_receipt_hash")
      || Departs(graph, "workspace_transaction", "authority_receipt_hash", expected)
      || Departs(graph, "artifact", "authority_receipt_hash", expected)
      || Departs(graph, "executor", "authority_receipt_hash", expected)
    case WorkspaceReceiptMismatch =>
      || Lacks(graph, "workspace_transaction", "transaction_hash", expected, "workspace_transaction_receipt_hash")
      || Departs(graph, "artifact", "workspace_transaction_receipt_hash", expected)
      || Departs(graph, "executor", "workspace_transaction_receipt_hash", expected)
    case ArtifactReceiptMismatch =>
      || Lacks(graph, "artifact", "receipt_hash", expected, "artifact_receipt_hash")
      || Departs(graph, "executor", "artifact_receipt_hash", expected)
    case ExecutorReceiptMismatch =>
      || Lacks(graph, "executor", "receipt_hash", expected, "executor_receipt_hash")
      || Departs(graph, "validation", "executor_receipt_hash", expected)
    case ValidationReceiptMismatch =>
      && Get(Node(graph, "validation"), "receipt_hash") != Null
      && Lacks(graph, "validation", "receipt_hash", expected, "validation_receipt_hash")
    case ArtifactContentHashMismatch => Lacks(graph, "artifact", "content_hash", expected, "artifact_content_hash")
    case ExecutorOutputHashMismatch => Lacks(graph, "executor", "content_hash", expected, "executor_output_hash")
    case _ => false
  }

  lemma {:induction false} EventFaultsMean(event: Object, expected: Object, code: ReplayCode)
    ensures EventFault(event, expected, code) <==> exists b :: 0 <= b < |BINDINGS| && Unbound(event, b, expected, code)
  {
    if b :| 0 <= b < |BINDINGS| && Unbound(event, b, expected, code) {
      UnboundIsFault(event, b, expected);
    }
    if EventFault(event, expected, code) {
      var b := BindingOf(code);
      assert Unbound(event, b, expected, code);
    }
  }

  lemma {:induction false} UnboundIsFault(event: Object, b: nat, expected: Object)
    requires b < |BINDINGS| && Unbound(event, b, expected, BINDINGS[b].1)
    ensures EventFault(event, expected, BINDINGS[b].1)
  {
  }

  /** Where the table has this code. */
  lemma {:induction false} BindingOf(code: ReplayCode) returns (b: int)
    requires code in {TaskBindingMismatch, DescriptorHashMismatch, AuthorityReceiptMismatch, WorkspaceReceiptMismatch,
                      ArtifactReceiptMismatch, ExecutorReceiptMismatch, ValidationReceiptMismatch}
    ensures 0 <= b < |BINDINGS| && BINDINGS[b].1 == code
    ensures BINDINGS[b].0 ==
      match code
      case TaskBindingMismatch => "task_id"
      case DescriptorHashMismatch => "descriptor_hash"
      case AuthorityReceiptMismatch => "authority_receipt_hash"
      case WorkspaceReceiptMismatch => "workspace_transaction_receipt_hash"
      case ArtifactReceiptMismatch => "artifact_receipt_hash"
      case ExecutorReceiptMismatch => "executor_receipt_hash"
      case _ => "validation_receipt_hash"
  {
    b := match code
      case TaskBindingMismatch => 0
      case DescriptorHashMismatch => 1
      case AuthorityReceiptMismatch => 2
      case WorkspaceReceiptMismatch => 3
      case ArtifactReceiptMismatch => 4
      case ExecutorReceiptMismatch => 5
      case _ => 6;
  }

  lemma {:induction false} GraphFaultsMean(graph: Object, expected: Object, code: ReplayCode)
    ensures GraphFault(graph, expected, code) <==> SomeGraphFault(graph, expected, code)
  {
    if c :| 0 <= c < |GRAPH_FIELDS| && !CheckHolds(GRAPH_FIELDS[c], graph, expected) && GRAPH_FIELDS[c].code == code {
      FailingFieldIsFault(graph, expected, c);
    }
    if GraphFault(graph, expected, code) {
      var c := FailingField(graph, expected, code);
      assert !CheckHolds(GRAPH_FIELDS[c], graph, expected) && GRAPH_FIELDS[c].code == code;
    }
  }

  lemma {:induction false} FailingFieldIsFault(graph: Object, expected: Object, c: nat)
    requires c < |GRAPH_FIELDS| && !CheckHolds(GRAPH_FIELDS[c], graph, expected)
    ensures GraphFault(graph, expected, GRAPH_FIELDS[c].code)
  {
  }

  lemma {:induction false} FailingField(graph: Object, expected: Object, code: ReplayCode) returns (c: int)
    requires GraphFault(graph, expected, code)
    ensures 0 <= c < |GRAPH_FIELDS| && !CheckHolds(GRAPH_FIELDS[c], graph, expected) && GRAPH_FIELDS[c].code == code
  {
    c := match code
      case TaskBindingMismatch =>
        if Departs(graph, "authority", "task_id", expected) then 1
        else if Departs(graph, "workspace_transaction", "task_id", expected) then 5
        else if Departs(graph, "artifact", "task_id", expected) then 11 else 18
      case DescriptorHashMismatch =>
        if Departs(graph, "authority", "descriptor_hash", expected) then 2
        else if Departs(graph, "workspace_transaction", "descriptor_hash", expected) then 6
        else if Departs(graph, "artifact", "descriptor_hash", expected) then 12 else 19
      case AuthorityReceiptMismatch =>
        if Lacks(graph, "authority", "receipt_hash", expected, "authority_receipt_hash") then 0
        else if Departs(graph, "workspace_transaction", "authority_receipt_hash", expected) then 4
        else if Departs(graph, "artifact", "authority_receipt_hash", expected) then 8 else 14
      case WorkspaceReceiptMismatch =>
        if Lacks(graph, "workspace_transaction", "transaction_hash", expected, "workspace_transaction_receipt_hash")
        then 3
        else if Departs(graph, "artifact", "workspace_transaction_receipt_hash", expected) then 9 else 15
      case ArtifactReceiptMismatch =>
        if Lacks(graph, "artifact", "receipt_hash", expected, "artifact_receipt_hash") then 7 else 16
      case ExecutorReceiptMismatch =>
        if Lacks(graph, "executor", "receipt_hash", expected, "executor_receipt_hash") then 13 else 21
      case ValidationReceiptMismatch => 20
      case ArtifactContentHashMismatch => 10
      case _ => 17;
  }

  /** This event type is required and no event has it. */
  predicate TypeMissing(ledger: seq<Object>, expected: Object, t: Json) {
    && Get(expected, "required_event_types").List? && t in Get(expected, "required_event_types").items
    && forall i :: 0 <= i < |ledger| ==> Get(ledger[i], "event_type") != t
  }

  ghost predicate AnyTypeMissing(ledger: seq<Object>, expected: Object) {
    exists t :: TypeMissing(ledger, expected, t)
  }

  /** Some event has the fault that `code` names. */
  predicate SomeEventFault(ledger: seq<Object>, expected: Object, code: ReplayCode) {
    exists i :: 0 <= i < |ledger| && EventFault(ledger[i], expected, code)
  }

  ghost predicate AnyEventFault(ledger: seq<Object>, expected: Object) {
    exists code :: SomeEventFault(ledger, expected, code)
  }

  lemma {:induction false} RequiredMeans(ledger: seq<Object>, expected: Object)
    ensures RequiredPresent(ledger, expected) <==> !AnyTypeMissing(ledger, expected)
  {
    if !RequiredPresent(ledger, expected) {
      var items := expected["required_event_types"].items;
      var r :| 0 <= r < |items| && forall i :: 0 <= i < |ledger| ==> Get(ledger[i], "event_type") != items[r];
      assert TypeMissing(ledger, expected, items[r]);
    }
    if t :| TypeMissing(ledger, expected, t) {
      var items := expected["required_event_types"].items;
      var r :| 0 <= r < |items| && items[r] == t;
      assert forall i :: 0 <= i < |ledger| ==> Get(ledger[i], "event_type") != items[r];
    }
  }

  /** The evidence agrees with the expected state, field by field. */
  ghost predicate EvidenceAgrees(ledger: seq<Object>, expected: Object, graph: Object) {
    && !AnyTypeMissing(ledger, expected) && !AnyEventFault(ledger, expected)
    && forall code :: !GraphFault(graph, expected, code)
  }

  lemma {:induction false} AgreesIffBound(ledger: seq<Object>, expected: Object, graph: Object)
    ensures EvidenceAgrees(ledger, expected, graph) <==>
      && RequiredPresent(ledger, expected) && (forall i :: 0 <= i < |ledger| ==> EventBound(ledger[i], expected))
      && GraphBound(graph, expected)
  {
    RequiredMeans(ledger, expected);
    EventsBoundIffFaultless(ledger, expected);
    GraphBoundIffFaultless(graph, expected);
  }

  lemma {:induction false} EventsBoundIffFaultless(ledger: seq<Object>, expected: Object)
    ensures !AnyEventFault(ledger, expected) <==> forall i :: 0 <= i < |ledger| ==> EventBound(ledger[i], expected)
  {
    forall i | 0 <= i < |ledger|
      ensures EventBound(ledger[i], expected) <==> forall code :: !EventFault(ledger[i], expected, code)
    {
      EventBoundIffFaultless(ledger[i], expected);
    }
    if !AnyEventFault(ledger, expected) {
      forall i | 0 <= i < |ledger| ensures EventBound(ledger[i], expected) {
        forall code ensures !EventFault(ledger[i], expected, code) {
          assert !SomeEventFault(ledger, expected, code);
        }
      }
    }
  }

  lemma {:induction false} EventBoundIffFaultless(event: Object, expected: Object)
    ensures EventBound(event, expected) <==> forall code :: !EventFault(event, expected, code)
  {
    forall code
      ensures EventFault(event, expected, code) <==>
        exists b :: 0 <= b < |BINDINGS| && Unbound(event, b, expected, code)
    {
      EventFaultsMean(event, expected, code);
    }
    if !EventBound(event, expected) {
      var b :| 0 <= b < |BINDINGS| && !FieldBound(event, BINDINGS[b].0, expected);
      assert Unbound(event, b, expected, BINDINGS[b].1);
      assert EventFault(event, expected, BINDINGS[b].1);
    }
  }

  lemma {:induction false} GraphBoundIffFaultless(graph: Object, expected: Object)
    ensures GraphBound(graph, expected) <==> forall code :: !GraphFault(graph, expected, code)
  {
    forall code ensures GraphFault(graph, expected, code) <==> SomeGraphFault(graph, expected, code) {
      GraphFaultsMean(graph, expected, code);
    }
    if !GraphBound(graph, expected) {
      var c :| 0 <= c < |GRAPH_FIELDS| && !CheckHolds(GRAPH_FIELDS[c], graph, expected);
      assert SomeGraphFault(graph, expected, GRAPH_FIELDS[c].code);
      assert GraphFault(graph, expected, GRAPH_FIELDS[c].code);
    } else {
      forall code ensures !SomeGraphFault(graph, expected, code) {}
    }
  }

  // ---------------------------------------------------------------- the receipt

  function ReceiptBody(expected: Object, count: int, chainHash: string, terminal: Json): Object {
    map[
      "schema_version" := Str("replay_receipt.v1"),
      "replay_engine" := Str("read_only_replay_v1"),
      "task_id" := Get(expected, "task_id"),
      "descriptor_hash" := Get(expected, "descriptor_hash"),
      "ledger_event_count" := Int(count),
      "ledger_chain_hash" := Str(chainHash),
      "terminal_event_hash" := terminal,
      "authority_receipt_hash" := Get(expected, "authority_receipt_hash"),
      "workspace_transaction_receipt_hash" := Get(expected, "workspace_transaction_receipt_hash"),
      "artifact_receipt_hash" := Get(expected, "artifact_receipt_hash"),
      "executor_receipt_hash" := Get(expected, "executor_receipt_hash"),
      "validation_receipt_hash" := Get(expected, "validation_receipt_hash"),
      "artifact_content_hash" := Get(expected, "artifact_content_hash"),
      "executor_output_hash" := Get(expected, "executor_output_hash"),
      "executor_redispatch_performed" := Bool(false),
      "workspace_mutation_performed" := Bool(false),
      "artifact_mutation_performed" := Bool(false),
      "ledger_mutation_performed" := Bool(false),
      "tool_invocation_performed" := Bool(false),
      "llm_invocation_performed" := Bool(false),
      "network_access_performed" := Bool(false),
      "r120_seal_performed" := Bool(false),
      "receipt_hash" := Str("")]
  }

  /** `_accepted_receipt`: what a replay of this ledger against this state yields. */
  function ReplayReceipt(expected: Object, ledger: seq<Object>, hash: Hash): Object {
    Seal(ReceiptBody(expected, |ledger|, ChainHash(ledger, hash), TailHash(ledger, OWN)), "receipt_hash", hash)
  }

  /** What the receipt repeats from the expected state, and what it denies. */
  const REPEATED: set<string> := {
    "task_id", "descriptor_hash", "authority_receipt_hash", "workspace_transaction_receipt_hash",
    "artifact_receipt_hash", "executor_receipt_hash", "validation_receipt_hash", "artifact_content_hash",
    "executor_output_hash"}

  const DENIED: set<string> := {
    "executor_redispatch_performed", "workspace_mutation_performed", "artifact_mutation_performed",
    "ledger_mutation_performed", "tool_invocation_performed", "llm_invocation_performed",
    "network_access_performed", "r120_seal_performed"}

  /** The receipt repeats what the state names and what the ledger is, claims no action, and carries its own
      hash. */
  ghost predicate ReceiptStates(receipt: Object, expected: Object, ledger: seq<Object>, hash: Hash) {
    && Sealed(receipt, "receipt_hash", hash)
    && (forall f :: f in REPEATED ==> Get(receipt, f) == Get(expected, f))
    && (forall f :: f in DENIED ==> Get(receipt, f) == Bool(false))
    && Get(receipt, "ledger_event_count") == Int(|ledger|)
    && Get(receipt, "ledger_chain_hash") == Str(ChainHash(ledger, hash))
    && Get(receipt, "terminal_event_hash") == (if ledger == [] then Str("GENESIS") else Get(ledger[|ledger| - 1], OWN))
  }

  lemma {:induction false} ReplayReceiptStates(expected: Object, ledger: seq<Object>, hash: Hash)
    ensures ReceiptStates(ReplayReceipt(expected, ledger, hash), expected, ledger, hash)
  {
    var chainHash, terminal := ChainHash(ledger, hash), TailHash(ledger, OWN);
    var body := ReceiptBody(expected, |ledger|, chainHash, terminal);
    SealIsSealed(body, "receipt_hash", hash);
    BodyNamesCount(expected, |ledger|, chainHash, terminal);
    BodyNamesLedger(expected, |ledger|, chainHash, terminal);
    BodyRepeats(expected, |ledger|, chainHash, terminal);
    BodyDenies(expected, |ledger|, chainHash, terminal);
    OwnFieldApart();
  }

  lemma {:induction false} OwnFieldApart()
    ensures "receipt_hash" !in REPEATED && "receipt_hash" !in DENIED
  {
  }

  lemma {:induction false} BodyRepeats(expected: Object, count: int, chainHash: string, terminal: Json)
    ensures forall f :: f in REPEATED ==> Get(ReceiptBody(expected, count, chainHash, terminal), f) == Get(expected, f)
  {
    BodyNamesTask(expected, count, chainHash, terminal);
    BodyNamesDescriptor(expected, count, chainHash, terminal);
    BodyNamesAuthority(expected, count, chainHash, terminal);
    BodyNamesWorkspace(expected, count, chainHash, terminal);
    BodyNamesArtifact(expected, count, chainHash, terminal);
    BodyNamesLastReceipts(expected, count, chainHash, terminal);
    BodyNamesContents(expected, count, chainHash, terminal);
    RepeatsEach(ReceiptBody(expected, count, chainHash, terminal), expected);
  }

  lemma {:induction false} RepeatsEach(body: Object, expected: Object)
    requires Get(body, "task_id") == Get(expected, "task_id")
    requires Get(body, "descriptor_hash") == Get(expected, "descriptor_hash")
    requires Get(body, "authority_receipt_hash") == Get(expected, "authority_receipt_hash")
    requires Get(body, "workspace_transaction_receipt_hash") == Get(expected, "workspace_transaction_receipt_hash")
    requires Get(body, "artifact_receipt_hash") == Get(expected, "artifact_receipt_hash")
    requires Get(body, "executor_receipt_hash") == Get(expected, "executor_receipt_hash")
    requires Get(body, "validation_receipt_hash") == Get(expected, "validation_receipt_hash")
    requires Get(body, "artifact_content_hash") == Get(expected, "artifact_content_hash")
    requires Get(body, "executor_output_hash") == Get(expected, "executor_output_hash")
    ensures forall f :: f in REPEATED ==> Get(body, f) == Get(expected, f)
  {
  }

  lemma {:induction false} BodyNamesTask(expected: Object, count: int, chainHash: string, terminal: Json)
    ensures var body := ReceiptBody(expected, count, chainHash, terminal);
      Get(body, "task_id") == Get(expected, "task_id")
  {
  }

  lemma {:induction false} BodyNamesDescriptor(expected: Object, count: int, chainHash: string, terminal: Json)
    ensures var body := ReceiptBody(expected, count, chainHash, terminal);
      Get(body, "descriptor_hash") == Get(expected, "descriptor_hash")
  {
  }

  lemma {:induction false} BodyNamesAuthority(expected: Object, count: int, chainHash: string, terminal: Json)
    ensures var body := ReceiptBody(expected, count, chainHash, terminal);
      Get(body, "authority_receipt_hash") == Get(expected, "authority_receipt_hash")
  {
  }

  lemma {:induction false} BodyNamesWorkspace(expected: Object, count: int, chainHash: string, terminal: Json)
    ensures var body := ReceiptBody(expected, count, chainHash, terminal);
      Get(body, "workspace_transaction_receipt_hash") == Get(expected, "workspace_transaction_receipt_hash")
  {
  }

  lemma {:induction false} BodyNamesArtifact(expected: Object, count: int, chainHash: string, terminal: Json)
    ensures var body := ReceiptBody(expected, count, chainHash, terminal);
      Get(body, "artifact_receipt_hash") == Get(expected, "artifact_receipt_hash")
  {
  }

  lemma {:induction false} BodyNamesLastReceipts(expected: Object, count: int, chainHash: string, terminal: Json)
    ensures var body := ReceiptBody(expected, count, chainHash, terminal);
      && Get(body, "executor_receipt_hash") == Get(expected, "executor_receipt_hash")
      && Get(body, "validation_receipt_hash") == Get(expected, "validation_receipt_hash")
  {
  }

  lemma {:induction false} BodyNamesContents(expected: Object, count: int, chainHash: string, terminal: Json)
    ensures var body := ReceiptBody(expected, count, chainHash, terminal);
      && Get(body, "artifact_content_hash") == Get(expected, "artifact_content_hash")
      && Get(body, "executor_output_hash") == Get(expected, "executor_output_hash")
  {
  }

  lemma {:induction false} BodyNamesCount(expected: Object, count: int, chainHash: string, terminal: Json)
    ensures var body := ReceiptBody(expected, count, chainHash, terminal);
      Get(body, "ledger_event_count") == Int(count)
  {
  }

  lemma {:induction false} BodyNamesLedger(expected: Object, count: int, chainHash: string, terminal: Json)
    ensures var body := ReceiptBody(expected, count, chainHash, terminal);
      && Get(body, "ledger_chain_hash") == Str(chainHash)
      && Get(body, "terminal_event_hash") == terminal
  {
  }

  lemma {:induction false} BodyDenies(expected: Object, count: int, chainHash: string, terminal: Json)
    ensures forall f :: f in DENIED ==> Get(ReceiptBody(expected, count, chainHash, terminal), f) == Bool(false)
  {
  }

  datatype ReplayResult =
    | Replayed(chainHash: string, receipt: Object)
    | ReplayRejected(codes: seq<ReplayCode>)

  /** The evidence holds together: a valid chain that meets the expectations, all required events, and
      events and graph that agree with the expected state. */
  ghost predicate Consistent(ledger: seq<Object>, expected: Object, graph: Object, hash: Hash)
    requires ExpectedStateOk(expected)
  {
    && ValidChain(ledger, hash) && Meets(ledger, ChainExpectations(expected), hash)
    && RequiredPresent(ledger, expected)
    && (forall i :: 0 <= i < |ledger| ==> EventBound(ledger[i], expected))
    && GraphBound(graph, expected)
  }

  function LedgerRejection(code: Code): ReplayCode {
    match code
    case ExpectedEventCountMismatch => EventCountMismatch
    case ExpectedChainHashMismatch => LedgerHeadMismatch
    case ExpectedTerminalHashMismatch => LedgerHeadMismatch
    case _ => LedgerInvalid
  }

  function LedgerRejections(codes: seq<Code>): (r: seq<ReplayCode>)
    ensures |r| == |codes| && forall i :: 0 <= i < |codes| ==> r[i] == LedgerRejection(codes[i])
  {
    seq(|codes|, i requires 0 <= i < |codes| => LedgerRejection(codes[i]))
  }

  /** `_ledger_rejection_codes` */
  method LedgerRejectionCodes(codes: seq<Code>) returns (r: seq<ReplayCode>)
    ensures r == LedgerRejections(codes)
  {
    r := [];
    for i := 0 to |codes|
      invariant r == LedgerRejections(codes[..i])
    {
      r := r + [LedgerRejection(codes[i])];
    }
    assert codes[..|codes|] == codes;
  }

  predicate RequestOk(request: Object) {
    && request.Keys !! FORBIDDEN_REQUEST_FIELDS
    && IsEventList(Get(request, "ledger"))
    && Get(request, "expected_state").Obj? && ExpectedStateOk(Get(request, "expected_state").fields)
    && Get(request, "receipt_graph").Obj? && GraphOk(Get(request, "receipt_graph").fields)
  }

  /** The request asks for a replay and nothing else, and its parts have the right types. */
  ghost predicate RequestInForm(request: Object) {
    && request.Keys !! {
      "shell_command", "subprocess", "command", "tool_call", "tool_invocation", "llm_call", "llm_invocation",
      "network_endpoint", "http_request", "socket", "executor_dispatch", "workspace_mutation", "artifact_mutation",
      "ledger_mutation", "r120_seal"}
    && IsEventList(Get(request, "ledger"))
    && Get(request, "expected_state").Obj? && StateInForm(Get(request, "expected_state").fields)
    && Get(request, "receipt_graph").Obj?
    && forall k :: k in {"authority", "workspace_transaction", "artifact", "executor", "validation"} ==>
      k in Get(request, "receipt_graph").fields ==> Get(request, "receipt_graph").fields[k].Obj?
  }

  /** What the state names is a count, hashes, a list of strings, and a task. */
  ghost predicate StateInForm(e: Object) {
    && ("expected_event_count" in e ==> IsInteger(e["expected_event_count"]))
    && HashIfNamed(e, "expected_ledger_chain_hash") && HashIfNamed(e, "expected_terminal_event_hash")
    && HashIfNamed(e, "descriptor_hash") && HashIfNamed(e, "authority_receipt_hash")
    && HashIfNamed(e, "workspace_transaction_receipt_hash") && HashIfNamed(e, "artifact_receipt_hash")
    && HashIfNamed(e, "executor_receipt_hash") && HashIfNamed(e, "validation_receipt_hash")
    && HashIfNamed(e, "artifact_content_hash") && HashIfNamed(e, "executor_output_hash")
    && ("required_event_types" in e ==>
      && e["required_event_types"].List?
      && forall t :: t in e["required_event_types"].items ==> t.Str?)
    && ("task_id" in e ==> NonEmptyString(e["task_id"]))
  }

  predicate HashIfNamed(e: Object, field: string) {
    field in e ==> IsHash(e[field])
  }

  lemma {:induction false} StateOkMeans(e: Object)
    ensures ExpectedStateOk(e) <==> StateInForm(e)
  {
    HashFieldsMean(e);
  }

  lemma {:induction false} HashFieldsMean(e: Object)
    ensures (forall f :: f in EXPECTED_HASH_FIELDS && f in e ==> IsHash(e[f])) <==>
      && HashIfNamed(e, "expected_ledger_chain_hash") && HashIfNamed(e, "expected_terminal_event_hash")
      && HashIfNamed(e, "descriptor_hash") && HashIfNamed(e, "authority_receipt_hash")
      && HashIfNamed(e, "workspace_transaction_receipt_hash") && HashIfNamed(e, "artifact_receipt_hash")
      && HashIfNamed(e, "executor_receipt_hash") && HashIfNamed(e, "validation_receipt_hash")
      && HashIfNamed(e, "artifact_content_hash") && HashIfNamed(e, "executor_output_hash")
  {
  }

  lemma {:induction false} RequestOkMeans(request: Object)
    ensures RequestOk(request) <==> RequestInForm(request)
  {
    if Get(request, "expected_state").Obj? {
      StateOkMeans(Get(request, "expected_state").fields);
    }
  }

  /** The ledger has the length, chain hash and last hash that the state names. */
  ghost predicate LedgerAsNamed(ledger: seq<Object>, e: Object, hash: Hash) {
    && ("expected_event_count" in e ==>
      IsInteger(e["expected_event_count"]) && |ledger| == IntegerValue(e["expected_event_count"]))
    && ("expected_ledger_chain_hash" in e ==> e["expected_ledger_chain_hash"] == Str(ChainHash(ledger, hash)))
    && ("expected_terminal_event_hash" in e ==> e["expected_terminal_event_hash"] == TailHash(ledger, OWN))
  }

  lemma {:induction false} MeetsMeans(ledger: seq<Object>, e: Object, hash: Hash)
    requires ExpectedStateOk(e)
    ensures Meets(ledger, ChainExpectations(e), hash) <==> LedgerAsNamed(ledger, e, hash)
  {
    StateOkMeans(e);
  }

  /** What a replayed request satisfies, field by field. */
  ghost predicate RequestAgrees(request: Json, hash: Hash) {
    && request.Obj? && RequestInForm(request.fields)
    && var ledger, expected := Events(Get(request.fields, "ledger")), Get(request.fields, "expected_state").fields;
    && ValidChain(ledger, hash) && LedgerAsNamed(ledger, expected, hash)
    && EvidenceAgrees(ledger, expected, Get(request.fields, "receipt_graph").fields)
  }

  lemma {:induction false} ConsistentIffAgrees(request: Json, hash: Hash)
    ensures RequestConsistent(request, hash) <==> RequestAgrees(request, hash)
  {
    if request.Obj? {
      RequestOkMeans(request.fields);
      if RequestOk(request.fields) {
        var ledger, e := Events(Get(request.fields, "ledger")), Get(request.fields, "expected_state").fields;
        AgreesIffBound(ledger, e, Get(request.fields, "receipt_graph").fields);
        MeetsMeans(ledger, e, hash);
      }
    }
  }

  ghost predicate RequestConsistent(request: Json, hash: Hash) {
    && request.Obj? && RequestOk(request.fields)
    && Consistent(Events(Get(request.fields, "ledger")), Get(request.fields, "expected_state").fields,
                  Get(request.fields, "receipt_graph").fields, hash)
  }

  /** The codes that the evidence of a well-formed request earns: of the first stage that finds fault. */
  function EvidenceCodes(ledger: seq<Object>, expected: Object, graph: Object, hash: Hash): seq<ReplayCode>
    requires ExpectedStateOk(expected)
  {
    var chainCodes := ChainCodes(ledger, ChainExpectations(expected), hash);
    if chainCodes != [] then LedgerRejections(chainCodes)
    else if !RequiredPresent(ledger, expected) then [RequiredEventMissing]
    else if Failing(BindingChecks(ledger, expected)) != [] then Failing(BindingChecks(ledger, expected))
    else Failing(GraphChecks(graph, expected))
  }

  function RequestCodes(request: Json, hash: Hash): seq<ReplayCode> {
    if !request.Obj? then [InputMalformed]
    else if !(request.fields.Keys !! FORBIDDEN_REQUEST_FIELDS) then [ReplayForbiddenField]
    else if !IsEventList(Get(request.fields, "ledger")) then [InputMalformed]
    else if !Get(request.fields, "expected_state").Obj? ||
        !ExpectedStateOk(Get(request.fields, "expected_state").fields)
    then [ExpectedStateMalformed]
    else if !Get(request.fields, "receipt_graph").Obj? || !GraphOk(Get(request.fields, "receipt_graph").fields)
    then [InputMalformed]
    else EvidenceCodes(Events(Get(request.fields, "ledger")), Get(request.fields, "expected_state").fields,
                       Get(request.fields, "receipt_graph").fields, hash)
  }

  /** The evidence has the fault that `code` names, and no earlier stage finds fault. */
  ghost predicate EvidenceFault(ledger: seq<Object>, expected: Object, graph: Object, hash: Hash, code: ReplayCode)
    requires ExpectedStateOk(expected)
  {
    var asked := ChainExpectations(expected);
    if !(ValidChain(ledger, hash) && Meets(ledger, asked, hash)) then ChainFault(ledger, asked, hash, code)
    else if AnyTypeMissing(ledger, expected) then code == RequiredEventMissing
    else if AnyEventFault(ledger, expected) then SomeEventFault(ledger, expected, code)
    else GraphFault(graph, expected, code)
  }

  /** What is wrong with the chain, in the three codes the replay has for it. */
  ghost predicate ChainFault(ledger: seq<Object>, asked: Expectations, hash: Hash, code: ReplayCode) {
    match code
    case EventCountMismatch => Misses(ledger, asked, hash, ExpectedEventCountMismatch)
    case LedgerHeadMismatch =>
      Misses(ledger, asked, hash, ExpectedChainHashMismatch) ||
        Misses(ledger, asked, hash, ExpectedTerminalHashMismatch)
    case LedgerInvalid => !ValidChain(ledger, hash)
    case _ => false
  }

  /** A well-formed request earns no code exactly when its evidence holds together, */
  lemma {:induction false} NoCodesIffConsistent(ledger: seq<Object>, expected: Object, graph: Object, hash: Hash)
    requires ExpectedStateOk(expected)
    ensures EvidenceCodes(ledger, expected, graph, hash) == [] <==> Consistent(ledger, expected, graph, hash)
  {
    NoCodesIffMet(ledger, ChainExpectations(expected), hash);
    ComparisonsMean(ledger, expected, graph, InputMalformed);
  }

  /** and otherwise exactly the faults of the first stage that finds any. */
  lemma {:induction false} EvidenceCodesMean(ledger: seq<Object>, expected: Object, graph: Object, hash: Hash,
                                             code: ReplayCode)
    requires ExpectedStateOk(expected)
    ensures code in EvidenceCodes(ledger, expected, graph, hash) <==> EvidenceFault(ledger, expected, graph, hash, code)
  {
    var asked := ChainExpectations(expected);
    NoCodesIffMet(ledger, asked, hash);
    ChainFaultsMean(ledger, asked, hash, code);
    RequiredMeans(ledger, expected);
    ComparisonsMean(ledger, expected, graph, code);
    EventsBoundIffFaultless(ledger, expected);
  }

  lemma {:induction false} ComparisonsMean(ledger: seq<Object>, expected: Object, graph: Object, code: ReplayCode)
    ensures Failing(BindingChecks(ledger, expected)) == [] <==>
      forall i :: 0 <= i < |ledger| ==> EventBound(ledger[i], expected)
    ensures code in Failing(BindingChecks(ledger, expected)) <==> SomeEventFault(ledger, expected, code)
    ensures Failing(GraphChecks(graph, expected)) == [] <==> GraphBound(graph, expected)
    ensures code in Failing(GraphChecks(graph, expected)) <==> GraphFault(graph, expected, code)
  {
    BindingChecksMean(ledger, expected, code);
    FailingMeans(BindingChecks(ledger, expected));
    UnboundMeansFault(ledger, expected, code);
    GraphChecksMean(graph, expected, code);
    FailingMeans(GraphChecks(graph, expected));
    GraphFaultsMean(graph, expected, code);
  }

  lemma {:induction false} UnboundMeansFault(ledger: seq<Object>, expected: Object, code: ReplayCode)
    ensures SomeUnbound(ledger, expected, code) <==> SomeEventFault(ledger, expected, code)
  {
    forall i | 0 <= i < |ledger|
      ensures EventFault(ledger[i], expected, code) <==>
        exists b :: 0 <= b < |BINDINGS| && Unbound(ledger[i], b, expected, code)
    {
      EventFaultsMean(ledger[i], expected, code);
    }
  }

  lemma {:induction false} ChainFaultsMean(ledger: seq<Object>, asked: Expectations, hash: Hash, code: ReplayCode)
    ensures code in LedgerRejections(ChainCodes(ledger, asked, hash)) <==> ChainFault(ledger, asked, hash, code)
  {
    RejectionsRename(ChainCodes(ledger, asked, hash), code);
    match code
    case EventCountMismatch => ExpectationCodesMean(ledger, asked, hash, ExpectedEventCountMismatch);
    case LedgerHeadMismatch =>
      ExpectationCodesMean(ledger, asked, hash, ExpectedChainHashMismatch);
      ExpectationCodesMean(ledger, asked, hash, ExpectedTerminalHashMismatch);
    case LedgerInvalid => InvalidIffEventCode(ledger, asked, hash);
    case _ =>
  }

  lemma {:induction false} RejectionsRename(codes: seq<Code>, code: ReplayCode)
    ensures code in LedgerRejections(codes) <==>
      match code
      case EventCountMismatch => ExpectedEventCountMismatch in codes
      case LedgerHeadMismatch => ExpectedChainHashMismatch in codes || ExpectedTerminalHashMismatch in codes
      case LedgerInvalid => SpeaksOfEvents(codes)
      case _ => false
  {
    var renamed := LedgerRejections(codes);
    forall c | c in codes ensures LedgerRejection(c) in renamed {
      var i :| 0 <= i < |codes| && codes[i] == c;
      assert renamed[i] == LedgerRejection(c);
    }
    if code in renamed {
      var i :| 0 <= i < |codes| && renamed[i] == code;
      assert codes[i] in codes && LedgerRejection(codes[i]) == code;
    }
  }

  predicate SpeaksOfEvents(codes: seq<Code>) {
    exists c :: c in codes && c !in EXPECTATION_CODES
  }

  lemma {:induction false} NoExpectationAmongShown(ledger: seq<Object>, hash: Hash)
    ensures var shown := Flatten(CodeLists(ledger, hash)); shown != [] ==> shown[0] !in EXPECTATION_CODES
  {
    var shown := Flatten(CodeLists(ledger, hash));
    if shown != [] && shown[0] in EXPECTATION_CODES {
      NoExpectationShown(ledger, hash, shown[0]);
    }
  }

  /** The chain is invalid exactly when some code speaks of an event. */
  lemma {:induction false} InvalidIffEventCode(ledger: seq<Object>, asked: Expectations, hash: Hash)
    ensures !ValidChain(ledger, hash) <==> SpeaksOfEvents(ChainCodes(ledger, asked, hash))
  {
    CleanEventsAreValid(ledger, hash);
    var shown := Flatten(CodeLists(ledger, hash));
    if shown != [] {
      NoExpectationAmongShown(ledger, hash);
      assert shown[0] in ChainCodes(ledger, asked, hash);
    }
  }

  /** Faults of events come before missed expectations. */
  lemma {:induction false} BrokenChainFirst(ledger: seq<Object>, asked: Expectations, hash: Hash)
    requires !ValidChain(ledger, hash)
    ensures var codes := ChainCodes(ledger, asked, hash); codes != [] && LedgerRejection(codes[0]) == LedgerInvalid
  {
    CleanEventsAreValid(ledger, hash);
    var shown := Flatten(CodeLists(ledger, hash));
    NoExpectationAmongShown(ledger, hash);
    FirstSeenHead(shown + ExpectationCodes(ledger, None, asked));
  }

  /** `replay_ledger_chain`: replayed exactly when the request is well formed and its evidence holds
      together, and then with the one receipt that ledger and state determine; otherwise rejected with
      the faults of the first stage that finds any. */
  method ReplayLedgerChain(request: Json, hash: Hash) returns (r: ReplayResult)
    ensures r.Replayed? <==> RequestConsistent(request, hash)
    ensures r.Replayed? <==> RequestAgrees(request, hash)
    ensures r.Replayed? ==>
      ReceiptStates(r.receipt, Get(request.fields, "expected_state").fields, Events(Get(request.fields, "ledger")),
                    hash)
    ensures r.Replayed? ==>
      var ledger := Events(Get(request.fields, "ledger"));
      r == Replayed(ChainHash(ledger, hash), ReplayReceipt(Get(request.fields, "expected_state").fields, ledger, hash))
    ensures r.ReplayRejected? ==> r.codes != [] && r.codes == FirstSeen(RequestCodes(request, hash))
  {
    ConsistentIffAgrees(request, hash);
    if !request.Obj? {
      return Reject([InputMalformed]);
    }
    var fields := request.fields;
    if !(fields.Keys !! FORBIDDEN_REQUEST_FIELDS) {
      return Reject([ReplayForbiddenField]);
    }
    var ledgerJson := Get(fields, "ledger");
    var expectedJson := Get(fields, "expected_state");
    var graphJson := Get(fields, "receipt_graph");
    if !IsEventList(ledgerJson) {
      return Reject([InputMalformed]);
    }
    if !expectedJson.Obj? || !ExpectedStateOk(expectedJson.fields) {
      return Reject([ExpectedStateMalformed]);
    }
    if !graphJson.Obj? || !GraphOk(graphJson.fields) {
      return Reject([InputMalformed]);
    }
    ReplayReceiptStates(expectedJson.fields, Events(ledgerJson), hash);
    r := ReplayChecked(ledgerJson, expectedJson.fields, graphJson.fields, hash);
  }

  /** `_reject`, and `_result` for a rejection. */
  function Reject(codes: seq<ReplayCode>): (r: ReplayResult)
    requires codes != []
    ensures r.ReplayRejected? && r.codes != []
  {
    FirstSeenHead(codes);
    ReplayRejected(FirstSeen(codes))
  }

  method ReplayChecked(ledgerJson: Json, expected: Object, graph: Object, hash: Hash) returns (r: ReplayResult)
    requires IsEventList(ledgerJson) && ExpectedStateOk(expected)
    ensures r.Replayed? <==> Consistent(Events(ledgerJson), expected, graph, hash)
    ensures r.Replayed? ==>
      r == Replayed(ChainHash(Events(ledgerJson), hash), ReplayReceipt(expected, Events(ledgerJson), hash))
    ensures r.ReplayRejected? ==>
      r.codes != [] && r.codes == FirstSeen(EvidenceCodes(Events(ledgerJson), expected, graph, hash))
  {
    var report := ValidateLedgerChain(ledgerJson, ChainExpectations(expected), hash);
    if !report.accepted {
      var codes := LedgerRejectionCodes(report.codes);
      return Reject(codes);
    }
    var ledger := Events(ledgerJson);
    if !RequiredPresent(ledger, expected) {
      return Reject([RequiredEventMissing]);
    }
    var bindingErrors := EventBindingErrors(ledger, expected);
    if bindingErrors != [] {
      return Reject(bindingErrors);
    }
    var graphErrors := GraphHashErrors(graph, expected);
    if graphErrors != [] {
      return Reject(graphErrors);
    }
    r := Replayed(report.chainHash.value, ReplayReceipt(expected, ledger, hash));
  }
}
