/** The append-only event ledger (runtime_lab/ledger/__init__.py). */
module Ledger {
  import opened Wrappers
  import opened Json
  import opened Dedupe
  import opened Numerals
  import opened HashChain

  const PREVIOUS: string := "previous_event_hash"
  const OWN: string := "event_hash"

  datatype Code =
    | EventMalformed | EventTypeNotAllowed | ForbiddenField | PreviousEventHashRequired
    | PreviousEventHashMismatch | RequiredReceiptHashMissing | DuplicateEventId | ChainDiscontinuity
    | EventHashMismatch | ExpectedEventCountMismatch | ExpectedChainHashMismatch
    | ExpectedTerminalHashMismatch | ChainMalformed | ChainInvalid

  const ALLOWED_EVENT_TYPES: set<string> := {
    "task_admitted", "authority_bound", "workspace_transaction_prepared", "artifact_registered",
    "executor_started", "executor_completed", "validation_completed"}

  const BASE_EVENT_FIELDS: set<string> := {
    "schema_version", "event_id", "event_type", PREVIOUS, "task_id", "descriptor_hash",
    "authority_receipt_hash", "workspace_transaction_receipt_hash", "artifact_receipt_hash",
    "executor_receipt_hash", "validation_receipt_hash", OWN}

  /** `sha256:` and 64 further characters. */
  predicate IsHash(j: Json) {
    j.Str? && "sha256:" <= j.s && |j.s| == 71
  }

  lemma {:induction false} HashMeans(j: Json)
    ensures IsHash(j) <==> exists rest: string :: |rest| == 64 && j == Str("sha256:" + rest)
  {
    if IsHash(j) {
      assert j.s == "sha256:" + j.s[7..];
    }
  }

  /** Every hash the code computes has that shape. */
  ghost predicate HashShaped(hash: Hash) {
    forall o :: IsHash(Str(hash(o)))
  }

  function RequiredReceipts(eventType: string): set<string> {
    if eventType == "task_admitted" || eventType == "authority_bound" then {"authority_receipt_hash"}
    else if eventType == "workspace_transaction_prepared" then
      {"authority_receipt_hash", "workspace_transaction_receipt_hash"}
    else if eventType == "artifact_registered" then
      {"authority_receipt_hash", "workspace_transaction_receipt_hash", "artifact_receipt_hash"}
    else if eventType == "executor_started" || eventType == "executor_completed" then
      {"authority_receipt_hash", "workspace_transaction_receipt_hash", "artifact_receipt_hash", "executor_receipt_hash"}
    else
      {"authority_receipt_hash", "workspace_transaction_receipt_hash", "artifact_receipt_hash", "executor_receipt_hash",
       "validation_receipt_hash"}
  }

  /** The event has the fields of its type, and no field beyond the base fields. */
  predicate WellFormedEvent(event: Object) {
    && event.Keys <= BASE_EVENT_FIELDS
    && Get(event, "schema_version") == Str("ledger_event.v1")
    && NonEmptyString(Get(event, "event_id"))
    && NonEmptyString(Get(event, PREVIOUS))
    && NonEmptyString(Get(event, "task_id"))
    && Get(event, "event_type").Str? && Get(event, "event_type").s in ALLOWED_EVENT_TYPES
    && IsHash(Get(event, "descriptor_hash"))
    && forall f :: f in RequiredReceipts(Get(event, "event_type").s) ==> IsHash(Get(event, f))
  }

  /** `_event_structure_error`: the first failing check, in the code's order. */
  function EventStructureError(event: Object): (r: Option<Code>)
    ensures r == None <==> WellFormedEvent(event)
  {
    if !(event.Keys <= BASE_EVENT_FIELDS) then Some(ForbiddenField)
    else if !NonEmptyString(Get(event, "schema_version")) then Some(EventMalformed)
    else if !NonEmptyString(Get(event, "event_id")) then Some(EventMalformed)
    else if !NonEmptyString(Get(event, "event_type")) then Some(EventMalformed)
    else if !NonEmptyString(Get(event, PREVIOUS)) then Some(PreviousEventHashRequired)
    else if !NonEmptyString(Get(event, "task_id")) then Some(EventMalformed)
    else if !NonEmptyString(Get(event, "descriptor_hash")) then Some(EventMalformed)
    else if Get(event, "schema_version").s != "ledger_event.v1" then Some(EventMalformed)
    else if Get(event, "event_type").s !in ALLOWED_EVENT_TYPES then Some(EventTypeNotAllowed)
    else if !IsHash(Get(event, "descriptor_hash")) then Some(EventMalformed)
    else if exists f :: f in RequiredReceipts(Get(event, "event_type").s) && !IsHash(Get(event, f))
    then Some(RequiredReceiptHashMissing)
    else None
  }

  /** The fields an event may have, whatever is in them. */
  lemma {:induction false} FieldsAllowed(event: Object)
    ensures EventStructureError(event) == Some(ForbiddenField) <==>
      exists f :: f in event && f !in {
        "schema_version", "event_id", "event_type", "previous_event_hash", "task_id", "descriptor_hash",
        "authority_receipt_hash", "workspace_transaction_receipt_hash", "artifact_receipt_hash",
        "executor_receipt_hash", "validation_receipt_hash", "event_hash"}
  {
    FieldsNamed();
    if f :| f in event && f !in BASE_EVENT_FIELDS {
      assert f in event.Keys;
    }
  }

  lemma {:induction false} FieldsNamed()
    ensures BASE_EVENT_FIELDS == {
        "schema_version", "event_id", "event_type", "previous_event_hash", "task_id", "descriptor_hash",
        "authority_receipt_hash", "workspace_transaction_receipt_hash", "artifact_receipt_hash",
        "executor_receipt_hash", "validation_receipt_hash", "event_hash"}
  {
  }

  /** Which receipts an event must name: those of its stage and of all stages before it. */
  lemma {:induction false} ReceiptsByStage(eventType: string)
    requires eventType in ALLOWED_EVENT_TYPES
    ensures var required := RequiredReceipts(eventType);
      && "authority_receipt_hash" in required
      && ("workspace_transaction_receipt_hash" in required <==> eventType !in {"task_admitted", "authority_bound"})
      && ("artifact_receipt_hash" in required <==>
        eventType in {"artifact_registered", "executor_started", "executor_completed", "validation_completed"})
      && ("executor_receipt_hash" in required <==>
        eventType in {"executor_started", "executor_completed", "validation_completed"})
      && ("validation_receipt_hash" in required <==> eventType == "validation_completed")
      && required <= {
        "authority_receipt_hash", "workspace_transaction_receipt_hash", "artifact_receipt_hash",
        "executor_receipt_hash", "validation_receipt_hash"}
  {
  }

  // ---------------------------------------------------------------- valid ledgers

  ghost predicate DistinctIds(events: seq<Object>) {
    forall i, j :: 0 <= i < j < |events| ==> Get(events[i], "event_id") != Get(events[j], "event_id")
  }

  ghost predicate AllWellFormed(events: seq<Object>) {
    forall i :: 0 <= i < |events| ==> WellFormedEvent(events[i])
  }

  ghost predicate AllHashed(events: seq<Object>) {
    forall i :: 0 <= i < |events| ==> IsHash(Get(events[i], OWN))
  }

  /** Distinct ids, well-formed events, right links and right hashes. */
  ghost predicate ValidChain(events: seq<Object>, hash: Hash) {
    DistinctIds(events) && AllWellFormed(events) && AllHashed(events) && Linked(events, PREVIOUS, OWN, hash)
  }

  function EventHashes(events: seq<Object>): seq<Json> {
    seq(|events|, i requires 0 <= i < |events| => Get(events[i], OWN))
  }

  function ChainBody(events: seq<Object>): Object {
    map["schema_version" := Str("ledger_chain.v1"), "event_hashes" := List(EventHashes(events))]
  }

  /** `_ledger_chain_hash` */
  function ChainHash(events: seq<Object>, hash: Hash): string {
    hash(ChainBody(events))
  }

  /** `_existing_ledger` */
  predicate IsEventList(ledger: Json) {
    ledger.List? && forall i :: 0 <= i < |ledger.items| ==> ledger.items[i].Obj?
  }

  function Events(ledger: Json): (r: seq<Object>)
    requires IsEventList(ledger)
    ensures |r| == |ledger.items|
  {
    seq(|ledger.items|, i requires 0 <= i < |ledger.items| => ledger.items[i].fields)
  }

  /** What the loop carries: the previous hash as it will be compared with. */
  function Carried(events: seq<Object>, i: nat): Json
    requires i <= |events|
  {
    if i == 0 then Str(GENESIS)
    else if Get(events[i - 1], OWN).Str? then Get(events[i - 1], OWN)
    else Str("invalid:" + Numeral(i - 1))
  }

  /** Behind a first event without a hash, only this text is taken for a link. */
  lemma {:induction false} NothingToLinkTo(events: seq<Object>)
    requires events != [] && !Get(events[0], OWN).Str?
    ensures Carried(events, 1) == Str("invalid:0")
  {
    assert Numeral(0) == "0";
  }

  predicate RepeatsId(events: seq<Object>, j: nat)
    requires j < |events|
  {
    && Get(events[j], "event_id").Str?
    && exists i :: 0 <= i < j && Get(events[i], "event_id") == Get(events[j], "event_id")
  }

  predicate BadHash(events: seq<Object>, i: nat, hash: Hash)
    requires i < |events|
  {
    !IsHash(Get(events[i], OWN)) || !Sealed(events[i], OWN, hash)
  }

  predicate BadLink(events: seq<Object>, i: nat)
    requires i < |events|
  {
    Get(events[i], PREVIOUS) != Carried(events, i)
  }

  /** The codes that event `i` contributes. */
  function EventCodes(events: seq<Object>, i: nat, hash: Hash): seq<Code>
    requires i < |events|
  {
    (if RepeatsId(events, i) then [DuplicateEventId] else [])
    + (if EventStructureError(events[i]).Some? then [EventStructureError(events[i]).value] else [])
    + (if BadLink(events, i) then [ChainDiscontinuity] else [])
    + (if BadHash(events, i, hash) then [EventHashMismatch] else [])
  }

  /** What every event contributes. */
  function CodeLists(events: seq<Object>, hash: Hash): (r: seq<seq<Code>>)
    ensures |r| == |events|
  {
    seq(|events|, i requires 0 <= i < |events| => EventCodes(events, i, hash))
  }

  function Flatten(lists: seq<seq<Code>>): seq<Code> {
    if lists == [] then [] else Flatten(lists[..|lists| - 1]) + lists[|lists| - 1]
  }

  lemma {:induction false} FlattenEmpty(lists: seq<seq<Code>>)
    ensures Flatten(lists) == [] <==> forall i :: 0 <= i < |lists| ==> lists[i] == []
  {
    if lists != [] {
      FlattenEmpty(lists[..|lists| - 1]);
    }
  }

  lemma {:induction false} FlattenMember(lists: seq<seq<Code>>, code: Code)
    ensures code in Flatten(lists) <==> exists i :: 0 <= i < |lists| && code in lists[i]
  {
    if lists != [] {
      var init := lists[..|lists| - 1];
      FlattenMember(init, code);
      if code in Flatten(init) {
        var i :| 0 <= i < |init| && code in init[i];
        assert code in lists[i];
      }
    }
  }

  /** Event `i` shows the fault that `code` stands for. */
  predicate Shows(events: seq<Object>, i: nat, hash: Hash, code: Code)
    requires i < |events|
  {
    code in EventCodes(events, i, hash)
  }

  /** A code is collected exactly when some event shows its fault. */
  lemma {:induction false} CodesExplained(events: seq<Object>, hash: Hash, code: Code)
    ensures code in Flatten(CodeLists(events, hash)) <==> exists i :: 0 <= i < |events| && Shows(events, i, hash, code)
  {
    var lists := CodeLists(events, hash);
    FlattenMember(lists, code);
    if code in Flatten(lists) {
      var i :| 0 <= i < |lists| && code in lists[i];
      assert Shows(events, i, hash, code);
    }
    if i :| 0 <= i < |events| && Shows(events, i, hash, code) {
      assert code in lists[i];
    }
  }

  const STRUCTURE_CODES: set<Code> := {
    EventMalformed, EventTypeNotAllowed, ForbiddenField, PreviousEventHashRequired, RequiredReceiptHashMissing}

  lemma {:induction false} ShownAt(events: seq<Object>, i: nat, hash: Hash, code: Code)
    requires i < |events|
    ensures Shows(events, i, hash, code) <==>
      || (code == DuplicateEventId && RepeatsId(events, i))
      || EventStructureError(events[i]) == Some(code)
      || (code == ChainDiscontinuity && BadLink(events, i))
      || (code == EventHashMismatch && BadHash(events, i, hash))
  {
  }

  lemma {:induction false} StructureCodes(event: Object)
    ensures EventStructureError(event).Some? ==> EventStructureError(event).value in STRUCTURE_CODES
  {
  }

  lemma {:induction false} CleanEventsAreValid(events: seq<Object>, hash: Hash)
    ensures ValidChain(events, hash) <==> Flatten(CodeLists(events, hash)) == []
  {
    FlattenEmpty(CodeLists(events, hash));
    assert (forall i :: 0 <= i < |events| ==> CodeLists(events, hash)[i] == EventCodes(events, i, hash));
    EachEventClean(events, hash);
  }

  lemma {:induction false} EachEventClean(events: seq<Object>, hash: Hash)
    ensures ValidChain(events, hash) <==> forall i :: 0 <= i < |events| ==> EventCodes(events, i, hash) == []
  {
    if forall i :: 0 <= i < |events| ==> EventCodes(events, i, hash) == [] {
      forall i | 0 <= i < |events|
        ensures WellFormedEvent(events[i]) && !RepeatsId(events, i) && !BadLink(events, i) && !BadHash(events, i, hash)
      {
        assert EventCodes(events, i, hash) == [];
      }
      forall i | 0 <= i < |events| ensures EntryLinked(events, i, PREVIOUS, OWN, hash) {
        assert !BadHash(events, i, hash) && !BadLink(events, i);
        if i > 0 { assert !BadHash(events, i - 1, hash); }
      }
      forall i, j | 0 <= i < j < |events| ensures Get(events[i], "event_id") != Get(events[j], "event_id") {
        assert !RepeatsId(events, j) && WellFormedEvent(events[j]);
      }
    }
    if ValidChain(events, hash) {
      forall i | 0 <= i < |events| ensures EventCodes(events, i, hash) == [] {
        assert EntryLinked(events, i, PREVIOUS, OWN, hash) && WellFormedEvent(events[i]);
        assert IsHash(Get(events[i], OWN));
        if i > 0 { assert IsHash(Get(events[i - 1], OWN)); }
      }
    }
  }

  const EXPECTATION_CODES: set<Code> := {
    ExpectedEventCountMismatch, ExpectedChainHashMismatch, ExpectedTerminalHashMismatch}

  datatype ChainReport = ChainReport(accepted: bool, codes: seq<Code>, chainHash: Option<string>)

  datatype Expectations = Expectations(count: Option<int>, chainHash: Option<string>, terminal: Option<string>)

  /** The expectations a caller can add to the validation of a valid chain. */
  ghost predicate Meets(events: seq<Object>, expected: Expectations, hash: Hash) {
    && (expected.count.Some? ==> |events| == expected.count.value)
    && (expected.chainHash.Some? ==> ChainHash(events, hash) == expected.chainHash.value)
    && (expected.terminal.Some? ==> TailHash(events, OWN) == Str(expected.terminal.value))
  }

  /** The string ids of the first `n` events. */
  ghost predicate SeenIds(events: seq<Object>, n: nat, seen: set<Json>)
    requires n <= |events|
  {
    && (forall i :: 0 <= i < n && Get(events[i], "event_id").Str? ==> Get(events[i], "event_id") in seen)
    && (forall id :: id in seen ==> id.Str? && exists i :: 0 <= i < n && Get(events[i], "event_id") == id)
  }

  lemma {:induction false} RepeatIsSeen(events: seq<Object>, n: nat, seen: set<Json>)
    requires n < |events| && SeenIds(events, n, seen)
    ensures var id := Get(events[n], "event_id");
      && (id.Str? && id in seen <==> RepeatsId(events, n))
      && SeenIds(events, n + 1, if id.Str? then seen + {id} else seen)
  {
    var id := Get(events[n], "event_id");
    forall x | x in seen ensures exists i :: 0 <= i < n + 1 && Get(events[i], "event_id") == x {
      var i :| 0 <= i < n && Get(events[i], "event_id") == x;
    }
  }

  /** The loop over the events: ids seen so far, the previous hash, and the codes collected. */
  method CollectEventCodes(events: seq<Object>, hash: Hash) returns (codes: seq<Code>)
    ensures codes == Flatten(CodeLists(events, hash))
  {
    codes := [];
    var seen: set<Json> := {};
    var previous := Str(GENESIS);
    ghost var lists := CodeLists(events, hash);
    for index := 0 to |events|
      invariant previous == Carried(events, index)
      invariant SeenIds(events, index, seen)
      invariant codes == Flatten(lists[..index])
    {
      assert lists[..index + 1][..index] == lists[..index];
      RepeatIsSeen(events, index, seen);
      var found := CheckEvent(events, index, seen, previous, hash);
      if Get(events[index], "event_id").Str? {
        seen := seen + {Get(events[index], "event_id")};
      }
      codes := codes + found;
      var provided := Get(events[index], OWN);
      previous := if provided.Str? then provided else Str("invalid:" + Numeral(index));
    }
    assert lists[..|events|] == lists;
  }

  /** The body of that loop, without its bookkeeping. */
  method CheckEvent(events: seq<Object>, index: nat, seen: set<Json>, previous: Json, hash: Hash)
    returns (found: seq<Code>)
    requires index < |events| && previous == Carried(events, index)
    requires var id := Get(events[index], "event_id"); id.Str? && id in seen <==> RepeatsId(events, index)
    ensures found == EventCodes(events, index, hash)
  {
    var event := events[index];
    var id := Get(event, "event_id");
    found := [];
    if id.Str? && id in seen {
      found := [DuplicateEventId];
    }
    var structure := EventStructureError(event);
    if structure.Some? {
      found := found + [structure.value];
    }
    if Get(event, PREVIOUS) != previous {
      found := found + [ChainDiscontinuity];
    }
    var provided := Get(event, OWN);
    if !IsHash(provided) || Str(hash(event - {OWN})) != provided {
      found := found + [EventHashMismatch];
    }
  }

  /** The comparisons with what the caller expects; without a chain hash there is nothing to match. */
  function ExpectationCodes(events: seq<Object>, chainHash: Option<string>, expected: Expectations): (r: seq<Code>)
    ensures forall code :: code in r ==> code in EXPECTATION_CODES
  {
    (if expected.count.Some? && |events| != expected.count.value then [ExpectedEventCountMismatch] else [])
    + (if expected.chainHash.Some? && chainHash != expected.chainHash then [ExpectedChainHashMismatch] else [])
    + (if expected.terminal.Some? && TailHash(events, OWN) != Str(expected.terminal.value)
       then [ExpectedTerminalHashMismatch] else [])
  }

  lemma {:induction false} ExpectationsMet(events: seq<Object>, expected: Expectations, hash: Hash)
    ensures ExpectationCodes(events, Some(ChainHash(events, hash)), expected) == [] <==> Meets(events, expected, hash)
  {
  }

  /** The codes of a rejection: those of the events, then those of the expectations, without repeats. */
  function ChainCodes(events: seq<Object>, expected: Expectations, hash: Hash): seq<Code> {
    var shown := Flatten(CodeLists(events, hash));
    var chainHash := if shown == [] then Some(ChainHash(events, hash)) else None;
    FirstSeen(shown + ExpectationCodes(events, chainHash, expected))
  }

  lemma {:induction false} NoCodesIffMet(events: seq<Object>, expected: Expectations, hash: Hash)
    ensures ChainCodes(events, expected, hash) == [] <==> ValidChain(events, hash) && Meets(events, expected, hash)
  {
    CleanEventsAreValid(events, hash);
    ExpectationsMet(events, expected, hash);
    var shown := Flatten(CodeLists(events, hash));
    var chainHash := if shown == [] then Some(ChainHash(events, hash)) else None;
    var all := shown + ExpectationCodes(events, chainHash, expected);
    if all != [] { assert all[0] in FirstSeen(all); }
  }

  /** Event `i` has the fault that `code` names. */
  predicate HasFault(events: seq<Object>, i: nat, hash: Hash, code: Code)
    requires i < |events|
  {
    match code
    case DuplicateEventId => RepeatsId(events, i)
    case ChainDiscontinuity => BadLink(events, i)
    case EventHashMismatch => BadHash(events, i, hash)
    case _ => EventStructureError(events[i]) == Some(code)
  }

  /** The ledger misses the expectation that `code` names. The chain hash counts as missed also when any
      event has a fault, because then there is none to compare. */
  ghost predicate Misses(events: seq<Object>, expected: Expectations, hash: Hash, code: Code) {
    match code
    case ExpectedEventCountMismatch => expected.count.Some? && |events| != expected.count.value
    case ExpectedTerminalHashMismatch => expected.terminal.Some? &&
      TailHash(events, OWN) != Str(expected.terminal.value)
    case ExpectedChainHashMismatch =>
      expected.chainHash.Some? && (!ValidChain(events, hash) || ChainHash(events, hash) != expected.chainHash.value)
    case _ => false
  }

  /** A rejection lists exactly the faults that some event has and the expectations that are missed. */
  lemma {:induction false} CodesMean(events: seq<Object>, expected: Expectations, hash: Hash, code: Code)
    ensures code in ChainCodes(events, expected, hash) <==>
      || Misses(events, expected, hash, code)
      || exists i :: 0 <= i < |events| && HasFault(events, i, hash, code)
  {
    FaultsAreShown(events, hash, code);
    if code in EXPECTATION_CODES {
      NoExpectationShown(events, hash, code);
      ExpectationCodesMean(events, expected, hash, code);
    } else {
      CodesExplained(events, hash, code);
    }
  }

  lemma {:induction false} FaultsAreShown(events: seq<Object>, hash: Hash, code: Code)
    ensures forall i :: 0 <= i < |events| ==> (Shows(events, i, hash, code) <==> HasFault(events, i, hash, code))
  {
    forall i | 0 <= i < |events| ensures Shows(events, i, hash, code) <==> HasFault(events, i, hash, code) {
      ShownAt(events, i, hash, code);
      StructureCodes(events[i]);
    }
  }

  lemma {:induction false} ExpectationCodesMean(events: seq<Object>, expected: Expectations, hash: Hash, code: Code)
    requires code in EXPECTATION_CODES
    ensures code in ChainCodes(events, expected, hash) <==> Misses(events, expected, hash, code)
  {
    CleanEventsAreValid(events, hash);
    NoExpectationShown(events, hash, code);
  }

  lemma {:induction false} NoExpectationShown(events: seq<Object>, hash: Hash, code: Code)
    requires code in EXPECTATION_CODES
    ensures code !in Flatten(CodeLists(events, hash))
    ensures forall i :: 0 <= i < |events| ==> !HasFault(events, i, hash, code)
  {
    forall i | 0 <= i < |events| ensures !HasFault(events, i, hash, code) {
      StructureCodes(events[i]);
    }
    FaultsAreShown(events, hash, code);
    CodesExplained(events, hash, code);
  }

  /** `validate_ledger_chain`. Accepted exactly when the input is a list of events that form a valid
      chain and meet the caller's expectations; a rejection carries the codes explained above. */
  method ValidateLedgerChain(ledger: Json, expected: Expectations, hash: Hash) returns (report: ChainReport)
    ensures report.accepted <==>
      IsEventList(ledger) && ValidChain(Events(ledger), hash) && Meets(Events(ledger), expected, hash)
    ensures report.accepted ==> report.codes == [] && report.chainHash == Some(ChainHash(Events(ledger), hash))
    ensures !report.accepted ==> report.codes != [] && NoRepeats(report.codes) && report.chainHash == None
    ensures !IsEventList(ledger) ==> report.codes == [ChainMalformed]
    ensures IsEventList(ledger) ==> report.codes == ChainCodes(Events(ledger), expected, hash)
  {
    if !IsEventList(ledger) {
      return ChainReport(false, [ChainMalformed], None);
    }
    var events := Events(ledger);
    var codes := CollectEventCodes(events, hash);
    var chainHash := if codes == [] then Some(ChainHash(events, hash)) else None;
    var all := codes + ExpectationCodes(events, chainHash, expected);
    NoCodesIffMet(events, expected, hash);
    if all != [] {
      return ChainReport(false, FirstSeen(all), None);
    }
    report := ChainReport(true, [], chainHash);
  }

  /** The same without expectations. */
  method ValidateEvents(ledger: Json, hash: Hash) returns (valid: bool)
    ensures valid <==> IsEventList(ledger) && ValidChain(Events(ledger), hash)
  {
    var report := ValidateLedgerChain(ledger, Expectations(None, None, None), hash);
    valid := report.accepted;
  }

  // ---------------------------------------------------------------- appending

  function AppendReceiptBody(event: Object, index: nat, chainHash: string): Object {
    map[
      "schema_version" := Str("ledger_append_receipt.v1"),
      "event_id" := Get(event, "event_id"),
      "event_type" := Get(event, "event_type"),
      "event_index" := Int(index),
      "event_hash" := Get(event, OWN),
      "previous_event_hash" := Get(event, PREVIOUS),
      "ledger_chain_hash" := Str(chainHash),
      "task_id" := Get(event, "task_id"),
      "descriptor_hash" := Get(event, "descriptor_hash"),
      "authority_receipt_hash" := Get(event, "authority_receipt_hash"),
      "workspace_transaction_receipt_hash" := Get(event, "workspace_transaction_receipt_hash"),
      "artifact_receipt_hash" := Get(event, "artifact_receipt_hash"),
      "executor_receipt_hash" := Get(event, "executor_receipt_hash"),
      "validation_receipt_hash" := Get(event, "validation_receipt_hash"),
      "replay_engine_performed" := Bool(false),
      "executor_invocation_performed" := Bool(false),
      "tool_invocation_performed" := Bool(false),
      "llm_invocation_performed" := Bool(false),
      "network_access_performed" := Bool(false),
      "receipt_hash" := Str("")]
  }

  /** `_append_receipt`: the receipt of an appended event, sealed with its own hash. */
  function AppendReceipt(event: Object, index: nat, chainHash: string, hash: Hash): Object {
    Seal(AppendReceiptBody(event, index, chainHash), "receipt_hash", hash)
  }

  /** `verify_ledger_append_receipt` */
  predicate VerifyAppendReceipt(receipt: Object, hash: Hash) {
    var provided := Get(receipt, "receipt_hash");
    provided.Str? && "sha256:" <= provided.s && hash(receipt - {"receipt_hash"}) == provided.s
  }

  datatype AppendResult = Appended(event: Object, receipt: Object, ledger: seq<Object>) | Refused(code: Code)

  predicate IdTaken(events: seq<Object>, event: Object) {
    exists i :: 0 <= i < |events| && Get(events[i], "event_id") == Get(event, "event_id")
  }

  /** What `append_event` computes on a list of events. */
  ghost function Append(events: seq<Object>, event: Object, hash: Hash): AppendResult {
    if events != [] && !ValidChain(events, hash) then Refused(ChainInvalid)
    else if !WellFormedEvent(event) then Refused(EventStructureError(event).value)
    else if IdTaken(events, event) then Refused(DuplicateEventId)
    else if Get(event, PREVIOUS) != TailHash(events, OWN) then Refused(PreviousEventHashMismatch)
    else
      var stored := Seal(event, OWN, hash);
      var ledger := events + [stored];
      Appended(stored, AppendReceipt(stored, |events|, ChainHash(ledger, hash), hash), ledger)
  }

  method AppendEvent(ledger: Json, event: Json, hash: Hash) returns (r: AppendResult)
    ensures IsEventList(ledger) && event.Obj? ==> r == Append(Events(ledger), event.fields, hash)
    ensures !(IsEventList(ledger) && event.Obj?) ==> r == Refused(EventMalformed)
  {
    if !IsEventList(ledger) || !event.Obj? {
      return Refused(EventMalformed);
    }
    var events := Events(ledger);
    if events != [] {
      var valid := ValidateEvents(ledger, hash);
      if !valid {
        return Refused(ChainInvalid);
      }
    }
    var eventMap := event.fields;
    var structure := EventStructureError(eventMap);
    if structure.Some? {
      return Refused(structure.value);
    }
    if IdTaken(events, eventMap) {
      return Refused(DuplicateEventId);
    }
    var expectedPrevious := if events != [] then Get(events[|events| - 1], OWN) else Str(GENESIS);
    if Get(eventMap, PREVIOUS) != expectedPrevious {
      return Refused(PreviousEventHashMismatch);
    }
    var stored := Seal(eventMap, OWN, hash);
    var next := events + [stored];
    var receipt := AppendReceipt(stored, |events|, ChainHash(next, hash), hash);
    r := Appended(stored, receipt, next);
  }
}
