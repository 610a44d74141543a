/** The agent loop's ledger of receipts (runtime_lab/agent_loop/ledger.py). */
module LoopLedger {
  import opened Json
  import opened HashChain

  const PREVIOUS: string := "previous_event_hash"
  const OWN: string := "event_hash"

  function EventBody(runId: string, sequence: int, receiptHash: Json, previous: Json): Object {
    map[
      "schema_version" := Str("1.0"),
      "ledger_version" := Str("agent_loop_ledger.v0"),
      "run_id" := Str(runId),
      "sequence" := Int(sequence),
      "event_type" := Str("agent_loop.receipt_recorded"),
      "receipt_hash" := receiptHash,
      PREVIOUS := previous]
  }

  /** The ledger with one more receipt. */
  function Record(events: seq<Object>, runId: string, receiptHash: Json, hash: Hash): seq<Object> {
    events + [Seal(EventBody(runId, |events| + 1, receiptHash, TailHash(events, OWN)), OWN, hash)]
  }

  /** What `build_ledger_events` computes, as a value. */
  function BuiltEvents(runId: string, receiptHashes: seq<Json>, hash: Hash): (r: seq<Object>)
    ensures |r| == |receiptHashes|
  {
    if receiptHashes == [] then [] else
    var n := |receiptHashes| - 1;
    Record(BuiltEvents(runId, receiptHashes[..n], hash), runId, receiptHashes[n], hash)
  }

  method BuildLedgerEvents(runId: string, receiptHashes: seq<Json>, hash: Hash) returns (events: seq<Object>)
    ensures events == BuiltEvents(runId, receiptHashes, hash)
  {
    events := [];
    var previousHash := Str(GENESIS);
    for index := 0 to |receiptHashes|
      invariant events == BuiltEvents(runId, receiptHashes[..index], hash)
      invariant previousHash == TailHash(events, OWN)
    {
      assert receiptHashes[..index + 1][..index] == receiptHashes[..index];
      var body := EventBody(runId, index + 1, receiptHashes[index], previousHash);
      var event := Seal(body, OWN, hash);
      events := events + [event];
      previousHash := event[OWN];
    }
    assert receiptHashes[..|receiptHashes|] == receiptHashes;
  }

  method VerifyLedgerEvents(events: seq<Object>, hash: Hash) returns (ok: bool)
    ensures ok <==> Linked(events, PREVIOUS, OWN, hash)
  {
    var previousHash := Str(GENESIS);
    for index := 0 to |events|
      invariant previousHash == Before(events, index, OWN)
      invariant forall i :: 0 <= i < index ==> EntryLinked(events, i, PREVIOUS, OWN, hash)
    {
      var event := events[index];
      if Get(event, PREVIOUS) != previousHash || Str(hash(event - {OWN})) != Get(event, OWN) {
        assert !EntryLinked(events, index, PREVIOUS, OWN, hash);
        return false;
      }
      previousHash := Get(event, OWN);
    }
    ok := true;
  }

  /** Event `i` records this receipt. */
  predicate Records(events: seq<Object>, i: nat, runId: string, receiptHash: Json)
    requires i < |events|
  {
    && Get(events[i], "run_id") == Str(runId)
    && Get(events[i], "sequence") == Int(i + 1)
    && Get(events[i], "receipt_hash") == receiptHash
    && Get(events[i], "event_type") == Str("agent_loop.receipt_recorded")
    && Get(events[i], "schema_version") == Str("1.0")
    && Get(events[i], "ledger_version") == Str("agent_loop_ledger.v0")
  }

  lemma {:induction false} RecordFields(events: seq<Object>, runId: string, receiptHash: Json, hash: Hash)
    ensures var longer := Record(events, runId, receiptHash, hash);
      && Records(longer, |events|, runId, receiptHash)
      && EntryLinked(longer, |events|, PREVIOUS, OWN, hash)
  {
    SealIsSealed(EventBody(runId, |events| + 1, receiptHash, TailHash(events, OWN)), OWN, hash);
    assert PREVIOUS != OWN && "run_id" != OWN && "sequence" != OWN && "receipt_hash" != OWN;
    assert "event_type" != OWN && "schema_version" != OWN && "ledger_version" != OWN;
  }

  /** A built ledger verifies and records its receipts in order. */
  lemma {:induction false} BuiltEventsVerify(runId: string, receiptHashes: seq<Json>, hash: Hash)
    ensures var events := BuiltEvents(runId, receiptHashes, hash);
      && Linked(events, PREVIOUS, OWN, hash)
      && forall i :: 0 <= i < |events| ==> Records(events, i, runId, receiptHashes[i])
  {
    if receiptHashes != [] {
      var n := |receiptHashes| - 1;
      var init := BuiltEvents(runId, receiptHashes[..n], hash);
      var events := BuiltEvents(runId, receiptHashes, hash);
      BuiltEventsVerify(runId, receiptHashes[..n], hash);
      RecordFields(init, runId, receiptHashes[n], hash);
      forall i | 0 <= i < |events|
        ensures EntryLinked(events, i, PREVIOUS, OWN, hash) && Records(events, i, runId, receiptHashes[i])
      {
        if i < n {
          assert EntryLinked(init, i, PREVIOUS, OWN, hash) && Records(init, i, runId, receiptHashes[..n][i]);
        }
      }
    }
  }

  /** The tail hash pins the ledger: a verified ledger with the tail of a built one is that ledger, and so
      records the same receipts in the same order. */
  lemma {:induction false} TailHashPinsReceipts(events: seq<Object>, runId: string, receiptHashes: seq<Json>,
                                                hash: Hash)
    requires NeverGenesis(hash)
    requires TellsEntriesApart(events, BuiltEvents(runId, receiptHashes, hash), OWN, hash)
    requires Linked(events, PREVIOUS, OWN, hash)
    requires TailHash(events, OWN) == TailHash(BuiltEvents(runId, receiptHashes, hash), OWN)
    ensures events == BuiltEvents(runId, receiptHashes, hash)
    ensures forall i :: 0 <= i < |events| ==> Records(events, i, runId, receiptHashes[i])
  {
    var built := BuiltEvents(runId, receiptHashes, hash);
    BuiltEventsVerify(runId, receiptHashes, hash);
    forall i | 0 <= i < |events| ensures Get(events[i], OWN) != Str(GENESIS) {
      assert EntryLinked(events, i, PREVIOUS, OWN, hash);
    }
    forall i | 0 <= i < |built| ensures Get(built[i], OWN) != Str(GENESIS) {
      assert EntryLinked(built, i, PREVIOUS, OWN, hash);
    }
    TailPinsLog(events, built, PREVIOUS, OWN, hash);
  }
}
