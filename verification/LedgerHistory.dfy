/** Whole histories of the ledger: what every sequence of appends keeps, and what its hashes pin. */
module LedgerHistory {
  import opened Json
  import opened HashChain
  import opened Ledger

  lemma {:induction false} PrefixValid(events: seq<Object>, n: nat, hash: Hash)
    requires n <= |events| && ValidChain(events, hash)
    ensures ValidChain(events[..n], hash)
  {
    PrefixLinked(events, n, PREVIOUS, OWN, hash);
    assert forall i :: 0 <= i < n ==> events[..n][i] == events[i];
  }

  lemma {:induction false} ValidAvoidsGenesis(events: seq<Object>)
    requires AllHashed(events)
    ensures AvoidsGenesis(events, OWN)
  {
    forall i | 0 <= i < |events| ensures Get(events[i], OWN) != Str(GENESIS) {
      assert IsHash(Get(events[i], OWN));
      assert |GENESIS| == 7;
    }
  }

  /** Two ledgers that validate and end in the same event hash are the same ledger. */
  lemma {:induction false} TailHashPinsLedger(a: seq<Object>, b: seq<Object>, hash: Hash)
    requires TellsEntriesApart(a, b, OWN, hash) && ValidChain(a, hash) && ValidChain(b, hash)
    requires TailHash(a, OWN) == TailHash(b, OWN)
    ensures a == b
  {
    ValidAvoidsGenesis(a);
    ValidAvoidsGenesis(b);
    TailPinsLog(a, b, PREVIOUS, OWN, hash);
  }

  /** The hash tells apart what the chain hashes of the two ledgers are made of. */
  ghost predicate TellsLedgersApart(a: seq<Object>, b: seq<Object>, hash: Hash) {
    TellsEntriesApart(a, b, OWN, hash) && TellsApart(hash, ChainBody(a), ChainBody(b))
  }

  /** So do two ledgers with the same chain hash. */
  lemma {:induction false} ChainHashPinsLedger(a: seq<Object>, b: seq<Object>, hash: Hash)
    requires TellsLedgersApart(a, b, hash) && ValidChain(a, hash) && ValidChain(b, hash)
    requires ChainHash(a, hash) == ChainHash(b, hash)
    ensures a == b
  {
    assert ChainBody(a)["event_hashes"] == ChainBody(b)["event_hashes"];
    if a != [] {
      assert EventHashes(a)[|a| - 1] == EventHashes(b)[|b| - 1];
    }
    TailHashPinsLedger(a, b, hash);
  }

  lemma {:induction false} SealingKeepsShape(event: Object, hash: Hash)
    ensures WellFormedEvent(event) ==> WellFormedEvent(Seal(event, OWN, hash))
  {
    SealIsSealed(event, OWN, hash);
  }

  lemma {:induction false} DistinctAfterAppend(events: seq<Object>, stored: Object)
    requires DistinctIds(events)
    requires forall i :: 0 <= i < |events| ==> Get(events[i], "event_id") != Get(stored, "event_id")
    ensures DistinctIds(events + [stored])
  {
    var ledger := events + [stored];
    forall i, j | 0 <= i < j < |ledger| ensures Get(ledger[i], "event_id") != Get(ledger[j], "event_id") {
      if j < |events| {
        assert Get(events[i], "event_id") != Get(events[j], "event_id");
      }
    }
  }

  /** An accepted append extends a valid ledger by one event and leaves it valid. */
  lemma {:induction false} AppendKeepsValid(events: seq<Object>, event: Object, hash: Hash)
    requires ValidChain(events, hash) && HashShaped(hash)
    requires Append(events, event, hash).Appended?
    ensures var r := Append(events, event, hash);
      r.ledger == events + [r.event] && ValidChain(r.ledger, hash)
  {
    var stored := Seal(event, OWN, hash);
    SealingKeepsShape(event, hash);
    SealIsSealed(event, OWN, hash);
    assert IsHash(Get(stored, OWN));
    LinkedSnoc(events, stored, PREVIOUS, OWN, hash);
    DistinctAfterAppend(events, stored);
  }

  /** The receipt of an append verifies and records the position and the chain hash. */
  lemma {:induction false} AppendReceiptVerifies(event: Object, index: nat, chainHash: string, hash: Hash)
    requires HashShaped(hash)
    ensures var receipt := AppendReceipt(event, index, chainHash, hash);
      && VerifyAppendReceipt(receipt, hash)
      && Get(receipt, "event_index") == Int(index)
      && Get(receipt, "event_hash") == Get(event, OWN)
      && Get(receipt, "ledger_chain_hash") == Str(chainHash)
  {
    var body := AppendReceiptBody(event, index, chainHash);
    AppendReceiptFields(event, index, chainHash);
    SealIsSealed(body, "receipt_hash", hash);
    assert IsHash(Str(hash(body - {"receipt_hash"})));
  }

  lemma {:induction false} AppendReceiptFields(event: Object, index: nat, chainHash: string)
    ensures var body := AppendReceiptBody(event, index, chainHash);
      && Get(body, "event_index") == Int(index)
      && Get(body, "event_hash") == Get(event, OWN)
      && Get(body, "ledger_chain_hash") == Str(chainHash)
  {
  }

  /** What the receipt of an append repeats from the event. */
  const REPEATED: set<string> := {
    "event_id", "event_type", "previous_event_hash", "task_id", "descriptor_hash", "authority_receipt_hash",
    "workspace_transaction_receipt_hash", "artifact_receipt_hash", "executor_receipt_hash", "validation_receipt_hash"}

  lemma {:induction false} AppendReceiptRepeats(event: Object, index: nat, chainHash: string, hash: Hash)
    ensures forall f :: f in REPEATED ==> Get(AppendReceipt(event, index, chainHash, hash), f) == Get(event, f)
  {
    var body := AppendReceiptBody(event, index, chainHash);
    SealIsSealed(body, "receipt_hash", hash);
    ReceiptIdentifies(event, index, chainHash);
    ReceiptLinks(event, index, chainHash);
    ReceiptDescribes(event, index, chainHash);
    ReceiptNamesWork(event, index, chainHash);
    ReceiptNamesRuns(event, index, chainHash);
    RepeatsEach(body, event);
    OwnFieldApart();
  }

  lemma {:induction false} OwnFieldApart()
    ensures "receipt_hash" !in REPEATED
  {
  }

  lemma {:induction false} RepeatsEach(body: Object, event: Object)
    requires Get(body, "event_id") == Get(event, "event_id")
    requires Get(body, "event_type") == Get(event, "event_type")
    requires Get(body, "previous_event_hash") == Get(event, "previous_event_hash")
    requires Get(body, "task_id") == Get(event, "task_id")
    requires Get(body, "descriptor_hash") == Get(event, "descriptor_hash")
    requires Get(body, "authority_receipt_hash") == Get(event, "authority_receipt_hash")
    requires Get(body, "workspace_transaction_receipt_hash") == Get(event, "workspace_transaction_receipt_hash")
    requires Get(body, "artifact_receipt_hash") == Get(event, "artifact_receipt_hash")
    requires Get(body, "executor_receipt_hash") == Get(event, "executor_receipt_hash")
    requires Get(body, "validation_receipt_hash") == Get(event, "validation_receipt_hash")
    ensures forall f :: f in REPEATED ==> Get(body, f) == Get(event, f)
  {
  }

  lemma {:induction false} ReceiptIdentifies(event: Object, index: nat, chainHash: string)
    ensures Get(AppendReceiptBody(event, index, chainHash), "event_id") == Get(event, "event_id")
    ensures Get(AppendReceiptBody(event, index, chainHash), "event_type") == Get(event, "event_type")
  {
  }

  lemma {:induction false} ReceiptLinks(event: Object, index: nat, chainHash: string)
    ensures var body := AppendReceiptBody(event, index, chainHash);
      && Get(body, "previous_event_hash") == Get(event, "previous_event_hash")
      && Get(body, "task_id") == Get(event, "task_id")
  {
  }

  lemma {:induction false} ReceiptDescribes(event: Object, index: nat, chainHash: string)
    ensures var body := AppendReceiptBody(event, index, chainHash);
      && Get(body, "descriptor_hash") == Get(event, "descriptor_hash")
      && Get(body, "authority_receipt_hash") == Get(event, "authority_receipt_hash")
  {
  }

  lemma {:induction false} ReceiptNamesWork(event: Object, index: nat, chainHash: string)
    ensures var body := AppendReceiptBody(event, index, chainHash);
      && Get(body, "workspace_transaction_receipt_hash") == Get(event, "workspace_transaction_receipt_hash")
      && Get(body, "artifact_receipt_hash") == Get(event, "artifact_receipt_hash")
  {
  }

  lemma {:induction false} ReceiptNamesRuns(event: Object, index: nat, chainHash: string)
    ensures var body := AppendReceiptBody(event, index, chainHash);
      && Get(body, "executor_receipt_hash") == Get(event, "executor_receipt_hash")
      && Get(body, "validation_receipt_hash") == Get(event, "validation_receipt_hash")
  {
  }

  /** Offer events one after the other; a refused event leaves the ledger as it was. */
  ghost function Run(events: seq<Object>, inputs: seq<Object>, hash: Hash): seq<Object>
    decreases |inputs|
  {
    if inputs == [] then events else
    match Append(events, inputs[0], hash)
    case Appended(_, _, ledger) => Run(ledger, inputs[1..], hash)
    case Refused(_) => Run(events, inputs[1..], hash)
  }

  /** The receipts handed out along the way. */
  ghost function Receipts(events: seq<Object>, inputs: seq<Object>, hash: Hash): seq<Object>
    decreases |inputs|
  {
    if inputs == [] then [] else
    match Append(events, inputs[0], hash)
    case Appended(_, receipt, ledger) => [receipt] + Receipts(ledger, inputs[1..], hash)
    case Refused(_) => Receipts(events, inputs[1..], hash)
  }

  /** The receipt was issued for the event at `index` of this ledger, when it was the last one. */
  ghost predicate ReceiptFor(receipt: Object, ledger: seq<Object>, index: nat, hash: Hash)
    requires index < |ledger|
  {
    && VerifyAppendReceipt(receipt, hash)
    && Get(receipt, "event_index") == Int(index)
    && Get(receipt, "event_hash") == Get(ledger[index], OWN)
    && Get(receipt, "ledger_chain_hash") == Str(ChainHash(ledger[..index + 1], hash))
    && forall f :: f in REPEATED ==> Get(receipt, f) == Get(ledger[index], f)
  }

  lemma {:induction false} EveryRunValid(events: seq<Object>, inputs: seq<Object>, hash: Hash)
    requires ValidChain(events, hash) && HashShaped(hash)
    ensures ValidChain(Run(events, inputs, hash), hash) && events <= Run(events, inputs, hash)
    ensures |Receipts(events, inputs, hash)| == |Run(events, inputs, hash)| - |events|
    decreases |inputs|
  {
    if inputs != [] {
      var r := Append(events, inputs[0], hash);
      if r.Refused? {
        EveryRunValid(events, inputs[1..], hash);
      } else {
        AppendKeepsValid(events, inputs[0], hash);
        EveryRunValid(r.ledger, inputs[1..], hash);
      }
    }
  }

  /** The receipt of an accepted append is for the new event, in every ledger that grows from here. */
  lemma {:induction false} AppendIssuesReceipt(events: seq<Object>, event: Object, final: seq<Object>, hash: Hash)
    requires HashShaped(hash) && Append(events, event, hash).Appended?
    requires Append(events, event, hash).ledger <= final
    ensures |events| < |final| && ReceiptFor(Append(events, event, hash).receipt, final, |events|, hash)
  {
    var r := Append(events, event, hash);
    LastReceipt(r.ledger, |events|, hash);
    ReceiptStaysFor(r.receipt, r.ledger, |events|, final, hash);
  }

  lemma {:induction false} LastReceipt(ledger: seq<Object>, last: nat, hash: Hash)
    requires HashShaped(hash) && |ledger| == last + 1
    ensures ReceiptFor(AppendReceipt(ledger[last], last, ChainHash(ledger, hash), hash), ledger, last, hash)
  {
    AppendReceiptVerifies(ledger[last], last, ChainHash(ledger, hash), hash);
    AppendReceiptRepeats(ledger[last], last, ChainHash(ledger, hash), hash);
    assert ledger[..last + 1] == ledger;
  }

  lemma {:induction false} ReceiptStaysFor(receipt: Object, ledger: seq<Object>, index: nat, final: seq<Object>,
                                           hash: Hash)
    requires index < |ledger| && ledger <= final && ReceiptFor(receipt, ledger, index, hash)
    ensures ReceiptFor(receipt, final, index, hash)
  {
    assert final[index] == ledger[index];
    assert final[..index + 1] == ledger[..index + 1];
  }

  /** The receipts verify and count the events from `from` on up by one, to the end of the ledger. */
  ghost predicate ReceiptsFor(receipts: seq<Object>, ledger: seq<Object>, from: nat, hash: Hash) {
    && from + |receipts| == |ledger|
    && forall k :: 0 <= k < |receipts| ==> ReceiptFor(receipts[k], ledger, from + k, hash)
  }

  lemma {:induction false} ReceiptsForCons(receipt: Object, tail: seq<Object>, ledger: seq<Object>, from: nat,
                                           hash: Hash)
    requires from < |ledger| && ReceiptFor(receipt, ledger, from, hash)
    requires ReceiptsFor(tail, ledger, from + 1, hash)
    ensures ReceiptsFor([receipt] + tail, ledger, from, hash)
  {
    var all := [receipt] + tail;
    forall k | 0 <= k < |all| ensures ReceiptFor(all[k], ledger, from + k, hash) {
      if k > 0 {
        assert ReceiptFor(tail[k - 1], ledger, from + 1 + (k - 1), hash);
      }
    }
  }

  lemma {:induction false} FirstReceipt(events: seq<Object>, inputs: seq<Object>, hash: Hash)
    requires inputs != [] && HashShaped(hash) && Append(events, inputs[0], hash).Appended?
    requires var rest := Append(events, inputs[0], hash).ledger;
      && rest <= Run(rest, inputs[1..], hash)
      && ReceiptsFor(Receipts(rest, inputs[1..], hash), Run(rest, inputs[1..], hash), |rest|, hash)
    ensures ReceiptsFor(Receipts(events, inputs, hash), Run(events, inputs, hash), |events|, hash)
  {
    var r := Append(events, inputs[0], hash);
    var final := Run(r.ledger, inputs[1..], hash);
    AppendIssuesReceipt(events, inputs[0], final, hash);
    ReceiptsForCons(r.receipt, Receipts(r.ledger, inputs[1..], hash), final, |events|, hash);
    RunOfAccepted(events, inputs, hash);
  }

  lemma {:induction false} RunOfAccepted(events: seq<Object>, inputs: seq<Object>, hash: Hash)
    requires inputs != [] && Append(events, inputs[0], hash).Appended?
    ensures var r := Append(events, inputs[0], hash);
      && |r.ledger| == |events| + 1
      && Run(events, inputs, hash) == Run(r.ledger, inputs[1..], hash)
      && Receipts(events, inputs, hash) == [r.receipt] + Receipts(r.ledger, inputs[1..], hash)
  {
  }

  lemma {:induction false} EveryRunReceipts(events: seq<Object>, inputs: seq<Object>, hash: Hash)
    requires ValidChain(events, hash) && HashShaped(hash)
    ensures ReceiptsFor(Receipts(events, inputs, hash), Run(events, inputs, hash), |events|, hash)
    decreases |inputs|
  {
    if inputs != [] {
      var r := Append(events, inputs[0], hash);
      if r.Refused? {
        EveryRunReceipts(events, inputs[1..], hash);
      } else {
        AppendKeepsValid(events, inputs[0], hash);
        EveryRunValid(r.ledger, inputs[1..], hash);
        EveryRunReceipts(r.ledger, inputs[1..], hash);
        FirstReceipt(events, inputs, hash);
      }
    }
  }

  /** Every run of appends: the ledger stays valid, what was there stays in front, and the receipts
      verify and count the new events up by one, each with the chain hash of its moment. */
  lemma {:induction false} EveryRun(events: seq<Object>, inputs: seq<Object>, hash: Hash)
    requires ValidChain(events, hash) && HashShaped(hash)
    ensures ValidChain(Run(events, inputs, hash), hash) && events <= Run(events, inputs, hash)
    ensures ReceiptsFor(Receipts(events, inputs, hash), Run(events, inputs, hash), |events|, hash)
  {
    EveryRunValid(events, inputs, hash);
    EveryRunReceipts(events, inputs, hash);
  }

  /** From the empty ledger: any history is valid, and so is the ledger at every earlier moment. */
  lemma {:induction false} EveryHistory(earlier: seq<Object>, later: seq<Object>, hash: Hash)
    requires HashShaped(hash)
    ensures var before, after := Run([], earlier, hash), Run([], earlier + later, hash);
      ValidChain(before, hash) && ValidChain(after, hash) && before <= after
  {
    EveryRun([], earlier, hash);
    RunAppend([], earlier, later, hash);
    EveryRun(Run([], earlier, hash), later, hash);
  }

  lemma {:induction false} RunAppend(events: seq<Object>, earlier: seq<Object>, later: seq<Object>, hash: Hash)
    ensures Run(events, earlier + later, hash) == Run(Run(events, earlier, hash), later, hash)
    decreases |earlier|
  {
    if earlier == [] {
      assert earlier + later == later;
    } else {
      assert (earlier + later)[1..] == earlier[1..] + later;
      var r := Append(events, earlier[0], hash);
      RunAppend(if r.Appended? then r.ledger else events, earlier[1..], later, hash);
    }
  }

  // ---------------------------------------------------------------- what pins a history

  /** Whatever was offered to them: two ledgers that grew from nothing and end in the same event hash are
      the same ledger, event for event. */
  lemma {:induction false} TailHashPinsHistory(one: seq<Object>, two: seq<Object>, hash: Hash)
    requires HashShaped(hash) && TellsEntriesApart(Run([], one, hash), Run([], two, hash), OWN, hash)
    requires TailHash(Run([], one, hash), OWN) == TailHash(Run([], two, hash), OWN)
    ensures Run([], one, hash) == Run([], two, hash)
  {
    EveryRun([], one, hash);
    EveryRun([], two, hash);
    TailHashPinsLedger(Run([], one, hash), Run([], two, hash), hash);
  }

  /** The receipt at `i` of a history from nothing records the chain hash of the ledger at that moment. */
  lemma {:induction false} ReceiptRecordsPrefix(inputs: seq<Object>, i: nat, hash: Hash)
    requires HashShaped(hash) && i < |Receipts([], inputs, hash)|
    ensures var ledger := Run([], inputs, hash);
      && i < |ledger| && ValidChain(ledger[..i + 1], hash)
      && Get(Receipts([], inputs, hash)[i], "ledger_chain_hash") == Str(ChainHash(ledger[..i + 1], hash))
  {
    var ledger := Run([], inputs, hash);
    EveryRun([], inputs, hash);
    assert ReceiptFor(Receipts([], inputs, hash)[i], ledger, 0 + i, hash);
    PrefixValid(ledger, i + 1, hash);
  }

  /** A receipt pins the past of its event: if receipts of two histories record the same chain hash, the
      ledgers agree up to these receipts, which were handed out at the same moment. */
  lemma {:induction false} ReceiptPinsHistory(one: seq<Object>, i: nat, two: seq<Object>, j: nat, hash: Hash)
    requires HashShaped(hash)
    requires i < |Run([], one, hash)| && i < |Receipts([], one, hash)|
    requires j < |Run([], two, hash)| && j < |Receipts([], two, hash)|
    requires TellsLedgersApart(Run([], one, hash)[..i + 1], Run([], two, hash)[..j + 1], hash)
    requires Get(Receipts([], one, hash)[i], "ledger_chain_hash") ==
      Get(Receipts([], two, hash)[j], "ledger_chain_hash")
    ensures i == j && Run([], one, hash)[..i + 1] == Run([], two, hash)[..i + 1]
  {
    ReceiptRecordsPrefix(one, i, hash);
    ReceiptRecordsPrefix(two, j, hash);
    var a, b := Run([], one, hash)[..i + 1], Run([], two, hash)[..j + 1];
    ChainHashPinsLedger(a, b, hash);
    assert |a| == i + 1 && |b| == j + 1;
  }
}
