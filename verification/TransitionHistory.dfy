/** Properties of every run of the agent loop's state machine, and of what its log can prove. */
module TransitionHistory {
  import opened Wrappers
  import opened Json
  import opened HashChain
  import opened StateMachine

  const ENTRY_FIELDS: set<string> := {
    "run_id", "sequence", "from_state", "transition", "to_state", PREVIOUS, OWN}

  /** The state reached before entry `i`. */
  function ReachedAt(log: seq<Object>, i: nat): string
    requires i <= |log|
  {
    if i == 0 then "TASK_RECEIVED" else
    var to := Get(log[i - 1], "to_state");
    if to.Str? then to.s else ""
  }

  /** Entry `i` continues the path: fields, run, number and starting state are those of the builder. */
  predicate Continues(log: seq<Object>, i: nat, runId: string)
    requires i < |log|
  {
    && log[i].Keys == ENTRY_FIELDS
    && Get(log[i], "run_id") == Str(runId)
    && Get(log[i], "sequence") == Int(i + 1)
    && Get(log[i], "from_state") == Str(ReachedAt(log, i))
  }

  /** The log is a path of the state machine from `TASK_RECEIVED`, numbered from 1. */
  ghost predicate IsPath(log: seq<Object>, runId: string) {
    forall i :: 0 <= i < |log| ==> Continues(log, i, runId)
  }

  // ---------------------------------------------------------------- built logs

  lemma {:induction false} EntryFields(runId: string, sequence: int, from: string, transition: string, to: string,
                                       previous: Json, hash: Hash)
    ensures var e := Seal(EntryBody(runId, sequence, from, transition, to, previous), OWN, hash);
      && e.Keys == ENTRY_FIELDS
      && Get(e, "run_id") == Str(runId) && Get(e, "sequence") == Int(sequence)
      && Get(e, "from_state") == Str(from) && Get(e, "transition") == Str(transition)
      && Get(e, "to_state") == Str(to) && Get(e, PREVIOUS) == previous
      && Sealed(e, OWN, hash)
  {
    SealIsSealed(EntryBody(runId, sequence, from, transition, to, previous), OWN, hash);
    assert PREVIOUS != OWN;
  }

  /** An entry with the builder's fields is the entry the builder makes. */
  lemma {:induction false} EntryIsBuilt(e: Object, runId: string, sequence: int, from: string, transition: string,
                                        to: string, previous: Json, hash: Hash)
    requires e.Keys == ENTRY_FIELDS && Sealed(e, OWN, hash)
    requires Get(e, "run_id") == Str(runId) && Get(e, "sequence") == Int(sequence)
    requires Get(e, "from_state") == Str(from) && Get(e, "transition") == Str(transition)
    requires Get(e, "to_state") == Str(to) && Get(e, PREVIOUS) == previous
    ensures e == Seal(EntryBody(runId, sequence, from, transition, to, previous), OWN, hash)
  {
    var body := EntryBody(runId, sequence, from, transition, to, previous);
    assert e - {OWN} == body;
    assert body - {OWN} == body;
    assert e == body[OWN := e[OWN]];
  }

  /** Adding an entry behind a log leaves what holds of the entries before it. */
  lemma {:induction false} AddEntry(log: seq<Object>, e: Object, runId: string, hash: Hash)
    requires Verified(log, hash) && IsPath(log, runId)
    requires Sealed(e, OWN, hash) && Get(e, PREVIOUS) == TailHash(log, OWN) && LegalEntry(e)
    requires e.Keys == ENTRY_FIELDS && Get(e, "run_id") == Str(runId) && Get(e, "sequence") == Int(|log| + 1)
    requires Get(e, "from_state") == Str(Reached(log))
    ensures Verified(log + [e], hash) && IsPath(log + [e], runId)
  {
    AddVerified(log, e, hash);
    AddToPath(log, e, runId);
  }

  lemma {:induction false} AddVerified(log: seq<Object>, e: Object, hash: Hash)
    requires Verified(log, hash)
    requires Sealed(e, OWN, hash) && Get(e, PREVIOUS) == TailHash(log, OWN) && LegalEntry(e)
    ensures Verified(log + [e], hash)
  {
    LinkedSnoc(log, e, PREVIOUS, OWN, hash);
    LegalSnoc(log, e);
  }

  lemma {:induction false} LegalSnoc(log: seq<Object>, e: Object)
    requires (forall i :: 0 <= i < |log| ==> LegalEntry(log[i])) && LegalEntry(e)
    ensures forall i :: 0 <= i < |log + [e]| ==> LegalEntry((log + [e])[i])
  {
  }

  lemma {:induction false} AddToPath(log: seq<Object>, e: Object, runId: string)
    requires IsPath(log, runId)
    requires e.Keys == ENTRY_FIELDS && Get(e, "run_id") == Str(runId) && Get(e, "sequence") == Int(|log| + 1)
    requires Get(e, "from_state") == Str(Reached(log))
    ensures IsPath(log + [e], runId)
  {
    var longer := log + [e];
    forall i | 0 <= i < |longer| ensures Continues(longer, i, runId) {
      assert ReachedAt(longer, i) == ReachedAt(log, i);
      if i < |log| { assert Continues(log, i, runId); }
    }
  }

  lemma {:induction false} ExtendIsPath(log: seq<Object>, item: Item, runId: string, hash: Hash)
    requires Verified(log, hash) && IsPath(log, runId)
    requires Extend(log, item, runId, hash).Ok?
    ensures var longer := Extend(log, item, runId, hash).value;
      Verified(longer, hash) && IsPath(longer, runId) && |longer| == |log| + 1
  {
    var target := Advance(item, Reached(log)).value;
    EntryFields(runId, |log| + 1, item.state, item.transition, target, TailHash(log, OWN), hash);
    var e := Seal(EntryBody(runId, |log| + 1, item.state, item.transition, target, TailHash(log, OWN)), OWN, hash);
    assert NextState(item.state, item.transition) == Ok(target);
    AddEntry(log, e, runId, hash);
  }

  lemma {:induction false} BuiltIsVerifiedPath(items: seq<Item>, runId: string, hash: Hash)
    requires BuiltLog(items, runId, hash).Ok?
    ensures var log := BuiltLog(items, runId, hash).value;
      Verified(log, hash) && IsPath(log, runId) && |log| == |items|
  {
    if items != [] {
      BuiltIsVerifiedPath(items[..|items| - 1], runId, hash);
      ExtendIsPath(BuiltLog(items[..|items| - 1], runId, hash).value, items[|items| - 1], runId, hash);
    }
  }

  /** The item that leads to an entry. */
  function ItemOf(e: Object): Item {
    var from, transition := Get(e, "from_state"), Get(e, "transition");
    Pair(if from.Str? then from.s else "", if transition.Str? then transition.s else "")
  }

  function ItemsOf(log: seq<Object>): (r: seq<Item>)
    ensures |r| == |log|
  {
    seq(|log|, i requires 0 <= i < |log| => ItemOf(log[i]))
  }

  lemma {:induction false} LegalAdvances(e: Object, current: string)
    requires LegalEntry(e) && Get(e, "from_state") == Str(current)
    ensures Advance(ItemOf(e), current) == Ok(Get(e, "to_state").s) && Get(e, "to_state").Str?
    ensures ItemOf(e) == Pair(current, Get(e, "transition").s)
  {
  }

  lemma {:induction false} ExtendBy(log: seq<Object>, item: Item, target: string, runId: string, hash: Hash)
    requires Advance(item, Reached(log)) == Ok(target)
    ensures Extend(log, item, runId, hash)
      == Ok(log + [Seal(EntryBody(runId, |log| + 1, item.state, item.transition, target, TailHash(log, OWN)), OWN,
                        hash)])
  {
  }

  lemma {:induction false} LastEntryIsBuilt(log: seq<Object>, runId: string, hash: Hash)
    requires log != [] && Verified(log, hash) && IsPath(log, runId)
    ensures var n := |log| - 1;
      Extend(log[..n], ItemOf(log[n]), runId, hash) == Ok(log)
  {
    var n := |log| - 1;
    var init, e := log[..n], log[n];
    SplitLast(log);
    assert EntryLinked(log, n, PREVIOUS, OWN, hash) && LegalEntry(e) && Continues(log, n, runId);
    assert Reached(init) == ReachedAt(log, n) && TailHash(init, OWN) == Before(log, n, OWN);
    LegalAdvances(e, Reached(init));
    ExtendBy(init, ItemOf(e), Get(e, "to_state").s, runId, hash);
    EntryIsBuilt(e, runId, n + 1, Reached(init), Get(e, "transition").s, Get(e, "to_state").s, TailHash(init, OWN),
                 hash);
  }

  lemma {:induction false} VerifiedPathIsBuilt(log: seq<Object>, runId: string, hash: Hash)
    requires Verified(log, hash) && IsPath(log, runId)
    ensures BuiltLog(ItemsOf(log), runId, hash) == Ok(log)
  {
    if log != [] {
      var n := |log| - 1;
      PrefixIsVerifiedPath(log, n, runId, hash);
      VerifiedPathIsBuilt(log[..n], runId, hash);
      assert ItemsOf(log)[..n] == ItemsOf(log[..n]);
      LastEntryIsBuilt(log, runId, hash);
    }
  }

  lemma {:induction false} PrefixIsVerifiedPath(log: seq<Object>, n: nat, runId: string, hash: Hash)
    requires n <= |log| && Verified(log, hash) && IsPath(log, runId)
    ensures Verified(log[..n], hash) && IsPath(log[..n], runId)
  {
    PrefixLinked(log, n, PREVIOUS, OWN, hash);
    forall i | 0 <= i < n ensures LegalEntry(log[..n][i]) && Continues(log[..n], i, runId) {
      assert log[..n][i] == log[i];
      assert LegalEntry(log[i]) && Continues(log, i, runId);
    }
  }

  /** What verification misses: a verified log is one the builder can produce exactly when its entries
      also continue each other, carry the run's name and number, and have no field besides. */
  lemma {:induction false} VerifiedIsBuiltIffPath(log: seq<Object>, runId: string, hash: Hash)
    requires Verified(log, hash)
    ensures (exists items :: BuiltLog(items, runId, hash) == Ok(log)) <==> IsPath(log, runId)
  {
    if items :| BuiltLog(items, runId, hash) == Ok(log) {
      BuiltIsVerifiedPath(items, runId, hash);
    }
    if IsPath(log, runId) {
      VerifiedPathIsBuilt(log, runId, hash);
    }
  }

  /** A log of one entry: any move of the machine, with any run name and number. */
  function OneMoveLog(s: State, step: Step, runId: string, sequence: int, hash: Hash): seq<Object>
    requires Table(s, step).Some?
  {
    [Seal(EntryBody(runId, sequence, Name(s), StepName(step), Name(Table(s, step).value), Str(GENESIS)), OWN, hash)]
  }

  /** Verification accepts a log that starts anywhere in the machine, under any number: it is a path
      only if it starts at `TASK_RECEIVED` and is numbered 1. */
  lemma {:induction false} VerifiedNeedNotBePath(s: State, step: Step, runId: string, sequence: int, hash: Hash)
    requires Table(s, step).Some?
    ensures Verified(OneMoveLog(s, step, runId, sequence, hash), hash)
    ensures IsPath(OneMoveLog(s, step, runId, sequence, hash), runId) <==> s == TaskReceived && sequence == 1
  {
    var log, t := OneMoveLog(s, step, runId, sequence, hash), Table(s, step).value;
    EntryFields(runId, sequence, Name(s), StepName(step), Name(t), Str(GENESIS), hash);
    MoveIsLegal(log[0], s, step);
    assert EntryLinked(log, 0, PREVIOUS, OWN, hash);
    if Name(s) == Name(TaskReceived) { NamesDiffer(s, TaskReceived); }
    assert Continues(log, 0, runId) <==> s == TaskReceived && sequence == 1;
  }

  lemma {:induction false} MoveIsLegal(e: Object, s: State, step: Step)
    requires Table(s, step).Some?
    requires Get(e, "from_state") == Str(Name(s)) && Get(e, "transition") == Str(StepName(step))
    requires Get(e, "to_state") == Str(Name(Table(s, step).value))
    ensures LegalEntry(e)
  {
    StateOfName(s);
    StepOfName(step);
  }

  /** A log that verifies and ends in the same hash as a built log is that log. */
  lemma {:induction false} TailHashPinsTransitionLog(log: seq<Object>, items: seq<Item>, runId: string, hash: Hash)
    requires NeverGenesis(hash) && Verified(log, hash) && BuiltLog(items, runId, hash).Ok?
    requires TellsEntriesApart(log, BuiltLog(items, runId, hash).value, OWN, hash)
    requires TailHash(log, OWN) == TailHash(BuiltLog(items, runId, hash).value, OWN)
    ensures log == BuiltLog(items, runId, hash).value && IsPath(log, runId)
  {
    var built := BuiltLog(items, runId, hash).value;
    BuiltIsVerifiedPath(items, runId, hash);
    LinkedAvoidsGenesis(log, hash);
    LinkedAvoidsGenesis(built, hash);
    TailPinsLog(log, built, PREVIOUS, OWN, hash);
  }

  lemma {:induction false} LinkedAvoidsGenesis(log: seq<Object>, hash: Hash)
    requires NeverGenesis(hash) && Linked(log, PREVIOUS, OWN, hash)
    ensures AvoidsGenesis(log, OWN)
  {
    forall i | 0 <= i < |log| ensures Get(log[i], OWN) != Str(GENESIS) {
      assert EntryLinked(log, i, PREVIOUS, OWN, hash);
    }
  }

  // ---------------------------------------------------------------- every run of the machine

  lemma {:induction false} TableClimbs(s: State, step: Step)
    requires Table(s, step).Some?
    ensures Rank(s) < Rank(Table(s, step).value) <= 14
    ensures Table(s, step).value == PatchApplyStarted ==> s == HumanApprovalVerified
  {
  }

  /** Entry `i` of a verified path goes from one state of the table to the next. */
  lemma {:induction false} StepOfPath(log: seq<Object>, i: nat, runId: string, hash: Hash)
    requires i < |log| && Verified(log, hash) && IsPath(log, runId)
    ensures StateOf(ReachedAt(log, i)).Some? && StateOf(ReachedAt(log, i + 1)).Some?
    ensures var s, t := StateOf(ReachedAt(log, i)).value, StateOf(ReachedAt(log, i + 1)).value;
      Rank(s) < Rank(t) <= 14 && (t == PatchApplyStarted ==> s == HumanApprovalVerified)
  {
    assert LegalEntry(log[i]) && Continues(log, i, runId);
    var s := StateOf(ReachedAt(log, i)).value;
    var step := StepOf(Get(log[i], "transition").s).value;
    TableClimbs(s, step);
    StateOfName(Table(s, step).value);
  }

  /** The rank of the state a name stands for. */
  function RankNamed(name: string): int {
    if StateOf(name).Some? then Rank(StateOf(name).value) else -1
  }

  /** Entry `i` leads to a state of higher rank, and to the start of a patch only from the approval. */
  predicate ClimbsAt(log: seq<Object>, i: nat)
    requires i < |log|
  {
    && 0 <= RankNamed(ReachedAt(log, i)) < RankNamed(ReachedAt(log, i + 1)) <= 14
    && (StateOf(ReachedAt(log, i + 1)) == Some(PatchApplyStarted) ==> ReachedAt(log, i) == Name(HumanApprovalVerified))
  }

  ghost predicate Climbing(log: seq<Object>) {
    forall i :: 0 <= i < |log| ==> ClimbsAt(log, i)
  }

  lemma {:induction false} PathClimbs(log: seq<Object>, runId: string, hash: Hash)
    requires Verified(log, hash) && IsPath(log, runId)
    ensures Climbing(log)
  {
    forall i | 0 <= i < |log| ensures ClimbsAt(log, i) {
      StepOfPath(log, i, runId, hash);
    }
  }

  lemma {:induction false} ClimbsOneByOne(log: seq<Object>, i: nat, j: nat)
    requires Climbing(log) && i < j <= |log|
    ensures 0 <= RankNamed(ReachedAt(log, i)) &&
      RankNamed(ReachedAt(log, i)) + (j - i) <= RankNamed(ReachedAt(log, j)) <= 14
    decreases j - i
  {
    assert ClimbsAt(log, j - 1);
    if i < j - 1 {
      ClimbsOneByOne(log, i, j - 1);
    }
  }

  /** For every input list: a log that is built at all verifies, is a path from `TASK_RECEIVED` without
      a repeated state, has at most 14 transitions, and starts a patch application only right after the
      human approval was verified. */
  lemma {:induction false} EveryRunOfTheMachine(items: seq<Item>, runId: string, hash: Hash)
    requires BuiltLog(items, runId, hash).Ok?
    ensures var log := BuiltLog(items, runId, hash).value;
      && Verified(log, hash) && IsPath(log, runId)
      && |log| <= 14
      && (forall i, j :: 0 <= i < j <= |log| ==> ReachedAt(log, i) != ReachedAt(log, j))
      && forall i :: 0 <= i <= |log| && ReachedAt(log, i) == Name(PatchApplyStarted) ==>
        i > 0 && ReachedAt(log, i - 1) == Name(HumanApprovalVerified)
  {
    var log := BuiltLog(items, runId, hash).value;
    BuiltIsVerifiedPath(items, runId, hash);
    PathClimbs(log, runId, hash);
    if log != [] {
      ClimbsOneByOne(log, 0, |log|);
    }
    forall i, j | 0 <= i < j <= |log| ensures ReachedAt(log, i) != ReachedAt(log, j) {
      ClimbsOneByOne(log, i, j);
    }
    forall i | 0 <= i <= |log| && ReachedAt(log, i) == Name(PatchApplyStarted)
      ensures i > 0 && ReachedAt(log, i - 1) == Name(HumanApprovalVerified)
    {
      ApprovalComesFirst(log, i);
    }
  }

  lemma {:induction false} StateIsNamed(name: string, s: State)
    requires name == Name(s)
    ensures StateOf(name) == Some(s)
  {
    StateOfName(s);
  }

  lemma {:induction false} ApprovalComesFirst(log: seq<Object>, i: nat)
    requires Climbing(log) && i <= |log| && ReachedAt(log, i) == Name(PatchApplyStarted)
    ensures i > 0 && ReachedAt(log, i - 1) == Name(HumanApprovalVerified)
  {
    if i == 0 {
      NamesDiffer(TaskReceived, PatchApplyStarted);
    } else {
      StateIsNamed(ReachedAt(log, i), PatchApplyStarted);
      assert ClimbsAt(log, i - 1);
    }
  }
}
