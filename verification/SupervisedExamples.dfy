/** Two concrete runs of the supervised loop on one file: one whose tests reject it, and one that an
    exception leaves. Both leave the file patched and no evidence. */
module SupervisedExamples {
  import Dedupe
  import opened Wrappers
  import opened Json
  import opened FaultSchedule
  import opened PatchPolicy
  import opened TransactionStates
  import opened PatchTransaction
  import opened TransactionExamples
  import opened Supervisor
  import opened SupervisedRun

  const QUERY: LoopRequest := LoopRequest("task", "r", SupervisedApply, "c", map[], true, Null)

  /** Everything accepts but the tests. */
  const ANSWERS: Given := Given(
    [], false, Null, false, [], ProposalAccepted(map[], "p.json", "h"),
      PartRejected([Named("REJECTED_TEST_EXIT_CODE")]),
    "now", "h", "h", "h")

  function CallOnF(): ApplyCall {
    ApplyCall(Some(Obj(BasedProposal())), Obj(ApprovalFor(BasedProposal())), Limits(), HOST, _ => map[])
  }

  lemma {:induction false} CallMakesRequest()
    ensures TransactionRequest(QUERY, CallOnF()) == RequestFor(BasedProposal())
  {
    assert "r" + "-patch-apply" == ID;
    assert Get(BasedProposal(), "base_commit") == Str("c");
  }

  /** No operation on the workspace fails. */
  function NothingFails(): Schedule { _ => false }

  /** Whatever the schedule: if the transaction is accepted, or left by a read of the result, the file is
      patched. */
  lemma {:induction false} FileAfter(after: Files, o: Outcome, fails: Schedule)
    requires TargetsAfter(RequestFor(BasedProposal()), CallOnF(), FILES, after, o, fails, 0)
    ensures Ends(o, CourseOf(fails, 0, 1, 1), fails, 1)
    ensures o.Accepted? || o == Escaped(WhileReading) ==> "f" in after && after["f"] == TextFile("b\n")
  {
    var r := RequestFor(BasedProposal());
    var patches := PatchesOf(Proposal(r));
    ExampleRun();
    ExampleNames();
    ExampleFits(patches);
    if o.Accepted? || o == Escaped(WhileReading) {
      assert "f" in ["f"] && Patched(patches, FILES, after, HOST, "f");
    }
  }

  /** The run comes to its transaction, which ends as the schedule of the workspace says. */
  lemma {:induction false} TransactionEnds(parts: Parts, after: Files, o: Option<Outcome>, fails: Schedule)
    requires parts.given == ANSWERS && Transaction(QUERY, parts, CallOnF(), FILES, after, o, fails, 0)
    ensures o.Some? && parts.apply == PartOf(o.value, CallOnF()) && Ends(o.value, CourseOf(fails, 0, 1, 1), fails, 1)
    ensures o.value.Accepted? || o.value == Escaped(WhileReading) ==> "f" in after && after["f"] == TextFile("b\n")
  {
    CallMakesRequest();
    assert ComesToApply(QUERY, ANSWERS);
    FileAfter(after, o.value, fails);
  }

  /** Answers behind the proposal decide the end of the run: those of the transaction, or of the tests. */
  lemma {:induction false} LastAnswerDecides(q: LoopRequest, parts: Parts)
    requires ComesToApply(q, parts.given) && !LastAnswer(q, parts.given, parts.apply).Accepts?
    ensures !AllPartsAccept(q, parts) && StopAnswer(q, parts) == LastAnswer(q, parts.given, parts.apply)
  {
  }

  /** The tests reject the run. Its result says that no patch was applied, and the file is patched. */
  method TestsRejectPatchStays() returns (w: Workspace, run: Run, r: LoopResult)
    ensures r == LoopRejected([Named("REJECTED_TEST_EXIT_CODE")], false)
    ensures "f" in w.files && w.files["f"] == TextFile("b\n") && run.written == map[]
  {
    w := new Workspace(FILES, NothingFails(), _ => 0);
    run := new Run(w, NothingFails(), _ => false);
    CompletedCourse(NothingFails(), 0, 1);
    Dedupe.FirstSeenKeepsAll([Named("REJECTED_TEST_EXIT_CODE")]);
    r := RunIt(w, run);
  }

  /** A read of the result fails. The exception leaves the run, and the file is patched. */
  method ExceptionLeavesNoEvidence() returns (w: Workspace, run: Run, r: LoopResult)
    ensures r == LoopRaised
    ensures "f" in w.files && w.files["f"] == TextFile("b\n") && run.written == map[]
  {
    w := new Workspace(FILES, SeventhFails(), _ => 0);
    run := new Run(w, NothingFails(), _ => false);
    ExampleCourse();
    r := RunIt(w, run);
  }

  /** How this run ends, by the schedule of the workspace. */
  lemma {:induction false} EndOfRun(parts: Parts, r: LoopResult, o: Outcome, fails: Schedule)
    requires parts.given == ANSWERS && parts.apply == PartOf(o, CallOnF()) &&
      Ends(o, CourseOf(fails, 0, 1, 1), fails, 1)
    requires CourseOf(fails, 0, 1, 1) == Completed || CourseOf(fails, 0, 1, 1) == ResultUnread
    requires !AllPartsAccept(QUERY, parts) ==> StoppedRun(QUERY, parts, r)
    ensures !AllPartsAccept(QUERY, parts) && (o.Accepted? || o == Escaped(WhileReading))
    ensures r == if CourseOf(fails, 0, 1, 1) == Completed then Stop(PartAnswer(ANSWERS.test)) else LoopRaised
  {
    LastAnswerDecides(QUERY, parts);
  }

  method RunIt(w: Workspace, run: Run) returns (r: LoopResult)
    requires run.workspace == w && w.files == FILES && w.tick == 0 && run.written == map[]
    requires CourseOf(w.fails, 0, 1, 1) == Completed || CourseOf(w.fails, 0, 1, 1) == ResultUnread
    modifies w, run
    ensures r == if CourseOf(w.fails, 0, 1, 1) == Completed then Stop(PartAnswer(ANSWERS.test)) else LoopRaised
    ensures "f" in w.files && w.files["f"] == TextFile("b\n") && run.written == map[]
  {
    ghost var parts, o;
    r, parts, o := run.RunAgentLoop(QUERY, ANSWERS, CallOnF(), _ => "h");
    TransactionEnds(parts, w.files, o, w.fails);
    EndOfRun(parts, r, o.value, w.fails);
  }
}
