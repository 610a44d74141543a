/** Concrete runs of the transaction: one that an exception leaves with its target patched, and a request
    that passes every check and still raises. */
module TransactionExamples {
  import opened Json
  import opened Checks
  import opened Lines
  import opened UnifiedDiff
  import opened DiffApply
  import opened DiffParser
  import opened DiffPrinting
  import opened ProposalDiff
  import opened PatchPolicy
  import opened FaultSchedule
  import opened TransactionStates
  import opened PatchTransaction
  import opened DiffExamples

  // ---------------------------------------------------------------- one request

  const HOST: Host := Host(_ => "h", _ => "d", p => p, _ => PathOk, "w", _ => StillValid, (_, _) => true)

  const FILES: Files := map["f" := TextFile("a\n")]

  const ID: string := "r-patch-apply"

  function DiffOfF(): string { PrintDiff([Patch("f")]) }

  function Limits(): Policy { Policy(1, Utf8Length(DiffOfF()), 10, true, true) }

  /** A proposal without a base commit. */
  function BaselessProposal(): Object {
    map[
      "proposal_id" := Str("p"), "unified_diff_hash" := Str("u"), "risk_class" := Str("low"),
      "target_files" := StrList(["f"]), "unified_diff" := Str(DiffOfF()),
      "target_file_hashes" := Obj(map["f" := Str("d")]),
      "artifact_only" := Bool(true), "human_approval_required" := Bool(true),
      "apply_allowed" := Bool(false), "apply_performed" := Bool(false), "workspace_mutation_performed" := Bool(false),
      "test_execution_allowed" := Bool(false), "test_execution_performed" := Bool(false)]
  }

  function BasedProposal(): Object { BaselessProposal()["base_commit" := Str("c")] }

  function AnyApproval(): Object {
    map f | f in REQUIRED_APPROVAL_FIELDS :: Str("x")
  }

  function ApprovalFor(proposal: Object): Object {
    AnyApproval()
      ["proposal_id" := Str("p")]["proposal_hash" := Str("h")]["approved_unified_diff_hash" := Str("u")]
      ["base_commit" := Get(proposal, "base_commit")]["approved_risk_class" := Str("low")]
      ["workspace_root_hash" := Str("h")]["approved_target_files" := StrList(["f"])]
      ["authority_scope" := Str("single_patch_apply_transaction")]["rollback_required" := Bool(true)]
      ["max_files_allowed" := Int(1)]["max_bytes_allowed" := Int(1)]
  }

  function RequestFor(proposal: Object): Object {
    map[
      "transaction_id" := Str(ID), "proposal" := Obj(proposal), "approval_packet" := Obj(ApprovalFor(proposal)),
      "base_commit" := Get(proposal, "base_commit")]
  }

  // What the checks need to know of proposal, approval and request.

  predicate PlainProposal(p: Object) {
    && Get(p, "proposal_id") == Str("p") && Get(p, "unified_diff_hash") == Str("u")
    && Get(p, "risk_class") == Str("low")
    && Get(p, "target_files") == List([Str("f")]) && Get(p, "unified_diff") == Str(DiffOfF())
    && Get(p, "target_file_hashes") == Obj(map["f" := Str("d")])
    && Get(p, "artifact_only") == Bool(true) && Get(p, "human_approval_required") == Bool(true)
    && AllHold(FalseChecks(p, FORBIDDEN_PROPOSAL_CLAIMS))
  }

  predicate PlainApproval(a: Object, base: Json) {
    && Get(a, "proposal_id") == Str("p") && Get(a, "proposal_hash") == Str("h")
    && Get(a, "approved_unified_diff_hash") == Str("u") && Get(a, "base_commit") == base
    && Get(a, "approved_risk_class") == Str("low") && Get(a, "workspace_root_hash") == Str("h")
    && Get(a, "approved_by_actor_id") == Str("x")
  }

  predicate PlainScope(a: Object) {
    && Get(a, "approved_target_files") == List([Str("f")])
    && Get(a, "authority_scope") == Str("single_patch_apply_transaction") && Get(a, "apply_any_patch") == Null
    && Get(a, "rollback_required") == Bool(true)
    && Get(a, "max_files_allowed") == Int(1) && Get(a, "max_bytes_allowed") == Int(1)
    && Get(a, "approval_nonce") == Str("x") && Get(a, "approval_signature_or_local_attestation") == Str("x")
  }

  predicate PlainRequest(r: Object, p: Object, a: Object) {
    && Get(r, "transaction_id") == Str(ID) && Get(r, "proposal") == Obj(p) && Get(r, "approval_packet") == Obj(a)
    && Get(r, "base_commit") == Get(p, "base_commit")
    && AllHold(UnsetChecks(r, FORBIDDEN_REQUEST_FIELDS))
  }

  lemma {:induction false} BaselessIsPlain()
    ensures PlainProposal(BaselessProposal())
  {
    assert StrList(["f"]) == List([Str("f")]);
    BaselessClaims(BaselessProposal());
  }

  lemma {:induction false} BaselessClaims(p: Object)
    requires p == BaselessProposal()
    ensures AllHold(FalseChecks(p, FORBIDDEN_PROPOSAL_CLAIMS))
  {
    var claims := FORBIDDEN_PROPOSAL_CLAIMS;
    assert claims[0].0 == "apply_allowed" && claims[1].0 == "apply_performed";
    assert claims[2].0 == "workspace_mutation_performed";
    assert claims[3].0 == "test_execution_allowed" && claims[4].0 == "test_execution_performed";
    assert forall i :: 0 <= i < 5 ==> Get(p, claims[i].0) == Bool(false);
  }

  lemma {:induction false} BaseAdded(p: Object)
    requires PlainProposal(p)
    ensures PlainProposal(p["base_commit" := Str("c")])
  {
    var q, claims := p["base_commit" := Str("c")], FORBIDDEN_PROPOSAL_CLAIMS;
    assert claims[0].0 == "apply_allowed" && claims[1].0 == "apply_performed";
    assert claims[2].0 == "workspace_mutation_performed";
    assert claims[3].0 == "test_execution_allowed" && claims[4].0 == "test_execution_performed";
    assert forall i :: 0 <= i < 5 ==> claims[i].0 != "base_commit";
    forall i | 0 <= i < |claims| ensures FalseChecks(q, claims)[i].ok {
      assert FalseChecks(p, claims)[i].ok && Get(q, claims[i].0) == Get(p, claims[i].0);
    }
  }

  lemma {:induction false} RequestIsPlain(p: Object)
    ensures PlainRequest(RequestFor(p), p, ApprovalFor(p))
  {
    NothingForbidden(p, RequestFor(p).Keys);
  }

  lemma {:induction false} NothingForbidden(p: Object, keys: set<string>)
    requires keys == RequestFor(p).Keys
    ensures AllHold(UnsetChecks(RequestFor(p), FORBIDDEN_REQUEST_FIELDS))
  {
    assert keys == {"transaction_id", "proposal", "approval_packet", "base_commit"};
    var fields := FORBIDDEN_REQUEST_FIELDS;
    assert fields[0].0 == "shell_command" && fields[1].0 == "shell_execution_requested";
    assert fields[2].0 == "network_instruction" && fields[3].0 == "network_execution_requested";
    assert fields[4].0 == "llm_invocation_requested" && fields[5].0 == "executor_dispatch_requested";
    assert fields[6].0 == "tests_run" && fields[7].0 == "test_execution_requested";
    assert forall i :: 0 <= i < 8 ==> fields[i].0 !in keys;
  }

  lemma {:induction false} ParsesToF()
    ensures ParsedDiff(DiffOfF()) == Success([Patch("f")]) && DiffOfF() != ""
  {
    assert BreakFree("f") && !IsSpace("f"[0]);
    ParsesToPatch("f");
  }

  lemma {:induction false} ProposalReads(p: Object)
    requires PlainProposal(p)
    ensures TargetItems(p) == [Str("f")] && TargetFiles(p) == ["f"] && DiffText(p) == DiffOfF()
    ensures RecordedHashes(p) == map["f" := Str("d")]
  {
    assert Strings([Str("f")]) == ["f"];
  }

  lemma {:induction false} EntryPasses(r: Object, p: Object, a: Object)
    requires PlainRequest(r, p, a)
    ensures AllHold(EntryChecks(r)) && Proposal(r) == p && TransactionId(r) == ID
  {
    assert '/' !in ID;
  }

  lemma {:induction false} SizesPass(r: Object, policy: Policy)
    requires var p := Proposal(r);
      && Get(p, "artifact_only") == Bool(true) && Get(p, "human_approval_required") == Bool(true)
      && Get(r, "base_commit") == Get(p, "base_commit")
      && |TargetFiles(p)| == policy.maxFiles == 1
      && DiffText(p) != "" && Utf8Length(DiffText(p)) == policy.maxBytes
    ensures AllHold(SizeChecks(r, policy))
  {
  }

  lemma {:induction false} FieldsPass(r: Object)
    requires AllHold(EntryChecks(r)) && AllHold(SizeChecks(r, Limits()))
    requires AllHold(UnsetChecks(r, FORBIDDEN_REQUEST_FIELDS)) &&
      AllHold(FalseChecks(Proposal(r), FORBIDDEN_PROPOSAL_CLAIMS))
    ensures AllHold(FieldChecks(r, Limits()))
  {
    var unset, claims, sizes := UnsetChecks(r, FORBIDDEN_REQUEST_FIELDS),
      FalseChecks(Proposal(r), FORBIDDEN_PROPOSAL_CLAIMS), SizeChecks(r, Limits());
    AllHoldAppend(EntryChecks(r), unset + (claims + sizes));
    AllHoldAppend(unset, claims + sizes);
    AllHoldAppend(claims, sizes);
  }

  lemma {:induction false} ApprovalHasFields(p: Object)
    ensures AllHold(FormChecks(ApprovalFor(p), HOST))
  {
    forall i | 0 <= i < |REQUIRED_APPROVAL_FIELDS| ensures REQUIRED_APPROVAL_FIELDS[i] in ApprovalFor(p) {
      assert REQUIRED_APPROVAL_FIELDS[i] in AnyApproval();
    }
  }

  lemma {:induction false} UnsetFieldIsX(field: string)
    requires field in REQUIRED_APPROVAL_FIELDS
    ensures Get(AnyApproval(), field) == Str("x")
  {
  }

  lemma {:induction false} ApprovalIsPlain(p: Object)
    ensures PlainApproval(ApprovalFor(p), Get(p, "base_commit"))
  {
    ApprovalNames(p);
    ApprovalHashes(p);
  }

  lemma {:induction false} ApprovalHashes(p: Object)
    ensures var a := ApprovalFor(p);
      && Get(a, "proposal_hash") == Str("h") && Get(a, "approved_unified_diff_hash") == Str("u")
      && Get(a, "base_commit") == Get(p, "base_commit") && Get(a, "workspace_root_hash") == Str("h")
  {
  }

  lemma {:induction false} ApprovalNames(p: Object)
    ensures var a := ApprovalFor(p);
      && Get(a, "proposal_id") == Str("p") && Get(a, "approved_risk_class") == Str("low")
      && Get(a, "approved_by_actor_id") == Str("x")
  {
    assert REQUIRED_APPROVAL_FIELDS[2] == "approved_by_actor_id";
    UnsetFieldIsX("approved_by_actor_id");
  }

  lemma {:induction false} ScopeIsPlain(p: Object)
    ensures PlainScope(ApprovalFor(p))
  {
    assert REQUIRED_APPROVAL_FIELDS[16] == "approval_nonce";
    assert REQUIRED_APPROVAL_FIELDS[17] == "approval_signature_or_local_attestation";
    UnsetFieldIsX("approval_nonce");
    UnsetFieldIsX("approval_signature_or_local_attestation");
    assert "apply_any_patch" !in AnyApproval();
    assert StrList(["f"]) == List([Str("f")]);
  }

  lemma {:induction false} IdentityPasses(p: Object, a: Object)
    requires PlainProposal(p) && PlainApproval(a, Get(p, "base_commit"))
    ensures AllHold(IdentityChecks(a, p, HOST))
  {
  }

  lemma {:induction false} ScopePasses(p: Object, a: Object)
    requires PlainProposal(p) && PlainScope(a)
    ensures AllHold(ScopeChecks(a, p)) && AllHold(ConsentChecks(a, p, HOST))
  {
    ProposalReads(p);
    assert ApprovedTargets(a) == [Str("f")];
  }

  lemma {:induction false} PacketPasses(p: Object, a: Object)
    requires AllHold(FormChecks(a, HOST)) && AllHold(IdentityChecks(a, p, HOST))
    requires AllHold(ScopeChecks(a, p)) && AllHold(ConsentChecks(a, p, HOST))
    ensures AllHold(PacketChecks(Obj(a), p, HOST))
  {
    var identity, scope, consent := IdentityChecks(a, p, HOST), ScopeChecks(a, p), ConsentChecks(a, p, HOST);
    AllHoldAppend(FormChecks(a, HOST), identity + (scope + consent));
    AllHoldAppend(identity, scope + consent);
    AllHoldAppend(scope, consent);
  }

  lemma {:induction false} TargetPasses()
    ensures AllHold(TargetChecks(["f"], map["f" := Str("d")], FILES, Limits(), HOST))
  {
    assert Utf8Length("a\n") == 2 by { assert "a\n"[1..] == "\n" && "\n"[1..] == ""; }
    assert TargetMatches("f", map["f" := Str("d")], FILES, Limits(), HOST);
  }

  lemma {:induction false} PlainPasses(r: Object, p: Object, a: Object)
    requires PlainProposal(p) && PlainRequest(r, p, a) && AllHold(PacketChecks(Obj(a), p, HOST))
    ensures PassesChecks(Obj(r), FILES, Limits(), HOST)
  {
    EntryPasses(r, p, a);
    ProposalReads(p);
    ParsesToF();
    SizesPass(r, Limits());
    FieldsPass(r);
    TargetPasses();
    assert Targets([Patch("f")]) == ["f"];
    PartsPass(r, FILES, Limits(), HOST);
  }

  lemma {:induction false} PartsPass(r: Object, files: Files, policy: Policy, host: Host)
    requires AllHold(FieldChecks(r, policy)) && AllHold(DiffChecks(DiffText(Proposal(r)), TargetFiles(Proposal(r))))
    requires AllHold(PacketChecks(Get(r, "approval_packet"), Proposal(r), host)) &&
      Get(Proposal(r), "target_file_hashes").Obj?
    requires AllHold(TargetChecks(TargetFiles(Proposal(r)), RecordedHashes(Proposal(r)), files, policy, host))
    ensures AllHold(RequestChecks(r, files, policy, host))
  {
    var p := Proposal(r);
    FiveParts(FieldChecks(r, policy), DiffChecks(DiffText(p), TargetFiles(p)),
              PacketChecks(Get(r, "approval_packet"), p, host),
              [Check(Get(p, "target_file_hashes").Obj?, PreimageHashesRequired)],
              TargetChecks(TargetFiles(p), RecordedHashes(p), files, policy, host));
  }

  lemma {:induction false} ExamplePasses(p: Object)
    requires PlainProposal(p)
    ensures PassesChecks(Obj(RequestFor(p)), FILES, Limits(), HOST) && Proposal(RequestFor(p)) == p
    ensures TransactionId(RequestFor(p)) == ID
  {
    var a := ApprovalFor(p);
    RequestIsPlain(p);
    ApprovalHasFields(p);
    ApprovalIsPlain(p);
    ScopeIsPlain(p);
    IdentityPasses(p, a);
    ScopePasses(p, a);
    PacketPasses(p, a);
    PlainPasses(RequestFor(p), p, a);
  }

  /** A request that passes every check and is not accepted: proposal and request have no base commit, and
      the approval holds null for it, so copying it into the result raises. */
  lemma {:induction false} PassingRequestCanRaise()
    ensures var request := Obj(RequestFor(BaselessProposal()));
      PassesChecks(request, FILES, Limits(), HOST) && !Authorised(request, FILES, Limits(), HOST)
  {
    BaselessIsPlain();
    ExamplePasses(BaselessProposal());
    LacksBase(BaselessProposal());
  }

  lemma {:induction false} LacksBase(p: Object)
    requires p == BaselessProposal()
    ensures !HasAll(p, COPIED_FIELDS)
  {
    assert COPIED_FIELDS[1] == "base_commit" && "base_commit" !in p;
  }

  lemma {:induction false} ExampleIsAuthorised()
    ensures Authorised(Obj(RequestFor(BasedProposal())), FILES, Limits(), HOST)
    ensures PlainProposal(BasedProposal())
  {
    BaselessIsPlain();
    BaseAdded(BaselessProposal());
    ExamplePasses(BasedProposal());
    HasCopied(BaselessProposal());
  }

  lemma {:induction false} HasCopied(p: Object)
    requires PlainProposal(p)
    ensures HasAll(p["base_commit" := Str("c")], COPIED_FIELDS)
  {
    assert "proposal_id" in p && "unified_diff_hash" in p;
  }

  // ---------------------------------------------------------------- one run

  /** Only the seventh operation fails: the read that hashes the result. */
  function SeventhFails(): Schedule { tick => tick == 6 }

  lemma {:induction false} ExampleNames()
    ensures NoAliases(["f"], HOST) && TempsApart(["f"], ID, HOST)
  {
    TempNameLonger("f", ID, HOST);
    LongerName("f", ".rollback.tmp");
  }

  lemma {:induction false} ExampleCourse()
    ensures CourseOf(SeventhFails(), 0, 1, 1) == ResultUnread
  {
    FirstFaultIs(SeventhFails(), 0, 9, 6);
  }

  /** The exception leaves the call, nothing is undone, and the target holds the patched text. */
  method ExceptionLeavesTargetPatched() returns (w: Workspace, o: Outcome)
    ensures o == Escaped(WhileReading)
    ensures "f" in w.files && w.files["f"] == TextFile("b\n")
  {
    w := new Workspace(FILES, SeventhFails(), _ => 0);
    var p := BasedProposal();
    ExampleIsAuthorised();
    ExamplePasses(p);
    ProposalReads(p);
    o := RunOnF(w, RequestFor(p), p);
  }

  /** What this request asks of the workspace. */
  lemma {:induction false} ExampleRun()
    ensures var r := RequestFor(BasedProposal());
      && Authorised(Obj(r), FILES, Limits(), HOST)
      && Proposal(r) == BasedProposal() && TargetFiles(Proposal(r)) == ["f"] && TransactionId(r) == ID
      && PatchesOf(Proposal(r)) == map["f" := Patch("f")]
  {
    var p := BasedProposal();
    ExampleIsAuthorised();
    ExamplePasses(p);
    ProposalReads(p);
    ParsesToF();
    OnePatch();
  }

  method RunOnF(w: Workspace, r: Object, ghost p: Object) returns (o: Outcome)
    requires Authorised(Obj(r), FILES, Limits(), HOST) && Proposal(r) == p && TransactionId(r) == ID
    requires TargetFiles(p) == ["f"] && DiffText(p) == DiffOfF()
    requires w.files == FILES && w.fails == SeventhFails() && w.tick == 0
    modifies w
    ensures o == Escaped(WhileReading)
    ensures "f" in w.files && w.files["f"] == TextFile("b\n")
  {
    ghost var patches := PatchesOf(p);
    ParsesToF();
    OnePatch();
    ExampleNames();
    ExampleFits(patches);
    ExampleCourse();
    o := w.ApplyPatchTransaction(Obj(r), Limits(), HOST);
    assert "f" in ["f"] && Patched(patches, FILES, w.files, HOST, "f");
  }

  lemma {:induction false} ExampleFits(patches: map<string, FilePatch>)
    requires patches == map["f" := Patch("f")]
    ensures AllText(FILES, ["f"], HOST) && FirstMisfit(["f"], 0, patches, FILES, HOST) == 1
    ensures PatchedText(Translate("a\n"), Patch("f")) == Success("b\n")
  {
    PatchTurnsAIntoB("f");
    assert Translate("a\n") == "a\n";
  }

  lemma {:induction false} OnePatch()
    ensures PatchDict([Patch("f")]) == map["f" := Patch("f")]
  {
    assert [Patch("f")][..0] == [];
  }
}
