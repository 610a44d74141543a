/** What it takes for a patch request to pass, in terms of the request, the files, the policy and the host:
    the meaning of the checks of `PatchPolicy`, each code on its own and all of them together. */
module PatchAcceptance {
  import opened Wrappers
  import opened Json
  import opened Checks
  import opened DiffParser
  import opened PatchPolicy
  import ProposalDiff

  // ---------------------------------------------------------------- the approval packet

  const APPROVAL_FIELDS: set<string> := {
    "approval_id", "approval_version", "approved_by_actor_id", "approval_created_at_utc",
    "approval_expires_at_utc", "proposal_id", "proposal_hash", "base_commit", "approved_target_files",
    "approved_unified_diff_hash", "approved_risk_class", "authority_scope", "workspace_root_hash",
    "max_files_allowed", "max_bytes_allowed", "human_confirmation_text", "approval_nonce",
    "approval_signature_or_local_attestation"}

  predicate Complete(a: Object) {
    APPROVAL_FIELDS <= a.Keys
  }

  /** The packet approves this proposal, in this workspace, now. */
  predicate Approves(packet: Json, proposal: Object, host: Host) {
    && packet.Obj?
    && InForm(packet.fields, host) && Identifies(packet.fields, proposal, host)
    && InScope(packet.fields, proposal) && Consents(packet.fields, proposal, host)
  }

  /** The approval has every required field and has not expired. */
  predicate InForm(a: Object, host: Host) {
    Complete(a) && host.expiry(Get(a, "approval_expires_at_utc")) == StillValid
  }

  /** It names an actor, and this very proposal, diff, base commit, risk class and workspace. */
  predicate Identifies(a: Object, proposal: Object, host: Host) {
    && Truthy(Get(a, "approved_by_actor_id"))
    && Get(a, "proposal_id") == Get(proposal, "proposal_id")
    && Get(a, "proposal_hash") == Str(host.canonical(Obj(proposal)))
    && Get(a, "approved_unified_diff_hash") == Get(proposal, "unified_diff_hash")
    && Get(a, "base_commit") == Get(proposal, "base_commit")
    && Get(a, "approved_risk_class") == Get(proposal, "risk_class")
    && Get(a, "workspace_root_hash") == Str(host.canonical(Str(host.workspaceRoot)))
  }

  /** It lists the proposal's target files and no wildcard, for one transaction, with rollback and within
      limits that suffice. */
  predicate InScope(a: Object, proposal: Object) {
    var targets := Get(a, "approved_target_files");
    && targets == Get(proposal, "target_files") && StringList(targets) && targets.items != []
    && (forall i :: 0 <= i < |targets.items| ==> '*' !in targets.items[i].s)
    && Get(a, "authority_scope") == Str("single_patch_apply_transaction") && !Truthy(Get(a, "apply_any_patch"))
    && Get(a, "rollback_required") == Bool(true)
    && AtLeast(Get(a, "max_files_allowed"), |targets.items|) && AtLeast(Get(a, "max_bytes_allowed"), 1)
  }

  /** A human confirmed it in words that name the proposal, once, and signed or attested. */
  predicate Consents(a: Object, proposal: Object, host: Host) {
    && host.confirms(Get(a, "human_confirmation_text"), Get(proposal, "proposal_id"))
    && Truthy(Get(a, "approval_nonce")) && Truthy(Get(a, "approval_signature_or_local_attestation"))
  }

  predicate AtLeast(j: Json, n: int) {
    match j
    case Int(i) => i >= n
    case Bool(b) => (if b then 1 else 0) >= n
    case _ => false
  }

  /** The items of a list; of no list, none. */
  function Listed(j: Json): seq<Json> {
    if j.List? then j.items else []
  }

  /** The same, of a list of non-empty strings only. */
  function Usable(j: Json): seq<Json> {
    if StringList(j) then j.items else []
  }

  /** A required field is missing, or the approval names no expiry or one that is past. */
  predicate FormFault(a: Object, host: Host, code: Code) {
    match code
    case ApprovalFieldMissing => !Complete(a)
    case ApprovalExpirationRequired => host.expiry(Get(a, "approval_expires_at_utc")) == NoExpiry
    case ApprovalExpired => host.expiry(Get(a, "approval_expires_at_utc")) == Expired
    case _ => false
  }

  /** It names no actor, or another proposal, diff, base commit, risk class or workspace. */
  predicate IdentityFault(a: Object, proposal: Object, host: Host, code: Code) {
    match code
    case ApprovalActorRequired => !Truthy(Get(a, "approved_by_actor_id"))
    case ApprovalProposalIdMismatch => Get(a, "proposal_id") != Get(proposal, "proposal_id")
    case ApprovalProposalHashMismatch => Get(a, "proposal_hash") != Str(host.canonical(Obj(proposal)))
    case ApprovalDiffHashMismatch => Get(a, "approved_unified_diff_hash") != Get(proposal, "unified_diff_hash")
    case ApprovalBaseCommitMismatch => Get(a, "base_commit") != Get(proposal, "base_commit")
    case ApprovalRiskClassMismatch => Get(a, "approved_risk_class") != Get(proposal, "risk_class")
    case ApprovalWorkspaceHashMismatch => Get(a, "workspace_root_hash") != Str(host.canonical(Str(host.workspaceRoot)))
    case _ => false
  }

  /** It lists no files, a wildcard or other files, or is for more than one transaction, without rollback or
      with limits that are too small. */
  predicate ScopeFault(a: Object, proposal: Object, code: Code) {
    var listed := Get(a, "approved_target_files");
    match code
    case ApprovalTargetFilesRequired => Usable(listed) == []
    case ApprovalWildcardRejected => HasStar(Usable(listed))
    case ApprovalTargetFilesMismatch => Usable(listed) != Listed(Get(proposal, "target_files"))
    case ApprovalScopeTooBroad =>
      Get(a, "authority_scope") != Str("single_patch_apply_transaction") || Truthy(Get(a, "apply_any_patch"))
    case ApprovalRollbackRequired => Get(a, "rollback_required") != Bool(true)
    case ApprovalMaxFilesExceeded => !AtLeast(Get(a, "max_files_allowed"), |Listed(Get(proposal, "target_files"))|)
    case ApprovalMaxBytesRequired => !AtLeast(Get(a, "max_bytes_allowed"), 1)
    case _ => false
  }

  /** It is not confirmed in words that name the proposal, carries no nonce, or nothing attests it. */
  predicate ConsentFault(a: Object, proposal: Object, host: Host, code: Code) {
    match code
    case ApprovalConfirmationRejected => !host.confirms(Get(a, "human_confirmation_text"), Get(proposal, "proposal_id"))
    case ApprovalNonceRequired => !Truthy(Get(a, "approval_nonce"))
    case ApprovalAttestationRequired => !Truthy(Get(a, "approval_signature_or_local_attestation"))
    case _ => false
  }

  predicate HasStar(items: seq<Json>) {
    exists i :: 0 <= i < |items| && items[i].Str? && '*' in items[i].s
  }

  /** The packet has the fault that `code` names. */
  predicate PacketFault(packet: Json, proposal: Object, host: Host, code: Code) {
    if !packet.Obj? then code == ApprovalPacketRequired else
    var a := packet.fields;
    || FormFault(a, host, code) || IdentityFault(a, proposal, host, code)
    || ScopeFault(a, proposal, code) || ConsentFault(a, proposal, host, code)
  }

  lemma {:induction false} FormMeans(a: Object, host: Host, code: Code)
    ensures Names(FormChecks(a, host), code) <==> FormFault(a, host, code)
  {
    var fields := REQUIRED_APPROVAL_FIELDS;
    var expiry := host.expiry(Get(a, "approval_expires_at_utc"));
    var present := seq(|fields|, i requires 0 <= i < |fields| => Check(fields[i] in a, ApprovalFieldMissing));
    var rest := ExpiryChecks(expiry);
    assert FormChecks(a, host) == present + rest;
    NamesAppend(present, rest, code);
    FieldsMeans(a, present, code);
    ExpiryMeans(expiry, code);
  }

  function ExpiryChecks(expiry: Expiry): seq<Check<Code>> {
    [Check(!expiry.NoExpiry?, ApprovalExpirationRequired), Check(!expiry.Expired?, ApprovalExpired)]
  }

  lemma {:induction false} ExpiryMeans(expiry: Expiry, code: Code)
    ensures Names(ExpiryChecks(expiry), code) <==>
      (code == ApprovalExpirationRequired && expiry == NoExpiry) || (code == ApprovalExpired && expiry == Expired)
  {
    var c := ExpiryChecks(expiry);
    assert c[0].code == ApprovalExpirationRequired && c[1].code == ApprovalExpired;
  }

  lemma {:induction false} FieldsMeans(a: Object, present: seq<Check<Code>>, code: Code)
    requires |present| == |REQUIRED_APPROVAL_FIELDS|
    requires forall i :: 0 <= i < |present| ==>
      present[i] == Check(REQUIRED_APPROVAL_FIELDS[i] in a, ApprovalFieldMissing)
    ensures Names(present, code) <==> code == ApprovalFieldMissing && !Complete(a)
  {
    AllFieldsRequired(a);
  }

  lemma {:induction false} AllFieldsRequired(a: Object)
    ensures HasAll(a, REQUIRED_APPROVAL_FIELDS) <==> Complete(a)
  {
    var f := REQUIRED_APPROVAL_FIELDS;
    assert f[0] == "approval_id" && f[1] == "approval_version" && f[2] == "approved_by_actor_id";
    assert f[3] == "approval_created_at_utc" && f[4] == "approval_expires_at_utc" && f[5] == "proposal_id";
    assert f[6] == "proposal_hash" && f[7] == "base_commit" && f[8] == "approved_target_files";
    assert f[9] == "approved_unified_diff_hash" && f[10] == "approved_risk_class" && f[11] == "authority_scope";
    assert f[12] == "workspace_root_hash" && f[13] == "max_files_allowed" && f[14] == "max_bytes_allowed";
    assert f[15] == "human_confirmation_text" && f[16] == "approval_nonce";
    assert f[17] == "approval_signature_or_local_attestation";
  }

  lemma {:induction false} IdentityMeans(a: Object, proposal: Object, host: Host, code: Code)
    ensures Names(IdentityChecks(a, proposal, host), code) <==> IdentityFault(a, proposal, host, code)
  {
    var c := IdentityChecks(a, proposal, host);
    forall i | 0 <= i < |c| ensures !c[i].ok <==> IdentityFault(a, proposal, host, c[i].code) {
      IdentityAt(a, proposal, host, i);
    }
    IdentityCodes(a, proposal, host);
  }

  lemma {:induction false} IdentityAt(a: Object, proposal: Object, host: Host, i: nat)
    requires i < |IdentityChecks(a, proposal, host)|
    ensures var c := IdentityChecks(a, proposal, host)[i]; !c.ok <==> IdentityFault(a, proposal, host, c.code)
  {
  }

  lemma {:induction false} IdentityCodes(a: Object, proposal: Object, host: Host)
    ensures var c := IdentityChecks(a, proposal, host);
      && |c| == 7
      && c[0].code == ApprovalActorRequired && c[1].code == ApprovalProposalIdMismatch
      && c[2].code == ApprovalProposalHashMismatch && c[3].code == ApprovalDiffHashMismatch
      && c[4].code == ApprovalBaseCommitMismatch && c[5].code == ApprovalRiskClassMismatch
      && c[6].code == ApprovalWorkspaceHashMismatch
  {
  }

  lemma {:induction false} ScopeMeans(a: Object, proposal: Object, code: Code)
    ensures Names(ScopeChecks(a, proposal), code) <==> ScopeFault(a, proposal, code)
  {
    var c := ScopeChecks(a, proposal);
    forall i | 0 <= i < |c| ensures !c[i].ok <==> ScopeFault(a, proposal, c[i].code) {
      ScopeAt(a, proposal, i);
    }
    ScopeCodes(a, proposal);
    MoreScopeCodes(a, proposal);
    LimitScopeCodes(a, proposal);
  }

  lemma {:induction false} ScopeAt(a: Object, proposal: Object, i: nat)
    requires i < |ScopeChecks(a, proposal)|
    ensures var c := ScopeChecks(a, proposal)[i]; !c.ok <==> ScopeFault(a, proposal, c.code)
  {
    if i < 3 {
      TargetsAt(a, proposal, i);
    } else {
      LimitsAt(a, proposal, i);
    }
  }

  lemma {:induction false} TargetsAt(a: Object, proposal: Object, i: nat)
    requires i < 3
    ensures var c := ScopeChecks(a, proposal)[i]; !c.ok <==> ScopeFault(a, proposal, c.code)
  {
  }

  lemma {:induction false} LimitsAt(a: Object, proposal: Object, i: nat)
    requires 3 <= i < |ScopeChecks(a, proposal)|
    ensures var c := ScopeChecks(a, proposal)[i]; !c.ok <==> ScopeFault(a, proposal, c.code)
  {
  }

  lemma {:induction false} ScopeCodes(a: Object, proposal: Object)
    ensures var c := ScopeChecks(a, proposal);
      && |c| == 7
      && c[0].code == ApprovalTargetFilesRequired && c[1].code == ApprovalWildcardRejected
  {
  }

  lemma {:induction false} MoreScopeCodes(a: Object, proposal: Object)
    ensures var c := ScopeChecks(a, proposal);
      && |c| == 7
      && c[2].code == ApprovalTargetFilesMismatch && c[3].code == ApprovalScopeTooBroad
      && c[4].code == ApprovalRollbackRequired
  {
  }

  lemma {:induction false} LimitScopeCodes(a: Object, proposal: Object)
    ensures var c := ScopeChecks(a, proposal);
      && |c| == 7
      && c[5].code == ApprovalMaxFilesExceeded && c[6].code == ApprovalMaxBytesRequired
  {
  }

  lemma {:induction false} ConsentMeans(a: Object, proposal: Object, host: Host, code: Code)
    ensures Names(ConsentChecks(a, proposal, host), code) <==> ConsentFault(a, proposal, host, code)
  {
    var c := ConsentChecks(a, proposal, host);
    OfThree(c[0], c[1], c[2], code);
  }

  /** The codes of a packet are exactly its faults; `ApprovalExpired`, say, is given exactly when the host
      takes the expiry for past. */
  lemma {:induction false} PacketCodesMean(packet: Json, proposal: Object, host: Host, code: Code)
    ensures Names(PacketChecks(packet, proposal, host), code) <==> PacketFault(packet, proposal, host, code)
  {
    if packet.Obj? {
      var a := packet.fields;
      var form, identity := FormChecks(a, host), IdentityChecks(a, proposal, host);
      var scope, consent := ScopeChecks(a, proposal), ConsentChecks(a, proposal, host);
      NamesAppend(form, identity + (scope + consent), code);
      NamesAppend(identity, scope + consent, code);
      NamesAppend(scope, consent, code);
      FormMeans(a, host, code);
      IdentityMeans(a, proposal, host, code);
      ScopeMeans(a, proposal, code);
      ConsentMeans(a, proposal, host, code);
    } else {
      var c := PacketChecks(packet, proposal, host);
      assert c[0] == Check(false, ApprovalPacketRequired);
    }
  }

  /** A packet passes exactly when it approves. */
  lemma {:induction false} PacketPassesIffApproves(packet: Json, proposal: Object, host: Host)
    ensures AllHold(PacketChecks(packet, proposal, host)) <==> Approves(packet, proposal, host)
  {
    var checks := PacketChecks(packet, proposal, host);
    AllHoldIffNoneNamed(checks);
    forall code ensures Names(checks, code) <==> PacketFault(packet, proposal, host, code) {
      PacketCodesMean(packet, proposal, host, code);
    }
    if packet.Obj? {
      FaultlessApproves(packet.fields, proposal, host);
    } else {
      assert PacketFault(packet, proposal, host, ApprovalPacketRequired);
    }
  }

  lemma {:induction false} FaultlessApproves(a: Object, proposal: Object, host: Host)
    ensures Approves(Obj(a), proposal, host) <==> forall code :: !PacketFault(Obj(a), proposal, host, code)
  {
    FaultlessForm(a, host);
    FaultlessIdentity(a, proposal, host);
    FaultlessScope(a, proposal);
    FaultlessConsent(a, proposal, host);
    if forall code :: !PacketFault(Obj(a), proposal, host, code) {
      forall code ensures !FormFault(a, host, code) && !IdentityFault(a, proposal, host, code) {
        assert !PacketFault(Obj(a), proposal, host, code);
      }
      forall code ensures !ScopeFault(a, proposal, code) && !ConsentFault(a, proposal, host, code) {
        assert !PacketFault(Obj(a), proposal, host, code);
      }
    }
  }

  lemma {:induction false} FaultlessForm(a: Object, host: Host)
    ensures InForm(a, host) <==> forall code :: !FormFault(a, host, code)
  {
    if forall code :: !FormFault(a, host, code) {
      OnlyForm(a, host);
    }
  }

  lemma {:induction false} OnlyForm(a: Object, host: Host)
    requires forall code :: !FormFault(a, host, code)
    ensures InForm(a, host)
  {
    assert !FormFault(a, host, ApprovalFieldMissing);
    StillValidWithoutFault(a, host);
  }

  lemma {:induction false} StillValidWithoutFault(a: Object, host: Host)
    requires forall code :: !FormFault(a, host, code)
    ensures host.expiry(Get(a, "approval_expires_at_utc")) == StillValid
  {
    assert !FormFault(a, host, ApprovalExpirationRequired) && !FormFault(a, host, ApprovalExpired);
  }

  lemma {:induction false} FaultlessIdentity(a: Object, proposal: Object, host: Host)
    ensures Identifies(a, proposal, host) <==> forall code :: !IdentityFault(a, proposal, host, code)
  {
    if forall code :: !IdentityFault(a, proposal, host, code) {
      OnlyIdentity(a, proposal, host);
    }
  }

  lemma {:induction false} OnlyIdentity(a: Object, proposal: Object, host: Host)
    requires forall code :: !IdentityFault(a, proposal, host, code)
    ensures Identifies(a, proposal, host)
  {
    assert !IdentityFault(a, proposal, host, ApprovalActorRequired);
    assert !IdentityFault(a, proposal, host, ApprovalProposalIdMismatch);
    assert !IdentityFault(a, proposal, host, ApprovalProposalHashMismatch);
    assert !IdentityFault(a, proposal, host, ApprovalDiffHashMismatch);
    assert !IdentityFault(a, proposal, host, ApprovalBaseCommitMismatch);
    assert !IdentityFault(a, proposal, host, ApprovalRiskClassMismatch);
    assert !IdentityFault(a, proposal, host, ApprovalWorkspaceHashMismatch);
  }

  lemma {:induction false} FaultlessScope(a: Object, proposal: Object)
    ensures InScope(a, proposal) <==> forall code :: !ScopeFault(a, proposal, code)
  {
    if forall code :: !ScopeFault(a, proposal, code) {
      FaultlessTargets(a, proposal);
      FaultlessLimits(a, proposal);
    }
  }

  lemma {:induction false} FaultlessLimits(a: Object, proposal: Object)
    requires forall code :: !ScopeFault(a, proposal, code)
    ensures Get(a, "authority_scope") == Str("single_patch_apply_transaction") && !Truthy(Get(a, "apply_any_patch"))
    ensures Get(a, "rollback_required") == Bool(true)
    ensures AtLeast(Get(a, "max_files_allowed"), |Listed(Get(proposal, "target_files"))|)
    ensures AtLeast(Get(a, "max_bytes_allowed"), 1)
  {
    assert !ScopeFault(a, proposal, ApprovalScopeTooBroad) && !ScopeFault(a, proposal, ApprovalRollbackRequired);
    FaultlessSizes(a, proposal);
  }

  lemma {:induction false} FaultlessSizes(a: Object, proposal: Object)
    requires forall code :: !ScopeFault(a, proposal, code)
    ensures AtLeast(Get(a, "max_files_allowed"), |Listed(Get(proposal, "target_files"))|)
    ensures AtLeast(Get(a, "max_bytes_allowed"), 1)
  {
    assert !ScopeFault(a, proposal, ApprovalMaxFilesExceeded) && !ScopeFault(a, proposal, ApprovalMaxBytesRequired);
  }

  lemma {:induction false} FaultlessTargets(a: Object, proposal: Object)
    requires forall code :: !ScopeFault(a, proposal, code)
    ensures var targets := Get(a, "approved_target_files");
      && targets == Get(proposal, "target_files") && StringList(targets) && targets.items != []
      && forall i :: 0 <= i < |targets.items| ==> '*' !in targets.items[i].s
  {
    var targets := Get(a, "approved_target_files");
    assert !ScopeFault(a, proposal, ApprovalTargetFilesRequired) && !ScopeFault(a, proposal, ApprovalWildcardRejected);
    assert !ScopeFault(a, proposal, ApprovalTargetFilesMismatch);
    assert !HasStar(targets.items);
  }

  lemma {:induction false} FaultlessConsent(a: Object, proposal: Object, host: Host)
    ensures Consents(a, proposal, host) <==> forall code :: !ConsentFault(a, proposal, host, code)
  {
    if Consents(a, proposal, host) {
      forall code ensures !ConsentFault(a, proposal, host, code) {
        ConsentIsFaultless(a, proposal, host, code);
      }
    } else {
      var code := MissedConsent(a, proposal, host);
      assert ConsentFault(a, proposal, host, code);
    }
  }

  lemma {:induction false} ConsentIsFaultless(a: Object, proposal: Object, host: Host, code: Code)
    requires Consents(a, proposal, host)
    ensures !ConsentFault(a, proposal, host, code)
  {
  }

  /** The first consent that is missing. */
  function MissedConsent(a: Object, proposal: Object, host: Host): (code: Code)
    requires !Consents(a, proposal, host)
    ensures ConsentFault(a, proposal, host, code)
  {
    if !host.confirms(Get(a, "human_confirmation_text"), Get(proposal, "proposal_id"))
    then ApprovalConfirmationRejected
    else if !Truthy(Get(a, "approval_nonce")) then ApprovalNonceRequired
    else ApprovalAttestationRequired
  }

  // ---------------------------------------------------------------- the request

  /** The request is well formed, asks for nothing but a patch, and its proposal and targets are as approved. */
  ghost predicate Acceptable(r: Object, files: Files, policy: Policy, host: Host) {
    var p := Carried(r);
    && FieldsGood(r, policy) && NamesItsTargets(p)
    && Approves(Get(r, "approval_packet"), p, host)
    && Get(p, "target_file_hashes").Obj? && TargetsGood(p, files, policy, host)
  }

  predicate FieldsGood(r: Object, policy: Policy) {
    Enters(r) && AsksNothingElse(r) && ClaimsNothing(Carried(r)) && WithinLimits(r, Carried(r), policy)
  }

  /** Every target is a text file of acceptable size with the recorded hash. */
  predicate TargetsGood(p: Object, files: Files, policy: Policy, host: Host) {
    var targets := Listed(Get(p, "target_files"));
    forall i :: 0 <= i < |targets| ==>
      targets[i].Str? && TargetMatches(targets[i].s, Recorded(p), files, policy, host)
  }

  /** The proposal that the request carries. */
  function Carried(r: Object): Object {
    if Get(r, "proposal").Obj? then Get(r, "proposal").fields else map[]
  }

  predicate Enters(r: Object) {
    && NonEmptyString(Get(r, "transaction_id")) && '/' !in Get(r, "transaction_id").s
    && Get(r, "proposal").Obj? && Get(r, "approval_packet") != Null
  }

  predicate AsksNothingElse(r: Object) {
    && !Truthy(Get(r, "shell_command")) && !Truthy(Get(r, "shell_execution_requested"))
    && !Truthy(Get(r, "network_instruction")) && !Truthy(Get(r, "network_execution_requested"))
    && !Truthy(Get(r, "llm_invocation_requested")) && !Truthy(Get(r, "executor_dispatch_requested"))
    && !Truthy(Get(r, "tests_run")) && !Truthy(Get(r, "test_execution_requested"))
  }

  predicate ClaimsNothing(p: Object) {
    && Get(p, "apply_allowed") == Bool(false) && Get(p, "apply_performed") == Bool(false)
    && Get(p, "workspace_mutation_performed") == Bool(false)
    && Get(p, "test_execution_allowed") == Bool(false) && Get(p, "test_execution_performed") == Bool(false)
  }

  predicate WithinLimits(r: Object, p: Object, policy: Policy) {
    && Get(p, "artifact_only") == Bool(true) && Get(p, "human_approval_required") == Bool(true)
    && Get(r, "base_commit") == Get(p, "base_commit")
    && StringList(Get(p, "target_files")) && 0 < |Get(p, "target_files").items| <= policy.maxFiles
    && NonEmptyString(Get(p, "unified_diff")) && Utf8Length(Get(p, "unified_diff").s) <= policy.maxBytes
  }

  /** The diff parses, and its patches are for the listed files, in the same order. */
  predicate NamesItsTargets(p: Object) {
    Get(p, "unified_diff").Str? &&
    var parsed := ParsedDiff(Get(p, "unified_diff").s);
    && parsed.Success? && |parsed.value| == |Listed(Get(p, "target_files"))|
    && forall i :: 0 <= i < |parsed.value| ==> Listed(Get(p, "target_files"))[i] == Str(parsed.value[i].targetPath)
  }

  /** The request lacks its id, its proposal or its approval packet. */
  predicate EntryFault(r: Object, code: Code) {
    match code
    case TransactionIdRequired => !NonEmptyString(Get(r, "transaction_id")) || '/' in Get(r, "transaction_id").s
    case ProposalRequired => !Get(r, "proposal").Obj?
    case ApprovalPacketRequired => Get(r, "approval_packet") == Null
    case _ => false
  }

  /** It asks for something else than a patch. */
  predicate AskingFault(r: Object, code: Code) {
    match code
    case ShellRequestRejected => Truthy(Get(r, "shell_command")) || Truthy(Get(r, "shell_execution_requested"))
    case NetworkRequestRejected => Truthy(Get(r, "network_instruction")) ||
      Truthy(Get(r, "network_execution_requested"))
    case LlmRequestRejected => Truthy(Get(r, "llm_invocation_requested"))
    case DispatchRequestRejected => Truthy(Get(r, "executor_dispatch_requested"))
    case TestRequestRejected => Truthy(Get(r, "tests_run")) || Truthy(Get(r, "test_execution_requested"))
    case _ => false
  }

  /** The proposal does not deny having been applied, or being allowed to be. */
  predicate ClaimFault(p: Object, code: Code) {
    match code
    case ApplyAllowedRejected => Get(p, "apply_allowed") != Bool(false)
    case ApplyClaimRejected => Get(p, "apply_performed") != Bool(false)
    case MutationClaimRejected => Get(p, "workspace_mutation_performed") != Bool(false)
    case TestAllowedRejected => Get(p, "test_execution_allowed") != Bool(false)
    case TestClaimRejected => Get(p, "test_execution_performed") != Bool(false)
    case _ => false
  }

  /** The proposal is not one to be approved, lists no files or too many, or has no diff or one too large. */
  predicate LimitFault(r: Object, p: Object, policy: Policy, code: Code) {
    match code
    case ArtifactOnlyRequired => Get(p, "artifact_only") != Bool(true)
    case HumanApprovalRequired => Get(p, "human_approval_required") != Bool(true)
    case BaseCommitMismatch => Get(r, "base_commit") != Get(p, "base_commit")
    case TargetFilesRequired => Usable(Get(p, "target_files")) == []
    case MaxFilesExceeded => |Usable(Get(p, "target_files"))| > policy.maxFiles
    case UnifiedDiffRequired => !NonEmptyString(Get(p, "unified_diff"))
    case PatchSizeLimitExceeded =>
      (if Get(p, "unified_diff").Str? then Utf8Length(Get(p, "unified_diff").s) else 0) > policy.maxBytes
    case _ => false
  }

  /** The diff does not parse, or is for other files than the ones listed. */
  predicate DiffFault(p: Object, code: Code) {
    && NonEmptyString(Get(p, "unified_diff"))
    && match ParsedDiff(Get(p, "unified_diff").s)
       case Failure(e) => code == Diff(e)
       case Success(patches) =>
         code == TargetFilesDiffMismatch && Usable(Get(p, "target_files")) != [] && !NamesItsTargets(p)
  }

  /** The target is not the text file it was when it was approved. */
  predicate TargetFault(target: string, recorded: Object, files: Files, policy: Policy, host: Host, code: Code) {
    if host.checkPath(target).PathRefused? then code == PathRejected(host.checkPath(target).reason)
    else if host.at(target) !in files then code == TargetFileMissing
    else match files[host.at(target)]
      case Directory => code == TargetFileNotRegular
      case BinaryFile => code == BinaryTargetRejected
      case TextFile(text) => TextFault(text, Get(recorded, target), policy, host, code)
  }

  /** Of a text the first of these decides: its size, a null character, and the recorded hash. */
  predicate TextFault(text: string, recorded: Json, policy: Policy, host: Host, code: Code) {
    match code
    case TargetSizeLimitExceeded => Utf8Length(text) > policy.maxTargetBytes
    case BinaryTargetRejected => Utf8Length(text) <= policy.maxTargetBytes && '\0' in text
    case PreimageHashMissing => Utf8Length(text) <= policy.maxTargetBytes && '\0' !in text && !Truthy(recorded)
    case PreimageHashMismatch =>
      && Utf8Length(text) <= policy.maxTargetBytes && '\0' !in text && Truthy(recorded)
      && recorded != Str(host.digest(text))
    case _ => false
  }

  /** A field of the request or of its proposal has the fault. */
  predicate FieldFault(r: Object, policy: Policy, code: Code) {
    || EntryFault(r, code) || AskingFault(r, code) || ClaimFault(Carried(r), code)
    || LimitFault(r, Carried(r), policy, code)
  }

  /** The request has the fault that `code` names. */
  ghost predicate RequestFault(r: Object, files: Files, policy: Policy, host: Host, code: Code) {
    var p := Carried(r);
    || FieldFault(r, policy, code) || DiffFault(p, code) || PacketFault(Get(r, "approval_packet"), p, host, code)
    || (code == PreimageHashesRequired && !Get(p, "target_file_hashes").Obj?)
    || SomeTargetFault(p, files, policy, host, code)
  }

  /** The hashes that the proposal records, by target. */
  function Recorded(p: Object): Object {
    if Get(p, "target_file_hashes").Obj? then Get(p, "target_file_hashes").fields else map[]
  }

  ghost predicate SomeTargetFault(p: Object, files: Files, policy: Policy, host: Host, code: Code) {
    var targets := Usable(Get(p, "target_files"));
    exists i :: 0 <= i < |targets| && targets[i].Str? && TargetFault(targets[i].s, Recorded(p), files, policy, host,
                                                                     code)
  }

  // ---------------------------------------------------------------- each list of checks

  lemma {:induction false} EntryMeans(r: Object, code: Code)
    ensures Names(EntryChecks(r), code) <==> EntryFault(r, code)
  {
    var c := EntryChecks(r);
    OfThree(c[0], c[1], c[2], code);
  }

  lemma {:induction false} AskingMeans(r: Object, code: Code)
    ensures Names(UnsetChecks(r, FORBIDDEN_REQUEST_FIELDS), code) <==> AskingFault(r, code)
  {
    var c := UnsetChecks(r, FORBIDDEN_REQUEST_FIELDS);
    if i :| 0 <= i < |c| && !c[i].ok && c[i].code == code {
      AskingAt(r, i);
    }
    if AskingFault(r, code) {
      var i := AskingField(r, code);
      assert !c[i].ok && c[i].code == code;
    }
  }

  lemma {:induction false} AskingField(r: Object, code: Code) returns (i: int)
    requires AskingFault(r, code)
    ensures 0 <= i < |FORBIDDEN_REQUEST_FIELDS| && FORBIDDEN_REQUEST_FIELDS[i].1 == code
    ensures Truthy(Get(r, FORBIDDEN_REQUEST_FIELDS[i].0))
  {
    i := match code
      case ShellRequestRejected => if Truthy(Get(r, "shell_command")) then 0 else 1
      case NetworkRequestRejected => if Truthy(Get(r, "network_instruction")) then 2 else 3
      case LlmRequestRejected => 4
      case DispatchRequestRejected => 5
      case _ => if Truthy(Get(r, "tests_run")) then 6 else 7;
  }

  lemma {:induction false} AskingAt(r: Object, i: nat)
    requires i < |FORBIDDEN_REQUEST_FIELDS| && Truthy(Get(r, FORBIDDEN_REQUEST_FIELDS[i].0))
    ensures AskingFault(r, FORBIDDEN_REQUEST_FIELDS[i].1)
  {
  }

  lemma {:induction false} ClaimsMean(p: Object, code: Code)
    ensures Names(FalseChecks(p, FORBIDDEN_PROPOSAL_CLAIMS), code) <==> ClaimFault(p, code)
  {
    var c, f := FalseChecks(p, FORBIDDEN_PROPOSAL_CLAIMS), FORBIDDEN_PROPOSAL_CLAIMS;
    Claims();
    assert forall i :: 0 <= i < |f| ==> c[i] == Check(Get(p, f[i].0) == Bool(false), f[i].1);
  }

  lemma {:induction false} Claims()
    ensures var f := FORBIDDEN_PROPOSAL_CLAIMS;
      && |f| == 5
      && f[0] == ("apply_allowed", ApplyAllowedRejected) && f[1] == ("apply_performed", ApplyClaimRejected)
      && f[2] == ("workspace_mutation_performed", MutationClaimRejected)
      && f[3] == ("test_execution_allowed", TestAllowedRejected)
      && f[4] == ("test_execution_performed", TestClaimRejected)
  {
  }

  lemma {:induction false} LimitsMean(r: Object, policy: Policy, code: Code)
    ensures Names(SizeChecks(r, policy), code) <==> LimitFault(r, Carried(r), policy, code)
  {
    var c := SizeChecks(r, policy);
    forall i | 0 <= i < |c| ensures !c[i].ok <==> LimitFault(r, Carried(r), policy, c[i].code) {
      LimitAt(r, policy, i);
    }
    LimitCodes(r, policy);
  }

  lemma {:induction false} LimitAt(r: Object, policy: Policy, i: nat)
    requires i < |SizeChecks(r, policy)|
    ensures var c := SizeChecks(r, policy)[i]; !c.ok <==> LimitFault(r, Carried(r), policy, c.code)
  {
  }

  lemma {:induction false} LimitCodes(r: Object, policy: Policy)
    ensures var c := SizeChecks(r, policy);
      && |c| == 7
      && c[0].code == ArtifactOnlyRequired && c[1].code == HumanApprovalRequired && c[2].code == BaseCommitMismatch
      && c[3].code == TargetFilesRequired && c[4].code == MaxFilesExceeded && c[5].code == UnifiedDiffRequired
      && c[6].code == PatchSizeLimitExceeded
  {
  }

  lemma {:induction false} DiffMeans(p: Object, code: Code)
    ensures Names(DiffChecks(DiffText(p), TargetFiles(p)), code) <==> DiffFault(p, code)
  {
    var c := DiffChecks(DiffText(p), TargetFiles(p));
    if DiffText(p) != "" {
      assert c[0] == c[|c| - 1];
      if ParsedDiff(DiffText(p)).Success? && Usable(Get(p, "target_files")) != [] {
        SameNames(p);
      }
    }
  }

  /** The two lists of names agree as strings exactly when they agree as the proposal lists them. */
  lemma {:induction false} SameNames(p: Object)
    requires Get(p, "unified_diff").Str? && ParsedDiff(Get(p, "unified_diff").s).Success?
    requires Usable(Get(p, "target_files")) != []
    ensures ProposalDiff.Targets(ParsedDiff(Get(p, "unified_diff").s).value) == TargetFiles(p) <==> NamesItsTargets(p)
  {
    var targets := ProposalDiff.Targets(ParsedDiff(Get(p, "unified_diff").s).value);
    var items := Get(p, "target_files").items;
    assert TargetFiles(p) == Strings(items);
    if NamesItsTargets(p) {
      assert forall i :: 0 <= i < |targets| ==> items[i] == Str(targets[i]);
    }
    if targets == TargetFiles(p) {
      assert forall i :: 0 <= i < |items| ==> items[i] == Str(targets[i]);
    }
  }

  lemma {:induction false} TargetsMean(p: Object, files: Files, policy: Policy, host: Host, code: Code)
    ensures Names(TargetChecks(TargetFiles(p), RecordedHashes(p), files, policy, host), code) <==>
      SomeTargetFault(p, files, policy, host, code)
  {
    var names := TargetFiles(p);
    var c := TargetChecks(names, RecordedHashes(p), files, policy, host);
    forall i | 0 <= i < |c|
      ensures !c[i].ok && c[i].code == code <==> TargetFault(names[i], Recorded(p), files, policy, host, code)
    {
      TargetMeans(names[i], Recorded(p), files, policy, host, code);
    }
    var items := Usable(Get(p, "target_files"));
    assert |items| == |names| && forall i :: 0 <= i < |items| ==> items[i] == Str(names[i]);
  }

  lemma {:induction false} TargetMeans(target: string, recorded: Object, files: Files, policy: Policy, host: Host,
                                       code: Code)
    ensures var c := TargetCheck(target, recorded, files, policy, host);
      !c.ok && c.code == code <==> TargetFault(target, recorded, files, policy, host, code)
  {
    var error := TargetError(target, recorded, files, policy, host);
    assert TargetCheck(target, recorded, files, policy, host) ==
      if error.None? then Check(true, PreimageHashMismatch) else Check(false, error.value);
    ErrorMeans(target, recorded, files, policy, host, code);
  }

  lemma {:induction false} ErrorMeans(target: string, recorded: Object, files: Files, policy: Policy, host: Host,
                                      code: Code)
    ensures TargetError(target, recorded, files, policy, host) == Some(code) <==>
      TargetFault(target, recorded, files, policy, host, code)
  {
    if !host.checkPath(target).PathRefused? && host.at(target) in files {
      match files[host.at(target)]
      case Directory =>
      case BinaryFile =>
      case TextFile(text) => TextErrorMeans(target, text, recorded, files, policy, host, code);
    }
  }

  lemma {:induction false} TextErrorMeans(target: string, text: string, recorded: Object, files: Files, policy: Policy,
                                          host: Host, code: Code)
    requires !host.checkPath(target).PathRefused?
    requires host.at(target) in files && files[host.at(target)] == TextFile(text)
    ensures TargetError(target, recorded, files, policy, host) == Some(code) <==>
      TextFault(text, Get(recorded, target), policy, host, code)
  {
  }

  // ---------------------------------------------------------------- all of them

  /** The codes of a request are exactly its faults. */
  lemma {:induction false} RequestCodesMean(r: Object, files: Files, policy: Policy, host: Host, code: Code)
    ensures Names(RequestChecks(r, files, policy, host), code) <==> RequestFault(r, files, policy, host, code)
  {
    var p := Carried(r);
    FieldCodesMean(r, policy, code);
    DiffMeans(p, code);
    PacketCodesMean(Get(r, "approval_packet"), p, host, code);
    HashesMean(p, code);
    TargetsMean(p, files, policy, host, code);
    NamesFive(FieldChecks(r, policy), DiffChecks(DiffText(p), TargetFiles(p)),
              PacketChecks(Get(r, "approval_packet"), p, host),
              [Check(Get(p, "target_file_hashes").Obj?, PreimageHashesRequired)],
              TargetChecks(TargetFiles(p), RecordedHashes(p), files, policy, host), code);
  }

  lemma {:induction false} HashesMean(p: Object, code: Code)
    ensures Names([Check(Get(p, "target_file_hashes").Obj?, PreimageHashesRequired)], code) <==>
      code == PreimageHashesRequired && !Get(p, "target_file_hashes").Obj?
  {
    var c := [Check(Get(p, "target_file_hashes").Obj?, PreimageHashesRequired)];
    assert c[0].code == PreimageHashesRequired;
  }

  lemma {:induction false} FieldCodesMean(r: Object, policy: Policy, code: Code)
    ensures Names(FieldChecks(r, policy), code) <==> FieldFault(r, policy, code)
  {
    var asking, claims := UnsetChecks(r, FORBIDDEN_REQUEST_FIELDS), FalseChecks(Proposal(r), FORBIDDEN_PROPOSAL_CLAIMS);
    EntryMeans(r, code);
    AskingMeans(r, code);
    ClaimsMean(Proposal(r), code);
    LimitsMean(r, policy, code);
    NamesAppend(EntryChecks(r), asking + (claims + SizeChecks(r, policy)), code);
    NamesAppend(asking, claims + SizeChecks(r, policy), code);
    NamesAppend(claims, SizeChecks(r, policy), code);
  }

  lemma {:induction false} FaultlessIsAcceptable(r: Object, files: Files, policy: Policy, host: Host)
    requires forall code :: !RequestFault(r, files, policy, host, code)
    ensures Acceptable(r, files, policy, host)
  {
    var p, packet := Carried(r), Get(r, "approval_packet");
    forall code ensures !FieldFault(r, policy, code) && !DiffFault(p, code) {
      assert !RequestFault(r, files, policy, host, code);
    }
    forall code ensures !PacketFault(packet, p, host, code) && !SomeTargetFault(p, files, policy, host, code) {
      assert !RequestFault(r, files, policy, host, code);
    }
    assert !RequestFault(r, files, policy, host, PreimageHashesRequired);
    OnlyFields(r, policy);
    OnlyDiff(p);
    OnlyPacket(packet, p, host);
    OnlyTargets(p, files, policy, host);
  }

  lemma {:induction false} OnlyPacket(packet: Json, p: Object, host: Host)
    requires forall code :: !PacketFault(packet, p, host, code)
    ensures Approves(packet, p, host)
  {
    assert !PacketFault(packet, p, host, ApprovalPacketRequired);
    FaultlessApproves(packet.fields, p, host);
  }

  lemma {:induction false} OnlyFields(r: Object, policy: Policy)
    requires forall code :: !FieldFault(r, policy, code)
    ensures FieldsGood(r, policy)
  {
    var p := Carried(r);
    forall code ensures !EntryFault(r, code) && !AskingFault(r, code) && !ClaimFault(p, code) {
      assert !FieldFault(r, policy, code);
    }
    forall code ensures !LimitFault(r, p, policy, code) {
      assert !FieldFault(r, policy, code);
    }
    OnlyEntry(r);
    OnlyAsking(r);
    OnlyClaims(p);
    OnlyLimits(r, p, policy);
  }

  lemma {:induction false} OnlyEntry(r: Object)
    requires forall code :: !EntryFault(r, code)
    ensures Enters(r)
  {
    assert !EntryFault(r, TransactionIdRequired) && !EntryFault(r, ProposalRequired);
    assert !EntryFault(r, ApprovalPacketRequired);
  }

  lemma {:induction false} OnlyAsking(r: Object)
    requires forall code :: !AskingFault(r, code)
    ensures AsksNothingElse(r)
  {
    assert !AskingFault(r, ShellRequestRejected) && !AskingFault(r, NetworkRequestRejected);
    assert !AskingFault(r, LlmRequestRejected) && !AskingFault(r, DispatchRequestRejected);
    assert !AskingFault(r, TestRequestRejected);
  }

  lemma {:induction false} OnlyClaims(p: Object)
    requires forall code :: !ClaimFault(p, code)
    ensures ClaimsNothing(p)
  {
    assert !ClaimFault(p, ApplyAllowedRejected) && !ClaimFault(p, ApplyClaimRejected);
    assert !ClaimFault(p, MutationClaimRejected);
    assert !ClaimFault(p, TestAllowedRejected) && !ClaimFault(p, TestClaimRejected);
  }

  lemma {:induction false} OnlyLimits(r: Object, p: Object, policy: Policy)
    requires forall code :: !LimitFault(r, p, policy, code)
    ensures WithinLimits(r, p, policy)
  {
    assert !LimitFault(r, p, policy, ArtifactOnlyRequired) && !LimitFault(r, p, policy, HumanApprovalRequired);
    assert !LimitFault(r, p, policy, BaseCommitMismatch) && !LimitFault(r, p, policy, TargetFilesRequired);
    assert !LimitFault(r, p, policy, MaxFilesExceeded) && !LimitFault(r, p, policy, UnifiedDiffRequired);
    assert !LimitFault(r, p, policy, PatchSizeLimitExceeded);
  }

  lemma {:induction false} OnlyDiff(p: Object)
    requires NonEmptyString(Get(p, "unified_diff"))
    requires StringList(Get(p, "target_files")) && Get(p, "target_files").items != []
    requires forall code :: !DiffFault(p, code)
    ensures NamesItsTargets(p)
  {
    match ParsedDiff(Get(p, "unified_diff").s)
    case Failure(e) => assert !DiffFault(p, Diff(e));
    case Success(_) => assert !DiffFault(p, TargetFilesDiffMismatch);
  }

  lemma {:induction false} OnlyTargets(p: Object, files: Files, policy: Policy, host: Host)
    requires StringList(Get(p, "target_files")) && forall code :: !SomeTargetFault(p, files, policy, host, code)
    ensures TargetsGood(p, files, policy, host)
  {
    var items := Get(p, "target_files").items;
    forall i | 0 <= i < |items| ensures TargetMatches(items[i].s, Recorded(p), files, policy, host) {
      var c := TargetCheck(items[i].s, Recorded(p), files, policy, host);
      TargetMeans(items[i].s, Recorded(p), files, policy, host, c.code);
      if !c.ok {
        assert Usable(Get(p, "target_files"))[i] == items[i];
        assert SomeTargetFault(p, files, policy, host, c.code);
      }
    }
  }

  lemma {:induction false} AcceptableIsFaultless(r: Object, files: Files, policy: Policy, host: Host, code: Code)
    requires Acceptable(r, files, policy, host)
    ensures !RequestFault(r, files, policy, host, code)
  {
    var p, packet := Carried(r), Get(r, "approval_packet");
    GoodFieldsFaultless(r, policy, code);
    FaultlessApproves(packet.fields, p, host);
    assert packet == Obj(packet.fields);
    GoodTargetsFaultless(p, files, policy, host, code);
  }

  lemma {:induction false} GoodFieldsFaultless(r: Object, policy: Policy, code: Code)
    requires FieldsGood(r, policy)
    ensures !FieldFault(r, policy, code)
  {
    NothingAsked(r, code);
    NothingClaimed(Carried(r), code);
  }

  lemma {:induction false} NothingAsked(r: Object, code: Code)
    requires AsksNothingElse(r)
    ensures !AskingFault(r, code)
  {
  }

  lemma {:induction false} NothingClaimed(p: Object, code: Code)
    requires ClaimsNothing(p)
    ensures !ClaimFault(p, code)
  {
  }

  lemma {:induction false} GoodTargetsFaultless(p: Object, files: Files, policy: Policy, host: Host, code: Code)
    requires TargetsGood(p, files, policy, host)
    ensures !SomeTargetFault(p, files, policy, host, code)
  {
    var items, listed := Usable(Get(p, "target_files")), Listed(Get(p, "target_files"));
    forall i | 0 <= i < |items| && items[i].Str?
      ensures !TargetFault(items[i].s, Recorded(p), files, policy, host, code)
    {
      assert items == listed;
      assert listed[i].Str? && TargetMatches(listed[i].s, Recorded(p), files, policy, host);
      TargetMeans(items[i].s, Recorded(p), files, policy, host, code);
    }
  }

  /** A request passes exactly when it is acceptable. */
  lemma {:induction false} PassesIffAcceptable(r: Object, files: Files, policy: Policy, host: Host)
    ensures AllHold(RequestChecks(r, files, policy, host)) <==> Acceptable(r, files, policy, host)
  {
    AllHoldIffNoneNamed(RequestChecks(r, files, policy, host));
    forall code
      ensures Names(RequestChecks(r, files, policy, host), code) <==> RequestFault(r, files, policy, host, code)
    {
      RequestCodesMean(r, files, policy, host, code);
    }
    if forall code :: !RequestFault(r, files, policy, host, code) {
      FaultlessIsAcceptable(r, files, policy, host);
    }
    if Acceptable(r, files, policy, host) {
      forall code ensures !RequestFault(r, files, policy, host, code) {
        AcceptableIsFaultless(r, files, policy, host, code);
      }
    }
  }

  /** What it takes for a request to be granted: the policy keeps receipts and ledger, the request is
      acceptable, and the proposal has the fields that the result copies. */
  ghost predicate Grantable(request: Json, files: Files, policy: Policy, host: Host) {
    && policy.receiptRequired && policy.ledgerEventRequired
    && request.Obj? && Acceptable(request.fields, files, policy, host)
    && {"proposal_id", "base_commit", "unified_diff_hash"} <= Carried(request.fields).Keys
  }

  lemma {:induction false} AuthorisedIffGrantable(request: Json, files: Files, policy: Policy, host: Host)
    ensures Authorised(request, files, policy, host) <==> Grantable(request, files, policy, host)
  {
    if request.Obj? {
      PassesIffAcceptable(request.fields, files, policy, host);
      CopiedFields(Carried(request.fields));
      assert Carried(request.fields) == Proposal(request.fields);
    }
  }

  lemma {:induction false} CopiedFields(p: Object)
    ensures HasAll(p, COPIED_FIELDS) <==> {"proposal_id", "base_commit", "unified_diff_hash"} <= p.Keys
  {
    var f := COPIED_FIELDS;
    assert f[0] == "proposal_id" && f[1] == "base_commit" && f[2] == "unified_diff_hash";
  }

  /** The request is refused for the reason that `code` names. */
  ghost predicate RefusedFor(request: Json, files: Files, policy: Policy, host: Host, code: Code) {
    if !policy.receiptRequired then code == ReceiptContractRequired
    else if !policy.ledgerEventRequired then code == LedgerEventRequired
    else if !request.Obj? then code == RequestMalformed
    else RequestFault(request.fields, files, policy, host, code)
  }

  /** The codes that a refused request is given. */
  lemma {:induction false} RefusalsMean(request: Json, files: Files, policy: Policy, host: Host)
    ensures forall code :: code in Refusals(request, files, policy, host) <==>
      RefusedFor(request, files, policy, host, code)
  {
    if request.Obj? {
      FailingMeans(RequestChecks(request.fields, files, policy, host));
      forall code
        ensures Names(RequestChecks(request.fields, files, policy, host), code) <==>
          RequestFault(request.fields, files, policy, host, code)
      {
        RequestCodesMean(request.fields, files, policy, host, code);
      }
    }
  }

  /** The identifiers and hashes are those that the approval names. */
  predicate CarriesApproval(b: Bindings, r: Object, host: Host) {
    var packet := Get(r, "approval_packet");
    && packet.Obj?
    && b.proposalId == Get(packet.fields, "proposal_id") && Str(b.proposalHash) == Get(packet.fields, "proposal_hash")
    && b.approvalId == Get(packet.fields, "approval_id") && b.approvalHash == host.canonical(packet)
    && b.baseCommit == Get(packet.fields, "base_commit")
    && Str(b.workspaceRootHash) == Get(packet.fields, "workspace_root_hash")
    && b.unifiedDiffHash == Get(packet.fields, "approved_unified_diff_hash")
  }

  /** What a granted request hands on is what was approved. */
  lemma {:induction false} GrantedHandsOn(request: Json, files: Files, policy: Policy, host: Host)
    requires Grantable(request, files, policy, host)
    ensures CarriesApproval(BindingsOf(request.fields, host), request.fields, host)
    ensures Get(request.fields, "transaction_id") == Str(TransactionId(request.fields))
    ensures Get(Carried(request.fields), "target_files") == StrList(TargetFiles(Carried(request.fields)))
  {
    var targets := Get(Carried(request.fields), "target_files");
    assert StrList(Strings(targets.items)).items == targets.items;
  }

  /** UTF-8 spends one byte on 7 bits of a character, two on 11, three on 16 and four on 21. */
  lemma {:induction false} BytesOfCharacter(c: char)
    ensures Utf8Length([c]) == if c as int < 128 then 1 else if c as int < 2048 then 2
                               else if c as int < 65536 then 3 else 4
  {
    assert [c][1..] == "";
  }

  /** A text takes a byte for each of its characters exactly when they are all ASCII, and never more than four. */
  lemma {:induction false} BytesOfText(s: string, t: string)
    ensures |s| <= Utf8Length(s) <= 4 * |s|
    ensures Utf8Length(s) == |s| <==> forall i :: 0 <= i < |s| ==> s[i] < '\U{80}'
    ensures Utf8Length(s + t) == Utf8Length(s) + Utf8Length(t)
  {
    if s == "" {
      assert s + t == t;
    } else {
      assert (s + t)[1..] == s[1..] + t;
      BytesOfText(s[1..], t);
      assert forall i :: 0 <= i < |s| - 1 ==> s[1..][i] == s[i + 1];
    }
  }
}
