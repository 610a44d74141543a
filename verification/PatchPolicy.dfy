/** Validation of an apply request and of the human approval it carries
    (runtime_lab/patch_apply/policy.py, runtime_lab/patch_apply/approval.py). */
module PatchPolicy {
  import opened Wrappers
  import opened Json
  import opened Checks
  import opened Dedupe
  import opened UnifiedDiff
  import opened DiffParser
  import opened ProposalDiff

  datatype Code =
    | Diff(error: DiffError)
    | ReceiptContractRequired | LedgerEventRequired | RequestMalformed
    | TransactionIdRequired | ProposalRequired | ApprovalPacketRequired
    | ShellRequestRejected | NetworkRequestRejected | LlmRequestRejected | DispatchRequestRejected | TestRequestRejected
    | ApplyAllowedRejected | ApplyClaimRejected | MutationClaimRejected | TestAllowedRejected | TestClaimRejected
    | ArtifactOnlyRequired | HumanApprovalRequired | BaseCommitMismatch
    | TargetFilesRequired | MaxFilesExceeded | UnifiedDiffRequired | PatchSizeLimitExceeded | TargetFilesDiffMismatch
    | PreimageHashesRequired | TargetFileMissing | TargetFileNotRegular | TargetSizeLimitExceeded
    | BinaryTargetRejected | PreimageHashMissing | PreimageHashMismatch
    | PathRejected(reason: string)
    | ApprovalFieldMissing | ApprovalExpirationRequired | ApprovalExpired | ApprovalActorRequired
    | ApprovalProposalIdMismatch | ApprovalProposalHashMismatch | ApprovalDiffHashMismatch
    | ApprovalBaseCommitMismatch | ApprovalRiskClassMismatch | ApprovalWorkspaceHashMismatch
    | ApprovalTargetFilesRequired | ApprovalWildcardRejected | ApprovalTargetFilesMismatch
    | ApprovalScopeTooBroad | ApprovalRollbackRequired | ApprovalMaxFilesExceeded | ApprovalMaxBytesRequired
    | ApprovalConfirmationRejected | ApprovalNonceRequired | ApprovalAttestationRequired
    | RollbackArtifactWriteFailed | PatchApplyWriteFailed | ReceiptWriteFailed

  datatype Policy = Policy(
    maxFiles: int, maxBytes: int, maxTargetBytes: int, receiptRequired: bool, ledgerEventRequired: bool)

  datatype Expiry = NoExpiry | Expired | StillValid

  datatype PathCheck = PathOk | PathRefused(reason: string)

  /** What a path in the workspace holds. The text of a file is its decoded content. */
  datatype Node = TextFile(text: string) | BinaryFile | Directory

  type Files = map<string, Node>

  /** What the code takes from its surroundings: the hashes, where `root / target` lies, the path
      policy, the workspace root, and the clock and free-text checks of the approval. */
  datatype Host = Host(
    canonical: Json -> string,
    digest: string -> string,
    at: string -> string,
    checkPath: string -> PathCheck,
    workspaceRoot: string,
    expiry: Json -> Expiry,
    confirms: (Json, Json) -> bool)

  // ---------------------------------------------------------------- approval

  const REQUIRED_APPROVAL_FIELDS: seq<string> := [
    "approval_id", "approval_version", "approved_by_actor_id", "approval_created_at_utc",
    "approval_expires_at_utc", "proposal_id", "proposal_hash", "base_commit", "approved_target_files",
    "approved_unified_diff_hash", "approved_risk_class", "authority_scope", "workspace_root_hash",
    "max_files_allowed", "max_bytes_allowed", "human_confirmation_text", "approval_nonce",
    "approval_signature_or_local_attestation"]

  function TargetItems(proposal: Object): seq<Json> {
    if Get(proposal, "target_files").List? then Get(proposal, "target_files").items else []
  }

  function ApprovedTargets(approval: Object): (r: seq<Json>)
    ensures StringList(List(r))
  {
    var j := Get(approval, "approved_target_files");
    if StringList(j) then j.items else []
  }

  predicate HasWildcard(items: seq<Json>)
    requires StringList(List(items))
  {
    exists i :: 0 <= i < |items| && '*' in items[i].s
  }

  predicate HasAll(o: Object, fields: seq<string>) {
    forall i :: 0 <= i < |fields| ==> fields[i] in o
  }

  /** The approval has every required field and has not expired. */
  function FormChecks(approval: Object, host: Host): seq<Check<Code>> {
    var expiry := host.expiry(Get(approval, "approval_expires_at_utc"));
    seq(|REQUIRED_APPROVAL_FIELDS|, i requires 0 <= i < |REQUIRED_APPROVAL_FIELDS| =>
      Check(REQUIRED_APPROVAL_FIELDS[i] in approval, ApprovalFieldMissing))
    + [Check(!expiry.NoExpiry?, ApprovalExpirationRequired), Check(!expiry.Expired?, ApprovalExpired)]
  }

  /** It names an actor, and this very proposal, diff, base commit, risk class and workspace. */
  function IdentityChecks(approval: Object, proposal: Object, host: Host): seq<Check<Code>> {
    [Check(Truthy(Get(approval, "approved_by_actor_id")), ApprovalActorRequired),
     Check(Get(approval, "proposal_id") == Get(proposal, "proposal_id"), ApprovalProposalIdMismatch),
     Check(Get(approval, "proposal_hash") == Str(host.canonical(Obj(proposal))), ApprovalProposalHashMismatch),
     Check(Get(approval, "approved_unified_diff_hash") == Get(proposal, "unified_diff_hash"), ApprovalDiffHashMismatch),
     Check(Get(approval, "base_commit") == Get(proposal, "base_commit"), ApprovalBaseCommitMismatch),
     Check(Get(approval, "approved_risk_class") == Get(proposal, "risk_class"), ApprovalRiskClassMismatch),
     Check(Get(approval, "workspace_root_hash") == Str(host.canonical(Str(host.workspaceRoot))),
           ApprovalWorkspaceHashMismatch)]
  }

  /** It is for the same target files and one transaction, with rollback and within limits. */
  function ScopeChecks(approval: Object, proposal: Object): seq<Check<Code>> {
    var approved, targets := ApprovedTargets(approval), TargetItems(proposal);
    var maxFiles, maxBytes := Get(approval, "max_files_allowed"), Get(approval, "max_bytes_allowed");
    [Check(approved != [], ApprovalTargetFilesRequired),
     Check(!HasWildcard(approved), ApprovalWildcardRejected),
     Check(approved == targets, ApprovalTargetFilesMismatch),
     Check(Get(approval, "authority_scope") == Str("single_patch_apply_transaction")
           && !Truthy(Get(approval, "apply_any_patch")), ApprovalScopeTooBroad),
     Check(Get(approval, "rollback_required") == Bool(true), ApprovalRollbackRequired),
     Check(IsInteger(maxFiles) && IntegerValue(maxFiles) >= |targets|, ApprovalMaxFilesExceeded),
     Check(IsInteger(maxBytes) && IntegerValue(maxBytes) > 0, ApprovalMaxBytesRequired)]
  }

  /** A human confirmed it in words that name the proposal, once, and signed or attested. */
  function ConsentChecks(approval: Object, proposal: Object, host: Host): seq<Check<Code>> {
    [Check(host.confirms(Get(approval, "human_confirmation_text"), Get(proposal, "proposal_id")),
           ApprovalConfirmationRejected),
     Check(Truthy(Get(approval, "approval_nonce")), ApprovalNonceRequired),
     Check(Truthy(Get(approval, "approval_signature_or_local_attestation")), ApprovalAttestationRequired)]
  }

  /** The checks of `validate_approval_packet`, in its order. */
  function PacketChecks(packet: Json, proposal: Object, host: Host): seq<Check<Code>> {
    if !packet.Obj? then [Check(false, ApprovalPacketRequired)] else
    FormChecks(packet.fields, host)
    + (IdentityChecks(packet.fields, proposal, host)
       + (ScopeChecks(packet.fields, proposal) + ConsentChecks(packet.fields, proposal, host)))
  }

  // ---------------------------------------------------------------- the request

  const FORBIDDEN_REQUEST_FIELDS: seq<(string, Code)> := [
    ("shell_command", ShellRequestRejected), ("shell_execution_requested", ShellRequestRejected),
    ("network_instruction", NetworkRequestRejected), ("network_execution_requested", NetworkRequestRejected),
    ("llm_invocation_requested", LlmRequestRejected), ("executor_dispatch_requested", DispatchRequestRejected),
    ("tests_run", TestRequestRejected), ("test_execution_requested", TestRequestRejected)]

  const FORBIDDEN_PROPOSAL_CLAIMS: seq<(string, Code)> := [
    ("apply_allowed", ApplyAllowedRejected), ("apply_performed", ApplyClaimRejected),
    ("workspace_mutation_performed", MutationClaimRejected),
    ("test_execution_allowed", TestAllowedRejected), ("test_execution_performed", TestClaimRejected)]

  function TransactionId(request: Object): string {
    if Get(request, "transaction_id").Str? then Get(request, "transaction_id").s else ""
  }

  function Proposal(request: Object): Object {
    if Get(request, "proposal").Obj? then Get(request, "proposal").fields else map[]
  }

  function TargetFiles(proposal: Object): seq<string> {
    var j := Get(proposal, "target_files");
    if StringList(j) then Strings(j.items) else []
  }

  function DiffText(proposal: Object): string {
    if Get(proposal, "unified_diff").Str? then Get(proposal, "unified_diff").s else ""
  }

  function RecordedHashes(proposal: Object): Object {
    if Get(proposal, "target_file_hashes").Obj? then Get(proposal, "target_file_hashes").fields else map[]
  }

  function Utf8Width(c: char): nat {
    if c < '\U{80}' then 1 else if c < '\U{800}' then 2 else if c < '\U{10000}' then 3 else 4
  }

  function Utf8Length(s: string): nat {
    if s == "" then 0 else Utf8Width(s[0]) + Utf8Length(s[1..])
  }

  /** The target is a text file of acceptable size whose content has the recorded hash. */
  predicate TargetMatches(target: string, recorded: Object, files: Files, policy: Policy, host: Host) {
    && host.checkPath(target).PathOk?
    && host.at(target) in files
    && files[host.at(target)].TextFile?
    && var text := files[host.at(target)].text;
      && Utf8Length(text) <= policy.maxTargetBytes
      && '\0' !in text
      && host.digest(text) != ""
      && Get(recorded, target) == Str(host.digest(text))
  }

  /** The first failing check of the loop's body. */
  function TargetError(target: string, recorded: Object, files: Files, policy: Policy, host: Host): (r: Option<Code>)
    ensures r.None? <==> TargetMatches(target, recorded, files, policy, host)
  {
    if host.checkPath(target).PathRefused? then Some(PathRejected(host.checkPath(target).reason))
    else if host.at(target) !in files then Some(TargetFileMissing)
    else match files[host.at(target)]
      case Directory => Some(TargetFileNotRegular)
      case BinaryFile => Some(BinaryTargetRejected)
      case TextFile(text) =>
        if Utf8Length(text) > policy.maxTargetBytes then Some(TargetSizeLimitExceeded)
        else if '\0' in text then Some(BinaryTargetRejected)
        else if !Truthy(Get(recorded, target)) then Some(PreimageHashMissing)
        else if Get(recorded, target) != Str(host.digest(text)) then Some(PreimageHashMismatch)
        else None
  }

  function TargetCheck(target: string, recorded: Object, files: Files, policy: Policy, host: Host): (c: Check<Code>)
    ensures c.ok <==> TargetMatches(target, recorded, files, policy, host)
  {
    match TargetError(target, recorded, files, policy, host)
    case None => Check(true, PreimageHashMismatch)
    case Some(code) => Check(false, code)
  }

  function TargetChecks(targets: seq<string>, recorded: Object, files: Files, policy: Policy,
                        host: Host): (r: seq<Check<Code>>)
    ensures |r| == |targets|
  {
    seq(|targets|, i requires 0 <= i < |targets| => TargetCheck(targets[i], recorded, files, policy, host))
  }

  /** No field of the list may be set. */
  function UnsetChecks(o: Object, fields: seq<(string, Code)>): seq<Check<Code>> {
    seq(|fields|, i requires 0 <= i < |fields| => Check(!Truthy(Get(o, fields[i].0)), fields[i].1))
  }

  /** Every field of the list must be literally false. */
  function FalseChecks(o: Object, fields: seq<(string, Code)>): seq<Check<Code>> {
    seq(|fields|, i requires 0 <= i < |fields| => Check(Get(o, fields[i].0) == Bool(false), fields[i].1))
  }

  function EntryChecks(r: Object): seq<Check<Code>> {
    [Check(TransactionId(r) != "" && '/' !in TransactionId(r), TransactionIdRequired),
     Check(Get(r, "proposal").Obj?, ProposalRequired),
     Check(Get(r, "approval_packet") != Null, ApprovalPacketRequired)]
  }

  function SizeChecks(r: Object, policy: Policy): seq<Check<Code>> {
    var proposal := Proposal(r);
    [Check(Get(proposal, "artifact_only") == Bool(true), ArtifactOnlyRequired),
     Check(Get(proposal, "human_approval_required") == Bool(true), HumanApprovalRequired),
     Check(Get(r, "base_commit") == Get(proposal, "base_commit"), BaseCommitMismatch),
     Check(TargetFiles(proposal) != [], TargetFilesRequired),
     Check(|TargetFiles(proposal)| <= policy.maxFiles, MaxFilesExceeded),
     Check(DiffText(proposal) != "", UnifiedDiffRequired),
     Check(Utf8Length(DiffText(proposal)) <= policy.maxBytes, PatchSizeLimitExceeded)]
  }

  /** The per-field and size checks. */
  function FieldChecks(r: Object, policy: Policy): seq<Check<Code>> {
    EntryChecks(r)
    + (UnsetChecks(r, FORBIDDEN_REQUEST_FIELDS)
       + (FalseChecks(Proposal(r), FORBIDDEN_PROPOSAL_CLAIMS) + SizeChecks(r, policy)))
  }

  /** The diff parses, and names exactly the target files in the same order. */
  function DiffChecks(diffText: string, targetFiles: seq<string>): seq<Check<Code>> {
    if diffText == "" then [] else
    match ParsedDiff(diffText)
    case Failure(e) => [Check(false, Diff(e))]
    case Success(patches) => [Check(targetFiles == [] || Targets(patches) == targetFiles, TargetFilesDiffMismatch)]
  }

  /** The checks of `validate_patch_apply_request` on a request, in its order. */
  function RequestChecks(r: Object, files: Files, policy: Policy, host: Host): seq<Check<Code>> {
    var proposal := Proposal(r);
    FieldChecks(r, policy)
    + (DiffChecks(DiffText(proposal), TargetFiles(proposal))
       + (PacketChecks(Get(r, "approval_packet"), proposal, host)
          + ([Check(Get(proposal, "target_file_hashes").Obj?, PreimageHashesRequired)]
             + TargetChecks(TargetFiles(proposal), RecordedHashes(proposal), files, policy, host))))
  }

  /** The request passes every check. */
  predicate PassesChecks(request: Json, files: Files, policy: Policy, host: Host) {
    && policy.receiptRequired && policy.ledgerEventRequired
    && request.Obj? && AllHold(RequestChecks(request.fields, files, policy, host))
  }

  /** The codes of a request that does not pass. */
  function Refusals(request: Json, files: Files, policy: Policy, host: Host): seq<Code> {
    if !policy.receiptRequired then [ReceiptContractRequired]
    else if !policy.ledgerEventRequired then [LedgerEventRequired]
    else if !request.Obj? then [RequestMalformed]
    else FirstSeen(Failing(RequestChecks(request.fields, files, policy, host)))
  }

  /** The proposal's fields that an accepted result copies; a missing one raises a `KeyError`. */
  const COPIED_FIELDS: seq<string> := ["proposal_id", "base_commit", "unified_diff_hash"]

  /** What it takes for a request to be accepted. */
  predicate Authorised(request: Json, files: Files, policy: Policy, host: Host) {
    PassesChecks(request, files, policy, host) && HasAll(Proposal(request.fields), COPIED_FIELDS)
  }

  /** The identifiers and hashes that an accepted result copies. */
  datatype Bindings = Bindings(
    proposalId: Json, proposalHash: string, approvalId: Json, approvalHash: string,
    baseCommit: Json, workspaceRootHash: string, unifiedDiffHash: Json)

  function BindingsOf(r: Object, host: Host): Bindings {
    var proposal, approval := Proposal(r), ApprovalOf(r);
    Bindings(
      Get(proposal, "proposal_id"), host.canonical(Obj(proposal)),
      Get(approval, "approval_id"), host.canonical(Obj(approval)),
      Get(proposal, "base_commit"), host.canonical(Str(host.workspaceRoot)), Get(proposal, "unified_diff_hash"))
  }

  function ApprovalOf(r: Object): Object {
    if Get(r, "approval_packet").Obj? then Get(r, "approval_packet").fields else map[]
  }

  lemma {:induction false} FiveParts(a: seq<Check<Code>>, b: seq<Check<Code>>, c: seq<Check<Code>>,
                                     d: seq<Check<Code>>, e: seq<Check<Code>>)
    ensures Failing(a + (b + (c + (d + e)))) == Failing(a) + (Failing(b) + (Failing(c) + (Failing(d) + Failing(e))))
    ensures AllHold(a + (b + (c + (d + e)))) <==> AllHold(a) && AllHold(b) && AllHold(c) && AllHold(d) && AllHold(e)
  {
    FailingAppend(a, b + (c + (d + e)));
    FailingAppend(b, c + (d + e));
    FailingAppend(c, d + e);
    FailingAppend(d, e);
    AllHoldAppend(a, b + (c + (d + e)));
    AllHoldAppend(b, c + (d + e));
    AllHoldAppend(c, d + e);
    AllHoldAppend(d, e);
  }

  // ---------------------------------------------------------------- what passing means

  /** What the rest of the transaction relies on. */
  lemma {:induction false} PassedRequest(r: Object, files: Files, policy: Policy, host: Host)
    requires AllHold(RequestChecks(r, files, policy, host))
    ensures var proposal := Proposal(r);
      && ParsedDiff(DiffText(proposal)).Success?
      && TargetFiles(proposal) == Targets(ParsedDiff(DiffText(proposal)).value)
      && AllHold(PacketChecks(Get(r, "approval_packet"), proposal, host))
      && forall t :: t in TargetFiles(proposal) ==> TargetMatches(t, RecordedHashes(proposal), files, policy, host)
  {
    var proposal := Proposal(r);
    var diffChecks := DiffChecks(DiffText(proposal), TargetFiles(proposal));
    var targetChecks := TargetChecks(TargetFiles(proposal), RecordedHashes(proposal), files, policy, host);
    FiveParts(FieldChecks(r, policy), diffChecks, PacketChecks(Get(r, "approval_packet"), proposal, host),
              [Check(Get(proposal, "target_file_hashes").Obj?, PreimageHashesRequired)], targetChecks);
    PassedFields(r, policy);
    assert diffChecks[0].ok;
    forall t | t in TargetFiles(proposal) ensures TargetMatches(t, RecordedHashes(proposal), files, policy, host) {
      var i :| 0 <= i < |TargetFiles(proposal)| && TargetFiles(proposal)[i] == t;
      assert targetChecks[i].ok;
    }
  }

  lemma {:induction false} PassedFields(r: Object, policy: Policy)
    requires AllHold(FieldChecks(r, policy))
    ensures TargetFiles(Proposal(r)) != [] && DiffText(Proposal(r)) != ""
  {
    var unset, claims := UnsetChecks(r, FORBIDDEN_REQUEST_FIELDS), FalseChecks(Proposal(r), FORBIDDEN_PROPOSAL_CLAIMS);
    AllHoldAppend(EntryChecks(r), unset + (claims + SizeChecks(r, policy)));
    AllHoldAppend(unset, claims + SizeChecks(r, policy));
    AllHoldAppend(claims, SizeChecks(r, policy));
    assert SizeChecks(r, policy)[3].ok && SizeChecks(r, policy)[5].ok;
  }

  /** A packet that passes pins the proposal and the workspace by their hashes. */
  lemma {:induction false} PassedPacket(packet: Json, proposal: Object, host: Host)
    requires AllHold(PacketChecks(packet, proposal, host))
    ensures packet.Obj?
    ensures Get(packet.fields, "proposal_hash") == Str(host.canonical(Obj(proposal)))
    ensures Get(packet.fields, "workspace_root_hash") == Str(host.canonical(Str(host.workspaceRoot)))
  {
    var checks := PacketChecks(packet, proposal, host);
    assert 0 < |checks| && checks[0].ok;
    var rest := ScopeChecks(packet.fields, proposal) + ConsentChecks(packet.fields, proposal, host);
    var identity := IdentityChecks(packet.fields, proposal, host);
    AllHoldAppend(FormChecks(packet.fields, host), identity + rest);
    AllHoldAppend(identity, rest);
    assert identity[2].ok && identity[6].ok;
  }
}
