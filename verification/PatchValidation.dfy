/** The methods that validate an apply request and its approval packet (runtime_lab/patch_apply/policy.py,
    runtime_lab/patch_apply/approval.py). */
module PatchValidation {
  import opened Json
  import opened Checks
  import opened Dedupe
  import opened DiffParser
  import opened ProposalDiff
  import opened PatchPolicy
  import opened PatchAcceptance

  datatype Validation =
    | Valid(transactionId: string, bindings: Bindings, targetFiles: seq<string>, preimageHashes: map<string, string>)
    | Invalid(codes: seq<Code>)
    | Raised

  /** `validate_approval_packet`: no error exactly for a packet that approves the proposal; otherwise the
      codes of its faults, in the order of the checks. */
  method ValidateApprovalPacket(packet: Json, proposal: Object, host: Host) returns (errors: seq<Code>)
    ensures errors == Failing(PacketChecks(packet, proposal, host))
    ensures errors == [] <==> Approves(packet, proposal, host)
    ensures forall code :: code in errors <==> PacketFault(packet, proposal, host, code)
  {
    errors := CollectFailures(PacketChecks(packet, proposal, host));
    FailingMeans(PacketChecks(packet, proposal, host));
    PacketPassesIffApproves(packet, proposal, host);
    forall code ensures code in errors <==> PacketFault(packet, proposal, host, code) {
      PacketCodesMean(packet, proposal, host, code);
    }
  }

  method CheckDiff(diffText: string, targetFiles: seq<string>) returns (errors: seq<Code>)
    ensures errors == Failing(DiffChecks(diffText, targetFiles))
  {
    errors := [];
    if diffText != "" {
      var parsed := ParseUnifiedDiff(diffText);
      if parsed.Failure? {
        errors := [Diff(parsed.error)];
      } else if Targets(parsed.value) != [] && targetFiles != [] && Targets(parsed.value) != targetFiles {
        errors := [TargetFilesDiffMismatch];
      }
    }
  }

  /** The loop over the target files: collect errors and the hash of every target that was read. */
  method CheckTargets(targetFiles: seq<string>, recorded: Object, files: Files, policy: Policy, host: Host)
    returns (errors: seq<Code>, preimageHashes: map<string, string>)
    ensures errors == Failing(TargetChecks(targetFiles, recorded, files, policy, host))
    ensures forall t :: t in targetFiles && TargetMatches(t, recorded, files, policy, host) ==>
      t in preimageHashes && Str(preimageHashes[t]) == Get(recorded, t)
    ensures preimageHashes.Keys <= (set t | t in targetFiles)
  {
    errors, preimageHashes := [], map[];
    ghost var checks := TargetChecks(targetFiles, recorded, files, policy, host);
    for k := 0 to |targetFiles|
      invariant errors == Failing(checks[..k])
      invariant forall t :: t in targetFiles[..k] && TargetMatches(t, recorded, files, policy, host) ==>
        t in preimageHashes && Str(preimageHashes[t]) == Get(recorded, t)
      invariant preimageHashes.Keys <= (set t | t in targetFiles[..k])
    {
      var target := targetFiles[k];
      assert targetFiles[..k + 1] == targetFiles[..k] + [target] && checks[..k + 1][..k] == checks[..k];
      if host.checkPath(target).PathOk? && host.at(target) in files && files[host.at(target)].TextFile? {
        preimageHashes := preimageHashes[target := host.digest(files[host.at(target)].text)];
      }
      var found := TargetError(target, recorded, files, policy, host);
      if found.Some? {
        errors := errors + [found.value];
      }
    }
    assert targetFiles[..|targetFiles|] == targetFiles && checks[..|targetFiles|] == checks;
  }

  /** All checks on the request's fields, in the code's order. */
  method RequestErrors(r: Object, files: Files, policy: Policy, host: Host)
    returns (errors: seq<Code>, preimageHashes: map<string, string>)
    ensures errors == Failing(RequestChecks(r, files, policy, host))
    ensures forall t :: t in TargetFiles(Proposal(r)) && TargetMatches(t, RecordedHashes(Proposal(r)), files, policy,
                                                                       host) ==>
      t in preimageHashes && Str(preimageHashes[t]) == Get(RecordedHashes(Proposal(r)), t)
    ensures preimageHashes.Keys <= (set t | t in TargetFiles(Proposal(r)))
  {
    var proposal := Proposal(r);
    var fieldErrors := CollectFailures(FieldChecks(r, policy));
    var diffErrors := CheckDiff(DiffText(proposal), TargetFiles(proposal));
    var packetErrors := ValidateApprovalPacket(Get(r, "approval_packet"), proposal, host);
    var hashesMissing := CollectFailures([Check(Get(proposal, "target_file_hashes").Obj?, PreimageHashesRequired)]);
    var targetErrors;
    targetErrors, preimageHashes := CheckTargets(TargetFiles(proposal), RecordedHashes(proposal), files, policy, host);
    errors := fieldErrors + (diffErrors + (packetErrors + (hashesMissing + targetErrors)));
    FiveParts(FieldChecks(r, policy), DiffChecks(DiffText(proposal), TargetFiles(proposal)),
              PacketChecks(Get(r, "approval_packet"), proposal, host),
              [Check(Get(proposal, "target_file_hashes").Obj?, PreimageHashesRequired)],
              TargetChecks(TargetFiles(proposal), RecordedHashes(proposal), files, policy, host));
  }

  /** `validate_patch_apply_request`. Valid exactly when grantable, and then with what was approved; a
      rejected request is given, without repeats and in the order of the checks, exactly its faults. */
  method ValidatePatchApplyRequest(request: Json, files: Files, policy: Policy, host: Host) returns (v: Validation)
    ensures v.Valid? <==> Authorised(request, files, policy, host)
    ensures v.Valid? <==> Grantable(request, files, policy, host)
    ensures v.Invalid? <==> !PassesChecks(request, files, policy, host)
    ensures v.Valid? ==>
      var proposal := Proposal(request.fields);
      && v.transactionId == TransactionId(request.fields)
      && v.bindings == BindingsOf(request.fields, host)
      && v.targetFiles == TargetFiles(proposal)
      && v.preimageHashes.Keys == (set t | t in v.targetFiles)
      && forall t :: t in v.targetFiles ==> Str(v.preimageHashes[t]) == Get(RecordedHashes(proposal), t)
    ensures v.Valid? ==> CarriesApproval(v.bindings, request.fields, host)
    ensures v.Invalid? ==> v.codes != [] && NoRepeats(v.codes) && v.codes == Refusals(request, files, policy, host)
    ensures v.Invalid? ==> forall code :: code in v.codes <==> RefusedFor(request, files, policy, host, code)
  {
    AuthorisedIffGrantable(request, files, policy, host);
    RefusalsMean(request, files, policy, host);
    if !policy.receiptRequired {
      return Invalid([ReceiptContractRequired]);
    }
    if !policy.ledgerEventRequired {
      return Invalid([LedgerEventRequired]);
    }
    if !request.Obj? {
      return Invalid([RequestMalformed]);
    }
    var errors, preimageHashes := RequestErrors(request.fields, files, policy, host);
    FailingMeans(RequestChecks(request.fields, files, policy, host));
    if errors != [] {
      assert errors[0] in FirstSeen(errors);
      return Invalid(FirstSeen(errors));
    }
    PassedRequest(request.fields, files, policy, host);
    if !HasAll(Proposal(request.fields), COPIED_FIELDS) {
      return Raised;
    }
    GrantedHandsOn(request, files, policy, host);
    v := Valid(TransactionId(request.fields), BindingsOf(request.fields, host), TargetFiles(Proposal(request.fields)),
               preimageHashes);
  }
}
