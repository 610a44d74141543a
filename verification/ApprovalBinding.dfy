/** What a human approval pins: one approval packet admits one outcome, unless two of the compared values
    share a hash. */
module ApprovalBinding {
  import opened Json
  import opened Checks
  import opened UnifiedDiff
  import opened PatchPolicy
  import opened TransactionStates
  import opened PatchTransaction

  /** A request and where it is judged: the workspace, the policy and the host. */
  datatype Submission = Submission(request: Object, files: Files, policy: Policy, host: Host)

  ghost predicate Granted(s: Submission) {
    Authorised(Obj(s.request), s.files, s.policy, s.host)
  }

  /** Two submissions under one approval packet, on hosts that hash alike. The clock, the path policy, the
      confirmation test, the workspace and the places of its files may all differ. */
  ghost predicate UnderOneApproval(one: Submission, two: Submission) {
    && Get(one.request, "approval_packet") == Get(two.request, "approval_packet")
    && one.host.canonical == two.host.canonical && one.host.digest == two.host.digest
  }

  /** The hash tells the two proposals and the two workspace roots apart. */
  ghost predicate TellsProposalsApart(one: Submission, two: Submission) {
    && TellsApart(one.host.canonical, Obj(Proposal(one.request)), Obj(Proposal(two.request)))
    && TellsApart(one.host.canonical, Str(one.host.workspaceRoot), Str(two.host.workspaceRoot))
  }

  /** The text of the target, if it is a text file. */
  predicate HasText(target: string, s: Submission) {
    s.host.at(target) in s.files && s.files[s.host.at(target)].TextFile?
  }

  function TextOf(target: string, s: Submission): string
    requires HasText(target, s)
  {
    s.files[s.host.at(target)].text
  }

  /** The hash tells the two contents of the target apart. */
  ghost predicate TellsContentsApart(target: string, one: Submission, two: Submission) {
    HasText(target, one) && HasText(target, two) ==>
      TellsApart(one.host.digest, TextOf(target, one), TextOf(target, two))
  }

  /** The packet's hashes pin the proposal and the workspace root. */
  lemma {:induction false} ApprovalPinsProposal(one: Submission, two: Submission)
    requires Granted(one) && Granted(two) && UnderOneApproval(one, two) && TellsProposalsApart(one, two)
    ensures Proposal(one.request) == Proposal(two.request) && one.host.workspaceRoot == two.host.workspaceRoot
  {
    GrantedPins(one);
    GrantedPins(two);
  }

  /** The packet of a granted request carries these hashes, and its targets are texts with the recorded ones. */
  lemma {:induction false} GrantedPins(s: Submission)
    requires Granted(s)
    ensures Get(s.request, "approval_packet").Obj?
    ensures var packet := Get(s.request, "approval_packet").fields;
      && Get(packet, "proposal_hash") == Str(s.host.canonical(Obj(Proposal(s.request))))
      && Get(packet, "workspace_root_hash") == Str(s.host.canonical(Str(s.host.workspaceRoot)))
    ensures forall t :: t in TargetFiles(Proposal(s.request)) ==>
      HasText(t, s) && Get(RecordedHashes(Proposal(s.request)), t) == Str(s.host.digest(TextOf(t, s)))
  {
    PassedRequest(s.request, s.files, s.policy, s.host);
    PassedPacket(Get(s.request, "approval_packet"), Proposal(s.request), s.host);
  }

  /** The proposal's file hashes pin the preimages. */
  lemma {:induction false} ApprovalPinsPreimages(one: Submission, two: Submission, target: string)
    requires Granted(one) && Granted(two) && UnderOneApproval(one, two)
    requires TellsProposalsApart(one, two) && TellsContentsApart(target, one, two)
    requires target in TargetFiles(Proposal(one.request))
    ensures target in TargetFiles(Proposal(two.request))
    ensures HasText(target, one) && HasText(target, two) && TextOf(target, one) == TextOf(target, two)
  {
    ApprovalPinsProposal(one, two);
    GrantedPins(one);
    GrantedPins(two);
  }

  /** Two runs of the transaction, on two workspaces, on two hosts, at two times, under two policies and
      two schedules of faults: if both are accepted under the same approval packet, every target ends up
      with the same content in both. */
  method TwoApprovedRunsAgree(w1: Workspace, first: Object, firstPolicy: Policy, h1: Host,
                              w2: Workspace, second: Object, secondPolicy: Policy, h2: Host)
    returns (o1: Outcome, o2: Outcome)
    requires w1 != w2
    requires
      var one, two := Submission(first, w1.files, firstPolicy, h1), Submission(second, w2.files, secondPolicy, h2);
      && UnderOneApproval(one, two) && TellsProposalsApart(one, two)
      && forall t :: t in TargetFiles(Proposal(first)) ==> TellsContentsApart(t, one, two)
    modifies w1, w2
    ensures o1.Accepted? && o2.Accepted? ==>
      var targets := TargetFiles(Proposal(first));
      && h1.workspaceRoot == h2.workspaceRoot
      && o1.changedFiles == o2.changedFiles == targets
      && (NamesApart(targets, first, h1) && NamesApart(targets, second, h2) ==>
          SameContents(targets, w1.files, h1, w2.files, h2))
  {
    ghost var one := Submission(first, w1.files, firstPolicy, h1);
    ghost var two := Submission(second, w2.files, secondPolicy, h2);
    o1 := w1.ApplyPatchTransaction(Obj(first), firstPolicy, h1);
    o2 := w2.ApplyPatchTransaction(Obj(second), secondPolicy, h2);
    if o1.Accepted? && o2.Accepted? {
      ApprovalPinsProposal(one, two);
      ghost var targets, patches := TargetFiles(Proposal(first)), PatchesOf(Proposal(first));
      if NamesApart(targets, first, h1) && NamesApart(targets, second, h2) {
        forall t | t in targets ensures HasText(t, one) && HasText(t, two) && TextOf(t, one) == TextOf(t, two) {
          ApprovalPinsPreimages(one, two, t);
        }
        SamePatchedContent(targets, patches, one, w1.files, two, w2.files);
      }
    }
  }

  /** No two targets are one file, and no temporary name is a target. */
  ghost predicate NamesApart(targets: seq<string>, request: Object, host: Host) {
    NoAliases(targets, host) && TempsApart(targets, TransactionId(request), host)
  }

  ghost predicate SameContents(targets: seq<string>, after1: Files, h1: Host, after2: Files, h2: Host) {
    forall t :: t in targets ==> h1.at(t) in after1 && h2.at(t) in after2 && after1[h1.at(t)] == after2[h2.at(t)]
  }

  lemma {:induction false} SamePatchedContent(targets: seq<string>, patches: map<string, FilePatch>,
                                              one: Submission, after1: Files, two: Submission, after2: Files)
    requires AllPatched(targets, patches, one.files, after1, one.host) &&
      AllPatched(targets, patches, two.files, after2, two.host)
    requires forall t :: t in targets ==> HasText(t, one) && HasText(t, two) && TextOf(t, one) == TextOf(t, two)
    ensures SameContents(targets, after1, one.host, after2, two.host)
  {
    forall t | t in targets
      ensures one.host.at(t) in after1 && two.host.at(t) in after2 && after1[one.host.at(t)] == after2[two.host.at(t)]
    {
      assert Patched(patches, one.files, after1, one.host, t) && Patched(patches, two.files, after2, two.host, t);
    }
  }

  // ---------------------------------------------------------------- what a rejection names

  /** A proposal that was exchanged under an approval is refused, and the refusal says so: wherever,
      whenever and under whatever policy, the codes name the proposal hash. */
  lemma {:induction false} ExchangedProposalIsNamed(granted: Submission, other: Submission)
    requires Granted(granted) && UnderOneApproval(granted, other) && TellsProposalsApart(granted, other)
    requires Proposal(granted.request) != Proposal(other.request)
    ensures Names(RequestChecks(other.request, other.files, other.policy, other.host), ApprovalProposalHashMismatch)
  {
    GrantedPins(granted);
    var identity := IdentityChecks(Get(other.request, "approval_packet").fields, Proposal(other.request), other.host);
    assert !identity[2].ok && identity[2].code == ApprovalProposalHashMismatch;
    PacketFaultIsNamed(other.request, other.files, other.policy, other.host, ApprovalProposalHashMismatch);
  }

  lemma {:induction false} PacketFaultIsNamed(r: Object, files: Files, policy: Policy, host: Host, code: Code)
    requires Get(r, "approval_packet").Obj?
    requires Names(IdentityChecks(Get(r, "approval_packet").fields, Proposal(r), host), code)
    ensures Names(RequestChecks(r, files, policy, host), code)
  {
    var proposal, packet := Proposal(r), Get(r, "approval_packet");
    var identity := IdentityChecks(packet.fields, proposal, host);
    var rest := ScopeChecks(packet.fields, proposal) + ConsentChecks(packet.fields, proposal, host);
    NamesAppend(FormChecks(packet.fields, host), identity + rest, code);
    NamesAppend(identity, rest, code);
    var behind := [Check(Get(proposal, "target_file_hashes").Obj?, PreimageHashesRequired)]
      + TargetChecks(TargetFiles(proposal), RecordedHashes(proposal), files, policy, host);
    var diffChecks := DiffChecks(DiffText(proposal), TargetFiles(proposal));
    NamesAppend(FieldChecks(r, policy), diffChecks + (PacketChecks(packet, proposal, host) + behind), code);
    NamesAppend(diffChecks, PacketChecks(packet, proposal, host) + behind, code);
    NamesAppend(PacketChecks(packet, proposal, host), behind, code);
  }

  /** A target that changed since the approval is named: if it still is a text file within the limits, by
      the preimage hash. */
  lemma {:induction false} ChangedTargetIsNamed(granted: Submission, later: Files, target: string)
    requires Granted(granted) && target in TargetFiles(Proposal(granted.request))
    requires var now := granted.(files := later);
      && HasText(target, now) && HasText(target, granted) && TextOf(target, now) != TextOf(target, granted)
      && TellsContentsApart(target, granted, now)
      && Utf8Length(TextOf(target, now)) <= granted.policy.maxTargetBytes && '\0' !in TextOf(target, now)
    ensures Names(RequestChecks(granted.request, later, granted.policy, granted.host), PreimageHashMismatch)
  {
    var policy, host := granted.policy, granted.host;
    var proposal := Proposal(granted.request);
    var recorded := RecordedHashes(proposal);
    PassedRequest(granted.request, granted.files, policy, host);
    assert TargetMatches(target, recorded, granted.files, policy, host);
    assert TargetCheck(target, recorded, later, policy, host) == Check(false, PreimageHashMismatch);
    var targetChecks := TargetChecks(TargetFiles(proposal), recorded, later, policy, host);
    var i :| 0 <= i < |TargetFiles(proposal)| && TargetFiles(proposal)[i] == target;
    assert targetChecks[i] == TargetCheck(target, recorded, later, policy, host);
    TargetFaultIsNamed(granted.request, later, policy, host, PreimageHashMismatch);
  }

  lemma {:induction false} TargetFaultIsNamed(r: Object, files: Files, policy: Policy, host: Host, code: Code)
    requires Names(TargetChecks(TargetFiles(Proposal(r)), RecordedHashes(Proposal(r)), files, policy, host), code)
    ensures Names(RequestChecks(r, files, policy, host), code)
  {
    var proposal := Proposal(r);
    var targetChecks := TargetChecks(TargetFiles(proposal), RecordedHashes(proposal), files, policy, host);
    var behind := [Check(Get(proposal, "target_file_hashes").Obj?, PreimageHashesRequired)] + targetChecks;
    var packetChecks := PacketChecks(Get(r, "approval_packet"), proposal, host);
    var diffChecks := DiffChecks(DiffText(proposal), TargetFiles(proposal));
    NamesAppend(FieldChecks(r, policy), diffChecks + (packetChecks + behind), code);
    NamesAppend(diffChecks, packetChecks + behind, code);
    NamesAppend(packetChecks, behind, code);
    NamesAppend([Check(Get(proposal, "target_file_hashes").Obj?, PreimageHashesRequired)], targetChecks, code);
  }
}
