# Verification model of the local runtime lab

This project models the parts of the repository that change files and that record evidence, and proves
what they keep. The modules follow the program:

- **Unified diffs** (`Lines`, `UnifiedDiff`, `DiffApply`, `DiffAlgebra`, `TextReversal`, `Numerals`,
  `Substrings`, `DiffParser`, `DiffPrinting`, `DiffHeaders`, `DiffGrammar`, `DiffEndToEnd`, `DiffReprinting`,
  `Dedupe`, `ProposalDiff`, `GitHeaders`, `DiffExamples`): the parser and applier of `patch_apply`, and the second, lenient parser of
  `patch_proposal`. The printed form is the unified format of POSIX.1-2017, `diff` utility,
  "Diff -u or -U Output Format". Where the code differs from that standard the model follows the code: a
  hunk's position is always `old_start - 1`, and the other three header numbers are read but not used when
  applying.
- **The human-approved patch transaction** (`Json`, `Checks`, `PatchPolicy`, `PatchAcceptance`, `PatchValidation`,
  `FaultSchedule`, `TransactionStates`, `PatchTransaction`, `ApprovalBinding`, `TransactionExamples`): validation, rollback
  artifact, apply loop, receipt and undo, over a workspace in which every read, write, replace and receipt
  write after validation can fail. A `Workspace` carries a schedule of faults (`fails`) and of torn writes
  (`torn`); both are arbitrary.
- **Hash-linked logs** (`HashChain`, `Ledger`, `LedgerHistory`, `StateMachine`, `TransitionHistory`,
  `MachineRoutes`, `LoopLedger`, `Replay`, `Spine`, `SealMeaning`, `SealableRequests`): append, validate, build, verify, replay and seal.
- **The supervisor** (`Supervisor`, `SupervisedRun`, `RunMeaning`, `SupervisedExamples`): how receipts, ledger, manifest
  and report of a run line up, and a whole run with its patch transaction inside it, in which the writes
  of the evidence can fail too.
- **Canonical forms** (`Canonical`, `Sorting`, `Authority`, `Paths`): descriptor stripping, order-insensitive
  artifact matching, path containment.
- `Wrappers` holds the option type that all of them share.

What a request, a packet, a replay or a seal must show is stated twice: as the list of checks the code runs,
and, in `PatchAcceptance`, `Replay`, `SealMeaning` and `Authority`, field by field on the JSON itself, with a
proof that the two agree. `DiffGrammar`, `DiffHeaders` and `RunMeaning` do the same for the diff grammar and
for the end of a run.

Hashes are parameters. A statement that a hash pins content asks that the hash tells the compared values
apart (`TellsApart`) and says nothing of other values, so it holds for hashes of fixed length; `HashShaped`
(`sha256:` and 64 characters) or `NeverGenesis` is added where the word `GENESIS` matters. The
surroundings of the patch transaction (where a target lies on disk, the path policy, the clock, the
free-text confirmation test) are fields of `Host`. The components called by the supervisor, other than the
transaction, are represented by what they return (`Given`).

`dafny verify dfyconfig.toml` checks the whole project.

## What the proofs brought out

- **Undoing a patch on text can fail.** On line lists the reversed patch always restores the original.
  On text it does so if and only if the last line is terminated or no hunk starts behind the last line
  (`TextReversal.ReverseRestoresText`): otherwise the applier glues the first added line to the open
  one, and splitting the result again loses a line.
- **An exception can leave the transaction with files patched.** The hashes of the result and the byte
  count are read outside the `try` blocks (runtime_lab/patch_apply/transaction.py:133-136 and 182), and
  the restore itself is not guarded. When every patch fits, this happens if and only if the first fault
  hits one of those two rounds of reads, or hits the loop or the receipt and a further fault hits the undo
  (`LeftByException`, which also covers a patch that does not fit). In the first case every
  target is patched; only in the second can some be patched and others not
  (`PatchTransaction.Workspace.ApplyPatchTransaction`).
  `TransactionExamples.ExceptionLeavesTargetPatched` is such a run on one file.
- **A run that its tests reject keeps its patch and says otherwise.** The tests run behind the committed
  transaction, nothing undoes it, and the failure result has `patch_apply_performed` false
  (runtime_lab/agent_loop/supervisor.py:47 and 267-277). This is exactly when that flag is wrong
  (`SupervisedRun.RunReports`; `SupervisedExamples.TestsRejectPatchStays` is such a run). A run that an
  exception leaves behind its transaction keeps the patch as well, and no loop receipt is written for it.
- **A proposal can pass every check and still raise.** An accepted result copies `proposal_id`,
  `base_commit` and `unified_diff_hash` from the proposal; where the proposal lacks one and the approval
  holds null for it, the copy raises `KeyError` before anything is written. The request passes and is not
  authorised in exactly these cases; `TransactionExamples.PassingRequestCanRaise` gives one.
- **What was parsed cannot always be printed and parsed again.** The header path `x patch`, followed by a
  tab, is accepted, and its printed form is refused as a shell request
  (`DiffReprinting.ReparsedIffHeadersSurvive` gives the exact condition).
- **The strict parser refuses `git diff` output for more than one file.** A `diff --git` or `index` line
  behind a hunk body is read as a malformed hunk line, while the lenient parser accepts it
  (`GitHeaders.ParsersOnGitDiff`, and `DiffExamples.TwoFileGitDiff` for two files). On any diff at all the
  strict parser accepts if and only if the lenient one does and every file section is well formed
  (`ProposalDiff.StrictIffLenientAndWellFormed`).
- **The forbidden-token test of the seal never decides**: no allowed claim holds a forbidden token
  (`Spine.MembershipDecidesClaims`).
- **`verify_transition_log` does not check continuity.** It accepts a log that starts anywhere; what is
  true is that the tail hash of a built log pins it (`TransitionHistory`).
- **The two containment tests differ for the root `.`**, which the string test sees as containing only
  itself (`Paths.ContainmentTestsAgree` gives the exact condition, `TestsPartAtDot` an input).
- **A target with carriage returns is patched in translated form and restored in raw form**: reading
  for patching translates newlines, rollback keeps the bytes.

## Model

| member | source | states |
|---|---|---|
| `Lines.ConcatOfKeepLines` | runtime_lab/patch_apply/diff_apply.py:126 | joining the lines of `splitlines(keepends=True)` gives the text back, whatever line breaks it has |
| `Lines.KeepLinesShape` | runtime_lab/patch_apply/diff_apply.py:126 | a text without carriage returns splits into terminated lines, of which only the last may lack its terminator |
| `Lines.KeepLinesOfLineShaped` | runtime_lab/patch_apply/diff_apply.py:126-153 | lines of that shape, joined and split again, are the same lines |
| `Lines.Translate` | runtime_lab/patch_apply/transaction.py:105 | text-mode reading leaves no carriage return, and leaves a text without one alone |
| `Lines.TranslateParts` | runtime_lab/patch_apply/transaction.py:105 | it turns a carriage return, alone or with the newline behind it, into a newline, keeps every other character, and goes part by part; so it is determined on every text |
| `Lines.SplitLinesBreakFree` | runtime_lab/patch_apply/diff_apply.py:53 | no line of `splitlines()` holds a line break |
| `Lines.SplitLinesParts` | runtime_lab/patch_apply/diff_apply.py:53 | a text splits at its first line break, a carriage return and newline being one; the ten break characters are named |
| `Lines.SplitLinesOfUnlines` | runtime_lab/patch_apply/diff_apply.py:53 | break-free lines, each closed by a newline, split back into themselves |
| `UnifiedDiff.SidesAppend` | runtime_lab/patch_apply/diff_apply.py:137-151 | the old and the new side of a hunk are the sides of its parts, in order |
| `DiffApply.FitsFromIffApplicable` | runtime_lab/patch_apply/diff_apply.py:130-152 | the cursor test succeeds exactly when every old side occurs at `old_start - 1` and the hunks are in order without overlap |
| `DiffApply.ApplyHunkLines` | runtime_lab/patch_apply/diff_apply.py:135-152 | the inner loop succeeds exactly when the old side is in place, and then yields the new side and the end of the hunk |
| `DiffApply.ApplyHunks` | runtime_lab/patch_apply/diff_apply.py:127-152 | one pass succeeds exactly when the hunks fit, and yields the untouched segments interleaved with the new sides |
| `DiffApply.ApplyFilePatchToText` | runtime_lab/patch_apply/diff_apply.py:125-153 | the applier meets the declarative meaning of a patch on text, mismatches included |
| `DiffAlgebra.LineCountConserved` | runtime_lab/patch_apply/diff_apply.py:130-152 | line count of the result = original + new sides - old sides |
| `DiffAlgebra.OnePassIsBackToFront` | runtime_lab/patch_apply/diff_apply.py:130-152 | one pass succeeds exactly when the hunks are ordered and applying them singly from last to first, unshifted, succeeds; the line lists are then equal |
| `DiffAlgebra.LastHunkFirst` | runtime_lab/patch_apply/diff_apply.py:130-152 | applying the last hunk first neither moves nor disturbs the hunks before it |
| `DiffAlgebra.ReverseRestoresLines` | runtime_lab/patch_apply/diff_apply.py:125-153 | on line lists, whenever a patch applies its reverse applies to the result and restores the original |
| `TextReversal.ReverseRestoresText` | runtime_lab/patch_apply/diff_apply.py:125-153 | on text, the reversed patch restores the original if and only if the last line is terminated or no hunk starts behind it |
| `TextReversal.ReverseFailsOnOpenLastLine` | runtime_lab/patch_apply/diff_apply.py:147-153 | a concrete member of the failing family: adding a line behind an unterminated `a` cannot be undone |
| `TextReversal.LostLineBlocksReverse` | runtime_lab/patch_apply/diff_apply.py:147-153 | why it fails: the glued line is lost on splitting, and the reversed patch reaches past the end |
| `DiffParser.ScanUnsupported` | runtime_lab/patch_apply/diff_apply.py:21-35 | the first refused line decides; clean exactly when no line is refused |
| `DiffParser.ParseHunkLines` | runtime_lab/patch_apply/diff_apply.py:93-105 | the body loop reads exactly the body of the grammar and stops where it ends |
| `DiffParser.ParseHunks` | runtime_lab/patch_apply/diff_apply.py:81-117 | the hunk loop reads exactly the hunk list of the grammar, with its errors |
| `DiffParser.ParseFiles` | runtime_lab/patch_apply/diff_apply.py:55-119 | the outer loop reads exactly the file list of the grammar, with its errors |
| `DiffParser.ParseUnifiedDiff` | runtime_lab/patch_apply/diff_apply.py:49-122 | the strict parser computes `ParsedDiff`; the rows on grammar, headers, refused lines and printing below say what that is |
| `DiffGrammar.HeaderMeans` | runtime_lab/patch_apply/diff_apply.py:9-46 | a line is read as a hunk header with four numbers exactly when it spells them: `@@ -`, a number, perhaps a comma and a count, ` +`, the same again, ` @@`, and anything |
| `DiffGrammar.BodyMeans` | runtime_lab/patch_apply/diff_apply.py:93-105 | a hunk reaches to the next `@@ ` or `--- ` line; it is read exactly when each of its lines begins with a blank, a sign or a backslash, and what is read are its lines without the last kind |
| `DiffGrammar.LineBeforeHunks` | runtime_lab/patch_apply/diff_apply.py:81-88 | between the header lines of a printable file and its hunks, a `diff --git ` or `index ` line is skipped and any other allowed line makes the diff malformed |
| `DiffGrammar.RefusedPhraseMeans` | runtime_lab/patch_apply/diff_apply.py:21-35 | a line is refused for its wording exactly when it says `git apply` anywhere, or `patch` as a word between blanks, in whatever case |
| `DiffGrammar.SpaceCharacters` | runtime_lab/patch_apply/diff_apply.py:13 | the 29 characters that stripping removes |
| `DiffHeaders.PathInHeader` | runtime_lab/patch_apply/diff_apply.py:12-18 | of a header line, white space around the path and whatever follows a tab are cut off, and then `a/` or `b/` in front |
| `DiffHeaders.HeadersRefused` | runtime_lab/patch_apply/diff_apply.py:64-77 | both parsers refuse a diff whose first header has `/dev/null` as old path, or as new path, or two different paths, each with its code |
| `DiffHeaders.PrintedHeadersRefused` | runtime_lab/patch_apply/diff_apply.py:64-77 | for printed headers of two different stable paths, with anything behind them: the path mismatch, a new file or a deleted file, from both parsers |
| `DiffHeaders.ParsedTargetsHaveHeaders` | runtime_lab/patch_apply/diff_apply.py:64-118 | every target that either parser returns is the stripped path of both lines of some header in the text |
| `DiffHeaders.RefusedLines` | runtime_lab/patch_apply/diff_apply.py:21-35 | each reason for refusing a line with the line starts it is for; no line has two of them |
| `DiffHeaders.FirstRefusedLineDecides` | runtime_lab/patch_apply/diff_apply.py:21-35 | both parsers refuse a diff for the first line that is refused |
| `DiffHeaders.CountsLeftOut` | runtime_lab/patch_apply/diff_apply.py:38-46 | a count that is left out of a hunk header is 1, on either side |
| `DiffExamples.TwoNamesRefused` | runtime_lab/patch_proposal/diff_parser.py:46-58 | one concrete diff whose header names two files, refused by both parsers |
| `DiffPrinting.HunkHeaderRead` | runtime_lab/patch_apply/diff_apply.py:38-46 | a printed hunk header is read back with the same four numbers |
| `DiffPrinting.StripPrinted` | runtime_lab/patch_apply/diff_apply.py:12-18 | stripping `a/path` or `b/path` gives the path back exactly when it has no tab and no trailing white space |
| `DiffPrinting.BodyRead` | runtime_lab/patch_apply/diff_apply.py:93-105 | a printed body is read back exactly when no deletion starts with `-- `; otherwise it is cut short |
| `DiffPrinting.HunksRead` | runtime_lab/patch_apply/diff_apply.py:81-117 | printed hunks are read back exactly when every one of them is printable |
| `DiffPrinting.FilesRead` | runtime_lab/patch_apply/diff_apply.py:58-118 | printed files are read back exactly when every one of them is printable |
| `DiffPrinting.ParsedDiffIsClean` | runtime_lab/patch_apply/diff_apply.py:49-122 | what the parser returns has files, hunks, lines of the three kinds, and no line break in any text |
| `DiffPrinting.ParseUndoesPrint` | runtime_lab/patch_apply/diff_apply.py:49-122 | for every list of file patches: parsing its printed form returns it if and only if it is printable |
| `DiffReprinting.ReparsedIffHeadersSurvive` | runtime_lab/patch_apply/diff_apply.py:49-122 | a parsed diff, printed and parsed again, gives the same patches if and only if every path is stable under stripping and neither printed header line holds a refused phrase |
| `DiffExamples.ReprintedDiffIsRefused` | runtime_lab/patch_apply/diff_apply.py:21-35 | a concrete diff that is accepted and whose printed form is refused: a tab behind the path `x patch` |
| `DiffEndToEnd.ApplyUnifiedDiffToText` | runtime_lab/patch_apply/diff_apply.py:156-161 | parse, select the one patch for the target, apply; any other number of matches is a path mismatch |
| `DiffEndToEnd.DiffUndoesDiff` | runtime_lab/patch_apply/diff_apply.py:156-161 | a printed diff is undone by the printed reverse under the same exact condition as above |
| `Dedupe.FirstSeenKeepsAll` | runtime_lab/patch_proposal/diff_parser.py:74-76 | deduplication keeps the list exactly when nothing repeats |
| `Dedupe.FirstSeenPrefix` | runtime_lab/patch_proposal/diff_parser.py:74-76 | values keep the order of their first occurrence: what a longer list adds comes behind |
| `ProposalDiff.SkipSection` | runtime_lab/patch_proposal/diff_parser.py:61-68 | the lenient inner loop runs to the next `---` line and reports whether it saw a hunk header |
| `ProposalDiff.ParseProposalDiff` | runtime_lab/patch_proposal/diff_parser.py:16-76 | the lenient parser computes `ProposedTargets`, related to the strict parser below; the rows on headers and refused lines above are about it as well |
| `DiffGrammar.LenientReads` | runtime_lab/patch_proposal/diff_parser.py:26-71 | the lenient parser reads a list of lines exactly when every `--- ` line of it begins the header of one file, with a `@@ ` line before the next such line |
| `ProposalDiff.ParsersSimulate` | runtime_lab/patch_proposal/diff_parser.py:16-76 | what the strict parser accepts the lenient one accepts with the same targets in first-seen order; they differ only over malformed bodies |
| `ProposalDiff.HunksReadIffWellFormed` | runtime_lab/patch_apply/diff_apply.py:76-119 | the strict parser reads the hunks of a file exactly when one scan of the lines finds them well formed: numbered headers, bodies that are not empty, nothing but `diff --git` and `index` lines before the first header |
| `ProposalDiff.StrictIffLenientAndWellFormed` | runtime_lab/patch_apply/diff_apply.py:49-122 | the strict parser accepts a diff if and only if the lenient one does and every file section is well formed; if only the lenient one accepts, the strict error is `MALFORMED_UNIFIED_DIFF` |
| `ProposalDiff.AgreedTargetsAreDistinct` | runtime_lab/patch_apply/transaction.py:102 | targets agreed by both parsers name each file once, so the patch dictionary loses nothing |
| `GitHeaders.ParsersOnGitDiff` | runtime_lab/patch_apply/diff_apply.py:49-122 | for every list of printable files, each behind any number of `diff --git` and `index` lines: the lenient parser returns all targets; the strict one returns the patches exactly when only the first file has such lines, and otherwise calls the diff malformed |
| `DiffExamples.TwoFileGitDiff` | runtime_lab/patch_apply/diff_apply.py:101-102 | one concrete diff of two files with git headers, accepted by the lenient parser and refused by the strict one |
| `Checks.CollectFailures` | runtime_lab/patch_apply/approval.py:68-153 | running a list of checks collects the codes of those that fail, in order |
| `Checks.FailingMeans` | runtime_lab/patch_apply/approval.py:68-153 | for any list of checks: no code exactly when all hold, and a code exactly when one of its checks fails |
| `PatchValidation.ValidateApprovalPacket` | runtime_lab/patch_apply/approval.py:68-153 | no code exactly when the packet approves (`Approves`: has every field, is still valid, names actor, proposal, diff, base commit, risk class, workspace and target list, within scope and limits, with confirmation, nonce and attestation); and a code exactly when the packet has the fault it names |
| `PatchAcceptance.PacketCodesMean` | runtime_lab/patch_apply/approval.py:82-138 | each code of a packet with the fault it names, both ways: `ApprovalExpired`, say, exactly when the host takes the expiry for past |
| `PatchAcceptance.PacketPassesIffApproves` | runtime_lab/patch_apply/approval.py:68-153 | a packet passes all checks exactly when it approves this proposal, in this workspace, now |
| `PatchValidation.CheckDiff` | runtime_lab/patch_apply/policy.py:144-151 | the codes of the diff checks: the diff parses, and names the target list in order |
| `PatchPolicy.TargetError` | runtime_lab/patch_apply/policy.py:165-190 | no error exactly when the target is a text file of acceptable size with the recorded hash |
| `PatchValidation.CheckTargets` | runtime_lab/patch_apply/policy.py:157-190 | the codes of all targets that do not match, in order; the hash collected for a matching target is the recorded one |
| `PatchValidation.ValidatePatchApplyRequest` | runtime_lab/patch_apply/policy.py:85-213 | valid exactly for a request that may be granted (`Grantable`), and then with the identifiers and hashes of what was approved; a proposal without a copied field raises instead; a rejection lists, without repeats, exactly the codes of the faults that the request has |
| `PatchAcceptance.RequestCodesMean` | runtime_lab/patch_apply/policy.py:85-190 | each code of a request with the fault it names, both ways |
| `PatchAcceptance.PassesIffAcceptable` | runtime_lab/patch_apply/policy.py:85-190 | a request passes all checks exactly when it is well formed, asks for nothing but a patch, its diff names its targets, its packet approves and its targets are as recorded |
| `PatchAcceptance.GrantedHandsOn` | runtime_lab/patch_apply/policy.py:192-213 | the identifiers, hashes, transaction and targets of a granted request are those its packet approved |
| `PatchAcceptance.BytesOfText` | runtime_lab/patch_apply/policy.py:137-142 | a text has as many bytes as characters exactly when all are ASCII, never more than four times as many, and adds up over its parts |
| `PatchPolicy.PassedRequest` | runtime_lab/patch_apply/policy.py:85-190 | a request that passes has a diff that parses to exactly its target files, a packet that passes, and only matching targets |
| `TransactionExamples.PassingRequestCanRaise` | runtime_lab/patch_apply/policy.py:192-213 | a concrete request that passes every check and is not authorised: its proposal lacks `base_commit` and the approval holds null for it |
| `FaultSchedule.ExceptionWindows` | runtime_lab/patch_apply/transaction.py:84-182 | the schedules under which a run is planned to end in a failing read of the result or in a hit undo, told by the first fault and, behind a misfit, by the undo |
| `PatchTransaction.Workspace.SwapIn` | runtime_lab/patch_apply/transaction.py:107-109 | write beside, then replace: the target changes completely or not at all |
| `PatchTransaction.Workspace.BuildRollbackArtifact` | runtime_lab/patch_apply/rollback.py:9-33 | the artifact holds the raw preimage of every target, or a read failed |
| `PatchTransaction.Workspace.Restore` | runtime_lab/patch_apply/rollback.py:36-42 | a completed restore gives every target its preimage; an interrupted one leaves each as preimage or as it was |
| `PatchTransaction.Workspace.ApplyNext` | runtime_lab/patch_apply/transaction.py:101-111 | one round either patches its target and nothing else, or stops and leaves all targets patched so far or untouched; it stops on a misfit behind the read, or on the first operation that is hit |
| `PatchTransaction.Workspace.ApplyPatches` | runtime_lab/patch_apply/transaction.py:100-111 | the loop runs to its end exactly when no operation is hit and every patch fits; otherwise some first targets are patched and the rest untouched, and it stopped at the first operation that is hit or at the first misfit |
| `PatchTransaction.Workspace.PrepareRollback` | runtime_lab/patch_apply/transaction.py:84-97 | the rollback artifact exists before anything else is written, or nothing is |
| `PatchTransaction.Workspace.HashPostimages` | runtime_lab/patch_apply/transaction.py:133-136 | the hashes are those of the targets as they stand, or a read failed |
| `PatchTransaction.Workspace.UndoAll` | runtime_lab/patch_apply/transaction.py:112-131 | undoing from any point of the loop restores every preimage, exactly when none of its operations is hit if no two targets are one file |
| `PatchTransaction.Workspace.Commit` | runtime_lab/patch_apply/transaction.py:133-182 | accepted with hashes of the result when nothing is hit; undone when the receipt cannot be written; an exception on a failing read, with the files as the loop left them |
| `PatchTransaction.Workspace.RunValidated` | runtime_lab/patch_apply/transaction.py:84-207 | all-or-nothing for validated targets: schedule and patches decide how the run ends, and the targets are all patched or all as they were, unless an undo is itself hit |
| `PatchTransaction.Workspace.ApplyPatchTransaction` | runtime_lab/patch_apply/transaction.py:63-207 | all-or-nothing over every workspace, request and fault schedule: accepted if and only if the request may be granted, no fault hits and every patch fits, and then with the bindings its packet approved; refused at once with exactly the codes of its faults; left by an exception if and only if the first fault hits a read of the result, or a fault hits the undo; rejected leaves every target as it was; accepted, or left by a failing read, every target is its patched preimage; only an undo that is itself hit can leave a mix; rollback artifact first, and only targets and temporary names are touched |
| `TransactionExamples.ExceptionLeavesTargetPatched` | runtime_lab/patch_apply/transaction.py:133-136 | a run on one file whose seventh operation fails: the exception leaves the call and the file holds the patched text |
| `TransactionStates.EscapesOldOrPatched` | runtime_lab/patch_apply/rollback.py:36-42 | after an undo that is itself hit, each target is its preimage or its patched preimage |
| `TransactionStates.FullProgress` | runtime_lab/patch_apply/transaction.py:103-111 | when the loop has reached the end every target is its patched preimage, and every patch fitted |
| `TransactionStates.TempNamesApart` | runtime_lab/patch_apply/transaction.py:107 | temporary names of two transactions differ, and the name an undo uses is that of a transaction called `rollback` and of no other |
| `ApprovalBinding.ApprovalPinsProposal` | runtime_lab/patch_apply/approval.py:86-102 | if the hash tells them apart, one approval packet admits one proposal and one workspace root, whatever the clocks, policies and workspaces of the two hosts |
| `ApprovalBinding.ApprovalPinsPreimages` | runtime_lab/patch_apply/policy.py:164-190 | and one content of every target before the run, wherever each host keeps it |
| `ApprovalBinding.TwoApprovedRunsAgree` | runtime_lab/patch_apply/transaction.py:63-207 | two accepted runs under one approval, on two hosts, at two times, under two policies and two fault schedules, leave the same content in every target |
| `ApprovalBinding.ExchangedProposalIsNamed` | runtime_lab/patch_apply/approval.py:102-103 | a proposal exchanged under an approval is refused by the code of the proposal hash |
| `ApprovalBinding.ChangedTargetIsNamed` | runtime_lab/patch_apply/policy.py:181-190 | a target changed since the approval is refused by the code of its hash |
| `HashChain.SealedEntriesEqual` | runtime_lab/ledger/__init__.py:164-179 | equal own hashes mean equal entries |
| `HashChain.TailPinsLog` | runtime_lab/ledger/__init__.py:280-300 | two linked logs with the same tail hash are the same log |
| `HashChain.PrefixLinked` | runtime_lab/ledger/__init__.py:280-300 | every prefix of a linked log is linked |
| `Ledger.EventStructureError` | runtime_lab/ledger/__init__.py:191-215 | no error exactly for a well-formed event of its type |
| `Ledger.FieldsAllowed` | runtime_lab/ledger/__init__.py:191-215 | the code for a forbidden field exactly when the event has a field beyond the twelve that are named |
| `Ledger.ReceiptsByStage` | runtime_lab/ledger/__init__.py:73-97 | which receipts an event must name: those of its stage and of all stages before it |
| `Ledger.CodesExplained` | runtime_lab/ledger/__init__.py:280-300 | a code is collected exactly when some event shows its fault |
| `Ledger.CodesMean` | runtime_lab/ledger/__init__.py:264-318 | a rejection lists exactly the faults that some event has and the expectations that are missed; the chain hash counts as missed also when there is none to compare |
| `Ledger.NoCodesIffMet` | runtime_lab/ledger/__init__.py:264-318 | the list is empty exactly for a valid chain that meets the expectations |
| `Ledger.CleanEventsAreValid` | runtime_lab/ledger/__init__.py:264-318 | no code is collected exactly for distinct ids, well-formed events, right links and right hashes |
| `Ledger.CollectEventCodes` | runtime_lab/ledger/__init__.py:277-300 | the loop collects exactly the codes of all events, in order |
| `Ledger.ValidateLedgerChain` | runtime_lab/ledger/__init__.py:264-318 | accepted exactly when the events form a valid chain that meets the caller's expectations; a rejection carries, without repeats, the list explained above |
| `Ledger.AppendEvent` | runtime_lab/ledger/__init__.py:321-359 | append computes `Append`, whose properties over all histories follow |
| `LedgerHistory.PrefixValid` | runtime_lab/ledger/__init__.py:264-318 | every prefix of a valid ledger is valid |
| `LedgerHistory.AppendKeepsValid` | runtime_lab/ledger/__init__.py:321-359 | an accepted append extends a valid ledger by one event and keeps it valid |
| `LedgerHistory.AppendReceiptVerifies` | runtime_lab/ledger/__init__.py:226-261 | the append receipt verifies and records index, event hash and chain hash |
| `LedgerHistory.AppendReceiptRepeats` | runtime_lab/ledger/__init__.py:226-261 | it repeats the event's identifiers and the hashes the event names, each under the same name |
| `LedgerHistory.EveryRun` | runtime_lab/ledger/__init__.py:321-359 | over every sequence of appends: valid, earlier events in front, receipts verify and count up by one |
| `LedgerHistory.EveryHistory` | runtime_lab/ledger/__init__.py:321-359 | every earlier ledger of a history is a valid prefix of every later one |
| `LedgerHistory.TailHashPinsLedger` | runtime_lab/ledger/__init__.py:264-318 | two valid ledgers with the same last event hash are the same ledger, if the hash tells their entries apart |
| `LedgerHistory.ChainHashPinsLedger` | runtime_lab/ledger/__init__.py:182-188 | two valid ledgers with the same chain hash are the same ledger, if the hash tells apart what it is made of |
| `LedgerHistory.TailHashPinsHistory` | runtime_lab/ledger/__init__.py:321-359 | two ledgers grown from nothing by any appends, with the same last event hash, are equal event for event |
| `LedgerHistory.ReceiptPinsHistory` | runtime_lab/ledger/__init__.py:226-261 | two append receipts with the same chain hash were handed out at the same moment of ledgers that agree up to it |
| `StateMachine.StateOfName` | runtime_lab/agent_loop/state_machine.py:9-33 | every state of the table is found under its own name |
| `StateMachine.StepOfName` | runtime_lab/agent_loop/state_machine.py:9-36 | every transition of the table is found under its own name |
| `StateMachine.BuildTransitionLog` | runtime_lab/agent_loop/state_machine.py:39-70 | the loop builds `BuiltLog` or gives its error |
| `StateMachine.VerifyTransitionLog` | runtime_lab/agent_loop/state_machine.py:73-89 | true exactly when links and hashes are right and each entry is legal by itself |
| `TransitionHistory.BuiltIsVerifiedPath` | runtime_lab/agent_loop/state_machine.py:39-89 | every built log verifies and is a numbered path from `TASK_RECEIVED` |
| `TransitionHistory.VerifiedIsBuiltIffPath` | runtime_lab/agent_loop/state_machine.py:39-89 | a verified log is one the builder can make if and only if it is such a path |
| `TransitionHistory.VerifiedNeedNotBePath` | runtime_lab/agent_loop/state_machine.py:73-89 | for every move of the table, any run name and any number, the one-entry log verifies; it is a path only from `TASK_RECEIVED` under number 1 |
| `TransitionHistory.TailHashPinsTransitionLog` | runtime_lab/agent_loop/state_machine.py:39-89 | a verified log with the tail hash of a built one is that log, and so a path |
| `TransitionHistory.EveryRunOfTheMachine` | runtime_lab/agent_loop/state_machine.py:9-70 | for every input list: no repeated state, at most 14 transitions, and a patch starts only from the verified approval |
| `MachineRoutes.EveryRunIsARoute` | runtime_lab/agent_loop/state_machine.py:9-70 | every log the machine builds is the beginning of the dry-run route or of the supervised one; a log that ends in `DONE` is all of it |
| `MachineRoutes.EveryRunByName` | runtime_lab/agent_loop/state_machine.py:9-36 | the same with every state and transition spelled out |
| `LoopLedger.BuildLedgerEvents` | runtime_lab/agent_loop/ledger.py:8-24 | the loop builds `BuiltEvents` |
| `LoopLedger.VerifyLedgerEvents` | runtime_lab/agent_loop/ledger.py:27-37 | true exactly when every link and every hash is right |
| `LoopLedger.BuiltEventsVerify` | runtime_lab/agent_loop/ledger.py:8-37 | a built ledger verifies and records its receipts in order |
| `LoopLedger.TailHashPinsReceipts` | runtime_lab/agent_loop/ledger.py:8-37 | a verified ledger with the tail hash of a built one is that ledger, and so records the same receipts in the same order |
| `Replay.EventBindingErrors` | runtime_lab/replay/__init__.py:180-195 | a code is given exactly when some field of some event disagrees with the expected state |
| `Replay.EventFaultsMean` | runtime_lab/replay/__init__.py:180-195 | each code of an event with the field it is about, both ways |
| `Replay.GraphHashErrors` | runtime_lab/replay/__init__.py:203-259 | a code is given exactly when one of its comparisons between receipt graph and expected state fails |
| `Replay.GraphFaultsMean` | runtime_lab/replay/__init__.py:203-259 | each code of the receipt graph with the nodes and fields it is about, both ways |
| `Replay.LedgerRejectionCodes` | runtime_lab/replay/__init__.py:312-319 | ledger codes are renamed one by one |
| `Replay.ChainFaultsMean` | runtime_lab/replay/__init__.py:312-319 | of the three renamed codes: the count when it is missed, the head when chain hash or terminal hash is missed, invalid when the chain is not valid |
| `Replay.NoCodesIffConsistent` | runtime_lab/replay/__init__.py:343-366 | a well-formed request earns no code exactly when chain, events and graph hold together |
| `Replay.RequiredMeans` | runtime_lab/replay/__init__.py:198-200 | the required events are present exactly when no required type is missing from all events |
| `Replay.ConsistentIffAgrees` | runtime_lab/replay/__init__.py:129-366 | a request is consistent exactly when it is in form, its chain is valid and as named, every required type occurs, and events and graph show what the state names, field by field |
| `Replay.EvidenceCodesMean` | runtime_lab/replay/__init__.py:343-366 | otherwise it earns exactly the faults of the first stage that finds any: chain, required events, events, graph |
| `Replay.ReplayLedgerChain` | runtime_lab/replay/__init__.py:322-378 | replayed exactly when the request agrees as said above, with a receipt that states count, chain hash, terminal hash and the named hashes of ledger and state; rejected, without repeats, with the codes explained above |
| `Replay.ReplayReceiptStates` | runtime_lab/replay/__init__.py:276-309 | every field of the replay receipt, by name, and that it carries its own hash |
| `Spine.MembershipDecidesClaims` | runtime_lab/spine/__init__.py:284-292 | claims pass both tests exactly when every one is an allowed claim: no allowed claim holds a forbidden token |
| `Spine.ReceiptPassesIffGenerated` | runtime_lab/spine/__init__.py:381-394 | for a well-formed expected state, and if the hash tells the two receipts apart: a supplied replay receipt passes exactly when it is the regenerated one and the state names its hash |
| `Spine.FirstFailure` | runtime_lab/spine/__init__.py:453-462 | of the checks before the replay, the first that fails decides |
| `Spine.SealUnifiedLocalSpine` | runtime_lab/spine/__init__.py:445-474 | sealed exactly when the request is sealable, which the next row spells out, and then with the receipt its state and path determine; a refusal carries the code of the first failing check, that of the replay in its renamed form |
| `SealMeaning.SealableIffProven` | runtime_lab/spine/__init__.py:445-474 | sealable exactly when action, names, path and claims are allowed, every node of the graph shows the hashes the state names, the ledger is valid and as named, each event shows them too, every required type occurs in some event, and the replay receipt is sealed under the named hash |
| `SealMeaning.EarlyRefusalIsTrue` | runtime_lab/spine/__init__.py:239-345 | a refusal before the replay names a fault that the request has |
| `Spine.LedgerRefusalsMean` | runtime_lab/spine/__init__.py:369-378 | what a refusal by the replay says of the ledger: the count differs; or the chain is invalid; or the head differs; or a required event is missing, each exactly when all before it agree |
| `Spine.TypesOccurIffNoneMissing` | runtime_lab/spine/__init__.py:369-378 | every required type occurs in some event exactly when the replay misses none |
| `Spine.SealedLedgerIsExpected` | runtime_lab/spine/__init__.py:347-378 | a sealable request's ledger is valid, of the expected length and chain hash |
| `Spine.SuppliedReplayReceiptIsGenerated` | runtime_lab/spine/__init__.py:381-394 | the supplied replay receipt is the regenerated one |
| `Spine.SealPinsEvidence` | runtime_lab/spine/__init__.py:347-474 | equal expected states pin ledger, replay receipt and, with equal output paths, the seal receipt |
| `Spine.SealHashPinsEverything` | runtime_lab/spine/__init__.py:397-474 | equal seal hashes pin expected state, output path, ledger and replay receipt |
| `SealableRequests.GrownLedgerIsSealable` | runtime_lab/spine/__init__.py:445-474 | every ledger grown by appends, whose events agree with a well-formed state that names it, has a request that is sealed |
| `SealableRequests.OneEventIsSealable` | runtime_lab/spine/__init__.py:445-474 | one concrete ledger, hash and request that is sealed |
| `Supervisor.TransitionPairs` | runtime_lab/agent_loop/supervisor.py:63-100 | the pairs are the route through the machine for the mode, with or without a test request |
| `Supervisor.PairsReachDone` | runtime_lab/agent_loop/supervisor.py:63-100 | in both modes the pairs build a log that ends in `DONE` |
| `Supervisor.BuildRunLog` | runtime_lab/agent_loop/supervisor.py:237-243 | the rejection of the run's own transition log cannot happen |
| `Supervisor.BuildManifest` | runtime_lab/agent_loop/replay.py:8-52 | the manifest carries what it is given and verifies |
| `Supervisor.BuildLoopReceipt` | runtime_lab/agent_loop/receipts.py:25-85 | the loop receipt carries what it is given and verifies |
| `Supervisor.AcceptedContextParts` | runtime_lab/agent_loop/supervisor.py:103-120 | context requests keep their order, and one that is not accepted leaves nothing behind |
| `Supervisor.ContextCodesParts` | runtime_lab/agent_loop/supervisor.py:246-255 | the codes of all context requests, in their order |
| `Supervisor.AlignedInOrder` | runtime_lab/agent_loop/supervisor.py:279-353 | by index: event `i` records the receipt of context request `i`, then come those of the proposal, of the patch, of the tests and of the loop; manifest, loop receipt and report list the same receipts in the same order |
| `SupervisedRun.Run.RunContextRequests` | runtime_lab/agent_loop/supervisor.py:103-120 | the accepted context receipts, in the order of their requests (see the row on their parts), unless a request raises |
| `SupervisedRun.Run.RunPatchApply` | runtime_lab/agent_loop/supervisor.py:188-200 | the part ends as its transaction does, and the workspace is left as that transaction leaves it |
| `SupervisedRun.Run.CallParts` | runtime_lab/agent_loop/supervisor.py:245-277 | succeeds exactly when every called component accepts; calls are made in order, each only after the ones before it accepted; otherwise the last one called, the only one that did not accept, decides |
| `SupervisedRun.BuildEvidence` | runtime_lab/agent_loop/supervisor.py:279-353 | ledger, manifest, report and receipt are aligned, and the receipt records the hashes of the other files |
| `SupervisedRun.Run.WriteEvidence` | runtime_lab/agent_loop/supervisor.py:305-348 | all three files are written whole exactly when no write is hit; otherwise those before the first hit write, and never a loop receipt |
| `SupervisedRun.NoNewReceipt` | runtime_lab/agent_loop/supervisor.py:305-348 | when a write of evidence is hit, no loop receipt is on disk but one that was there before |
| `SupervisedRun.Run.AssembleEvidence` | runtime_lab/agent_loop/supervisor.py:279-353 | the evidence of accepted components, or an exception at the first write that is hit |
| `SupervisedRun.RunLeaves` | runtime_lab/agent_loop/supervisor.py:256-277 | how a run ends says what its transaction left: all targets patched if it is accepted, rejected by its tests, or left by an exception outside an undo; all as they were if the transaction rejects it; a mix only if an undo is hit |
| `SupervisedRun.RunReports` | runtime_lab/agent_loop/supervisor.py:36-60 | the result says truly whether a patch was applied, except exactly when the tests reject the run |
| `RunMeaning.CallsMean` | runtime_lab/agent_loop/supervisor.py:245-277 | when each component is called, in terms of what was returned before; none twice, and always in this order |
| `RunMeaning.StoppedMeans` | runtime_lab/agent_loop/supervisor.py:36-60 | how a stopped run ends: the first component to object decides, with its codes, each once, or with the exception |
| `SupervisedRun.Run.RunAgentLoop` | runtime_lab/agent_loop/supervisor.py:218-379 | over every workspace, request and pair of fault schedules: accepted exactly when every called component accepts and no write of evidence is hit, and then with a ledger that records, by index, the receipts of context, proposal, patch, tests and loop in this order, repeated by manifest, receipt and report; a rejected run writes no evidence and returns, without repeats, the codes of the one part that rejected it; a raised one leaves no new loop receipt; and the workspace is as stated in the two rows above |
| `SupervisedExamples.TestsRejectPatchStays` | runtime_lab/agent_loop/supervisor.py:265-277 | a run that its tests reject, on one file: the result says that no patch was applied, and the file is patched |
| `SupervisedExamples.ExceptionLeavesNoEvidence` | runtime_lab/agent_loop/supervisor.py:256-257 | a run on one file that an exception leaves: the file is patched and no evidence is written |
| `Supervisor.OneEventMore` | runtime_lab/agent_loop/supervisor.py:286-353 | the returned ledger is the manifest's ledger plus one event, linked to the manifest's tail |
| `Canonical.StripIdempotent` | runtime_lab/descriptors/canonical.py:11-16 | stripping twice is stripping once, on every nested value |
| `Canonical.StripLeavesNoneDerived` | runtime_lab/descriptors/canonical.py:11-16 | nothing derived survives at any depth, and a value without derived fields is left alone |
| `Canonical.SameStrippedIff` | runtime_lab/descriptors/canonical.py:11-20 | two values strip to the same value exactly when they differ only in derived fields |
| `Canonical.HashSeesAllButDerived` | runtime_lab/descriptors/canonical.py:19-24 | if the hash tells the two stripped forms apart, equal hashes mean exactly that |
| `Canonical.RehashReproduces` | runtime_lab/descriptors/validator.py:138-144 | re-hashing a validated descriptor reproduces the hash and the id stored in it |
| `Canonical.OnlyDerivedAreUnseen` | runtime_lab/descriptors/canonical.py:8-16 | setting a field leaves the canonical payload as dropping it does exactly for the three derived fields |
| `Sorting.SortEqualIffPermutation` | runtime_lab/authority/verify.py:85-115 | under a total order two lists sort to the same list exactly when they are permutations of each other |
| `Sorting.SortedIsUnique` | runtime_lab/authority/verify.py:97 | a multiset has one sorted arrangement |
| `Authority.OrdersAreTotal` | runtime_lab/authority/verify.py:97 | the two orders the verifier sorts by are total |
| `Authority.CollectArtifacts` | runtime_lab/authority/verify.py:85-115 | the result is sorted, and holds each pair of class and path as often as the items of the list show it |
| `Authority.ReadAsShown` | runtime_lab/authority/verify.py:85-115 | what is read of a list is what its items show under `artifact_class` and `logical_path`, as often as they show it |
| `Authority.ReadsWritten` | runtime_lab/authority/verify.py:85-115 | the objects made of any list of artifacts are read as that list, and an item of another shape is skipped |
| `Authority.SameReadIffShowTheSame` | runtime_lab/authority/verify.py:85-115 | two lists are read as permutations of each other exactly when they show every class and path equally often |
| `Authority.VerifyAuthorityPacket` | runtime_lab/authority/verify.py:133-193 | accepted exactly when the packet carries its own hash, names the one issuer, subject, epoch and capability, is bound to this descriptor and its task, and shows every root, and every class and path of an artifact, as often as the descriptor, counted on the JSON items |
| `Authority.RefusalIsTrue` | runtime_lab/authority/verify.py:133-193 | every refusal names a fault that the packet has |
| `Authority.BuiltPacketVerifiesIffPermutation` | runtime_lab/authority/packet.py:80-140 | a default packet with a given artifact list verifies if and only if that list shows every class and path as often as the descriptor's; otherwise the artifact scope is the reason |
| `Authority.PacketPinsDescriptor` | runtime_lab/authority/verify.py:133-193 | one packet cannot be accepted for two descriptor hashes, tasks or artifact multisets |
| `Paths.NormalizeIdempotent` | runtime_lab/workspace/__init__.py:65-66 | normalising twice is normalising once, and parses to the same path |
| `Paths.PathMeans` | runtime_lab/workspace/__init__.py:65-72 | absolute exactly with a slash in front, two being a root of their own; the parts are the segments between slashes other than `.`; traversal exactly when `..` is one of them |
| `Paths.ContainmentTestsAgree` | runtime_lab/workspace/__init__.py:73-76 | for relative paths the string test and `relative_to` agree exactly when the root has a component or the path has none |
| `Paths.TestsPartAtDot` | runtime_lab/workspace/__init__.py:73-76 | they part at the root `.` and the path `a` |
| `Paths.CheckRequestedPaths` | runtime_lab/workspace/__init__.py:295-320 | the first offending path decides, with its code; all earlier ones are clear |
| `Paths.AcceptedIffInside` | runtime_lab/descriptors/schema.py:129-152 | when every root is relative, without `..`, and has a component, a path passes the loop exactly when it is not denied and lies inside some root by the component test of the schema |

## Left out

- SHA-256 and `json.dumps`: a hash is a function on JSON objects; the check that hex digits follow `sha256:` is a length.
- JSON: no floating-point numbers, and `true` differs from `1`, which Python compares as equal.
- The file system: symbolic links, directories that stand where a temporary file should, the transaction directory lying inside the workspace, permissions, and writers besides the transaction. Whether two targets are one file, or a temporary name is a target, is a hypothesis (`NoAliases`, `TempsApart`) of the clauses that need it.
- PatchValidation.ValidatePatchApplyRequest: reads of targets during validation do not fail; in the code such a failure leaves the call as an exception before anything is written. The path policy, the approval's expiry and the confirmation text are `Host` parameters. Which code a target that is both too large and binary gets first is not modelled.
- PatchTransaction.Workspace.ApplyPatchTransaction: the receipt holds transaction, targets, hashes and the identifiers of proposal and approval; its constant flags, its own hash and the ledger event are left out. A failed write may leave a prefix of the text in the temporary file, not other content.
- DiffParser.ParseUnifiedDiff: `\d` also matches digits outside ASCII, and `int` refuses very long numerals; both are left out. Lower-casing is that of ASCII, which is exact for the two refused phrases.
- ProposalDiff.AgreedTargetsAreDistinct: the proposal side may redact text between the two parsers; the statement is about one diff text.
- Ledger.AppendEvent: the flags of the accepted result besides event, receipt and ledger are left out.
- Spine.SealUnifiedLocalSpine: the mapping form of a request with its forbidden fields, and the constant fields `status`, `capability` and the claim flags of the receipt are left out.
- Authority.VerifyAuthorityPacket: the descriptor hash is a parameter, so validation of the descriptor itself is not part of this model; optional arguments of the builder other than the artifact list stay at their defaults.
- Paths.CheckRequestedPaths: only the path loop of `begin_workspace_transaction`; the checks before it and the receipt behind it are left out.
- SupervisedRun.Run.RunAgentLoop: loading a stored proposal, the writing of a proposal artifact, the JSON form of the transaction's receipt and the contents of component receipts are left out; what context, proposal and tests do to the disk is not part of this model, and the tests are taken to leave the workspace alone.
- StateMachine.BuildTransitionLog: state and transition names are enumerated; a name outside the table is any other string.
- `llm_provider`, `test_runner`, `repo_context`, `admission`, `executor`, `artifact_store`, `kernel20`, `agent_loop/policy.py`, `agent_loop/authority.py`, `descriptors/noop_*` and `spine_adapter`: independent field checks, network, subprocesses and directory walks are not part of this model.
- Timestamps are strings that the caller supplies.
