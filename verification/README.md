# Zeroth in Dafny

Zeroth drafts a plan of typed rows, has it cross-examined and approved, and then applies
exactly that plan. This project models the parts of the program whose behaviour its own
code decides and proves what each of them promises:

- **The patch engine** (`Text`, `Strings`, `Sequences`, `Patch`, `Payload`, `DiffFormat`, `DiffTexts`,
  `ModifyRules`, `ShrinkGuard`, `Differ`): parsing unified diffs and raw hunks, placing and splicing
  hunks, when a payload is a diff, the guard against lost lines, the differ, and patcher and differ
  against each other.
- **The plan pipeline** (`Policy`, `PlanModel`, `Builder`, `BuiltRows`, `Exam`, `Lifecycle`, `Workspace`,
  `Leases`, `Applier`, `ApplySafety`, `ApplyOutcome`, `ApplyRecord`, `EndToEnd`, `Pipeline`): from a
  draft to the files on disk, through the gates of a fail-closed executor.
- **Canonical hashing and the audit chain** (`Sorting`, `PlanHash`, `AuditChain`, `HashLayout`,
  `AuditLog`, `AuditEntries`, `AuditRuns`): what a plan hash identifies, what a verified chain commits
  to, what each call writes, and which logs verify.
- **Sessions** (`Session`, `SessionLog`, `TailProtocol`, `SupervisorProtocol`, `StreamClient`):
  the event log and its machine, concurrent tails, the supervisor's hand-off, and the client
  that reconnects.
- **Keyset pagination** (`Pagination`) and the **secret scanner** (`SecretScan`).

Code that changes state step by step is a class or a method with loops; each such method is
proved against a function of its inputs or of the old state, and the theorems are lemmas about
those functions. Code made of expressions is functions. The concurrent parts are transition
systems over atomic steps, and their theorems hold for every schedule. Strings are sequences
of bytes, one `char` per byte.

Hypotheses, never axioms: the digest is an injective function whose values are never empty, and
a signature the signer makes verifies under its key; each is an explicit `requires`.
Clock readings, cancellation, failing ports and the answers of reviewer models are inputs of the
operations; what a theorem asks of them stands in its `requires`, and where nothing stands there
it holds whatever they are.

Where the code does not do what a reader would expect:

- A hunk without context or deleted lines goes in *before* line n, and at the end of the file
  when the header says line 0 or no line, where the POSIX.1 `diff -U` format puts it after line n
  and, for line 0, first (`Patch.ZeroContextInsertLands`, `Patch.ZeroContextInsertAgreesIff`).
- A destroy removes the file before it compares the postcondition, so a row that states
  something other than absence loses the file while the result says nothing was applied
  (`ApplyOutcome.FilesAreSafeIff`, `ApplyOutcome.MisstatedDestroyLosesFile`), or that the rows before
  it are all that happened (`ApplyOutcome.FilesMatchBoundaryIff`); `Build` never makes such a row.
- Applying an applied or partially applied plan again reports the old boundary with an empty
  record (`ApplyOutcome.BoundaryIsTrueIff`).
- Memory rows never become seen, so a repeated call proposes them again
  (`ApplyOutcome.ProposedAgain`).
- When an agent's key is created or rotated but its registration fails, or the key file cannot be
  written, the agent goes on signing under it, and the verifier refuses those records (`AuditRuns.FailedRegistrationBreaksLog`,
  `AuditRuns.WrittenOrderVerifiesIff`).
- The audit chain is read by (time, id). One record behind the newest makes the chain
  unverifiable and the unique link then refuses every later append
  (`AuditRuns.ReadChainVerifiesIff`, `AuditRuns.ClockStepBackWedgesLog`).
- A diff made by the memory differ applies again only under four conditions
  (`Differ.PatchUndoesDiffIff`); a file that ends with a newline always conflicts.
- The shrink guard takes deleted lines that begin with two dashes for file headers, so it keeps
  its promise exactly for files without such lines (`ShrinkGuard.GuardHoldsIff`).
- On a line over one megabyte the stream scanner can report more than the buffer scan, never less
  (`SecretScan.ChunksNeverMatterIff`, `SecretScan.StreamMissesNothing`).
- An id that ends in white space does not survive a page cursor (`Pagination.CursorRoundTrip`).
- Event ids that are not numbers can be delivered twice to an attached client
  (`StreamClient.NoneTwiceIff`), and a frame whose emit fails is lost to it
  (`StreamClient.FailedEmitIsLost`).
- The supervisor's fallback for an accepted but unanswered command is unreachable
  (`SupervisorProtocol.RepliedBeforeExit`).
- A second Created event for a session makes its log unreadable (`SessionLog.EveryLogReplaysIff`).

## Model

| member | source | states |
|---|---|---|
| Patch.OldTexts | internal/plan/payload.go:336-344 | the loop yields the context and deleted lines of a hunk, in order |
| Patch.NewTexts | internal/plan/payload.go:346-354 | the loop yields the context and added lines of a hunk, in order |
| Patch.MatchAt | internal/plan/payload.go:356-366 | true exactly when the window at that position is literally the wanted lines, inside the source |
| Patch.IndexOf | internal/plan/payload.go:368-378 | the least position from the cursor on at which the lines match, -1 when there is none |
| Patch.Locate | internal/plan/payload.go:309-326 | the header's position when it is not behind the cursor and matches there, else the leftmost match |
| Patch.ApplyHunks | internal/plan/payload.go:287-334 | the splicing loop computes the specification ApplyLines, errors included |
| Patch.ApplyIsSplice | internal/plan/payload.go:287-334 | given any placement of all hunks, the output is the source with exactly those windows replaced; so the placement is unique |
| Patch.ApplyPlaces | internal/plan/payload.go:287-334 | the patch applies if and only if every hunk has a position at or after the end of the one before; otherwise the error names the first hunk that has none |
| Patch.ApplyLineCount | internal/plan/payload.go:287-334 | lines out = lines in + additions - deletions |
| Patch.AddOnlyKeepsEveryLine | internal/plan/payload.go:287-334 | a patch without deletions keeps every source line, in order |
| Patch.Completeness | internal/plan/payload.go:287-334 | for every edit script whose hunks show an old line, the correctly headed hunks turn its source lines into its target lines |
| Patch.ReversedHunksUndo | internal/plan/payload.go:287-354 | the reversed hunks with new-side positions give the source lines back |
| Patch.ZeroContextInsertLands | internal/plan/payload.go:294-308 | for every header of a hunk without old lines, the unnumbered one and line 0 included: the exact output, or the out-of-range error |
| Patch.ZeroContextInsertAgreesIff | internal/plan/payload.go:294-308 | for every line n of the file and for line 0, that is the format's place exactly when all inserted lines equal line n, or (n = 0) file and insertion repeat one block of lines |
| Payload.JoinSplitLines | internal/plan/payload.go:380-406 | joining the split lines gives the text back up to line-end normalisation, for every text |
| Payload.SplitJoinLines | internal/plan/payload.go:380-406 | splitting the joined lines gives the lines back, and the final newline follows the original |
| Strings.NormalizeNLAt | internal/plan/payload.go:404-406 | every carriage return before a newline goes, wherever it stands |
| Strings.ParseIntReads | internal/plan/payload.go:278-284 | a start line may carry a sign and leading zeros, and must fit 64 bits |
| Strings.ParseIntRefuses | internal/plan/payload.go:278-284 | anything with another byte is no number |
| Payload.ParseUnifiedHunks | internal/plan/payload.go:204-239 | the line loop computes the parser of DiffTexts.ParsesIff |
| Payload.ParseRawHunks | internal/plan/payload.go:241-266 | the raw loop computes the parser of DiffTexts.RawParsesIff |
| Payload.HeaderRoundTrip | internal/plan/payload.go:268-285 | reading a rendered hunk header gives its start line back, for every 64-bit start and for a bare header |
| Payload.RenderParses | internal/plan/payload.go:204-285 | rendering hunks and parsing the text gives the same hunks, deleted lines that look like file headers included |
| Payload.RenderedScriptApplies | internal/plan/payload.go:168-183 | rendered hunks of a script, applied to the bytes of a file with its source lines, give the bytes of the target |
| Payload.RenderedReverseRestores | internal/plan/payload.go:168-183 | the rendered reverse takes the patched bytes back to the original |
| DiffFormat.ParseHeaderMeans | internal/plan/payload.go:268-285 | a hunk header is read as its start line whatever range or section text follows it, as no position when it holds only markers, and is refused and named otherwise, each exactly then |
| DiffTexts.ParsesIff | internal/plan/payload.go:204-239 | the parser accepts exactly the texts made of anything without markers, then hunks (a header with any section text, tagged lines, blank lines and no-newline notes between them), and gives those hunks |
| DiffTexts.DiffApplies | internal/plan/payload.go:168-183 | for every such text and every file, the bytes that come out are those of the patched lines, or the patch error |
| DiffTexts.DiffPatches | internal/plan/payload.go:168-183 | such a diff of an edit script takes the bytes of the source lines to those of the target lines; the final newline stays, a new file gets one |
| DiffTexts.FaultRefusesPatch | internal/plan/payload.go:204-239 | the first faulty header or line refuses the text and is named |
| DiffTexts.RawParsesIff | internal/plan/payload.go:241-266 | the raw parser accepts exactly tagged lines with blanks, notes and file headers anywhere between them |
| DiffTexts.RawHunkLands | internal/plan/payload.go:294-326 | a raw hunk replaces the first place where its old lines stand, and goes to the end when it has none |
| DiffTexts.RawHunkConflicts | internal/plan/payload.go:316-326 | it is a conflict, with the line expected and the first line of the file, when they stand nowhere |
| DiffTexts.RawRefusals | internal/plan/payload.go:168-183 | a text without any hunk line, and one with a faulty line, are refused |
| ModifyRules.LooksLikeDiffIff | internal/plan/payload.go:126-166 | a payload is a diff exactly when it has a git header, a hunk header, both file headers, or nothing but edit lines between white space |
| ModifyRules.WholeTextReplaces | internal/plan/payload.go:62-69 | a payload that is no diff becomes the file, unless it would shrink it |
| ModifyRules.DiffPatchesOrRefuses | internal/plan/payload.go:48-61 | one that is gives the patched file exactly when it applies, quotes no placeholder, and does not shrink the file without a deletion; otherwise which refusal |
| ModifyRules.DiffModifies | internal/plan/payload.go:48-61 | so a modify by a diff of an edit script leaves the bytes of the target lines |
| ModifyRules.OthersMaterialize | internal/plan/payload.go:33-46 | create and memory rows carry their payload, a destroy leaves nothing, any other operation is refused |
| ShrinkGuard.ModifyKeepsLines | internal/plan/payload.go:48-70 | an accepted diff without deletion lines keeps every line, in order, of a file in which no line begins with two dashes |
| ShrinkGuard.DashedLineCanVanish | internal/plan/payload.go:115-124 | for every file and every line of it that begins with two dashes, an accepted diff the guard sees no deletion in, and exactly what it leaves |
| ShrinkGuard.GuardHoldsIff | internal/plan/payload.go:48-70 | so for every file (of fewer than 2^63 - 1 lines) all accepted diffs without deletion lines keep all lines if and only if no line begins with two dashes |
| ShrinkGuard.GuardFailsOn | internal/plan/payload.go:115-124 | a file of three lines for which it fails |
| Differ.CommonPrefix | internal/memory/util.go:93-100 | the longest common prefix of two line lists |
| Differ.CommonSuffix | internal/memory/util.go:102-109 | the longest common suffix |
| Differ.Unified | internal/memory/util.go:49-83 | the builder loops write the tagged lines of the edit between the common ends |
| Differ.DiffHoldsBothFiles | internal/memory/util.go:49-91 | dropping the added lines gives the file before, dropping the deleted lines the file after |
| Differ.PatchUndoesDiffIff | internal/plan/payload.go:168-183 | for files without carriage returns, applying unified(a, b) to a gives b if and only if a is not empty, has no final newline, and no deleted line begins with "-- " and no added one with "++ " |
| Differ.TerminatedConflicts | internal/plan/payload.go:241-266 | with a final newline on a, the diff never applies |
| Differ.EmptyNeverRestored | internal/plan/payload.go:392-402 | a diff against the empty file never gives b back |
| Differ.RestoredSkipsNothing | internal/plan/payload.go:241-266 | a restored file means the parser skipped no edit as a file header |
| Sorting.SortInPlace | internal/plan/hash.go:62-81 | the in-place sort of the copied slices leaves the sorted list |
| Sorting.SortSorts | internal/plan/hash.go:65-67 | the result is sorted |
| Sorting.SortMultiset | internal/plan/hash.go:65-67 | and a permutation of the input |
| Sorting.SortIsStable | internal/plan/hash.go:65-67 | and keeps the order of elements that do not overtake each other |
| PlanHash.ComputeHash | internal/plan/hash.go:25-53 | the buffer the code writes field by field is the encoding that is hashed |
| PlanHash.LengthWrapCollides | internal/plan/hash.go:95-98 | without the 32-bit bound two different field lists encode alike |
| PlanHash.StrsInjective | internal/plan/hash.go:83-98 | length-prefixed fields of bounded length can be read back in only one way |
| PlanHash.SortedByTargets | internal/plan/hash.go:62-69 | two row lists sorted by target that agree target by target are equal |
| PlanHash.HashIdentifiesBundle | internal/plan/hash.go:25-98 | two hashes are equal if and only if summary, expiry, cost ceiling and scope agree, credentials agree as multisets, and every target has the same rows in the same order |
| HashLayout.PlanLayout | internal/plan/hash.go:25-53 | the bytes that are hashed: version, summary, expiry, cost ceiling, scope, credentials ordered by provider and kind, rows ordered by target and otherwise as in the plan, each list after its length |
| Strings.LessIsBytewise | internal/plan/hash.go:62-81 | targets compare at the first byte in which they differ, and a proper prefix is less |
| HashLayout.RowLayout | internal/plan/hash.go:41-50 | a row is its eight fields in the order of the source |
| HashLayout.U32Layout | internal/plan/hash.go:83-87 | a length is four bytes, most significant first |
| HashLayout.I64Layout | internal/plan/hash.go:89-93 | an instant or an amount is eight bytes of two's complement, most significant first |
| HashLayout.StrLayout | internal/plan/hash.go:95-98 | a string is its length modulo 2^32 and its bytes |
| HashLayout.PayloadLayout | internal/audit/record.go:60-74 | the bytes that are signed of an audit record: version, nine fields, instant, in the order of the source |
| AuditChain.HexRoundTrip | internal/audit/verify.go:35-47 | parsing a printed key or signature gives it back |
| AuditChain.VerifyChain | internal/audit/verify.go:59-77 | the loop computes the verifier of AuditChain.AcceptedIff and RefusedIff |
| AuditChain.VerifyNamesFirstFault | internal/audit/verify.go:32-92 | a chain is accepted exactly when every record is good and linked; a refusal names the first that is not |
| AuditChain.AcceptedIff | internal/audit/verify.go:32-92 | a chain is accepted exactly when every record is linked to the one before, its key is registered for its agent, its signature verifies under that key over the digest of what is signed, and its hash is that of both |
| AuditChain.RefusedIff | internal/audit/verify.go:32-92 | a refusal names exactly the first record for which that fails, and what fails |
| AuditChain.ForgedSignatureNamed | internal/audit/verify.go:46-48 | a signature that does not verify, put in a verified chain, is reported as invalid at its record |
| AuditChain.TamperedRecordNamed | internal/audit/verify.go:46-52 | signed contents changed under the same hash are reported at their record |
| AuditChain.DecodeHexIff | internal/signer/signer.go:236-249 | a key or signature is read from exactly the wanted number of bytes in hexadecimal digits of either case, with white space around them |
| AuditChain.HashBindsRecord | internal/audit/record.go:60-86 | two accepted records with the same hash carry the same signed payload and the same signature |
| AuditChain.LastHashBindsChain | internal/audit/verify.go:59-77 | two verified chains with the same last hash agree record by record |
| AuditChain.HashesDistinct | internal/audit/verify.go:59-77 | no hash occurs twice in a verified chain |
| AuditChain.DeletionIsLocated | internal/audit/verify.go:59-77 | deleting a block is reported at exactly the first record after the gap, with the record before it, and unnoticed exactly at the end |
| AuditLog.Log.Append | internal/audit/log.go:134-205 | links, signs and stores one record, or refuses and changes nothing, whichever signer or store call fails |
| AuditLog.Log.EnsureAgentKey | internal/audit/log.go:53-100 | creates or recovers an agent's key, registers it once and records it, with every way to fail between; a key whose file write failed stays in the signer's memory |
| AuditLog.Log.RotateAgentKey | internal/audit/log.go:102-132 | records the rotation under the old key, installs the new one, then registers it, with every way to fail between; a key whose file write failed is active all the same |
| AuditEntries.AppendedMeans | internal/audit/log.go:140-205 | an append stores one record with exactly the fields of its entry, the defaults for target and approver, the hash of the newest record and the signature of the agent's current key, or is stopped for a reason given and changes nothing |
| AuditEntries.EnsuredMeans | internal/audit/log.go:53-100 | a key that was ensured is the agent's current one, is registered last, and signed the record of its creation or enrolment |
| AuditEntries.RotatedMeans | internal/audit/log.go:102-132 | a rotation is recorded under the old key; afterwards the new one is current and registered |
| AuditRuns.WrittenOrderVerifiesIff | internal/audit/log.go:53-205 | after any sequence of calls, whatever the clock does and whichever ports fail, the records verify in the order written if and only if none was signed under a key that an earlier call left with the signer but not in the registry, because writing its file or registering it failed, and that never reached the registry later |
| AuditRuns.NoFailureNoOrphan | internal/audit/log.go:77-84 | when no key write and no registration fails and no generated key comes twice, there is no such record |
| AuditRuns.FailedRegistrationBreaksLog | internal/audit/log.go:66-84 | two calls, with a failed registration or a failed key write in the first, after which the verifier refuses the only record, as not registered |
| AuditRuns.EveryLogVerifiesIff | internal/store/sqlite/audit.go:105-122 | with a strictly increasing clock the chain as read back verifies, records under rotated-out keys included, if and only if no record was signed under a key that never reached the registry |
| AuditRuns.EveryLogVerifies | internal/store/sqlite/audit.go:105-122 | so it verifies when the clock strictly increases and no key write and no registration fails |
| AuditRuns.ReadChainVerifiesIff | internal/store/sqlite/audit.go:105-122 | whatever the clock and the ports do, the chain as read back verifies if and only if every record was written after all earlier ones by (time, id) and none was signed under a key that never reached the registry |
| AuditRuns.OutOfOrderWedgesLog | internal/audit/log.go:207-217 | after one record out of order every later append is refused |
| AuditRuns.ClockStepBackWedgesLog | internal/audit/log.go:140-217 | a run of two calls in which that happens: written order verifies, the chain read back does not, and no append succeeds again |
| AuditRuns.InOrderLogAccepts | internal/audit/log.go:140-205 | on a log in order only a failing port, an unknown agent, an incomplete entry or a reused id stops an append |
| Policy.Authorize | internal/policy/kernel.go:24-41 | allowed exactly when some lease grants the effect to the principal in the scope, unexpired and covering its kind |
| Policy.AuthorizePlan | internal/policy/kernel.go:43-53 | and only when the plan lists the effect |
| Policy.AuthorityShrinks | internal/policy/kernel.go:24-53 | what is allowed at an instant was allowed at every earlier one |
| Builder.Build | internal/plan/builder.go:53-115 | succeeds if and only if the draft is valid and every effect can be a row with no two the same; gives one row per effect in order, or names the first effect at fault and why |
| Builder.BuildRows | internal/plan/builder.go:83-96 | the row loop with its map of seen keys |
| BuiltRows.RowIff | internal/plan/builder.go:117-181 | an effect becomes a row exactly when its kind, path, text, lease, observation and original fit, and the row carries the drafted text unchanged, the kind, the target of the path, the lease, the pre- and postcondition and the key |
| BuiltRows.RefusalIsTrue | internal/plan/builder.go:117-211 | a refusal gives a reason that is true of the effect |
| BuiltRows.TargetIff | internal/plan/builder.go:232-236 | the target is the path with slashes for backslashes, without white space around it and without a leading ./ |
| BuiltRows.OutsideIsRefused | internal/plan/builder.go:238-253 | an absolute path and one that leads out of the workspace are refused |
| Exam.NormalizeModels | internal/plan/exam.go:125-150 | accepts exactly one or two named models that differ from each other and from the producer |
| Exam.CombineReviews | internal/plan/exam.go:165-193 | one fail fails, notes from anyone survive a pass, every note is kept in order |
| Exam.Examine | internal/plan/exam.go:62-123 | completes exactly when everyone configured answered and the verdict was signed; sets the plan's next status; an error is one that holds of the input |
| Exam.CleanPassMeansEveryoneAgreed | internal/plan/exam.go:91-110 | the verdict is a pass exactly when every configured model answered in a word that passes, and a fail exactly when one answered in no word that passes or passes with notes; with blocking on, just then the plan goes back; the producer is not among the models |
| Exam.AnswersCount | internal/plan/exam.go:152-163 | an answer counts as a pass exactly when it is pass, ok or allow up to case and white space around it, as a pass with notes when it is one of two words, and as a fail otherwise |
| Exam.RefusalsFail | internal/plan/exam.go:156-157 | fail, deny, block and no answer at all are fails |
| Exam.OneReviewSays | internal/plan/exam.go:165-193 | one review: its verdict, its model and its trimmed notes |
| Exam.TwoReviewsSay | internal/plan/exam.go:165-193 | two reviews: the worse verdict, both models, and the notes of each under its name |
| Lifecycle.ChangeFollows | internal/server/plan_actions.go:19-324 | every stored change follows the status rules and leaves everything the hash covers alone |
| Lifecycle.CreateIff | internal/server/plan_actions.go:234-238 | a plan is stored exactly when its id is free and it is an unexamined draft under its own hash |
| Lifecycle.ApproveIff | internal/plan/plan.go:139-153 | an approval succeeds exactly on an untampered, examined plan that awaits it and has time left, and moves only lifecycle fields |
| Lifecycle.ExamineIff | internal/server/exam.go:25-114 | an exam is stored exactly when it completes on an untampered plan |
| Lifecycle.SendBackIff | internal/server/plan_actions.go:73-97 | changes are requested exactly with a comment and on a draft or pending plan, and move only lifecycle fields |
| Lifecycle.BranchIff | internal/server/plan_actions.go:195-238 | a branch is an unexamined draft with its parent's contents under a new id |
| Lifecycle.ApplyIff | internal/server/plan_actions.go:263-324 | an apply is stored exactly when it ends without an error and is published |
| Lifecycle.ApprovedIsVetted | internal/plan/plan.go:139-153 | an approved plan's last change was an approval before expiry and the one before it an exam that did not send it back |
| Lifecycle.OnlyVettedPlansRun | internal/server/plan_actions.go:263-324 | over every run of drafts, exams, approvals, rejections, branches and applies, a row runs only in a plan that was examined, not sent back, approved in time, with the contents first drafted and no recorded successful apply (an apply that fails is not recorded) |
| Workspace.World.Observe | internal/server/apply.go:264-277 | the digest of a present file, the empty string for an absent one |
| Workspace.World.Land | internal/server/apply.go:315-366 | one row on the files, branch by branch |
| Workspace.World.Execute | internal/server/apply.go:279-298 | at most once per key; a landed row is recorded, a failed one is not |
| Workspace.World.Seen | internal/server/apply.go:300-305 | whether the key landed, and with what |
| Workspace.FailureLeavesFiles | internal/server/apply.go:315-349 | a failed row left the files alone, unless it is a misstated destroy of a present file: then exactly that file is gone |
| Workspace.LandingIsExact | internal/server/apply.go:315-371 | a landed row left its materialised bytes, or nothing after a destroy, and touched no other file |
| Leases.Leaser.Acquire | internal/server/apply.go:422-477 | succeeds exactly when every row names an acceptable lease; mints one per id, covering every kind of the plan until it expires; a refusal leaves nothing behind that can be deleted |
| Leases.Leaser.Release | internal/server/apply.go:482-513 | deletes exactly the leases given, as far as the store lets it |
| Applier.AuthorizeRow | internal/plan/apply.go:342-352 | only the row's own named lease counts |
| Applier.ObserveRows | internal/plan/apply.go:227-248 | the precondition sweep |
| Applier.ClearRows | internal/plan/apply.go:271-283 | the scan and authorisation sweep |
| Applier.ExecuteRow | internal/plan/apply.go:318-340 | memory rows are proposed, the others executed, the postcondition compared |
| Applier.RunRows | internal/plan/apply.go:285-306 | the row loop |
| Applier.HaltPartial | internal/plan/apply.go:363-380 | what is recorded when the loop stops early |
| Applier.Apply | internal/plan/apply.go:171-316 | the whole call computes ApplyPlan: result, error, files and every step in order |
| ApplySafety.JournalIsLawful | internal/plan/apply.go:250-306 | whatever the ports do: nothing before the checkpoint, nothing runs before the leases, every row is scanned and authorised before the first one runs and again just before it runs, and acquired leases are released exactly once, last |
| ApplySafety.GrantsAreGated | internal/plan/apply.go:185-306 | a row is let through, and so attempted at all, only under an approval of the plan's canonical hash, with time left, after checkpoint and leases, with every unlanded row cleared, and under a lease then valid for the same principal, scope and kind |
| ApplySafety.EffectsAreGated | internal/plan/apply.go:185-306 | a row that completed (executed or proposed) was let through by the event directly before |
| ApplySafety.MayRunIff | internal/plan/apply.go:342-361 | a row may run exactly when the first lease of its name belongs to the principal, covers its kind in the plan's scope and has not expired, and the plan has such an effect on its target |
| ApplyOutcome.ObservesIff | internal/plan/apply.go:227-248 | the first sweep passes exactly when every unlanded row finds its precondition |
| ApplyOutcome.BoundaryIsTrueIff | internal/plan/apply.go:185-316 | the record is rows 0, 1, ... by key, its length is the boundary, applied means all rows, partial at least one, anything else none: on every exit, if and only if the plan was not already applied or partially applied; then what comes back instead |
| ApplyRecord.RefusalsMarkThePlan | internal/plan/apply.go:185-283 | when nothing was applied the plan goes back stale after drift or a failed observation, otherwise as it was, with the comment of the refusal |
| ApplyRecord.RecordIsTrue | internal/plan/apply.go:285-306 | every recorded postcondition is the one the world keeps for that key, or the queue's answer, and nothing the world keeps changes |
| ApplyRecord.CallPublishes | internal/server/apply.go:279-298 | what a call hands on to be published is exactly the targets it executed, in order, without the compiled files |
| ApplyOutcome.FilesMatchBoundaryIff | internal/plan/apply.go:286-316 | for every plan, on every world and on every exit, the files are the first `through` rows of the plan, each key landing once, and nothing more, if and only if the row at the boundary was not run as a misstated destroy of a file still there; if it was, exactly that file is gone besides |
| ApplyOutcome.FilesMatchBoundary | internal/plan/apply.go:286-316 | so always on a fresh world, for a plan with distinct keys whose destroys state absence |
| ApplyOutcome.ChangesAreGranted | internal/plan/apply.go:286-306 | files or landed keys change only in a call that let some row through |
| ApplyOutcome.UnfinishedLeavesFiles | internal/plan/apply.go:363-367 | a result neither applied nor partial left all files alone, except exactly when the call's inputs open every gate and row 0 is a misstated destroy of a present file: then that file is gone |
| ApplyOutcome.FilesAreSafeIff | internal/server/apply.go:321-329 | no call, whoever makes it and whatever the ports do, ends unfinished with a file changed, if and only if the plan is not applicable to these files or row 0 is no such destroy |
| ApplyOutcome.MisstatedDestroyLosesFile | internal/server/apply.go:321-329 | a concrete plan for which that happens with no port failing, for every set of detectors that lets the word "gone" pass |
| ApplyOutcome.CallLandsOnce | internal/plan/apply.go:286-306 | in one call no key lands twice and none that had landed lands again |
| ApplyOutcome.NoKeyLandsTwice | internal/server/apply.go:279-305 | nor over any number of calls that share a world |
| ApplyOutcome.MemoryStaysUnseen | internal/plan/apply.go:318-331 | over any number of calls a memory row's key never becomes seen |
| ApplyOutcome.ProposedAgain | internal/plan/apply.go:286-306 | two calls on one world both propose the same memory row |
| EndToEnd.KeysDiffer | internal/plan/builder.go:90-96 | the idempotency keys of one built plan are pairwise distinct |
| EndToEnd.MadeRowIsTrue | internal/plan/builder.go:117-221 | a built row carries the precondition and postcondition of running it on the files observed |
| EndToEnd.AcquiredAuthorises | internal/server/apply.go:422-470 | the minted leases authorise every row at every instant before expiry |
| EndToEnd.BuiltPlanLeavesFiles | internal/plan/builder.go:201-206 | for a built plan no call ends unfinished with a file changed |
| EndToEnd.ApprovedIsWhatLands | internal/plan/apply.go:171-316 | build over observed files, approve, apply before expiry with no failure: the whole plan is applied, and at the target of every drafted effect there is its text (create, whole-text modify), the original patched with it (diff), or nothing (destroy); all other files are untouched |
| EndToEnd.OneFileLands | internal/plan/builder.go:53-115 | one concrete draft for which all hypotheses of that theorem hold, and the one file it leaves |
| Pipeline.DraftToFiles | internal/server/plan_actions.go:19-324 | a draft that is stored, examined without being sent back, approved before expiry and applied without a failure ends stored as applied, with exactly its drafted effects on the files |
| Session.ReplayEvents | internal/session/event.go:308-321 | the loop computes the fold; one illegal event fails it |
| Session.FoldIsLatestMove | internal/session/event.go:158-263 | the status is that of the latest lifecycle event, the contract is zero when attached or terminal, all events carry one id |
| Session.ApplyIff | internal/session/event.go:158-263 | for every event on a live session: exactly when it is legal, which error it is otherwise, and all that it changes |
| Session.BeginIff | internal/session/event.go:159-171 | a session begins with Created, pending, in the foreground and without a contract, and in no other way |
| Session.FoldIsLatestPlace | internal/session/event.go:235-256 | a session is in the background exactly when the latest event that moved it put it there, under the contract that came with that event until it ends |
| Session.CreatedFirstOnly | internal/session/event.go:159-195 | Created is first and nowhere else |
| Session.NothingAfterTerminal | internal/session/event.go:188-190 | a terminal event is the last |
| Session.ApplyFollowsApproval | internal/session/event.go:211-215 | the latest lifecycle move before Applying is ApprovalRequested |
| Session.AppliesOnce | internal/session/event.go:211-215 | there is at most one Applying |
| SessionLog.MemoryLog.Append | internal/session/log.go:86-114 | one event with the next number at the end of the history, or no change |
| SessionLog.MemoryLog.EventsAfter | internal/session/log.go:117-131 | exactly the session's later events |
| SessionLog.MemoryLog.ReplayLast | internal/session/log.go:134-154 | exactly the session's last n events |
| SessionLog.MemoryLog.Snapshot | internal/session/log.go:70-83 | the sorted union of all sessions is the history, in order |
| SessionLog.MemoryLog.FromEvents | internal/session/log.go:45-67 | rebuilds map, order and next number from recorded events, refusing malformed ones |
| SessionLog.MemoryLog.Restarted | internal/session/log.go:45-83 | rebuilding from a snapshot gives the same events, order and next number |
| SessionLog.SnapshotIsHistory | internal/session/log.go:78-82 | gathering the sessions and sorting by number restores the history, for every interleaving |
| SessionLog.Machine.Create | internal/session/machine.go:19-30 | appends Created; readable on a new id, unreadable on one that has a readable log |
| SessionLog.Machine.Record | internal/session/machine.go:76-90 | appends exactly the events that are legal now, and the log still replays |
| SessionLog.Machine.Fail | internal/session/machine.go:214-227 | succeeds exactly on an open session, with the reason before the end |
| SessionLog.EveryLogReplaysIff | internal/session/machine.go:19-227 | after any sequence of Create, Record and Fail calls on any sessions, interrupted or not, every session's log replays if and only if no call created a session the log already held |
| TailProtocol.OutputIsContiguous | internal/session/tail.go:22-59 | under every interleaving of appenders and tails, replay plus live output is a contiguous run of the log ending at the tail's number |
| TailProtocol.ParkedMeansCaughtUp | internal/session/log.go:170-210 | a tail parked on an empty channel with no appender between insert and broadcast has put out everything |
| TailProtocol.TailCatchesUp | internal/session/tail.go:36-59 | until then its own next step is always enabled and leaves less to do |
| TailProtocol.EveryTailCanHappen | internal/session/tail.go:11-64 | for every log, every later events and every number asked for there is a run in which a tail puts out just the last of the old and all the new events, and parks |
| TailProtocol.BroadcastReachesAll | internal/session/log.go:201-211 | a broadcast leaves a token with every tail that still listens |
| TailProtocol.StopsAnytime | internal/session/tail.go:60-62 | a tail can be stopped at any moment and keeps what it has put out |
| TailProtocol.StoppedIsFinal | internal/session/tail.go:22-35 | nothing reaches a tail after it was stopped |
| SupervisorProtocol.AtMostOnce | internal/session/supervisor.go:152-206 | in every interleaving of callers, loop, terminal exit and Close a mutation runs at most once, exactly once when a result comes back, and that is its result; only a cancelled call comes back without |
| SupervisorProtocol.RepliedBeforeExit | internal/session/supervisor.go:196-202 | an accepted command is always answered before the loop exits |
| SupervisorProtocol.NeverStuck | internal/session/supervisor.go:152-206 | until a call returns, it or the loop can always take its next step |
| SupervisorProtocol.CancelledReturns | internal/session/supervisor.go:183-206 | a call whose context ends while it waits can return |
| SupervisorProtocol.TerminalEndsRun | internal/session/supervisor.go:152-170 | after a command that ends the session the run leaves the list and its loop exits |
| SupervisorProtocol.LateCallRunsInline | internal/session/supervisor.go:172-188 | a call that finds no run, or a run that is over, does its work itself |
| SupervisorProtocol.CloseEndsLoop | internal/session/supervisor.go:152-170 | from every moment of every run, once closed, the loop can finish what it began and exit |
| StreamClient.FollowOnce | cmd/zeroth/stream.go:58-85 | the read loop delivers what retainEvent lets through |
| StreamClient.FollowRunEvents | cmd/zeroth/stream.go:26-56 | the redial loop, and the wait before each redial |
| StreamClient.BackoffGrows | cmd/zeroth/stream.go:49-54 | the waits never shrink and reach two seconds at the seventh redial |
| StreamClient.NothingTwice | cmd/zeroth/stream.go:26-100 | over any connections, whatever numbers the server sends and in whatever order, delivered numbers strictly increase |
| StreamClient.NoneTwiceIff | cmd/zeroth/stream.go:87-100 | for every set of ids the server may send: no id is ever delivered twice if and only if all are numbers or there is only one |
| StreamClient.TailServes | internal/session/tail.go:11-64 | what a connection carries from a tail is a window of the log |
| StreamClient.NothingLost | cmd/zeroth/stream.go:26-100 | when at most `last` events are newer at each redial, the events passed to emit are a contiguous run of the log, right after the last one seen |
| StreamClient.AttachLosesNothing | cmd/zeroth/stream.go:26-100 | the same for a whole attach, from a client that has seen nothing |
| StreamClient.EachFailureCostsOne | cmd/zeroth/stream.go:74-80 | each failed emit costs exactly one frame, so all of that run is accepted if and only if no emit fails |
| StreamClient.FailedEmitIsLost | cmd/zeroth/stream.go:77-80 | a frame whose emit failed never comes again |
| StreamClient.FreshAttach | cmd/zeroth/stream.go:90-93 | a first connection delivers its whole window |
| Pagination.CursorRoundTrip | internal/store/page.go:41-61 | a cursor decodes to what was encoded if and only if the id is not empty and does not end in white space |
| Pagination.DecodeCursorIff | internal/store/page.go:47-61 | a cursor is a number, a bar and an id between white space, and nothing else |
| Pagination.CursorsRead | internal/store/sqlite/helpers.go:317-343 | a blank cursor is the start, one that does not parse is an error |
| Pagination.PageSizes | internal/store/page.go:31-39 | 50 rows when no number is asked for, and never more than 200 |
| Pagination.ScanIsSorted | internal/store/sqlite/helpers.go:317-330 | the full scan holds every matching row once, strictly in (timestamp, id) order |
| Pagination.SelectMeans | internal/store/sqlite/helpers.go:317-330 | a query holds the matching rows beyond the cursor, each as often as the table, in strict (timestamp, id) order, in either direction |
| Pagination.PageAfter | internal/store/sqlite/helpers.go:332-343 | each page is the first rows beyond the cursor, and names a next page exactly when there are more |
| Pagination.NextPage | internal/store/sqlite/helpers.go:317-343 | on a table that has grown anywhere, a page loses no row of the start, repeats none, and leaves fewer rows ahead |
| Pagination.ListAll | internal/memory/notebook.go:316-331 | the cursor loop ends; whatever rows appear meanwhile and wherever, its answer is in strict order and holds of the rows present at the start exactly their full scan; when new rows only appear in front of them, as newer ones do newest first, it is that scan |
| SecretScan.ScanLine | internal/secretscan/scan.go:58-75 | one finding per detector that hits the line, cut at the limit |
| SecretScan.Scan | internal/secretscan/scan.go:37-56 | the buffer loop finds the lines and numbers them |
| SecretScan.FoundIff | internal/secretscan/scan.go:37-75 | a scan reports a rule at a line exactly when a detector of that rule hits the first megabyte of that line of the file |
| SecretScan.ScanReader | internal/secretscan/scan.go:103-138 | the read loop, for every sequence of reads |
| SecretScan.ChunksNeverMatterIff | internal/secretscan/scan.go:103-138 | the stream finds exactly what the buffer scan finds, however the input is split into reads of at most 32 KiB and whatever the detectors are, if and only if no line is over the limit |
| SecretScan.StreamMissesNothing | internal/secretscan/scan.go:103-138 | with longer lines it still reports every finding of the buffer scan, in order |

## Left out

- White space is ASCII: TrimSpace and Fields also cut other Unicode spaces, and ToLower folds other letters.
- AuditRuns.WrittenOrderVerifiesIff: one run of the process; a restart, after which a key whose file write failed is gone from memory, is not modelled.
- Regular expressions (placeholder markers, secret detectors) are arbitrary predicates on lines.
- The library sorts are represented by a stable insertion sort, which gives the same result for a stable sort and for distinct keys.
- SHA-256, BIP-340 signatures and the keyring are ideal functions; a digest has no fixed length here.
- The file system: files are a map keyed by normal targets, writes are atomic, path cleaning (safeJoin, path.Clean) is a predicate.
- Error texts, and the Findings field of a plan with the server's refusal to apply a plan that has any.
- A missing port is one `ready` flag; the nil checks of each port are not told apart.
- CanApply, plan rendering, packets and display formats: easy members.
- Lifecycle: each handler is one atomic step; two handlers interleaving on one plan, the session gates of the supervisor and the publishing of git branches are not modelled beyond a flag that publishing succeeded.
- Applier.Apply: describes refusal comments made from error texts by an arbitrary function.
- Leases.Leaser.Acquire: whether an id parses and can be stored is one predicate; store rows carry only id and expiry.
- TailProtocol.ParkedMeansCaughtUp: the output channel's buffer of 16 and the reader of the channel are not modelled; an event counts as put out when it is sent.
- SupervisorProtocol.AtMostOnce: one session's run; a mutation that panics and the creation of runs (StartWith, Restore) are not modelled.
- StreamClient.FollowRunEvents: dialling and JSON decoding are the connection's frames and its end; context cancellation is seen when the frames run out.
- Pagination.ListAll: failures of the store query, and rows deleted or changed while paging; the rows the table will ever hold are taken to be finitely many.
- SessionLog.EveryLogReplaysIff: each Create, Record and Fail is one atomic step; in the program check and append are atomic only under one Machine's mutex, and the supervisor opens a fresh Machine for an id it does not list (internal/session/supervisor.go:208-215), so two such calls can interleave.
- SessionLog.MemoryLog.Append: event timestamps and 64-bit overflow of the sequence number.
- Session: the JSON of a completion contract is an arbitrary function from payloads to contracts.
- HTTP handlers, the CLI, configuration, the web UI, Docker, git, Linear and the model clients, notebook CRUD and migrations: plumbing or easy members.
