# Verification of the request view, the installer, the updater, the trajectory check and the accounts

This project models the parts of the repository whose promises span many operations, and proves those
promises for all inputs, all runs and all interruptions. It is checked with

    dafny verify dfyconfig.toml

No proof relies on automatic induction over lemma parameters: the same holds with `--manual-lemma-induction`.

## What is modelled

**The request view** (`Utf8`, `Tokens`, `Messages`, `Shrink`, `Compress`, `References`, `Readings`, `ContextView`,
`RequestRuns`, `ContextManager`). Every model request is built from a growing history. Tool results are compressed
structurally (in full, as a preview, as a reference to an equal result, as a new version) and then cut to a
quarter of the window by a token estimate whose correction factor drifts from request to request. Both stages keep
books, so that what was sent once is sent the same way again. `Messages` holds histories and what it means to
extend one; `Compress` the event ledger, the decisions and the memo; `Readings` what can be read off a compressed
result; `Shrink` the cut, the pins and the hard gate; `ContextView` one view; `RequestRuns` whole epochs of
pushes, appends, messages taken back before a view has shown them, and views under arbitrary factors;
`ContextManager` the class itself, whose methods are tied to the steps of the epochs. The central results are
`RequestRuns.SentPrefixIsKept`, `RequestRuns.AtMostTwoShapes`, `RequestRuns.AnnouncedAtMostTwice`,
`RequestRuns.SavingsAreCountedOnce` and `Compress.MemoAgreesWithScratch`.

**The updater** (`Transactions`, `Updater`). `Transactions` is a machine of durable writes: version directories,
staging, transaction files and the version pointer `current.json`. A run is any sequence of enabled writes, so a
crash between any two of them and a command started afterwards are runs as well. `Updater` holds the commands,
which change the disk only through such writes and keep a log of them.

**The installer** (`Installer`). A plan is decided from three maps (the new manifest, the recorded one, the
disk) and performed step by step with backups. `Site` and `Event` add histories of upgrades, each possibly
cut short, with edits by the user in between.

**The trajectory check** (`Trajectory`, `JsonLines`, `Goals`, `ContextChain`). The hash chain with strict checking
and rehashing, the goal automaton, and the replay of the context chain with the list it shares with the log; the
verdict on a file counts the problems of all three. `JsonLines` is one concrete form of lines that has every
property the chain results ask of JSON.

**Code-point ranges** (`Intervals`): merging, subtracting and comparing tables.

**Accounts** (`Arithmetic`, `Reorder`, `UsageAggregate`, `UsageCounts`, `CacheWatch`, `UsageProjector`,
`UsageSamples`, `Cost`, `Base64`). Totals and breakdowns, the projection of a ledger to one sample for each
request, exact prices in 64 bits, and the strict base64 decoder. `Options` and `Collections` hold what several
parts share.

## Assumptions

- The content fingerprint, the text projection of rich results and the other parameters of `Env` are
  arbitrary functions: nothing is assumed of them, except that projections and fingerprints of well-formed
  text are well formed where well-formedness is the claim (the texts the program ships with are, by
  `Messages.ShippedWordingIsValid`). References are stated in terms of the fingerprint.
- Tool-use ids are unique and non-empty, and a result stands in the message right after its call
  (`Messages.WellPaired`); blocks appended to the last message are never tool results; and a message is only taken
  back before a view has shown it (src/agent/loop.cpp:3070-3105). The callers keep all four. A late result would
  be answered by the memo and not from scratch, so the agreement needs them.
- The correction factor is a non-negative real; rounding to the nearest integer is exact.
- The line hash is injective where a result says so (`Trajectory.LastHashDecides`), and the canonical form of
  a line is read back as that line, starts with a brace, escapes control characters, has no JSON proper prefix and
  holds no line break in its hashes (`Trajectory.FaithfulJson`; `JsonLines.QuotingIsFaithful` exhibits such a form).
- The install lock is exclusive, and one durable write is one step. What the network, the archive, the
  verification and the probe answer are parameters of a command (`Updater.World`).
- Paths of the installer are already folded keys, destinations are injective, and no path is a directory
  prefix of another.

## Findings

Where a promise is false of the code, the code is modelled as it is and the exact condition is proved.

- **The previous version can dangle** (scripts/updater.py:981-1007). A resumed transaction is chosen by digest
  alone, but the directory name recorded at its creation holds the version string too. Resumed under another
  version string, its rollback records a directory that need not exist as the previous version.
  `Transactions.PreviousAlwaysIff` gives the exact condition for whole runs (every restore finds the directory
  recorded at creation), `Transactions.PreviousStays` the callers' way to meet it, and
  `Updater.InstallRoot.ResumeUnderAnotherVersion` runs the commands into it.
- **A rehashed file is not always readable** (scripts/validate_trajectory_v3.py:188-190, 1102-1144). The canonical
  form leaves U+0085, U+2028 and U+2029 unescaped and the reader splits lines at them
  (`Trajectory.RehashRoundTrip`, exactly when, by the lines of the given file; `JsonLines.RehashCanBreakAFile`, a
  file with an escaped U+2028).
- **Some context chains are not checked** (scripts/validate_trajectory_v3.py:964-1021). A reduction is checked
  when it opens a list, an identified compaction and the last list at the end, and appended nodes only for their
  link to the one before. So the context of a clean log is a path exactly when the list it was opened with is
  linked and no message stands twice among that list and the nodes appended since
  (`ContextChain.ContextIsPathIff`, for accepted files `Trajectory.AcceptedContexts`), and every opener other than the
  last one and an identified compaction, reductions included, lets other contexts through
  (`ContextChain.UncheckedContext`). Since appends go to the list inside the log entry, the later check of a
  compaction sees the appended nodes too.
- **A repeated upgrade reports its own work** (scripts/install_plan.py:367-372). Running an interrupted upgrade
  again ends where the first run would have (`Installer.RerunCompletes`), but the baseline is still the old one, so
  files the first run had written count as modified and are reported as conflicts (`Installer.RerunReports`, exactly
  which; `Installer.RerunReportsItsOwnWork`, such a run over a recorded baseline).
- **Subtracting depends on the order of the second list** (scripts/gen_unicode_tables.py:112-125). It is exact
  for every first list if and only if the second is orderly, which every sorted list is
  (`Intervals.ExactIffOrderly`; `Intervals.DisorderedTable`, a list of two points that is not).
- **Unused bits are not checked** (src/agent/model_image_store.cpp:69-124). Section 3.5 of RFC 4648 lets a decoder
  accept non-zero pad bits, and this one does, so different texts can decode to the same bytes
  (`Base64.EncodeDecode`, exactly when; `Base64.TwoTextsForOneByte`, two such texts).

## Model

| member | source | states |
|---|---|---|
| Utf8.ValidCut | src/platform/text_encoding.cpp:162-190 | cutting well-formed UTF-8 (the grammar of section 4 of RFC 3629) at any code-point boundary leaves two well-formed texts |
| Utf8.PrefixBoundary | src/platform/text_encoding.cpp:162-174 | the boundary is at most the offset, splits no code point, and only continuation bytes lie between the two |
| Tokens.EstimateUtf8Tokens | src/agent/context.cpp:298-315 | the counting loop computes the calibrated estimate of the whole text |
| Tokens.CountsMean | src/agent/context.cpp:298-312 | the characters counted are the bytes below 0x80 and those that open a longer form |
| Tokens.TokensMean | src/agent/context.cpp:311-314 | four ASCII characters are one token and two other characters three, what is left over not counted |
| Tokens.CalibratedIsNearest | src/agent/context.cpp:289-296 | the calibrated estimate is the nearest number of tokens, halves up, and never zero for something |
| Tokens.CalibratedMonotone | src/agent/context.cpp:289-296 | more tokens never cost less, whatever the factor |
| Tokens.CalibratedSplit | src/agent/context.cpp:289-296 | estimating two parts apart loses at most one token to rounding |
| Tokens.Utf8PrefixBytesWithinTokens | src/agent/context.cpp:79-102 | the scanning loop computes the scan that ScanIsLongest is about |
| Tokens.ScanIsLongest | src/agent/context.cpp:79-102 | the scan ends at the longest code-point-aligned prefix whose estimate, mark included, is in budget, for every factor |
| Tokens.TruncateTextToTokenBudget | src/agent/context.cpp:110-140 | the method computes the truncation, and leaves the text alone when there is none |
| Tokens.TruncationIff | src/agent/context.cpp:110-140 | a text is cut if and only if it is longer than floor and mark and no aligned prefix that leaves less than the mark behind is in budget with it (or all stray bytes) |
| Tokens.TruncationFits | src/agent/context.cpp:110-140 | a cut above the 1024-byte floor fits its budget with the mark, unless all it keeps are stray continuation bytes and the mark alone is over budget, and then it does not; no aligned cut further right fits |
| Tokens.TruncationStaysValid | src/agent/context.cpp:104-140 | truncation never leaves half a code point |
| Shrink.ReduceLastText | src/agent/context.cpp:222-260 | one pass over a rich result cuts the last text block that can still be cut, and recomputes the projection; plain content is cut in CutToLine |
| Shrink.CutToLine | src/agent/context.cpp:220-262 | the loop ends (text bytes strictly fall) in the cut of the source |
| Shrink.Cut | src/agent/context.cpp:220-262 | the cut keeps the identity, has fewer text bytes when it differs, and is in line or cannot be reduced further |
| Shrink.WholeIff | src/agent/context.cpp:220-262 | a result goes out whole if and only if it is inside the line or none of its texts can be cut, each for its own budget |
| Shrink.LineIsQuarter | src/agent/context.cpp:168-196 | the line is a quarter of the window, rounded down, and of 128000 tokens when the window is not known |
| Shrink.ImagesCost | src/agent/context.cpp:334-349 | an image costs its own number of tokens and nothing else costs any |
| Shrink.ShapingRules | src/agent/context.cpp:188-284 | a result shaped before with the same text keeps its shape inside the plain line and is cut by the plain ruler otherwise; any other one is cut by the ruler of the day; only a new shape that differs is announced |
| Shrink.CutKeepsTheRest | src/agent/context.cpp:222-260 | only texts are cut, each to a part from its front and one mark however often it was cut; images, other blocks, structured content, flag and identity stay, and the content of a rich result is the projection of what it now holds |
| Shrink.CutFits | src/agent/context.cpp:220-262 | by the plain ruler a plain result cut above the floor is inside the line if and only if its identity leaves room for what it shows; by any other factor it is then at most one token over |
| Shrink.CutStaysValid | src/agent/context.cpp:220-262 | no cut, plain or rich, malforms UTF-8 |
| Shrink.ShrinkOversizedToolResults | src/agent/context.cpp:168-287 | the double loop over messages and blocks computes the shrunk history, the pins and the notices |
| Shrink.ShrinkPointwise | src/agent/context.cpp:177-284 | with distinct identities each result is shaped by its own pin alone, its pin and its notice are its own, and nothing else changes |
| Compress.PairResult | src/agent/context_events.cpp:98-121 | the pairing loop finds the first matching result of the next message, if that is a user message |
| Compress.BuildEventLedger | src/agent/context_events.cpp:70-134 | the loop numbers the events of the history in order |
| Compress.CallsAreAnswered | src/agent/context_events.cpp:70-134 | every call outside the user's own input has its exchange in the ledger, answered if and only if the history holds a result with its id, and with what that result says |
| Compress.KeyedTools | src/agent/context_events.cpp:22-41 | exactly the read-only tools have dedup keys |
| Compress.ReadKeys | src/agent/context_events.cpp:22-41 | two file reads share a key if and only if path, offset and limit agree |
| Compress.SearchKeys | src/agent/context_events.cpp:22-41 | two searches share a key if and only if tool, mode, pattern, path, glob and query agree, bars in the pattern included |
| Readings.FieldsMean | src/agent/context_events.cpp:22-31 | an integer field is written so that it is read back, a string as it is, anything else empty |
| Compress.LedgerStable | src/agent/context_events.cpp:70-134 | events of earlier messages, their numbers and their answers are the same in every longer history |
| Compress.LedgerDistinct | src/agent/context_events.cpp:70-134 | with distinct call ids no two exchanges share an id |
| Compress.CompressWorkingView | src/agent/context_events.cpp:188-334 | the method computes the decisions, rewrites every result that has a rendering, and counts what its new decisions save |
| Compress.OwnMemo | src/agent/context_events.cpp:209-233 | replaying any part of the decisions made from scratch changes neither states nor renderings, and adds the same decisions |
| Compress.MemoAgreesWithScratch | src/agent/context_events.cpp:181-334 | carrying the memo of an earlier view into any longer history gives exactly what a fresh memo gives |
| Compress.ScratchStable | src/agent/context_events.cpp:181-334 | a block rendered once is rendered the same way in every longer history |
| Compress.SavingsAddUp | src/agent/context_events.cpp:269-296 | what a view saved and what a later one saves with the decisions made then add up to what compressing the later history from scratch saves |
| Compress.SavingsMean | src/agent/context_events.cpp:269-296 | from scratch the counters are the numbers of duplicates, new versions and previews decided, and the bytes by which these became shorter |
| References.DuplicateRefIsTrue | src/agent/context_events.cpp:249-257 | a duplicate reference names a strictly earlier answered event with the same key and content hash that is no reference itself, nothing in between differs, and its count is the true number of occurrences |
| References.NewVersionIsTrue | src/agent/context_events.cpp:257-266 | a replaced event is an earlier answer under the same key with different content, unchanged until now |
| References.ShownInFull | src/agent/context_events.cpp:235-267 | an answer is shown by itself exactly when it takes no part in deduplication, is the first under its key, or is short; as a preview exactly when it is a long first one |
| References.RewriteKeepsTheRest | src/agent/context_events.cpp:300-333 | compression keeps kind, identity, error flag, structured content and everything that is not text |
| References.RenderValid | src/agent/context_events.cpp:137-178 | no rendering of well-formed content is malformed |
| Readings.DuplicateSays | src/agent/context_events.cpp:137-178 | in the text of a duplicate the number after the opening words is the event it refers to, and the number before the closing words how often the content was seen |
| Readings.NewVersionSays | src/agent/context_events.cpp:137-178 | the text of a new version names the event it replaces and ends with its content, or with its preview when long |
| Readings.ArtifactSays | src/agent/context_events.cpp:137-178 | a preview names its own event, tells the size of its content, and shows the longest beginning and the longest end that fit and keep code points whole |
| Readings.ShippedWordingIsReadable | src/agent/context_events.cpp:137-178 | in the texts the program ships with the numbers can be told from the words |
| ContextView.BuildPointwise | src/agent/context_manager.cpp:81-128 | block by block, a view is the source compressed from scratch, shaped by the pin of that result |
| ContextView.BuildKeepsConsistent | src/agent/context_manager.cpp:81-128 | every view leaves decisions, pins and announcements matching the history it has shown |
| ContextView.DryRunIsExact | src/agent/context_manager.cpp:130-139 | the dry run with no decisions at all shows exactly what the next request is built from |
| ContextView.AnnouncePointwise | src/agent/context_manager.cpp:115-125 | after a view each notified result is recorded under its latest shape, every other one as before |
| ContextView.AnnounceNewly | src/agent/context_manager.cpp:115-126 | the report flag is set exactly when some notice names a shape not yet announced |
| RequestRuns.RunOf | src/agent/context_manager.cpp:26-128 | from any history any sequence of pushes, appends, pops and views is a run |
| RequestRuns.ShownHistoryGrows | src/agent/loop.cpp:3070-3105 | what a view has shown only grows at its end, although messages are taken back |
| RequestRuns.BooksStayConsistent | src/agent/context_manager.cpp:26-128 | along every run the books match the last view |
| RequestRuns.PinEvolves | src/agent/context.cpp:193-275 | once shown, a result keeps its pinned shape, or the hard gate replaces it by the plain cut for good |
| RequestRuns.SentPrefixIsKept | src/agent/context_manager.cpp:26-128 | the append-only law: a later request of the epoch reproduces every block of an earlier one, whatever the factors, except results re-cut by the hard gate because they exceed the plain line |
| RequestRuns.AtMostTwoShapes | src/agent/context.cpp:193-284 | a block that has changed once never changes again, and one whose first shape fits the plain line never does |
| RequestRuns.ResentFitsOrIsMinimal | src/agent/context.cpp:197-212 | from its second view on a result is inside the plain 25% line or cannot be cut further |
| RequestRuns.SentStaysValid | src/agent/context_manager.cpp:81-110 | no request carries half a code point when the history does not |
| RequestRuns.ReportedIffAnnounced | src/agent/context_manager.cpp:111-127 | the flag of a view is set exactly when it announces some result |
| RequestRuns.AnnouncedOncePerShape | src/agent/context_manager.cpp:111-126 | two announcements of one result name different shapes |
| RequestRuns.AnnouncedAtMostTwice | src/agent/context_manager.cpp:111-126 | in a whole epoch a result is announced at most twice, and after the second time its shape is the hard cut |
| RequestRuns.SavingsAreCountedOnce | src/agent/context_events.cpp:209-296 | no decision is counted twice in an epoch: the savings its views report add up to those of compressing the last viewed history from scratch |
| ContextManager.InjectIncomingMessage | src/agent/context.cpp:397-412 | the loop appends the letter to a trailing user message, or as a message of its own |
| ContextManager.InjectContinues | src/agent/context.cpp:397-412 | a letter only continues a history, and never puts two user messages in a row |
| ContextManager.InjectIsSteps | src/agent/context.cpp:397-412 | a letter is no step, one push, or one append for each of its blocks, so it is part of the runs |
| ContextManager.ContextManager.PushMessage | src/agent/context_manager.cpp:31-34 | both histories grow by the message, all books stay |
| ContextManager.ContextManager.PushUserTurn | src/agent/context_manager.cpp:26-29 | each history grows by its own form of the turn |
| ContextManager.ContextManager.PopMessageBack | src/agent/context_manager.cpp:36-43 | both histories lose their last message, if any |
| ContextManager.ContextManager.InjectIncoming | src/agent/context_manager.cpp:45-48 | both histories receive the letter |
| ContextManager.ContextManager.AppendToLast | src/agent/context_manager.cpp:50-57 | the last message of both histories grows by the block |
| ContextManager.ContextManager.AppendToLastRequest | src/agent/context_manager.cpp:59-63 | only the request history grows |
| ContextManager.ContextManager.ReplaceHistory | src/agent/context_manager.cpp:65-79 | a new epoch: both histories are the new one and every book is empty |
| ContextManager.ContextManager.BuildWorkingView | src/agent/context_manager.cpp:81-128 | the stateful method makes exactly the view, the books and the report that the runs are about |
| ContextManager.ContextManager.BuildPressureDryRunView | src/agent/context_manager.cpp:130-139 | the scratch view, without touching a book |
| Transactions.RunsStaySafe | scripts/updater.py:945-1007 | whatever was interrupted, current.json names an existing directory that verification or a probe accepted, and at most one update is unfinished |
| Transactions.FinishedStays | scripts/updater.py:389-404 | failed, rolled-back and committed transactions are never touched again |
| Transactions.CommittedWasCurrent | scripts/updater.py:1010-1024 | a committed transaction had, when it committed, the version pointer on its own verified and probed target |
| Transactions.PointerStays | scripts/updater.py:1185-1287 | a crash among writes that do not touch the version pointer leaves it as it was |
| Transactions.RestoreKeepsPreviousIff | scripts/updater.py:981-1007 | a write makes the previous version dangle if and only if it restores the version pointer while the directory recorded at creation does not exist |
| Transactions.PreviousAlwaysIff | scripts/updater.py:945-1007 | the previous version exists at every point of a run if and only if every restore in it finds the directory recorded at creation |
| Transactions.PreviousStays | scripts/updater.py:945-1007 | along every run in which each resume names the version the transaction was created for, the previous version exists |
| Transactions.DanglingPrevious | scripts/updater.py:1194-1201 | without that condition it fails: a reachable disk of the write machine whose previous version does not exist |
| Transactions.TraceIsLegal | scripts/updater.py:342-357 | the logged writes of a command are one of the runs the invariants are about |
| Transactions.SameDir | scripts/updater.py:330-342 | two targets share a directory if and only if their versions and the first eight digits of their digests agree |
| Updater.InstallRoot.FindResumable | scripts/updater.py:389-404 | returns the open transaction for the same digest, if there is one; every open one of another digest has failed and lost its stage, and nothing else has changed |
| Updater.InstallRoot.Prepare | scripts/updater.py:1203-1239 | succeeds exactly when the target verifies in place, or an archive from the world or an earlier run unpacks and verifies, with space for a download not yet begun; the target is then installed or unpacked, and verified |
| Updater.InstallRoot.Activate | scripts/updater.py:945-978 | the version pointer ends on the target with the old version behind it, and the rollback target is recorded before |
| Updater.InstallRoot.RollbackAfterActivationFailure | scripts/updater.py:981-1007 | the version pointer goes back to the recorded version exactly when that exists and answers, otherwise it is removed |
| Updater.InstallRoot.HealthAndCommit | scripts/updater.py:1010-1024 | commits exactly when the new version answers, and is rolled back otherwise; nothing stays staged, and a commit ends with a collection |
| Updater.InstallRoot.GcVersions | scripts/updater.py:795-847 | keeps exactly the versions named by either end of current.json, the directories of updates under way and what is in use |
| Updater.InstallRoot.CmdUpdate | scripts/updater.py:1185-1287 | the outcome is decided by what the run finds (Verdict), and each outcome fixes where it ends (EndsAs): a failed run never moved the version pointer and is recorded as failed; a successful one ends on its verified and probed target, with no version kept that is neither wanted nor in use; a rolled-back one where its transaction recorded; one waiting for review left the version pointer alone or has the new version live; other updates under way have failed, all else is as before; after any interruption a run in a helpful world completes the update or rolls it back |
| Updater.InstallRoot.ResumeUnderAnotherVersion | scripts/updater.py:1185-1287 | through the commands: an update interrupted after its transaction file, repeated under another version string, leaves a previous version that does not exist |
| Updater.InstallRoot.CmdRollback | scripts/updater.py:1290-1340 | switches exactly when a previous version is recorded, exists and answers, swaps both ends and records a committed rollback; otherwise nothing changes |
| Updater.InstallRoot.CmdGc | scripts/updater.py:1343-1358 | keeps exactly what is wanted or in use; neither end of the version pointer is collected |
| Installer.BuildPlan | scripts/install_plan.py:268-320 | the loop over the merged key set computes the plan |
| Installer.PlanDecides | scripts/install_plan.py:281-319 | every step is the decision of the table for its path |
| Installer.PlanOnce | scripts/install_plan.py:268-320 | no path is decided twice |
| Installer.BaselineOrder | scripts/install_plan.py:539-569 | an explicit manifest goes before the recorded one, that before the flat one, and the flat one does not count when the package is the installation |
| Installer.CompletedUpgrade | scripts/install_plan.py:268-383 | a completed run leaves on every path exactly the upgraded entry, whatever order the paths were taken in |
| Installer.BackupHolds | scripts/install_plan.py:281-351 | after a completed run the backup holds, with its content, exactly each file that was replaced or retired or is in conflict on a path of the new release |
| Installer.RerunCompletes | scripts/install_plan.py:268-383 | an interrupted run followed by a completed one leaves on every path what the first run aimed at |
| Installer.OwnedByUserStays | scripts/install_plan.py:268-383 | interrupted anywhere, a run leaves content the baseline does not vouch for, links and directories on their path |
| Installer.NothingIsLost | scripts/install_plan.py:345-383 | interrupted anywhere, every content is still on its path or in the backup of the run |
| Installer.SameReleaseIsQuiet | scripts/install_plan.py:268-320 | planning the recorded release again gives only steps that write nothing |
| Installer.SecondUpgradeIsQuiet | scripts/install_plan.py:588-619 | a second upgrade event to the same release, whatever baseline the first one had, writes nothing, interrupted or not |
| Installer.UserFilesStay | scripts/install_plan.py:268-481 | over any sequence of upgrades with edits in between, complete or cut anywhere, between the two writes of the record too, files of the user are never overwritten or deleted |
| Installer.ContentSurvives | scripts/install_plan.py:330-481 | over any such sequence every content is still on its path or in the backup of some run, unless the user edited the path |
| Installer.DeletedStaysDeleted | scripts/install_plan.py:298-301 | an official file the user deleted is not brought back while every release contains it |
| Installer.ConflictsReported | scripts/install_plan.py:367-372 | the reported conflicts are exactly the links, the directories in the way and the listed files the baseline does not vouch for |
| Installer.ConflictKinds | scripts/install_plan.py:281-319 | each conflict is reported under its kind: link, directory, unknown file in the way, modified file, modified file of a retired path |
| Installer.RerunReports | scripts/install_plan.py:367-372 | a run repeating an interrupted one reports exactly the conflicts of the first run and the files that run had changed to something the old release did not have |
| Installer.RerunReportsItsOwnWork | scripts/install_plan.py:345-383 | an upgrade over a recorded baseline, cut after its first file: that file was no conflict before, and every run that follows reports it |
| Installer.Installation.ApplyPlan | scripts/install_plan.py:345-383 | the loop performs the steps in order, keeps the backups, and stops at a missing source file |
| Installer.Installation.Apply | scripts/install_plan.py:588-619 | the whole command is one upgrade event of the histories; without a baseline and with files in the way it changes nothing |
| Goals.ValidateGoals | scripts/validate_trajectory_v3.py:1032-1061 | the loop computes the problem count of the replay |
| Goals.CleanIffWellRun | scripts/validate_trajectory_v3.py:1032-1061 | a log raises no goal problem if and only if revisions run without gaps, nothing follows a terminal entry and no prefix leaves two goals unfinished |
| Goals.ProblemsAreCounted | scripts/validate_trajectory_v3.py:1032-1061 | on any log the problems are exactly the late entries, the gaps and the clashes with another open goal, after the first problem too |
| Trajectory.ValidateFile | scripts/validate_trajectory_v3.py:1102-1144 | the loop computes the verdict and the text written back, in both modes |
| Trajectory.AcceptedMeans | scripts/validate_trajectory_v3.py:1102-1144 | an accepted file is a gapless hash chain whose contexts are clean and whose goals are well run at every prefix |
| Trajectory.AcceptedIff | scripts/validate_trajectory_v3.py:1102-1144 | a file is accepted if and only if its lines that are not blank parse, form a sealed gapless chain, have clean contexts unless they are a workflow ledger, well-run goals and no other problem |
| Trajectory.AcceptedContexts | scripts/validate_trajectory_v3.py:932-1021 | in an accepted file other than a workflow ledger the last context is a path, and any earlier one exactly when it was opened linked and repeats no message |
| Trajectory.ChainsAgree | scripts/validate_trajectory_v3.py:193-196 | equal hashes anywhere in two chains mean equal positions and equal histories |
| Trajectory.LastHashDecides | scripts/validate_trajectory_v3.py:1102-1144 | two accepted files with the same last line hash are equal line for line |
| Trajectory.RehashRoundTrip | scripts/validate_trajectory_v3.py:1102-1144 | a rehashed file is accepted and a fixed point if and only if no line of the file it came from holds U+0085, U+2028 or U+2029, however escaped; otherwise both runs crash |
| JsonLines.QuotingIsFaithful | scripts/validate_trajectory_v3.py:188-190 | a form of lines as quoted strings meets everything that is asked of JSON |
| JsonLines.RehashCanBreakAFile | scripts/validate_trajectory_v3.py:1102-1144 | a one-line file that rehashing accepts and writes so that neither the strict check nor a second rehash can read it |
| ContextChain.ValidateChainNodes | scripts/validate_trajectory_v3.py:916-930 | accepts exactly the simple paths from a root |
| ContextChain.ReplayContext | scripts/validate_trajectory_v3.py:964-1021 | the replay counts the problems of all its checks, each on the list as the appends have left it, and is clean exactly when there is none |
| ContextChain.ProblemsAreFaults | scripts/validate_trajectory_v3.py:964-1021 | the problems are exactly the reductions to no path, the nodes that do not continue the context, a last context that is no path, and the identified compactions that are none |
| ContextChain.ReductionsArePaths | scripts/validate_trajectory_v3.py:976-984 | in a clean log every reduction opens with a path |
| ContextChain.ContextIsPathIff | scripts/validate_trajectory_v3.py:964-1021 | in a clean log the context is the list last opened and what was appended since, and is a path if and only if that list is linked and no message stands twice in the two |
| ContextChain.AllContextsArePathsIff | scripts/validate_trajectory_v3.py:964-1021 | all contexts of a clean log are paths if and only if every list, as it stands at the end, is one |
| ContextChain.ContextsArePaths | scripts/validate_trajectory_v3.py:964-1021 | in a clean log every context of the last list and of an identified compaction is a path |
| ContextChain.UncheckedContext | scripts/validate_trajectory_v3.py:964-999 | for every opener but an identified compaction, reductions included, there is a clean log that starts with it and passes through a context that is no path |
| Intervals.MergeRanges | scripts/gen_unicode_tables.py:81-88 | the loop computes the merge |
| Intervals.MergeMeans | scripts/gen_unicode_tables.py:81-88 | the merge is sorted, has gaps between neighbours and covers the same points |
| Intervals.CanonicalIsUnique | scripts/gen_unicode_tables.py:81-88 | there is only one such list for a set of points |
| Intervals.MergeDecidesPoints | scripts/gen_unicode_tables.py:81-88 | two lists merge to the same table if and only if they cover the same points |
| Intervals.SubtractRanges | scripts/gen_unicode_tables.py:112-125 | the nested loops compute the subtraction |
| Intervals.SubtractIsDifference | scripts/gen_unicode_tables.py:112-125 | subtracting an orderly list leaves exactly the set difference, in canonical form |
| Intervals.ExactIffOrderly | scripts/gen_unicode_tables.py:112-125 | subtracting a list is exact for every argument if and only if the list is orderly |
| Intervals.DisorderedTable | scripts/gen_unicode_tables.py:112-125 | subtracting the points 5 and 1, in this order, from the range 1 to 5 leaves more than the difference |
| Intervals.SortedIsOrderly | scripts/gen_unicode_tables.py:112-125 | every sorted list is orderly |
| Intervals.DiffTables | scripts/gen_unicode_tables.py:128-134 | the report lists as only old and only new exactly the ranges of both differences, and for sorted tables is empty if and only if they cover the same points |
| UsageAggregate.UsageTotals.Add | src/accounting/usage_aggregate.cpp:31-55 | adding a sample adds its share to every counter |
| UsageAggregate.ObserveCache | src/accounting/usage_aggregate.cpp:139-172 | the observation of one sample depends on its own run only |
| UsageAggregate.AggregateUsage | src/accounting/usage_aggregate.cpp:74-184 | the loop computes the aggregate and lists the runs in order of appearance |
| UsageCounts.TotalsAreCounts | src/accounting/usage_aggregate.cpp:31-55 | every counter of the totals is the number of samples, or the sum over the samples, that its name says |
| UsageCounts.RowsAreCounts | src/accounting/usage_aggregate.cpp:74-110 | so is every counter of every row, over the samples with its label |
| UsageCounts.LabelsMean | src/accounting/usage_aggregate.cpp:86-110 | a sample is in the row of its purpose, run kind and outcome, in the row unknown or unclosed when it has none |
| UsageCounts.SameModelRow | src/accounting/usage_aggregate.cpp:86-110 | samples share a model row if and only if model and provider agree, no provider being the same as unknown |
| UsageCounts.EpochRowsAreCounts | src/accounting/usage_aggregate.cpp:111-133 | the row of a run and a cache epoch counts its samples, and their cache numbers where the provider reported them and nothing is wrong |
| UsageCounts.MarksAreCounts | src/accounting/usage_aggregate.cpp:94-123 | legacy, incomplete and anomalous samples are counted one by one |
| CacheWatch.CacheIsCounted | src/accounting/usage_aggregate.cpp:139-172 | rebuilds, breaks, suspicious misses and unlabelled requests are counted exactly where the samples of one run show them: another epoch than the last one named, a prefix not appended to, no cache read after one in the same unchanged epoch |
| UsageAggregate.OrderOfRunsIsFree | src/accounting/usage_aggregate.cpp:74-184 | any reordering that keeps each run's own order gives the same aggregate, the cache observations included |
| UsageAggregate.SumsIgnoreOrder | src/accounting/usage_aggregate.cpp:74-184 | totals, breakdown rows, cache-epoch rows and marks are the same for every order of the samples |
| UsageAggregate.OrderWithinRunMatters | src/accounting/usage_aggregate.cpp:156-172 | within a run the order does matter: a request without a cache hit counts as a miss only after one with a hit |
| UsageAggregate.RowsAddUpToTotals | src/accounting/usage_aggregate.cpp:31-55 | for each breakdown the rows, in any listing of their labels, add up to the totals |
| UsageAggregate.EpochRowsAddUp | src/accounting/usage_aggregate.cpp:111-133 | the cache-epoch rows add up to the totals, and their reported and unknown requests to all requests |
| UsageAggregate.EveryRequestCounts | src/accounting/usage_aggregate.cpp:31-55 | every request is counted once, with or without usage |
| UsageAggregate.OutcomesAgree | src/accounting/usage_aggregate.cpp:36-37 | the outcome counts of the totals are those of the outcome rows |
| UsageAggregate.RunIdsListRuns | src/accounting/usage_aggregate.cpp:135-137 | the listed runs are those the samples come from, each once |
| UsageAggregate.RatioPercent | src/accounting/usage_aggregate.cpp:10-17 | the ratio is the nearest percentage, halves up, and between 0 and 100 for a true part |
| UsageAggregate.CacheReadRatio | src/accounting/usage_aggregate.cpp:57-63 | a ratio exists exactly when some usage with tokens was reported, and lies between 0 and 100 when no count is negative |
| UsageProjector.IndexEvents | src/accounting/usage_projector.cpp:352-416 | one pass finds for every request its last preparation and last outcome, and the sent requests in order |
| UsageProjector.ProjectV3Usage | src/accounting/usage_projector.cpp:347-546 | the three passes compute the projection |
| UsageProjector.SamplesDiffer | src/accounting/usage_projector.cpp:456-546 | no two samples are about the same request |
| UsageProjector.SamplesCover | src/accounting/usage_projector.cpp:456-546 | the requests with a sample are exactly those with an assistant message and those that were sent |
| UsageProjector.SamplesAreSound | src/accounting/usage_projector.cpp:418-546 | each sample carries the last outcome, is marked incomplete exactly when a link is missing, and has totals that agree with its usage |
| UsageSamples.SamplesMean | src/accounting/usage_projector.cpp:418-546 | every sample is that of the first assistant message of its request, with the counts under their own names and provider, wire and model its own or the prepared ones, or of a request sent without one |
| UsageSamples.PurposesMean | src/accounting/usage_projector.cpp:333-351 | a purpose is mapped to the one that bears its name, for the agent that runs, and to nothing when there is none |
| UsageSamples.OutcomeMeans | src/accounting/usage_projector.cpp:356-392 | the outcome of a request is what its last closing event says |
| UsageSamples.PreparedMeans | src/accounting/usage_projector.cpp:356-366 | the prepared request is the one of its last preparation |
| UsageSamples.WarningsMean | src/accounting/usage_projector.cpp:347-546 | the warnings are exactly: appended usage observed, a second assistant message for a request, a completed request without one, a purpose without a counterpart, a missing preparation |
| UsageProjector.TokensCountOnce | src/accounting/usage_projector.cpp:456-504 | field by field, the tokens of all samples are the integers that the first owner of each request gives under that field |
| UsageProjector.AppendedUsageIsNotCounted | src/accounting/usage_projector.cpp:391-411 | deleting every appended-usage event leaves the samples unchanged |
| Cost.CheckedMul | src/accounting/cost_estimator.cpp:10-16 | gives the product exactly when it fits 64 bits |
| Cost.CheckedAdd | src/accounting/cost_estimator.cpp:19-25 | gives the sum exactly when it fits 64 bits |
| Cost.PriceSplits | src/accounting/cost_estimator.cpp:34-38 | the three split products add up to the exact price rounded down |
| Cost.TryMultiplyTokensByMicrosPrice | src/accounting/cost_estimator.cpp:29-56 | the exact rounded-down price when it fits 64 bits and nothing otherwise, with every intermediate value inside 64 bits |
| Cost.EstimateCost | src/accounting/cost_estimator.cpp:58-96 | overflow exactly when the true four-bucket sum exceeds 64 bits, the exact sum otherwise, and not priced without a price |
| Base64.DecodeBase64Strict | src/agent/model_image_store.cpp:69-124 | accepts exactly the padded standard-alphabet texts (section 4 of RFC 4648) that decode to at most the limit, and names the first flaw of the others |
| Base64.DecodeEncode | src/agent/model_image_store.cpp:69-124 | the encoding of any bytes is accepted and decodes to them, and the limit counts exactly those bytes |
| Base64.EncodeDecode | src/agent/model_image_store.cpp:69-124 | encoding what was decoded gives the text back if and only if its unused bits are zero |
| Base64.TwoTextsForOneByte | src/agent/model_image_store.cpp:69-124 | two accepted texts that decode to the same byte, of which one is its encoding |

## Left out

- Shrink.CutFits: the fit of rich results is not stated, because what is estimated is their projection to text, an arbitrary function here; `Shrink.Cut` says that they are in line or cannot be reduced, `Shrink.CutKeepsTheRest` what a cut changes.
- Shrink.ShrinkOversizedToolResults: image tokens are a fixed number of each image, and the fields of a result that only the host reads are omitted.
- RequestRuns.SentPrefixIsKept: the epoch ends with ReplaceHistory, and the window and the options are fixed in it.
- ContextManager.ContextManager.ReplaceHistory: the prefix fingerprint and the wire dump it resets are not part of this model, nor is AccountRequest, whose comparison is made elsewhere.
- Compress.BuildEventLedger: tool inputs hold strings, integers and other values; the text of a number outside 64 bits is not modelled.
- Transactions.RunsStaySafe: the lock takeover, the files moved by the flat-launcher handover, the install state file and the updater tree are not part of the disk.
- Updater.InstallRoot.GcVersions: the rescue of files nobody listed, before a directory goes, is left out; a transaction waiting for review does not protect its directory, as in the code.
- Updater.InstallRoot.Obtain: download, resumption of a partial download, unpacking and the disk check are answers of the world.
- Updater.InstallRoot.Activate: moving the flat program aside is an answer of the world (done, locked, overlapping).
- Installer.Installation.Apply: the allow-unknown-replace mode, the full backup made before a refusal, removal of emptied parent directories and unreadable files are left out.
- Installer.BuildPlan: paths are taken in the order of a listing instead of the sorted one; the results hold for every order.
- Trajectory.ValidateFile: the checks of single fields are one flag of a line, and the semantic checks other than goals and contexts are one function of the lines.
- ContextChain.ReplayContext: the first-line check, the terminal events of compactions and the rules of workflow ledgers are among the other checks of `Trajectory.ValidateFile`.
- Intervals.DiffTables: the wording of the report lines is left out; parsing and formatting of tables too.
- UsageAggregate.AggregateUsage: counters are unbounded integers, rows are values of a map rather than objects, the sorting of rows by label and the JSON form are left out.
- UsageProjector.ProjectV3Usage: session, run and source references copied into every sample are left out, and a warning holds the observed fields instead of a text.
- Cost.EstimateCost: the effective date of a table is a flag of the call, and the currency and table name copied to the result are left out.
- Base64.DecodeBase64Strict: the limit is unbounded, so the sum of the limit and two does not wrap; joining disjoint bits is addition.
- The first and second version of the usage projection (src/accounting/usage_projector.cpp:32-297) are left out: the same kind of result as the third with more cases.
- Price parsing, image sniffing and dimension readers, the console, the sidecar and the clients are left out.
