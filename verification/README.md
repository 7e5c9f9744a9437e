# RKC protocols and algorithms, modelled and proved in Dafny

RKC turns a repository into a published atlas of evidence.  This project models
the parts of it whose correctness does not show in any one function:

- **Protected execution** (`Monitor`, `Admission`, `GoFlag`, `LaunchTree`): the
  work and monitor goroutines with their one-slot channel, the hand-written
  preflight of argument vectors against the documented syntax of Go's `flag`
  package, and the environment that stops a guarded child from launching again.
- **Argument vectors** (`Segments`, `ArgumentVectors`, `ArgumentRoundTrips`,
  `ArgumentChain`, `CommandChain`, `ConfigDiscovery`): open prints quickstart's
  arguments, quickstart prints scan's, and what is printed must parse back.
- **Publication over a namespace** (`PublishDirectory`, `PublishRace`,
  `AssetFetch`, `QualityPublication`): one system call per step, any of which
  may fail, with processes that interleave and stop anywhere.
- **The snapshot store** (`SnapshotStore`, `SnapshotGuards`): the tables, foreign keys, checks and
  triggers of the SQLite migrations as a state machine over statements.
- **Coverage accounting** (`GoProfile`, `GoSources`, `CoverageGate`,
  `QualityProfile`, `GateVerdict`): the names a profile may use for a file, two
  independent parsers of one format, the merged profile both read, and the
  thresholds.
- **Smaller cores** (`StressFill`, `ClaimResponse`, `Streaming`, `Extraction`,
  `ShellQuoting`, `ConfigIdentity`; `Text` and `Ordering` hold shared string
  operations).

Loops, accumulators and objects with fields are methods and classes proved
against a function or a predicate; the protocols are step relations over a
shared state, and their theorems speak of every run.

`dafny verify dfyconfig.toml` checks the whole project.

## Where the code differs from what one would expect

- A check that fails after the work has completed is not reported, but a tick
  channel found closed is.  The shipped ticker never closes its channel, so this
  needs an injected tick source that does
  (`Monitor.LateReportsNeedAClosingTicker`, both directions).
- Work that ends by itself can still be returned as failed, with any ticker, if it
  ends between the monitor's test and its send (`Monitor.EndedWorkMayFail`; when
  exactly a failure is returned, `Monitor.FailureIsReturnedIff`).
- Scan searches its raw arguments for `--config` and `--runs-dir` without knowing
  which tokens are values, so a list value can be taken for a configuration
  (`ConfigDiscovery.IndexPathTakenForConfig`, exact condition in
  `ConfigDiscovery.UnsetConfigStaysUnset`) or move the run journal (exact
  condition in `ConfigDiscovery.JournalStaysIff`).
- A process started as a direct child carries no open marker: asked to open, it
  launches once more (`LaunchTree.DirectThenOpenLaunchesTwice`; nothing else
  does, `LaunchTree.GuardedChildStartsIff`).
- `publish` can raise with the generation in place and no failed rollback, when
  closing a descriptor fails after success; the last clause of
  `PublishDirectory.Namespace.Publish` is the exact condition.
- Two publishers of one destination: a rollback exchanges whatever the two names
  mean by then, and can take a returned generation down
  (`PublishRace.RollbackCanUnpublishAnother`).  For publishers with staged trees
  of their own, this is excluded exactly when no two share a destination
  (`PublishRace.RollbacksRestoreIff`); in a given run a rollback restores exactly
  when the changes since the rename lead back (`PublishRace.RollbackRestoresIff`),
  as they do when nobody else touches the two names in between
  (`PublishRace.UndisturbedRollbackRestores`).
- Two writers of the quality artifact can both return and leave it invalid
  (`QualityPublication.BothReturnAndItIsInvalid`), exactly when they publish
  different payloads (`QualityPublication.ReturnsLeaveItValidIff`); writers that
  replace one after another keep it valid
  (`QualityPublication.SerialWritersKeepItValid`), and it is never valid and
  mixed (`QualityPublication.ValidMeansOneGeneration`).
- A stress target that only the largest padding reaches exactly is refused
  (`Reachable` in `StressFill`).
- A claim whose category is a list or an object raises a TypeError instead of
  being reported (`ClaimResponse.ReadClaims`).
- The quality index drops blocks with a zero coordinate, which the gate keeps
  (exact condition in `QualityProfile.IndexTotalsAreTheGates`), and does not find
  a source path that starts with a dot (`QualityProfile.PathResolvesToItselfIff`).

## Model

| member | source | states |
|---|---|---|
| Monitor.StepKeepsInv | cmd/rkc/direct_admission.go:177-231 | every action of either goroutine, any tick, any failing check and any cancellation keeps the protocol's invariant |
| Monitor.WorkIsNeverUnwatched | cmd/rkc/direct_admission.go:177-231 | in every reachable state, work under a live context implies the monitor has not returned; a monitor that returned a failure has cancelled the context |
| Monitor.ExactlyOneReport | cmd/rkc/direct_admission.go:177-231 | the send never blocks, happens at most once, and a caller that has returned holds exactly the report that the monitor was sending |
| Monitor.ReportedFailurePrecedesCompletion | cmd/rkc/direct_admission.go:233-254 | a failed check that is reported was seen to fail before the work had finished |
| Monitor.OpenTicksReportInTime | cmd/rkc/direct_admission.go:189-209 | while the tick channel is open, every carried failure, a stopped ticker included, was found before the work had finished |
| Monitor.ClosedTicksMayReportLate | cmd/rkc/direct_admission.go:195-199 | from any reachable state with closed ticks, finished work and the monitor selecting, some continuation makes the caller return the ticker's failure |
| Monitor.LateReportsNeedAClosingTicker | cmd/rkc/direct_admission.go:139-146 | a failure that is found after the work has completed can be reported iff the tick source can close its channel; the shipped one cannot |
| Monitor.FailureIsReturnedIff | cmd/rkc/direct_admission.go:233-254 | in every run, the caller returns a failure iff the monitor took it up: its test preceded the close of the completion channel, or the select picked a closed tick channel; how the work ended makes no difference |
| Monitor.EndedWorkMayFail | cmd/rkc/direct_admission.go:245-254 | so even with a ticker that never closes some run returns a failure for work that ended by itself under a live context: it ends between the monitor's test and its send |
| Monitor.EachCheckCanFail | cmd/rkc/direct_admission.go:200-231 | each of the three checks can fail first, under a live context and with a ticker that never closes, and the caller then returns exactly its failure |
| Monitor.NoTickSkipsACheck | cmd/rkc/direct_admission.go:200-231 | in every run, between taking a tick and selecting again each of the three checks was made and passed: priority, then memory, then the envelope |
| Monitor.SelectMovesIff | cmd/rkc/direct_admission.go:187-199 | out of the select lead exactly the moves whose channel is ready, and any of them |
| Monitor.CheckMovesIff | cmd/rkc/direct_admission.go:200-254 | a check passes to the next one or fails at any time, and a failure is taken up iff the work is unfinished at the test |
| Monitor.CancelledParentEndsTheWatch | cmd/rkc/direct_admission.go:192-194 | from any reachable state, once the parent cancels the monitor can end its watch with nothing to report while the work runs |
| Monitor.NeverStuck | cmd/rkc/direct_admission.go:177-231 | until the caller returns, one of the two goroutines can always move |
| Monitor.EveryStepMakesProgress | cmd/rkc/direct_admission.go:177-231 | once the ticker has stopped, every step of any schedule decreases a measure |
| Monitor.RunsEndAfterTickerStops | cmd/rkc/direct_admission.go:177-231 | so every run after that is at most that measure long |
| Admission.ReadFlagAgrees | cmd/rkc/direct_admission.go:504-517 | the hand-written flag reader classifies every token as Go's flag syntax does, except that malformed tokens are no flag |
| Admission.ValidateDirectCommandAdmission | cmd/rkc/direct_admission.go:392-502 | the index loop over the argument vector computes the recursive verdict that the lemmas below judge |
| Admission.TablesMirrorRegistrations | cmd/rkc/direct_admission.go:326-390 | for each direct command the admission tables and the flag registrations accept the same names with the same arity |
| Admission.PreflightAgrees | cmd/rkc/direct_admission.go:392-502 | on every vector the preflight and the flag parser walk in step: same structural failures, same final safety values |
| Admission.ScanAdmissionIsExact | cmd/rkc/direct_admission.go:490-497 | whenever the flag parse succeeds, scan is admitted iff the last explicit no-python or no-plugins is true |
| Admission.QuickstartAdmissionIsExact | cmd/rkc/direct_admission.go:498-502 | whenever the flag parse succeeds, quickstart is admitted iff the final value of python is false |
| Admission.HelpMeansTheParseFails | cmd/rkc/direct_admission.go:434-465 | a help verdict or a structural rejection implies the flag parse fails, and every help request is recognised |
| Admission.OtherCommandsAreAdmitted | cmd/rkc/direct_admission.go:392-502 | the commands without a Python switch are admitted on every vector their own parser accepts |
| Admission.SubcommandIsRequired | cmd/rkc/direct_admission.go:392-433 | exactly six commands are supported, and exactly three are refused without their subcommand |
| Segments.RenderedVectorParsesBack | cmd/rkc/open.go:129-158 | any sequence of printed flags and values parses back to itself, whatever the values look like |
| ArgumentVectors.ParsedListIsValid | cmd/rkc/support.go:26-33 | a parsed list holds only trimmed, non-blank entries, which is what makes re-parsing them harmless |
| Text.TrimSpaceCuts | cmd/rkc/support.go:26-33 | trimming cuts white space off both ends, all of it and nothing else |
| ArgumentVectors.ParsedOptionsAreValid | cmd/rkc/support.go:26-33 | every options record that quickstart's parser yields meets the assumption of the round trip |
| ArgumentVectors.BuildScanArguments | cmd/rkc/quickstart.go:86-126 | the conditional appends of quickstart build exactly the specified vector |
| ArgumentVectors.BuildQuickstartArguments | cmd/rkc/open.go:129-158 | the conditional appends of open build exactly the specified vector |
| ArgumentRoundTrips.ScanVectorParses | cmd/rkc/quickstart.go:86-126 | quickstart's vector always parses under scan's flags, with the repository as its one operand |
| ArgumentRoundTrips.ScanVectorReparses | cmd/rkc/quickstart.go:86-126 | and leaves every flag with exactly the value that was asked for over scan's default |
| ArgumentChain.OpenVectorReparses | cmd/rkc/open.go:129-158 | open's vector parses under quickstart's flags to the same options, for all option values |
| ArgumentChain.OpenReachesScan | cmd/rkc/open.go:129-158 | end to end: what open was asked for is what scan is told, flag by flag, through two printers and two parsers |
| ArgumentChain.ParsedOpenIsValid | cmd/rkc/open.go:51-70 | every options record that open's parser yields meets the assumption of the round trip |
| ArgumentChain.PrintedVectorsAreAdmitted | cmd/rkc/quickstart.go:86-126 | the printed vectors pass scan's and quickstart's admission iff Python was not asked for |
| CommandChain.RunQuickstart | cmd/rkc/quickstart.go:29-126 | the command from its arguments to the call of scan, with its resolved paths, is the specified call |
| CommandChain.RunOpen | cmd/rkc/open.go:72-158 | the command from its arguments to the call of quickstart is the specified call |
| CommandChain.PathsAsGiven | cmd/rkc/quickstart.go:57-75 | the root is the given repository or else the working directory, and a path is the given one or else lies below the root |
| CommandChain.CallsGoThroughIff | cmd/rkc/open.go:72-100 | quickstart calls scan iff its arguments parse with at most one operand; open calls quickstart iff, besides, Python is not asked for and nothing else is refused |
| CommandChain.QuickstartCommandReachesScan | cmd/rkc/quickstart.go:29-126 | by the literal flag names: scan reads every flag exactly as the user gave it to quickstart, over scan's own defaults, with the repository as its operand and both paths resolved |
| CommandChain.OpenCommandReachesScan | cmd/rkc/open.go:51-158 | end to end, by the literal flag names: whatever arguments open could parse, scan reads every flag exactly as the user gave it to open, through two printers and three parsers; Python is off |
| ConfigDiscovery.DiscoverFlagValue | cmd/rkc/scan.go:822-833 | the raw search for a flag returns the first match, for any flag; it does not tell an empty value from none |
| ConfigDiscovery.DiscoverExplicitFlagValue | cmd/rkc/runs.go:77-91 | the explicit search returns the first match and whether there is one, for any flag |
| ConfigDiscovery.LoadedIffBothAgree | cmd/rkc/scan.go:45-118 | a configuration is loaded iff the parse succeeds and its --config agrees with the search; a second, different one is refused |
| ConfigDiscovery.AskedConfigIsLoaded | cmd/rkc/scan.go:45-58 | a configuration that was asked for is the one scan loads, whatever the other values look like |
| ConfigDiscovery.DiscoveredConfigIsLoaded | cmd/rkc/scan.go:45-58 | with none asked for, the vector is never refused and scan loads what its search found |
| ConfigDiscovery.UnsetConfigStaysUnset | cmd/rkc/scan.go:45-58 | which is none iff the first user value that reads like --config, if there is one, is a bare `--config=`; if it is `--config=x`, scan loads x |
| ConfigDiscovery.IndexPathTakenForConfig | cmd/rkc/scan.go:822-833 | the concrete failing input: with the index path `--config=x` scan loads the configuration x |
| ConfigDiscovery.JournalStaysIff | cmd/rkc/scan.go:50-59 | the run journal stays in the standard directory, whatever that is, iff no user value reads like --runs-dir; if the first that does is `--runs-dir=x`, it goes to x, even if x is empty |
| LaunchTree.ResourceGuardEnvironment | internal/resourceguard/guard.go:650-690 | the guard's allowlist filter yields the sorted entries of exactly the allowed variables |
| LaunchTree.GuardedOpenEnvironment | cmd/rkc/open_admission.go:299-352 | the three filling loops and the sort yield exactly the specified environment |
| LaunchTree.ChildSeesOnlyThat | cmd/rkc/open_admission.go:299-345 | by variable: a child sees its limits and marker, the readiness file if there is one, the allowed variables, and nothing else |
| LaunchTree.OneWorkerEach | cmd/rkc/open_admission.go:328-334 | the marker and each runtime's worker variable are 1, by their literal names |
| LaunchTree.NoAccelerator | cmd/rkc/open_admission.go:335-340 | builds are serial and each accelerator variable is -1, by their literal names |
| LaunchTree.GuardedDirectEnvironment | cmd/rkc/direct_admission.go:312-324 | the filter loop and the append yield exactly the specified entries, sorted |
| LaunchTree.DirectChildMarkers | cmd/rkc/direct_admission.go:312-324 | of a direct child's entries exactly one names the direct marker, it equals the command, and none names the open marker |
| LaunchTree.DirectChildSees | cmd/rkc/direct_admission.go:312-324 | started with those entries alone, a direct child reads exactly the allowed values and its marker |
| LaunchTree.OpenChildSees | cmd/rkc/open_admission.go:299-352 | likewise for an open child |
| LaunchTree.UnprotectedOnlyForHelp | cmd/rkc/direct_admission.go:78-87 | the unprotected local path is taken iff help was asked for or the platform is not Linux (after admission) |
| LaunchTree.ProtectedOnlyWhereSafe | cmd/rkc/direct_admission.go:82-103 | for all environments and findings: protected work runs iff the request is sound, the marker is not another command's, and the process is marked and (where checked) enveloped, or unmarked and prepared |
| LaunchTree.LaunchesIff | cmd/rkc/direct_admission.go:99-111 | a request launches iff it is sound, unmarked and unprepared (open does not try to prepare) |
| LaunchTree.RefusedIff | cmd/rkc/direct_admission.go:82-98 | refused are exactly rejected arguments, a marker of another command, and a marked process outside the envelope it is checked against |
| LaunchTree.ChildDoesItsRequest | cmd/rkc/direct_admission.go:82-98 | a started child does its own request if its envelope is in place, and refuses every other direct command |
| LaunchTree.ChildMarkers | cmd/rkc/direct_admission.go:88-99 | every child that may be started carries the marker of what started it, whatever resource profile is selected |
| LaunchTree.GuardedChildStartsIff | cmd/rkc/direct_admission.go:88-112 | a guarded child can start another child iff it is a direct child that is asked to open (and not for help) |
| LaunchTree.DirectThenOpenLaunchesTwice | cmd/rkc/direct_admission.go:88-112 | from any environment without markers and any admitted command there is a path of two launches: the direct child, asked to open, launches again |
| LaunchTree.LaunchDepth | cmd/rkc/direct_admission.go:61-112 | every path of direct commands is at most one launch deep, no path is deeper than two, and a path of two is direct-then-open |
| PublishDirectory.Namespace.RollbackPublication | scripts/publish_directory.py:74-100 | a rollback puts both names back exactly, unless its own rename fails |
| PublishDirectory.Namespace.Publish | scripts/publish_directory.py:137-232 | under every combination of failing calls: every state a crash could leave is the old or the published one, the outcome and the stage it names are exact, and a raising call has published iff the stated faults occurred |
| PublishDirectory.RollbackUndoes | scripts/publish_directory.py:74-100 | undoing either rename gives back the namespace |
| PublishDirectory.DestinationIsAlwaysComplete | scripts/publish_directory.py:180-228 | in the old and in the published namespace the destination is one whole tree, absent only if it was |
| PublishDirectory.FailedCloseStillPublishes | scripts/publish_directory.py:228-231 | a concrete run: closing a descriptor fails after success, so the call raises although the generation is published |
| PublishRace.TreesAreConserved | scripts/publish_directory.py:180-228 | over every interleaving of publishers, rollbacks and crashes the same trees keep one name each |
| PublishRace.DestinationNeverVanishes | scripts/publish_directory.py:180-228 | a destination that exists is bound in every later state of every interleaving |
| PublishRace.PublisherCanPublish | scripts/publish_directory.py:180-228 | in any state a publisher about to start can, by three steps of its own, publish and return |
| PublishRace.PublisherMayStop | scripts/publish_directory.py:180-228 | until it has returned it can stop at any moment, leaving the namespace as it is |
| PublishRace.RollbackRestoresIff | scripts/publish_directory.py:74-100 | for every run: a rollback puts both names back iff the changes made since the rename, followed in their order, lead the renamed trees back to where the rename put them |
| PublishRace.UndisturbedRollbackRestores | scripts/publish_directory.py:74-100 | for every run: if no publisher of the same source or destination changes a name between rename and rollback, both names are as before the rename, for a created and for a replaced destination |
| PublishRace.RollbackCanUnpublishAnother | scripts/publish_directory.py:211-227 | from any start, two publishers of one destination have a run in which the second has returned and the first one's rollback takes its generation down |
| PublishRace.RollbacksRestoreIff | scripts/publish_directory.py:211-227 | for publishers with staged trees of their own: all rollbacks of all runs restore iff no two share a destination |
| Streaming.HashStream | scripts/bootstrap_llama_cpp.py:105-121 | the hashing loop digests the whole stream within the limit, stops only for the stated reasons, and never lets RECHECK bytes and one more chunk go by unchecked |
| AssetFetch.OpenFile.WriteAll | scripts/model_assets.py:999-1005 | partial writes store a prefix, all of it on success |
| AssetFetch.OpenFile.Download | scripts/model_assets.py:1046-1070 | the download loop succeeds only with the locked size and digest stored (and, if no call fails, exactly then), never stores more than the locked size, and is watched |
| AssetFetch.VerifyOpenAsset | scripts/model_assets.py:890-926 | verification passes only the locked bytes and, if it is not pre-empted, always passes them |
| AssetFetch.OwnStepKeeps | scripts/model_assets.py:1096-1165 | each system call of a fetcher keeps its own invariant and respects what the others rely on |
| AssetFetch.OthersAreUndisturbed | scripts/model_assets.py:1096-1165 | such a step leaves every other fetcher's invariant intact |
| AssetFetch.StepKeepsInv | scripts/model_assets.py:1096-1165 | so any step of any fetcher keeps the global invariant |
| AssetFetch.NameIsNeverWrongNorRebound | scripts/model_assets.py:1129-1151 | from an absent or good entry, over any run of any number of fetchers, the asset name is only bound to the locked bytes and never rebound or changed |
| AssetFetch.ReturnFollowsVerification | scripts/model_assets.py:929-957 | a fetcher returns only by a verification that has read every byte of the file the name means |
| AssetFetch.VerificationNeverMisfires | scripts/model_assets.py:929-957 | a verification that reaches the end of the file always passes, however many fetchers run |
| AssetFetch.FetcherCanFinish | scripts/model_assets.py:1096-1157 | from any reachable state, a fetcher in any phase but cleaning up can by its own steps alone return the file that was bound already or else its own download; its temporary name is gone and no other name has changed |
| AssetFetch.LoserReturnsWinnersFile | scripts/model_assets.py:1139-1149 | a fetcher that finds the name taken when it links returns the winner's file and gives its own download up |
| AssetFetch.ReadFileGoesOnIff | scripts/model_assets.py:890-926 | whatever the cache holds: having read the whole file, a fetcher goes on iff the bytes are the locked ones and the name still means that file |
| AssetFetch.ReturnIsVerified | scripts/model_assets.py:929-957 | whatever the cache holds: a return comes only from such a verification |
| AssetFetch.DownloadIsGuarded | scripts/model_assets.py:1105-1128 | a download starts only with the name unbound, and is synced only if the locked bytes came |
| AssetFetch.LinkIsGuarded | scripts/model_assets.py:1129-1134 | nothing is linked but a synced file of the locked size |
| AssetFetch.RemovalIsGuarded | scripts/model_assets.py:1080-1093 | a temporary name is removed only while it means its own file |
| AssetFetch.AnyCallMayFail | scripts/model_assets.py:1096-1165 | any call may raise, and the process may die, until the fetcher has ended |
| AssetFetch.FailureFollowsCleanup | scripts/model_assets.py:1158-1165 | a fetcher fails only without a temporary of its own, or out of its clean-up |
| AssetFetch.FailureCanCleanUp | scripts/model_assets.py:1158-1165 | from any reachable state it can fail with its temporary name removed and nothing else changed |
| Extraction.AcceptedMembersStayBeneath | scripts/bootstrap_llama_cpp.py:151-161 | an accepted member name resolves strictly beneath the destination |
| Extraction.PlainMembersAreAccepted | scripts/bootstrap_llama_cpp.py:151-161 | every plain relative path below the root is accepted, as itself |
| Extraction.AcceptedIff | scripts/bootstrap_llama_cpp.py:151-161 | for every name: it is accepted iff it is portable, relative, without ".." between its slashes, and lies below the root |
| Extraction.AcceptedNameWalksThere | scripts/bootstrap_llama_cpp.py:151-161 | walking an accepted name part by part from any directory leads to the root's place and then along the accepted path |
| Extraction.Disk.CopyMember | scripts/bootstrap_llama_cpp.py:217-240 | the nested copy loops store a prefix of the member, all of it on success, watched throughout |
| Extraction.Disk.ExtractSource | scripts/bootstrap_llama_cpp.py:164-252 | for every archive: each file new, written once and beneath the destination, total within the cap, on success exactly the archive's files with the declared total; if no call fails it succeeds iff, judged by the archive and the disk before it alone, every member fits, no two share a place, no file lies where another member needs a directory (whichever comes first), the declared total is within the cap and the required files are among them |
| Extraction.ExtractionTouchesNothingElse | scripts/bootstrap_llama_cpp.py:164-252 | what was on the disk is unchanged, and everything new lies beneath the destination |
| QualityPublication.Directory.WriteIndex | scripts/quality_index.py:1819-1864 | a call that returns leaves exactly its own valid artifact and no temporary; one that raises leaves no temporary and only a prefix of the replacements; if no call fails it returns |
| QualityPublication.ManifestDecides | scripts/quality_index.py:1736-1783 | a generation's manifest validates exactly that generation's payload |
| QualityPublication.ManifestIdentifies | scripts/quality_index.py:1736-1783 | a manifest determines the provenance and both files of its generation |
| QualityPublication.StepKeepsInv | scripts/quality_index.py:1834-1864 | any step of any writer keeps every writer's staging and a known manifest |
| QualityPublication.WriterCanFinish | scripts/quality_index.py:1834-1864 | from any reachable state a writer on its way can by its own steps return with the members it had still to replace published; its temporaries are gone and nobody else's touched |
| QualityPublication.WriterCanCleanUp | scripts/quality_index.py:1855-1860 | and until it has ended it can fail with exactly its own temporaries removed |
| QualityPublication.WriterMayStop | scripts/quality_index.py:1834-1864 | or stop at any moment, leaving everything as it is |
| QualityPublication.ValidMeansOneGeneration | scripts/quality_index.py:1834-1864 | over all interleavings and crashes, a manifest that validates implies both files are one generation's payload, byte for byte |
| QualityPublication.CommitValidatesIff | scripts/quality_index.py:1849-1853 | at the instant of a manifest's replacement the artifact is valid iff both payload files are the writer's own |
| QualityPublication.LastReplacementsDecide | scripts/quality_index.py:1845-1853 | in every state of every run in which the manifest has been replaced: the artifact validates iff the last replacements of the two payload files brought what the last writer of the manifest published |
| QualityPublication.SerialWritersKeepItValid | scripts/quality_index.py:1845-1853 | if no two writers are ever midway through their replacements and none breaks off midway: whenever nobody is midway, the artifact validates iff it did at the start or a writer has published since |
| QualityPublication.BothReturnAndItIsInvalid | scripts/quality_index.py:1834-1864 | from any start, two writers of different payloads can reach a state in which both have returned and the artifact does not validate |
| QualityPublication.ReturnsLeaveItValidIff | scripts/quality_index.py:1834-1864 | whatever writers start together: every state of every run in which they have settled and one has returned is valid iff they all publish one payload |
| SnapshotStore.StatementKeepsInv | storage/sqlite/migrations/0003_transactional_publication.sql:75-470 | every admitted statement keeps the tables' invariant |
| SnapshotStore.StatementHasEffect | storage/sqlite/migrations/0003_transactional_publication.sql:75-470 | every admitted statement does, row by row, what SQL says: the rows it names are written, moved or gone with their cascade, and every other row of every table is as before |
| SnapshotGuards.GuardsAreExact | storage/sqlite/migrations/0003_transactional_publication.sql:75-470 | on every sound database, a statement is admitted iff it touches no published row and its effect keeps the stated rules |
| SnapshotGuards.EffectIsUnique | storage/sqlite/migrations/0003_transactional_publication.sql:75-470 | an admitted statement leaves only one next state |
| SnapshotGuards.StagedCycleIsAdmitted | scripts/validate-contracts.py:520-690 | begin, stage any rows, record, insert any records, delete the staged rows, commit, publish: admitted throughout, with the rows there in between and the records at the end |
| SnapshotGuards.OpenBuildCanBeGivenUp | storage/sqlite/migrations/0003_transactional_publication.sql:263-281 | from every reachable state every open build can be emptied and aborted by admitted statements, and nothing else changes |
| SnapshotStore.ReachableStatesAreSound | scripts/validate-contracts.py:172-204 | in every reachable state closed builds hold no staged rows and each current pointer names its committed build's snapshot |
| SnapshotStore.PublishedStateIsImmutable | storage/sqlite/migrations/0003_transactional_publication.sql:263-281 | over any run, snapshots never change and closed builds and their records stay exactly as they are |
| SnapshotStore.HistoryIsTheLineage | storage/sqlite/migrations/0004_publication_compare_and_swap.sql:81-101 | a repository's successive current pointers form one parent chain from NULL |
| SnapshotStore.NoSnapshotIsCurrentTwice | storage/sqlite/migrations/0004_publication_compare_and_swap.sql:81-101 | no snapshot becomes current twice |
| SnapshotStore.PointersNeverReturn | storage/sqlite/migrations/0004_publication_compare_and_swap.sql:73-101 | a pointer value that has been left never comes back |
| SnapshotStore.CommitMeansUndisturbed | storage/sqlite/migrations/0004_publication_compare_and_swap.sql:59-70 | a build commits only if the pointer it is based on has been current at every moment since |
| SnapshotStore.PublicationMeansUndisturbed | storage/sqlite/migrations/0004_publication_compare_and_swap.sql:81-101 | a snapshot becomes current only if its parent has been current at every moment since it was |
| SnapshotStore.PublicationCycleIsAdmitted | scripts/validate-contracts.py:795-858 | an undisturbed build, snapshot, commit and publication is always admitted |
| SnapshotStore.Connection.Execute | scripts/validate-contracts.py:520-1048 | a statement is applied, with the effect SQL gives it row by row, or rejected whole |
| GoProfile.RowsReadBack | scripts/coverage_gate.py:43-46 | formatting a row and matching it with the profile pattern gives the row back |
| GoProfile.ParsesExactlyRows | scripts/coverage_gate.py:42-45 | a line is parsed iff it is a file name, a colon and six numbers, however spelled, between the separators, and is read as exactly those |
| CoverageGate.ReadRows | scripts/coverage_gate.py:280-326 | the stateful first loop computes the set-based summary of the rows and fails exactly on bad or inconsistent ones |
| CoverageGate.LineIsHitIff | scripts/coverage_gate.py:286-312 | a line counts for a block iff it is a row in order whose name the map takes to the block's file, not a generated one; it covers iff its count is positive |
| CoverageGate.LineIsGeneratedIff | scripts/coverage_gate.py:286-298 | a line is left out iff it is a row of a generated file |
| CoverageGate.WrittenLinesAreRead | scripts/coverage_gate.py:283-287 | every line that is not blank is read once |
| CoverageGate.HeaderIff | scripts/coverage_gate.py:266-270 | a header is accepted iff it names one of the three modes, padded with white space or not |
| CoverageGate.BlankIffNothingIsLeft | scripts/coverage_gate.py:283-284 | a line is skipped iff stripping leaves nothing of it |
| CoverageGate.SumBlocks | scripts/coverage_gate.py:331-349 | the second loop counts each block once, in all and for its package |
| CoverageGate.ParseGoProfile | scripts/coverage_gate.py:257-380 | exactly the acceptable profiles are accepted, with the set-based totals and raw = unique + deduplicated + generated |
| CoverageGate.RowOrderNeverMatters | scripts/coverage_gate.py:1-16 | permuting or repeating rows changes neither verdict nor blocks, totals and package counts |
| CoverageGate.PackageCountsAddUp | scripts/coverage_gate.py:329-349 | package counts sum to the totals |
| GoSources.ProfileFileMap | scripts/coverage_gate.py:230-254 | the nested loops build exactly the map of all four names of every file, and fail iff two owners claim one name |
| GoSources.MapKnowsFourNames | scripts/coverage_gate.py:236-247 | the map takes a name to a file iff it is one of the file's four names, spelled out |
| GoSources.OwnerIsThePackage | scripts/coverage_gate.py:273-277 | under such a map the owner of every source file is its package |
| GoSources.ReadProfile | scripts/coverage_gate.py:257-380 | the whole reading, map included, fails iff no map exists or the profile is unacceptable under it |
| GoSources.AcceptedFilesResolve | scripts/coverage_gate.py:291-296 | every block of an accepted profile has a path without backslashes, which the map resolves to that file |
| GoSources.MergedProfileIsTheProfile | scripts/coverage_gate.py:383-387 | re-parsing the merged profile of any accepted profile gives the same blocks, totals and package counts, one row for each block and nothing excluded or deduplicated |
| QualityProfile.ReadRows | scripts/quality_index.py:962-1000 | the poisoning loop keeps exactly the blocks whose rows agree, covered iff some row covers them |
| QualityProfile.LineIsHitIff | scripts/quality_index.py:967-984 | a line counts for a block iff it is a row, in order and with positive coordinates, of the file its name resolves to; it covers iff its count is positive |
| QualityProfile.AscendingLists | scripts/quality_index.py:1001 | the sorted order of blocks lists each of them once, every one before all that follow |
| QualityProfile.SumFiles | scripts/quality_index.py:1001-1024 | the loop over the sorted blocks gives each file the totals of its kept blocks and its gaps in sorted order |
| QualityProfile.ReadProfile | scripts/quality_index.py:946-1024 | the whole function, with the header errors |
| QualityProfile.RowOrderNeverMatters | scripts/quality_index.py:962-1000 | the values do not depend on row order or repetition, poisoned blocks included |
| QualityProfile.PathResolvesToItselfIff | scripts/quality_index.py:931-943 | the index's path resolver takes a path for itself iff it is a source path without backslashes that does not start with a dot |
| QualityProfile.EndingResolves | scripts/quality_index.py:941-943 | a name that ends with exactly one source path resolves to it |
| QualityProfile.IndexTotalsAreTheGates | scripts/quality_index.py:1002-1024 | on the merged profile the index's totals are the gate's iff blocks with a zero coordinate hold no statements |
| GateVerdict.EvaluateGo | scripts/coverage_gate.py:390-412 | exactly the thresholds that are missed are reported; passing and failing are exact outside a band of half a rounding step |
| GateVerdict.PercentIsTheShare | scripts/coverage_gate.py:352-353 | a percentage is the covered share; a package without statements counts as full |
| GateVerdict.PackageMinimumCarriesOver | scripts/coverage_gate.py:350-377 | if every package with statements reaches m percent, so does the whole |
| GateVerdict.RoundedVerdictIsNearlyExact | scripts/coverage_gate.py:397-400 | the rounded verdict differs from the exact one only within 0.00005 + 0.000000001 |
| StressFill.Meter.Measured | scripts/qualify_models.py:706-715 | the memoised measurement: at most one request, none for a padding seen before |
| StressFill.Bracket | scripts/qualify_models.py:746-757 | doubling ends with a bracket, or only when the largest padding measures at most the target |
| StressFill.Bisect | scripts/qualify_models.py:762-769 | bisection ends with neighbouring paddings around the target |
| StressFill.BoundaryDecides | scripts/qualify_models.py:759-775 | with a non-decreasing count only the lower neighbour can have the target size |
| StressFill.PrepareGenerationCase | scripts/qualify_models.py:686-794 | for any tokenizer a returned case measures exactly the target and fits; for a steady non-decreasing one it is returned iff it is reachable; never more than 289 requests; every failure means what it says |
| ClaimResponse.ReadClaims | scripts/qualify_models.py:828-859 | the accumulators after the loop are the declarative counts, and the loop dies iff a category is unhashable |
| ClaimResponse.CleanMeansAcceptable | scripts/qualify_models.py:903-911 | the counters and failures are all clean iff the response satisfies one declarative predicate |
| ClaimResponse.TermIsInOneClaim | scripts/qualify_models.py:884-891 | a one-line term is mentioned iff the text of a single well-formed claim contains it |
| ClaimResponse.RecallIsTheShare | scripts/qualify_models.py:884-890 | the recall is the number of required terms mentioned over their number |
| ClaimResponse.UnsupportedAreCounted | scripts/qualify_models.py:836-862 | unsupported claims are counted one by one |
| ClaimResponse.MentionedAreCounted | scripts/qualify_models.py:886-896 | and so are the terms that are mentioned |
| ClaimResponse.ValidateClaimResponse | scripts/qualify_models.py:797-922 | passed iff acceptable, for any number of claims, with every report field explained |
| ClaimResponse.AcceptableIsHashable | scripts/qualify_models.py:842-848 | a response that would pass never hits the crash |
| ShellQuoting.PrintedLineReadsBack | cmd/rkc/quickstart.go:161-166 | a POSIX shell reads the printed line as exactly the arguments, whatever they hold |
| ShellQuoting.QuoteArgumentVector | cmd/rkc/plan.go:188-194 | the filling loop and the join build that line |
| ConfigIdentity.UniqueSortedStrings | cmd/rkc/config.go:438-452 | set, collect and sort yield the canonical list |
| ConfigIdentity.CanonicalTellsNames | cmd/rkc/config.go:438-452 | two lists have one canonical form iff they name the same non-blank strings |
| ConfigIdentity.Configuration.Normalize | cmd/rkc/config.go:258-289 | the field assignments give the normalised value |
| ConfigIdentity.NormalizeSettlesLegacyKeys | cmd/rkc/config.go:258-284 | key by key: each legacy key decides or stands in for its successor, and for no other |
| ConfigIdentity.NormalizeKeepsTheRest | cmd/rkc/config.go:258-289 | nothing else changes, but for the three lists, which come out sorted with the same names |
| ConfigIdentity.Configuration.Digest | cmd/rkc/config.go:398-412 | the digest is taken of a stripped copy; the configuration itself keeps its value |
| ConfigIdentity.NormalizeIsIdempotent | cmd/rkc/config.go:258-289 | normalising twice is normalising once |
| ConfigIdentity.DigestNamesTheScan | cmd/rkc/config.go:395-412 | equal digests iff the normalised forms agree outside output, snapshot store, incremental, model and model synthesis |
| ConfigIdentity.NormalizeKeepsTheDigest | cmd/rkc/config.go:258-289 | normalising first does not change the digest |
| ConfigIdentity.ListSpellingNeverMatters | cmd/rkc/config.go:438-452 | order, repetition and blanks in the three lists never matter, and nothing else about them is ignored |

## Left out

- Monitor: the checks that run once before the two goroutines start (a context already done, priority, host memory, envelope) can only return early.
- LaunchTree: failing to find the executable, a held workspace lease or an invalid entry only keeps a launch from happening; `MayLaunch` admits the launch in all these cases.
- LaunchTree.DirectChildSees: the resource guard rewrites the list when a profile is selected; its settings are arbitrary values of the profile's own variables.
- CommandChain: `filepath.Abs` and `filepath.Join` are functions of which `Sane` says all that is assumed (an absolute path is its own, is not empty and does not begin with a dash); open's other refusals, and its fresh workspace, are one parameter.
- GoFlag: numeric and duration flags are accepted or refused by an arbitrary predicate.
- ConfigDiscovery: what a loaded configuration then changes among scan's defaults.
- PublishRace.TreesAreConserved: staging sources nested in one another, where moving the outer tree moves the inner name too; paths are independent keys here.
- PublishDirectory: ownership, permission bits and links inside a tree are one fault each ("not a real tree"); a tree is an id, not its contents.
- Streaming.HashStream: a file that changes while it is hashed; the identity checks around the loop are not modelled (in `AssetFetch` the file of a verification is proved not to change).
- AssetFetch: inode numbers are never used again, and other programs do not touch the cache; HTTP headers, redirects and disk headroom are a raising step.
- Extraction: file modes, special bits, links that are on the disk already, and the compressed stream itself.
- Extraction.SafeRelativeMember: a name of only slashes and dots has no parts and is refused as outside the root, as in the source; other notions of path equality (case folding) are not modelled.
- QualityPublication: rendering the index and its Markdown; SHA-256 and JSON are injective functions. A temporary that cannot be unlinked.
- SnapshotStore: statements that change a primary key, INSERT OR REPLACE, record ordinals, the JSON checks on documents and the legacy tables. base_current_snapshot_id and parent_snapshot_id are one field, because a CHECK makes them equal. Deleting an open build that still holds staged rows is admitted with its cascade, whatever the order in which SQLite runs the delete guard; the theorems hold either way. The probes of the contract script are not replayed one by one.
- CoverageGate: splitting the file into lines, and the order in which the merged rows are sorted (the theorem is for any order).
- GoProfile: numbers of more than 4300 digits, which recent versions of Python refuse to convert; the digits are those of Unicode 15.0.
- GoSources: running `go list`; that file names are single components and that an import path ends with the package's directory is taken from it (`Listed`).
- QualityProfile.PathResolvesToItselfIff: making an absolute name relative to the root is a function that adds no backslash.
- QualityProfile: the text and number of the error messages; only whether there are any.
- GateVerdict: floating point; percentages are exact reals and rounding is any function within half a step.
- StressFill: the tokenizer is a function of the request number and the padding; the request body beside the prompt.
- ClaimResponse: folding leaves line breaks alone (`FoldsLines`), which `TermIsInOneClaim` needs. JSON parsing (duplicate keys included) and case folding are parameters; the type checks on the case file itself.
- ShellQuoting: the PowerShell form, whose lexer accepts more quote characters than the apostrophe. Lines with operators, expansions or comments are not read.
- ConfigIdentity: decoding, defaults and `Validate`; `PolicyDigest` and `PluginDigest` are plain projections.
- Graph, search, history, serving and the other packages under `internal`, and the field-by-field validators of licences, locks and packages.
