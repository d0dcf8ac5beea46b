# Verified decision cores of the agent planner

This project models, in Dafny, the decisions an autonomous project planner takes over its ticket
backlog, and proves what those decisions keep over every state, every input and every run. Each
module follows one part of the `application` crate (and one protocol of the `app` crate):

| module | subject |
|---|---|
| `Domain`, `Ordering`, `Sequences`, `Text`, `Titles`, `Sorting` | tickets and state, Rust's orders on strings, decimal and UTF-8 codecs, title normalisation, stable sorting |
| `Validation` | the structural check of a state: coloured depth-first search for cycles |
| `Lifecycle` | the transition table, the two lanes agents claim from, the archive, and which tickets can still be handed out or brought to an end |
| `Rejection` | the same with a cold store and rejections: what holds a ticket for ever, and what does not |
| `Radar` | the dependency radar: blocking chain, cycle marker, unknown dependencies, agreement with the DEV gate |
| `CriticalPath` | the memoised longest-chain search against the plain one, and its optimality |
| `Lessons` | seeding shipped lessons into two capped stores, over repeated boots |
| `Shims` | the shim-directory sweep as a protocol of any number of hubs |
| `DepsScan`, `ScanPasses` | filing remediation tickets: id codec, evidence ledgers, repeated passes |
| `LockScan` | version parsing, aggregation of lockfiles, findings |
| `Import` | merging a forge's issues into the backlog, over any history |
| `Screening` | the prompt-injection screen on text, line by line |
| `Scoping` | sprint capacity and commitment |
| `WordMatch` | the skipping whole-word scanner |
| `Hygiene` | the backlog clean-up plan |
| `Fleet` | the daily soft-ceiling watchdog |

State that the program updates in place is the class `Domain.ProjectState`; methods with `modifies`
clauses tie its new contents to a function of the old ones, and the lemmas are about those
functions. Loops in the program are loops here. Strings are sequences of code points, money is `real`.

## Where code and documentation part

The model follows the code. In these places the documentation (or a test's title) promises more:

* The third key of the critical path (smaller id sequence, `dependency_radar.rs:223-225`) is not
  global: suffixes are compared by their own priority, which a prefix may mask.
  `CriticalPath.ThirdKeyExactlyForOnePriority` gives the exact condition.
* Radar and gate are not two views of one rule for a feature or chore whose only unmet dependency is itself,
  which the gate refuses and the radar omits (`Radar.SelfDependencyUnreported`), nor for a Ready bug waiting on
  another ticket, which the radar names and no gate refuses (`Radar.BlockedBugReported`).
  `Radar.RadarAgreesWithGate` shows that these are the only cases.
* "A second boot seeds nothing" fails when the first boot rotates out the last trace of a shipped
  lesson; `Lessons.SecondBootQuietExactlyWhen` gives the condition, `Lessons.BootsConverge` what holds instead.
* Filing findings twice is not always a no-op: evidence ledgers hold six entries, and filing a ticket
  may rotate out the entry that held another finding back. `ScanPasses.IdempotentExactlyWhenRobust`.
* Lockfile aggregation is independent of the caller's order exactly when files first pinning a package at
  one shared path agree on its outcome (`LockScan.OrderIrrelevantExactly`, `LockScan.RepeatedPathMatters`).
* A finding's files are all those pinning the package, not only those at its current version:
  `LockScan.FilesAtCurrentExactly`, `LockScan.OtherVersionListed`.
* `gap` does not return nothing for every exceeded version: `LockScan.GapAsDocumentedExactly`,
  `LockScan.GapBehindLatest`.
* "A dependency cycle would deadlock the loop" (`state/mod.rs:1667-1668`) holds without a cold store exactly
  for cycles none of whose tickets is a bug or in progress (`Lifecycle.RingDeadlocksWithoutRejections`,
  `Lifecycle.BugRingReleases`), and only as long as nobody takes a ticket over or merges one by hand
  (`Lifecycle.InterventionsBreakRings`). With a cold store, where rejected tickets are archived and edges to them
  dropped, it holds in runs without rejections only: the loop rejects tickets itself, as duplicates, as split
  parents or with their parents, and that opens the cycle (`Rejection.FreeOfParentExactly`, `Rejection.PairLetsGo`).
* Conversely a validated state may keep a ticket waiting for ever: on a rejected ticket without a cold store
  (`Lifecycle.RejectedDependencyExactly`), on its own rejected parent (`Rejection.RejectedParentBlocks`), or on a
  parent in that position (`Rejection.GrandparentBlocks`). With a cold store and no stray ticket, a feature or chore
  in a bug's status, these lines of parents are all there is (`Rejection.ValidatedReleasesExactly`).
* "No source issue is imported twice" holds while a ticket tracks its URL; the eviction sweep takes tickets out of
  the backlog, and a rescue rewrites descriptions: `Import.ImportsNeedLosses`, `Import.IssueReturns`,
  `Import.RestatedIssueReturns`.
* A hygiene pass is carried out at most thirty actions at a time and only where the transition table allows, so
  some duplicates are planned again every day: `Hygiene.PassSettlesExactly`, `Hygiene.FixedTwinPlannedAgain`.
* `word_matches` can miss an occurrence of a name that overlaps itself after a non-identifier byte;
  `WordMatch.ScanExactForSafeNames`.
* "Exactly one alert per day" fails for a day first polled above the line after a day that ended above
  it: `Fleet.OneNoticeADayExactly`, `Fleet.SilentDay`.
* The sweep's safety argument takes its listing to be complete before the process snapshot, but
  directory entries are delivered lazily while the sweep removes: `Shims.SafeExactlyUnexposed` gives the
  schedules that are safe all the same, `Shims.LateListingLosesLiveDir` one that loses a live hub's directory.

## Model

| member | source | states |
|---|---|---|
| `Domain.LookupIsFirst` | crates/application/src/state/mod.rs:1639-1641 | of several tickets carrying an id the earliest is found |
| `Validation.FirstDependencyCycle` | crates/application/src/state/mod.rs:1677-1721 | the explicit-stack white/grey/black search terminates, names a node that lies on a cycle, and finds nothing only if no node reaches itself |
| `Validation.Search` | crates/application/src/state/mod.rs:1692-1718 | one start: either a node on a cycle, or every node met is left black, nothing grey remains and black nodes stay black |
| `Validation.StackDependencies` | crates/application/src/state/mod.rs:1709-1717 | stacking dependencies keeps the search invariant or meets a grey node, which closes a cycle |
| `Validation.LeaveNode` | crates/application/src/state/mod.rs:1698-1701 | leaving a node keeps the invariant: everything it depends on is black, so it lies on no cycle |
| `Validation.Validate` | crates/application/src/state/mod.rs:1653-1673 | accepts exactly the states with unique ids, known dependencies and no cycle; every complaint names an actual fault of the kind it reports |
| `Lifecycle.EndsWithoutRejections` | crates/application/src/use_cases/cycle/evict.rs:17-50 | on every state, cyclic or not: in runs without rejections (without a cold store, in all runs of the loop) an unfinished ticket can be finished or archived if and only if it is not dead and no trail of waiting tickets leads from it to a dead one or back into the trail |
| `Lifecycle.ReleasableWithoutRejections` | crates/application/src/selection.rs:166-196 | in the same runs a Ready feature or chore can be handed out if and only if no trail obstructs it |
| `Lifecycle.ValidatedWithoutRejections` | crates/application/src/state/mod.rs:1653-1673 | in the same runs, after validation, only a stray ticket, a rejected one where nothing is archived, or a trail closing through a rejected ticket's subtask keeps a Ready ticket waiting for ever |
| `Lifecycle.NeverStuckWithoutRejections` | crates/application/src/state/mod.rs:1653-1673 | with a cold store, no stray ticket and no rejected ticket with a live subtask, every Ready ticket of a validated state can be handed out without rejecting anybody |
| `Lifecycle.StuckWithoutRejections` | crates/domain/src/transitions.rs:11-66 | no run of table moves, lane claims, repairs and archiving without rejections (without a cold store, with them too) gets a dead or obstructed ticket out |
| `Lifecycle.CanFinish` | crates/domain/src/transitions.rs:11-66 | a ticket nothing holds up comes to Documented or Verified by moves of its own |
| `Lifecycle.RejectedDependencyExactly` | crates/application/src/use_cases/cycle/evict.rs:126-138 | a validated state in which a rejected dependency is waited for for ever if and only if there is no cold store |
| `Rejection.DoomedNeverReleased` | crates/application/src/use_cases/cycle/evict.rs:17-50 | with a cold store and rejections: a Ready ticket held by a set of tickets (unknown, stray, waiting for the gate with a subtask that stays, or rejected with one) is handed out in no run of the loop |
| `Rejection.ReleasableExactly` | crates/application/src/use_cases/cycle/evict.rs:17-50 | one configuration of needed subtasks aside, it is handed out in some run if and only if no set of tickets holds it |
| `Rejection.FreeOfParentExactly` | crates/application/src/use_cases/cycle/escalation.rs:231-256 | with a cold store and no stray ticket, a Ready ticket that does not wait for its own parent can be handed out if and only if it depends on no unknown id and not on itself, whatever cycles there are |
| `Rejection.ValidatedReleasesExactly` | crates/application/src/state/mod.rs:1653-1673 | after validation, with a cold store and no stray ticket, over every run, rejections included: a Ready feature or chore can be handed out if and only if it does not wait for its own parent, that for its own, and so on up to a rejected one |
| `Rejection.AncestryNeverReleased` | crates/application/src/use_cases/cycle/evict.rs:40-47 | the "only if" half, on every state: such a line of parents stands, or the ticket is rejected or gone, through every run |
| `Rejection.RejectedParentBlocks` | crates/application/src/use_cases/cycle/evict.rs:40-47 | waiting for one's own rejected parent is for ever, in every run and with or without a cold store |
| `Rejection.RejectionLetsGo` | crates/application/src/use_cases/cycle/escalation.rs:231-256 | a validated state whose Ready ticket waits for ever without rejections and can be handed out with them |
| `Rejection.GrandparentBlocks` | crates/application/src/use_cases/cycle/evict.rs:40-47 | a validated state whose Ready ticket, no subtask of a rejected one, is never handed out because its parent is one |
| `Rejection.PairLetsGo` | crates/application/src/state/mod.rs:1667-1671 | two Ready features depending on each other: with a cold store the loop can hand one out by rejecting the other |
| `Lifecycle.LiveChildIsAnyTicket` | crates/application/src/use_cases/cycle/evict.rs:40-47 | on unique ids the model's live children are the sweep's |
| `Lifecycle.BlockerToTake` | crates/application/src/selection.rs:31-47 | in a validated state a refused ticket has a blocker an agent can claim if all its blockers stand in the status claims are made from; and if none can be claimed, some blocker is out of lane though nothing holds it up |
| `Lifecycle.RingDeadlocksWithoutRejections` | crates/application/src/state/mod.rs:1667-1671 | in runs without rejections (without a cold store, in all) no ticket on a cycle of unfinished ones comes to an end if and only if each is a feature or chore to be claimed, stray, or rejected and never archived |
| `Lifecycle.BugRingReleases` | crates/application/src/selection.rs:31-47 | a cycle through an open bug, from which a feature is handed out |
| `Lifecycle.PairWaitsWithoutRejections` | crates/application/src/state/mod.rs:1667-1671 | two Ready features depending on each other are not handed out in any run without rejections |
| `Lifecycle.InterventionsBreakRings` | crates/application/src/use_cases/claims.rs:193-208 | one of them is let go by taking over or hand-merging the other, and by rejecting it if and only if there is a cold store |
| `Radar.WalkChain` | crates/application/src/dependency_radar.rs:118-139 | the recursive walk terminates on cyclic states; what it adds is exactly the newly seen unfinished tickets, each once, each hanging below the ticket or an earlier entry, with all dependencies seen |
| `Radar.BlockingChain` | crates/application/src/dependency_radar.rs:110-116 | lists, once each and never the root, exactly the unfinished tickets reachable through unfinished tickets; each entry is a dependency of the root or of an earlier entry |
| `Radar.ReachesItself` | crates/application/src/dependency_radar.rs:149-162 | the stack loop terminates and answers whether a path of at least one edge leads back to its start |
| `Radar.CycleMembers` | crates/application/src/dependency_radar.rs:146-165 | a ticket is a member exactly when it reaches itself over at least one edge |
| `Radar.UnknownDependencies` | crates/application/src/dependency_radar.rs:175-186 | exactly the declared pairs whose target is absent, each once |
| `Radar.ReportBlocked` | crates/application/src/dependency_radar.rs:335-359 | one entry per Ready ticket with a blocker, in backlog order, each naming all its blockers once |
| `Radar.RadarAgreesWithGate` | crates/application/src/selection.rs:168-196 | the report names a Ready ticket exactly when the DEV gate refuses it, if and only if it is neither a bug waiting on another ticket nor a feature or chore waiting on itself alone |
| `Radar.SelfDependencyUnreported` | crates/application/src/dependency_radar.rs:110-116 | one Ready ticket depending on itself: refused by the gate, absent from the report |
| `Radar.BlockedBugReported` | crates/application/src/dependency_radar.rs:335-354 | a Ready bug depending on a pending feature: on every report, and refused by no gate |
| `CriticalPath.LongestUnresolvedFrom` | crates/application/src/dependency_radar.rs:258-291 | the memoised search terminates on every state; its answer is a simple chain avoiding the current walk, the memo stays sound, and on acyclic states equals the plain search |
| `CriticalPath.CriticalPath` | crates/application/src/dependency_radar.rs:230-249 | on every state a chain of unfinished tickets without repetition, empty exactly when no edge joins two distinct unfinished tickets; without cycles it is the plain search's answer |
| `CriticalPath.WalkIrrelevant` | crates/application/src/dependency_radar.rs:258-291 | without cycles the answer below a ticket does not depend on the walk that led there, which is what makes the memo exact |
| `CriticalPath.PlainDominates` | crates/application/src/dependency_radar.rs:258-291 | the search below a ticket is at least as long, then as high in priority, as any chain starting there |
| `CriticalPath.CriticalPathOptimal` | crates/application/src/dependency_radar.rs:229-317 | without cycles no chain of two or more is longer, and no equally long one has a higher top priority |
| `CriticalPath.UniformUnbeaten` | crates/application/src/dependency_radar.rs:296-317 | with one priority throughout, the answer is also the smallest id sequence |
| `CriticalPath.ThirdKeyExactlyForOnePriority` | crates/application/src/dependency_radar.rs:223-317 | the third key holds on all acyclic states over a set of priorities if and only if the set has at most one |
| `CriticalPath.MaskedBeaten` | crates/application/src/dependency_radar.rs:296-317 | for any two priorities, a three-ticket state where the answer loses on the third key |
| `CriticalPath.BetterTransitive` | crates/application/src/dependency_radar.rs:296-317 | the comparison of chains is transitive |
| `CriticalPath.BetterTotal` | crates/application/src/dependency_radar.rs:296-317 | and total, so the fold over candidates has a best |
| `CriticalPath.AnswerIgnoresOrder` | crates/application/src/dependency_radar.rs:219-249 | the plain search, and so without cycles the memoised one, depends on the board and not on the order in which tickets or dependencies are listed |
| `Lessons.SeedLessons` | crates/application/src/bootstrap_lessons.rs:129-167 | each store ends as the last-cap suffix of its old entries followed by those of the lessons it lacked, whose ids are reported |
| `Lessons.SeedOne` | crates/application/src/bootstrap_lessons.rs:132-150 | pushes to both stores exactly when neither knows the lesson by id or by text |
| `Lessons.DrainOldest` | crates/application/src/bootstrap_lessons.rs:155-165 | each store keeps its newest entries up to its cap |
| `Lessons.MissingStep` | crates/application/src/bootstrap_lessons.rs:131-151 | skipping by the stores as they grow is skipping by the stores at the start |
| `Lessons.SeededStays` | crates/application/src/bootstrap_lessons.rs:128-167 | over any number of boots nothing is seeded twice and everything seeded still stands at the newest end |
| `Lessons.BootsConverge` | crates/application/src/bootstrap_lessons.rs:128-167 | with n shipped lessons the state after n + 1 boots is left unchanged by all later ones and misses nothing |
| `Lessons.SecondBootQuietExactlyWhen` | crates/application/src/bootstrap_lessons.rs:231-250 | a second boot seeds nothing, and changes nothing, if and only if every known shipped lesson keeps a trace among the surviving entries |
| `Lessons.SecondBootCanSeed` | crates/application/src/bootstrap_lessons.rs:231-250 | a full store for which the second boot does seed |
| `Shims.ShimDirRoundTrip` | crates/app/src/shims.rs:88-90 | the pid is read back from the directory name, which is never the shared legacy name |
| `Shims.OwnDirStale` | crates/app/src/shims.rs:208-213 | a hub's directory is stale to another exactly when that one misses its pid in the snapshot |
| `Shims.ReapListed` | crates/app/src/shims.rs:177-197 | removes exactly the stale, removable directories of the listing, counts them, and touches nothing on an empty snapshot |
| `Shims.AccountedAlways` | crates/app/src/shims.rs:92-106 | in every reachable world each live hub was in a sweep's snapshot or was born after it |
| `Shims.HitsExactlyTheReborn` | crates/app/src/shims.rs:156-197 | in every run a sweep can remove a live hub's directory if and only if the hub started after the snapshot on a listed pid that the snapshot lacks |
| `Shims.SafeExactlyUnexposed` | crates/app/src/shims.rs:156-197 | over every run, late entries included: no sweep ever stands before a live hub's directory if and only if no hub starts on a condemned pid and no late entry names a live hub the snapshot lacks |
| `Shims.NoLiveDirRemoved` | crates/app/src/shims.rs:92-106 | as long as no step has been exposing, no step removes a live hub's directory |
| `Shims.WrittenDirStays` | crates/app/src/shims.rs:92-106 | hence a directory once written stands as long as its hub lives |
| `Shims.LateListingLosesLiveDir` | crates/app/src/shims.rs:156-197 | one entry delivered after the snapshot suffices to lose a live hub's directory, without any pid recycled |
| `Text.BytesInjective` | crates/application/src/deps_scan.rs:334-346 | the UTF-8 bytes determine the string |
| `DepsScan.PushHexByte` | crates/application/src/deps_scan.rs:349-355 | appends the two hex digits of the byte |
| `DepsScan.TicketIdFor` | crates/application/src/deps_scan.rs:334-346 | the scheme followed by the byte-wise encoding of the name |
| `DepsScan.EncodeInjective` | crates/application/src/deps_scan.rs:318-346 | the encoding is injective over all byte strings |
| `DepsScan.TicketIdsDistinct` | crates/application/src/deps_scan.rs:318-346 | ids are equal only for the same package and kind, and never the epic's id |
| `DepsScan.AddEvidence` | crates/application/src/state/mod.rs:761-795 | appends the truncated item and keeps the newest six of that owner |
| `DepsScan.ProposeOne` | crates/application/src/deps_scan.rs:445-535 | declines on an existing id or on unrejected evidence of the same kind; otherwise files ticket and evidence |
| `DepsScan.ApplyFindings` | crates/application/src/deps_scan.rs:545-554 | the whole pass: epic if there is anything to do, then each finding in turn against the state so far |
| `ScanPasses.RunsKeepUnique` | crates/application/src/deps_scan.rs:358-554 | ticket ids stay unique over any sequence of passes, status changes and other edits |
| `ScanPasses.PackageDelimited` | crates/application/src/deps_scan.rs:423-437 | a name prefix closed by `@` identifies the package |
| `ScanPasses.HousedIsIdempotent` | crates/application/src/deps_scan.rs:445-554 | unless a full ledger has lost its ticket, a second pass files nothing and changes nothing, for all findings |
| `ScanPasses.IdempotentExactlyWhenRobust` | crates/application/src/deps_scan.rs:414-554 | a second pass is a no-op for all lists of well-named findings if and only if no finding is held back only by evidence that another filing would rotate out |
| `ScanPasses.RobustIsIdempotent` | crates/application/src/deps_scan.rs:414-554 | the "if" half, for each list |
| `ScanPasses.FragileFails` | crates/application/src/deps_scan.rs:414-554 | the "only if" half: from any other state a list for which the second pass files |
| `ScanPasses.FullOrphanFails` | crates/application/src/deps_scan.rs:414-554 | a concrete such state |
| `ScanPasses.FirstScanFilesEach` | crates/application/src/deps_scan.rs:423-554 | distinct findings on a state without scan evidence or clashing ids: exactly one ticket each, in order, ids distinct |
| `LockScan.VerRoundTrip` | crates/application/src/deps_scan.rs:40-63 | parsing the printed form of any version gives it back, whatever decoration follows |
| `LockScan.AggregateLocks` | crates/application/src/deps_scan.rs:230-253 | an entry for exactly the pinned packages: the version of the first pin in path order, every pinning path once, sorted |
| `LockScan.ScanLocks` | crates/application/src/deps_scan.rs:267-297 | strictly sorted by package, exactly one finding for each package with a gap or an urgent CVE, with its deciding pin and all its files |
| `LockScan.ScanIgnoresOrder` | crates/application/src/deps_scan.rs:227-297 | two arrangements of the same files give the same findings when files first pinning a package at a shared path agree on its outcome |
| `LockScan.DistinctPathsAgree` | crates/application/src/deps_scan.rs:227-253 | distinct paths are enough |
| `LockScan.OrderIrrelevantExactly` | crates/application/src/deps_scan.rs:227-297 | every reordering reports the same findings if and only if files first pinning a package at a shared path agree on its outcome |
| `LockScan.SameFindingsSameResult` | crates/application/src/deps_scan.rs:295-296 | two scans return the same list exactly when they report the same findings |
| `LockScan.RepeatedPathMatters` | crates/application/src/deps_scan.rs:227-253 | two bodies under one path for which the order of the caller shows |
| `LockScan.FilesAtCurrentExactly` | crates/application/src/deps_scan.rs:223-224 | a finding's files are those pinning the package at its current version if and only if every path pinning it also pins it at that version |
| `LockScan.OtherVersionListed` | crates/application/src/deps_scan.rs:223-224 | two lockfiles for which a file at another version is listed |
| `LockScan.GapAsDocumentedExactly` | crates/application/src/deps_scan.rs:98-113 | `gap` is nothing exactly for a satisfied or exceeded version if and only if the latest is ahead, or ahead in no lower component; and what is behind is classed by its first difference |
| `LockScan.GapBehindLatest` | crates/application/src/deps_scan.rs:98-113 | 2.0.0 against 1.5.0 is a minor gap |
| `Titles.NormalizeTitle` | crates/application/src/parsing.rs:185-199 | the character loop computes the normal form |
| `Titles.TrimInvariant` | crates/application/src/parsing.rs:185-199 | trimming a title does not change its normal form |
| `Import.BodyEmbedsUrl` | crates/application/src/backlog_import.rs:38-50 | the stored body contains the source URL closed by its line end |
| `Import.MintIsFreshExactly` | crates/application/src/use_cases/add_ticket.rs:161-194 | a minted id is carried by no ticket, whatever was deleted before, if and only if the 64-bit count does not wrap or the id of number 0 is free |
| `Import.MergePending` | crates/application/src/backlog_import.rs:79-159 | the new backlog and both counts as the fold of the drafts |
| `Import.RunAccounts` | crates/application/src/backlog_import.rs:78-159 | imported + skipped = drafts, imported at most the cap, old tickets an unchanged prefix |
| `Import.RunKeepsIdsUniqueExactly` | crates/application/src/backlog_import.rs:78-159 | a run keeps ids unique if and only if it imports no more tickets than there are 64-bit numbers left, or one more while the id of number 0 is free |
| `Import.NeverImportedTwice` | crates/application/src/backlog_import.rs:78-159 | over any history of runs, status changes and other filings in which no ticket leaves or is reworded, no source URL is imported twice |
| `Import.ImportsNeedLosses` | crates/application/src/use_cases/cycle/evict.rs:126-128 | with tickets leaving and descriptions rewritten too: a URL is imported at most once more than it has been lost, and no more than that if a ticket tracked it from the start |
| `Import.LoneDraftExactly` | crates/application/src/backlog_import.rs:94-150 | a lone draft is imported if and only if the cap allows it, it is not blank, nothing tracks its URL and no title covers it |
| `Import.IssueReturns` | crates/application/src/use_cases/cycle/evict.rs:126-128 | for every titled issue: imported, its ticket rejected and archived, imported again |
| `Import.RestatedIssueReturns` | crates/application/src/use_cases/cycle/escalation.rs:575-577 | for every titled issue: imported, its ticket finished and its description rewritten, imported again |
| `Import.TrackedIssueStays` | crates/application/src/backlog_import.rs:78-159 | an issue some ticket still tracks changes nothing when offered again |
| `Import.RerunImportsNothing` | crates/application/src/backlog_import.rs:215-236 | a run ending below its cap, repeated, imports nothing and leaves the backlog unchanged |
| `Import.RunsConverge` | crates/application/src/backlog_import.rs:17-20 | with any cap above zero, runs over the same drafts stop changing the backlog after at most drafts/cap + 1, and then every draft is blank, tracked, covered by a title, or the same issue as a covered one |
| `Screening.StripCleans` | crates/application/src/brief_screening.rs:142-166 | stripping leaves nothing hidden and does not touch clean text |
| `Screening.ShippedIsWellFormed` | crates/application/src/brief_screening.rs:92-136 | no shipped pattern contains a newline |
| `Screening.PatternIsLineLocal` | crates/application/src/brief_screening.rs:170-196 | a one-line pattern occurs in joined lines exactly when it occurs in one of them |
| `Screening.ScreenIsLineLocal` | crates/application/src/brief_screening.rs:170-196 | text trips an override or forged-marker rule exactly when some line of it does |
| `Screening.ExternalDeliveryIsClean` | crates/application/src/brief_screening.rs:234-303 | clean external text is delivered as it is, of other text only lines that together match no rule; a line is withheld exactly when an injection rule tripped; everything is withheld only if every line trips |
| `Screening.PersistedNoteIsStable` | crates/application/src/brief_screening.rs:417-438 | a persisted note matches no rule and passes a second screening unchanged |
| `Screening.ScreenNotes` | crates/application/src/brief_screening.rs:452-467 | the kept notes in order, and in order exactly the notes with a reason as dropped |
| `Screening.ScreeningNotesTwice` | crates/application/src/brief_screening.rs:452-467 | screening the kept notes again keeps them all |
| `Scoping.SprintCapacity` | crates/application/src/backlog_scoping.rs:93-115 | never below three seats |
| `Scoping.CapacityTracksDelivery` | crates/application/src/backlog_scoping.rs:93-115 | bounds on the last five sprints bound the capacity from both sides |
| `Scoping.ScopeExactly` | crates/application/src/selection.rs:75-94 | the burn-down scope lists, once each, exactly the open bugs before or blocking the next feature |
| `Scoping.Fill` | crates/application/src/backlog_scoping.rs:50-82 | one filling loop: eligible tickets in backlog order until the seats are gone, an empty seat only if none is left |
| `Scoping.OpenBacklog` | crates/application/src/backlog_scoping.rs:19-84 | distinct ids, seat and scope included, size at most max(capacity, seat + scope), extra work only after every eligible bug, empty seats only when nothing is left |
| `WordMatch.WordMatches` | crates/application/src/codegraph.rs:446-460 | terminates; true only for a whole-word occurrence, and for every one of a safe name |
| `WordMatch.ScanExactForSafeNames` | crates/application/src/codegraph.rs:446-464 | exact on every line if and only if no self-overlap of the name starts after a non-identifier byte |
| `WordMatch.IdentifiersAreExact` | crates/application/src/codegraph.rs:446-464 | exact for every name made of identifier bytes |
| `WordMatch.HidingWord` | crates/application/src/codegraph.rs:446-464 | for every other name a line whose whole word is missed |
| `Hygiene.Plan` | crates/application/src/backlog_hygiene.rs:54-99 | its three lists name exactly the selected tickets, without repetition and pairwise disjoint |
| `Hygiene.RejectGroup` | crates/application/src/backlog_hygiene.rs:66-82 | pairs exactly the rejected members of a title group with its keeper |
| `Hygiene.RejectDuplicates` | crates/application/src/backlog_hygiene.rs:56-82 | exactly the younger idle twins, each with the oldest |
| `Hygiene.SortHeld` | crates/application/src/backlog_hygiene.rs:83-97 | held, childless, unrejected tickets: resumed, or reported if bugs |
| `Hygiene.KeeperExists` | crates/application/src/backlog_hygiene.rs:66-82 | every grouped ticket has an unrejected twin that is no younger |
| `Hygiene.RejectedForOlder` | crates/application/src/backlog_hygiene.rs:66-82 | a rejected ticket points at a live unrejected one of the same title, no younger |
| `Hygiene.TitlesSurvive` | crates/application/src/use_cases/cycle/hygiene.rs:118-148 | after a pass no title has lost its last live ticket |
| `Hygiene.PassSettlesExactly` | crates/application/src/use_cases/cycle/hygiene.rs:104-148 | the plan after a pass rejects nobody if and only if at most thirty were to be rejected and the transition table allows each, resumes nobody if and only if at most thirty were to be resumed, and reports the same held bugs |
| `Hygiene.FixedTwinPlannedAgain` | crates/application/src/use_cases/cycle/hygiene.rs:129-145 | a younger twin that is a fixed bug: its rejection is refused and the next plan names it again |
| `Sorting.StableSort` | crates/application/src/backlog_hygiene.rs:70-72 | the same positions, ordered by key and then by position |
| `Sorting.StrictlySortedUnique` | crates/application/src/deps_scan.rs:295-296 | a strictly sorted sequence is determined by its elements |
| `Fleet.FleetToday` | crates/presentation/src/server/fleet_spend.rs:191-214 | the total is the sum of one row per project; stale and unreadable counters are zero |
| `Fleet.Watchdog` | crates/presentation/src/server/fleet_spend.rs:222-266 | a notice at exactly the polls that find the fleet entering the warning band |
| `Fleet.NoticeNamesSomebody` | crates/application/src/fleet.rs:370-391 | a notice names nobody only if there is no project; with a positive percentage it names at least one, and only projects that burned money |
| `Fleet.OncePerStretch` | crates/application/src/fleet.rs:315-340 | exactly one notice in each maximal stretch in the band, at its first poll, none outside |
| `Fleet.OneNoticeADayExactly` | crates/application/src/fleet.rs:322-323 | at most one notice a day, and exactly one if and only if the day ends in the band and its first poll or the one before was outside |
| `Fleet.SilentDay` | crates/application/src/fleet.rs:322-323 | a day above the line without a notice |
| `Fleet.RollUpConserves` | crates/application/src/fleet.rs:262-298 | in all three spend columns the space rows and the unlisted projects add up to the fleet's totals |

## Left out

- Import.MintIsFreshExactly: the count wraps, as in a build without overflow checks; a build with them aborts instead.
- Import.MergePending: token similarity and the ceremony rule of `duplicates_existing` are one parameter on normal forms; the thresholds are not modelled.
- WordMatch.WordMatches: takes non-empty names, as the length guard in `references` (`codegraph.rs:476`) ensures.
- Lessons.BootsConverge: takes a shipped list with distinct ids and texts no longer than the prompt cap, as the shipped list is, and no other writer between boots.
- Lifecycle.EndsWithoutRejections: with a cold store the runs are those in which nobody is rejected; the runs with rejections are those of `Rejection`. Operator take-over and hand-merged pull requests are in neither, and are shown to break the result. Roles, the definition-of-ready and coverage checks, sprint scope (of claims and of the archive), service pools, new tickets and edits of dependencies are not modelled: a run may be one in which they allow the step.
- Rejection.ReleasableExactly: leaves open the state in which a needed, gated ticket without a lasting subtask has one that must itself pass the gate (`Rejection.Corner`); there only the half "held, hence never" is proved. Without cycles, unknown ids and stray tickets that state is decided too, by `Rejection.ValidatedReleasesExactly`.
- Shims: the script text, the legacy directory rewrite and file-system errors other than refused removals.
- Hygiene.PassSettlesExactly: child flags are fixed between the two plans.
- Screening: lower-casing is a per-character parameter that neither makes nor takes newlines; banner and preamble wording, provenance tags and the operator messages are not modelled.
- LockScan: the Cargo, npm and Poetry lockfile parsers are a parameter.
- DepsScan: timestamps and provenance of evidence are dropped.
- Fleet: floating-point rounding and NaN, headroom, cap bands, counts, the seven-day window and the order of the cockpit's rows.
- Radar: `blocked_by` and `dependency_graph`, which list direct dependencies and edges and would add easy members only.
- Selection: the order within a lane and the design, UX and documentation queues.
- Title folding to lower case in the hygiene plan is a parameter.
- Codegraph indexing, tree-sitter parsing, persistence, prompts, servers, clocks and process plumbing.
