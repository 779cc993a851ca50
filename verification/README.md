# Verified models of seven components

This project models the parts of the repository whose correctness depends on
whole runs, whole texts or whole trees, and proves what they are for.

| component | source | Dafny files |
|---|---|---|
| import-graph index, its cold build and its watcher | `scripts/build-code-graph.ts` | `ImportGraph`, `ImportGraphInvariants`, `ImportGraphLists`, `ColdBuild`, `SkipRate`, `CodeGraphWatcher` |
| event scheduler of the watcher, and both together | `scripts/build-code-graph.ts` | `DebounceQueue`, `DebounceWindow`, `WatcherPipeline` |
| migration runner, sequential and as a protocol | `scripts/migrate.ts` | `MigrationProtocol`, `MigrationRunner` |
| skill parameters: text format and schema | `shared/skillParameters.ts` | `Text`, `SkillParameters`, `SkillParameterRoundTrip`, `SkillParameterSpelling`, `SkillSchema`, `SkillSchemaLaws` |
| CSV export and import | `scripts/export-system-agents.ts`, `scripts/import-system-agents.ts` | `Csv`, `CsvTexts` |
| agent hierarchy sort and two-pass activation | `scripts/seed.ts` | `AgentHierarchy`, `AgentActivation`, `AgentActivationLaws`, `AgentActivationOutcome`, `AgentSeed` |
| deep diff of the action registry | `scripts/diff-action-registry.ts` | `DeepDiff`, `DeepDiffLaws` |
| charge and run status machines | `shared/stateMachineGuards.ts`, `shared/runStatus.ts`, the trigger of migration 0271 | `ChargeMachine`, `RunMachines` |

Code that changes state in place (the watcher, the scheduler, the migration
loop, the character loop of the CSV reader, the breadth-first sort, the two
activation passes, the diff accumulator) is written as classes and methods with
loops.  Each is tied by its `ensures` to a function of its inputs or of the old
state, and the laws are lemmas about those functions.

How the outside world appears: a file is a path with an optional text (`None`
when it cannot be read); hashing and extraction are two arbitrary functions, the
hash injective where a law needs it; the database is a table value whose writes
are refused when they break an index; a migration file either works or does not,
as an arbitrary predicate says.

## What the proofs show

- **The index, soundness.** Reverse edges stay sound in every run if and only if they
  are sound at the start and each recorded edge is among the imports that the cache
  remembers for its source.  A completed cold build leaves such a start.  A build that
  the skip check stops (`scripts/build-code-graph.ts:573-575`) leaves new shards beside
  the old cache, and watch-only mode starts on them; so does a cache file of another
  version.  There the edges stay sound for good only if the old cache already knew every
  import between two results; otherwise deleting the importer leaves its edge recorded
  (`StoppedBuildLeavesStaleEdge` is the smallest case).
- **The index, completeness.** From any start, a reverse edge is missing after a run
  exactly when it was not recorded at the start, or its target was inserted by the run,
  and it has been claimed ever since.  From a complete start with shards and cache in
  agreement this says: the edges are complete exactly when no entry has named another
  ever since that one was inserted by the run; an event breaks completeness exactly when
  it inserts a path that some entry, or the new entry itself, already names.  The comment
  at `scripts/build-code-graph.ts:997-1002` says that atomic saves arriving as
  unlink and add are handled correctly; when the two arrive in different batches
  the code drops every reverse edge into the file (`DeleteThenAddLosesEdges`).
- **The index, lists.** An importer that becomes recorded is listed once, at the end, and
  no other is listed more often than before.  The watcher never repeats an importer of its
  own; what the cold build listed twice, for a file that imports a path twice, stays until
  that edge goes.
- **The skip check** stops the build exactly when in some directory more than one file in
  twenty can neither be reused nor extracted.
- **Scheduler and index together.** In every interleaving, once nothing is pending for a
  path, one event decides its record: the last one scheduled for it.  When the last
  events saw the final files, cache, paths, imports and exports are those of a cold
  build over the final files, and the reverse edges are too, exactly under the condition
  above.
- **Skipping on an equal hash** is the same as reprocessing when the cache is
  honest and the two reads of an event agree.  The watcher reads a file twice,
  once for the hash and once for extraction; if they differ, the record matches
  neither, and later events with the hashed content are skipped
  (`TornReadSticks`).
- **The scheduler** never strands an event, although a timer may fire while
  processing and the `finally` block may overwrite a live handle.  The window starts
  with the first pending event in every run; unless a batch is being processed, the
  tenth pending path within 500 ms of it hands everything over at once.
- **The migration runner.** Mutual exclusion, no double commit and success
  meaning applied hold for arbitrary directories.  The prefix property needs a
  directory that only grows at its end; `OrderAfterCompleteRun` says exactly
  when a run leaves the log in directory order.
- **The skill parameters.** Formatting then parsing returns the list exactly when
  every parameter is well formed, which every parsed one is, so format-after-parse
  is an idempotent normaliser on all texts.  Besides the printed form, many spellings
  are read: blanks, CRLF ends, three dashes or none, any case of `(required)`, untidy
  enum lists.  The schema round trip holds exactly when the names are in the key order
  of a JavaScript object and no enum list is missing, empty or attached to another
  type; the reverse one exactly for schemas in the form the conversion writes.
- **The CSV pair.** What the reader makes of a text is known for every text: each one is
  lines of cells of plain and quoted pieces, a last line without an end and perhaps a
  quote that stays open, and the rows are the pieces' texts.  The encodings of RFC 4180
  section 2 are among them, and the writer's is one of these.  The round trip holds
  exactly when the table has a row and none is without fields; a final line without a
  line end is dropped exactly when all its cells are empty.
- **The activation** writes to two subaccounts, and each write can end the seed.  From
  empty ones it goes through exactly when at most one activated agent has no activated
  parent and, if some agent is org-scoped, asking for the org subaccount does not throw
  and, once it is opened, only one agent is; then it mirrors the hierarchy.  Two
  org-scoped agents clash in the org subaccount, since both links are written active and
  on top (`TwoOrgAgentsRefused`).  The script opens no org context, which
  `ensureOrgSubaccount` needs (`server/lib/orgScopedDb.ts:37-55`), so there the first
  org-scoped agent ends the seed (`OrgContextMissing`).  From any links of the seeded
  subaccount whose active roots are the root's, with agents in sorted order whose chains
  reach one root, the seed goes through exactly when the org subaccount allows it; then
  every row of both is determined, and a second seed changes nothing.  When the
  first pass stops at an agent, there is no second pass, both tables are as the first
  leaves them there, and no later agent's rows are touched.
- **The deep diff** reports nothing exactly when the values agree up to object
  keys holding `undefined`; on values without `undefined` its list is a
  patch, and no entry can be left out.
- **The charge guard** accepts what the database trigger accepts, transition by
  transition; an unset caller passes the trigger only where every caller does.
- **The run guard** refuses changes out of terminal statuses and to unknown ones, and
  accepts every other.

## Model

| member | source | states |
|---|---|---|
| ImportGraphInvariants.UnlinkedAt | scripts/build-code-graph.ts:841-860 | what every path looks like after a deletion: presence, imports, exports and each reverse edge |
| ImportGraphInvariants.UpdatedAt | scripts/build-code-graph.ts:879-913 | what every path looks like after an extraction: an edge is recorded just when x gained the import, or it was recorded and x did not drop the import |
| ImportGraphInvariants.StepKeepsInv | scripts/build-code-graph.ts:835-914 | after any one event, reverse edges are sound and shards and cache hold the same paths with the same imports and exports |
| ImportGraphInvariants.RunKeepsTracked | scripts/build-code-graph.ts:826-914 | from any start whose edges are sound and remembered by the cache, they stay so over every sequence of adds, changes, deletions, failed reads and failed extractions |
| ImportGraphInvariants.UncoveredEdgeOutlivesSource | scripts/build-code-graph.ts:841-854 | an edge that the cache does not remember stays recorded when its source is deleted |
| ImportGraphInvariants.UncoveredLoopOutlivesImport | scripts/build-code-graph.ts:889-910 | such an edge from a file to itself stays recorded when the file drops the import |
| ImportGraphInvariants.SoundnessIsCoverage | scripts/build-code-graph.ts:826-914 | the starts from which no run can make a reverse edge wrong are exactly those whose edges are sound and remembered by the cache |
| ImportGraphInvariants.RunKeepsInv | scripts/build-code-graph.ts:826-914 | from shards and cache in agreement and sound edges, both stay so over every sequence of events |
| ImportGraphInvariants.MissingAfterUnlink | scripts/build-code-graph.ts:841-860 | a deletion creates no missing edge and removes those at its path |
| ImportGraphInvariants.MissingAfterUpdate | scripts/build-code-graph.ts:889-913 | which reverse edges are missing after an extraction, from which were missing before |
| ImportGraphInvariants.MissingAfterStep | scripts/build-code-graph.ts:841-913 | after any event an edge is missing exactly when both ends are there and its target was just inserted or it was missing before |
| ImportGraphInvariants.StepKeepsComplete | scripts/build-code-graph.ts:900-912 | an event keeps the index complete if and only if it does not insert a path that some entry or the new entry itself already names |
| ImportGraphInvariants.RunKeepsComplete | scripts/build-code-graph.ts:826-914 | without such an insertion the index stays complete over the whole run |
| ImportGraphInvariants.MissingAfterRun | scripts/build-code-graph.ts:826-914 | from a complete start, an edge is missing after a run if and only if its target was inserted during the run and named by the importer ever since |
| ImportGraphInvariants.CompleteAfterRun | scripts/build-code-graph.ts:826-914 | the index is complete after a run if and only if there is no such pair |
| ImportGraphInvariants.OverlookedAfterRun | scripts/build-code-graph.ts:889-910 | from any start, an import that the cache remembers is unrecorded after a run if and only if it was so at the start, or its target was inserted, and the cache has claimed it ever since |
| ImportGraphInvariants.MissingFromAnyStart | scripts/build-code-graph.ts:826-914 | from any start, an edge is missing after a run if and only if it was unrecorded at the start, or its target was inserted during the run, and it has been claimed ever since: by the cache if the run changed the importer's entry, else by the shards |
| ImportGraphInvariants.DeleteThenAddLosesEdges | scripts/build-code-graph.ts:841-912 | a deletion and, any events of other paths later, an insertion of the same path leave every file that imports it by then missing from its importedBy |
| ImportGraphInvariants.SkipIsReprocess | scripts/build-code-graph.ts:873-877 | with an honest cache, an injective hash and agreeing reads, skipping on an equal hash gives the state that full reprocessing gives |
| ImportGraphInvariants.StepKeepsHonest | scripts/build-code-graph.ts:863-912 | when the two reads of an event agree, cached hashes go on matching the content the imports came from |
| ImportGraphInvariants.HonestAfterRewrite | scripts/build-code-graph.ts:872-912 | the record written from two reads is honest exactly when both reads extract to the same |
| ImportGraphInvariants.TornReadSticks | scripts/build-code-graph.ts:863-877 | after two differing reads, the entry holds the imports and exports of the second, not those of the hashed content if their extractions differ, and a later event with the hashed content changes nothing |
| ImportGraphInvariants.StepSettles | scripts/build-code-graph.ts:841-914 | a deletion or a readable, extractable event determines the record of its path, whatever was there |
| ImportGraphInvariants.RunKeepsRecord | scripts/build-code-graph.ts:835-914 | a run without an event for a path leaves that path's record alone |
| ImportGraphInvariants.LastEventWins | scripts/build-code-graph.ts:835-914 | after a run, a path's record is the outcome of its last event |
| ImportGraphLists.ShardForMeaning | scripts/build-code-graph.ts:774-779 | a path has the shard of the one of the three directories it lies under, and none otherwise |
| ImportGraphLists.IdleEvent | scripts/build-code-graph.ts:835-880 | the events that leave the index alone are exactly those outside these directories and the saves that are unreadable, of the cached content or not extractable |
| ImportGraphLists.WithoutMeaning | scripts/build-code-graph.ts:849 | filtering one importer out keeps every other as often as it was listed |
| ImportGraphLists.ListAfterStep | scripts/build-code-graph.ts:841-912 | after any event of x, the importedBy list of a remaining path is as it was, or has x new at its end, or is as it was without x; that of an inserted path is empty |
| ImportGraphLists.CountAfterStep | scripts/build-code-graph.ts:841-912 | after any event, an importer that became recorded is listed exactly once, and every other recorded one as often as before |
| ImportGraphLists.RunKeepsNoRepeats | scripts/build-code-graph.ts:899-907 | from lists without repetition, every run leaves lists without repetition |
| ImportGraphLists.CountAfterRun | scripts/build-code-graph.ts:826-914 | from any start, after any run an importer is listed never, once, or as often as at the start |
| ImportGraphLists.LengthIsCount | scripts/build-code-graph.ts:790-800 | without repetition the length of importedBy, which ranks the files, is the number of importers |
| WatcherPipeline.LastDecides | scripts/build-code-graph.ts:835-914 | after a run, a path's record is the outcome of its last event, or as it was before that event if that neither deleted nor extracted |
| WatcherPipeline.LastScheduledDecides | scripts/build-code-graph.ts:957-990 | in every interleaving of scheduler and timers, once nothing is pending for a path, its record is decided by the last event scheduled for it |
| WatcherPipeline.CaughtUpIsRebuilt | scripts/build-code-graph.ts:826-990 | with an empty queue and last reads that saw the final files, the cache and all paths, imports and exports are those of a cold build over the final files; the reverse edges are the same sets exactly when no file has been named by another ever since it was inserted |
| ColdBuild.PushesMeaning | scripts/build-code-graph.ts:304-310 | one file is pushed once for each occurrence of a path among its imports |
| ColdBuild.ImportersMeaning | scripts/build-code-graph.ts:304-310 | as a set, the list for a path holds exactly the files that import it |
| ColdBuild.ImportersCount | scripts/build-code-graph.ts:304-310 | a file is listed under a path as often as it imports it |
| ColdBuild.WalkOrder | scripts/build-code-graph.ts:479-500 | all files are those of server, client and shared, in this order |
| ColdBuild.BuildImportedBy | scripts/build-code-graph.ts:293-314 | the built index has a key for each file and each import, and under it the importers in file order, duplicates kept |
| ColdBuild.ExtractFromProject | scripts/build-code-graph.ts:198-287 | the results and the skip list as functions of files and prior cache |
| ColdBuild.ResultOrSkipped | scripts/build-code-graph.ts:207-284 | each walked file ends in exactly one of results and skip list |
| ColdBuild.CacheInvisible | scripts/build-code-graph.ts:224-233 | the results equal those of a build without cache if and only if no reused record disagrees with its file |
| ColdBuild.HonestCacheInvisible | scripts/build-code-graph.ts:224-233 | an honest cache, stale and dead records included, changes neither results nor skip list |
| ColdBuild.RecalledIsProper | scripts/build-code-graph.ts:481-500 | whatever the cache holds, the results have distinct paths, each in a top directory |
| ColdBuild.BuiltIsExact | scripts/build-code-graph.ts:504-544 | a freshly built graph is sound, in agreement with its cache, and misses no reverse edge |
| ColdBuild.CleanIsHonest | scripts/build-code-graph.ts:528-530 | the cache saved by a build holds only honest records |
| ColdBuild.ShardsUnderCache | scripts/build-code-graph.ts:532-577 | freshly built shards beside any cache are sound and complete, and stay sound in every run if and only if the cache knows every import between two results |
| ColdBuild.StoppedBuildLeavesStaleEdge | scripts/build-code-graph.ts:573-577 | two files, one importing the other, shards written and no cache: deleting the importer leaves its edge recorded |
| ColdBuild.AgreesWithRebuild | scripts/build-code-graph.ts:293-314 | for a sound graph, every importedBy equals as a set what buildImportedBy computes from the current imports if and only if no edge is missing |
| ColdBuild.WatcherMatchesRebuild | scripts/build-code-graph.ts:826-914 | after a cold build over any prior cache and any run of events, the reverse edges are sound, and they equal a rebuild exactly when no entry has named another ever since the run inserted it |
| CodeGraphWatcher.RunColdBuild | scripts/build-code-graph.ts:456-577 | the shards and the saved cache on disk are exactly those of the results, no dead path left; the cache is saved if and only if in each non-empty directory at most a twentieth of the files can neither be reused nor extracted, and otherwise the new shards stand beside the cache file as it was |
| CodeGraphWatcher.ExtractAll | scripts/build-code-graph.ts:494-500 | directory by directory gives the results of all walked files at once |
| CodeGraphWatcher.PruneAndUpdate | scripts/build-code-graph.ts:519-530 | from any prior cache, the new one has exactly the listed paths and their records |
| CodeGraphWatcher.AssembleEntries | scripts/build-code-graph.ts:508-517 | each result becomes an entry with its reverse edges |
| CodeGraphWatcher.WriteShards | scripts/build-code-graph.ts:532-546 | the shard of a directory holds exactly the entries whose path lies in it |
| CodeGraphWatcher.SaveShards | scripts/build-code-graph.ts:534-546 | every shard file is readable afterwards and holds its shard |
| CodeGraphWatcher.SkipRateAcceptable | scripts/build-code-graph.ts:556-573 | fails exactly when some non-empty directory has more than a twentieth of its files on the skip list; `SkipRateMeaning` says which files these are |
| SkipRate.InDirCount | scripts/build-code-graph.ts:562-566 | the skipped paths counted for a directory are those that lie in it, each once |
| SkipRate.SkipRateMeaning | scripts/build-code-graph.ts:556-573 | no directory is over the threshold if and only if in each non-empty one twenty times the number of its unusable files is at most the number of its files |
| CodeGraphWatcher.DropStep | scripts/build-code-graph.ts:847-851 | one filter in place is the removal for one more target |
| CodeGraphWatcher.AddStep | scripts/build-code-graph.ts:902-904 | one guarded push in place is the addition for one more target |
| CodeGraphWatcher.Watcher.constructor | scripts/build-code-graph.ts:680-690 | start-up loads each readable shard file and the cache file; an unreadable shard, and an absent, unreadable or outdated cache, load as empty |
| CodeGraphWatcher.Watcher.DropFromTargets | scripts/build-code-graph.ts:890-898 | removes x from the reverse edges of the dropped imports, and names every shard it changed |
| CodeGraphWatcher.Watcher.AddToTargets | scripts/build-code-graph.ts:899-907 | adds x once, at the end, to the reverse edges of the new imports that lack it, and names every shard it changed; `ImportGraphLists.CountAfterStep` says what that does to the lists |
| CodeGraphWatcher.Watcher.HandleUnlink | scripts/build-code-graph.ts:841-860 | the state is that after a deletion, and every changed shard is reported |
| CodeGraphWatcher.Watcher.HandleRewrite | scripts/build-code-graph.ts:882-914 | the state is that after an extraction, and every changed shard is reported |
| CodeGraphWatcher.Watcher.HandleEvent | scripts/build-code-graph.ts:835-915 | the state is one step of the specification; a shard is reported exactly when the event is not dropped, and without one nothing changed, cache included |
| CodeGraphWatcher.Watcher.FlushShards | scripts/build-code-graph.ts:781-786 | exactly the named shard files take the contents in memory |
| CodeGraphWatcher.Watcher.ProcessEvents | scripts/build-code-graph.ts:826-922 | the state is the run of the batch, each invariant that held is kept, and a process that starts now would load from disk what is in memory; `ImportGraphLists.RunKeepsNoRepeats` covers repetition |
| CodeGraphWatcher.BuildThenWatch | scripts/build-code-graph.ts:456-690 | a build followed by start-up gives a flushed, sound and complete watcher from any prior cache, and that of a build without cache from an honest one |
| CodeGraphWatcher.BuildThenWatchOnly | scripts/build-code-graph.ts:573-690 | a watcher started on whatever the build left is sound and complete; its edges stay sound in every run if and only if the build completed or the old cache knew every import between two results |
| DebounceQueue.PutMeaning | scripts/build-code-graph.ts:977 | setting a pending event replaces that path's event only |
| DebounceQueue.ActKeepsOk | scripts/build-code-graph.ts:952-990 | schedule, timer and end of processing keep the scheduler's invariant |
| DebounceQueue.NeverStranded | scripts/build-code-graph.ts:957-990 | in every interleaving, pending events imply that processing runs or a timer is live |
| DebounceQueue.OneBatchInFlight | scripts/build-code-graph.ts:958-967 | at most one batch is in flight, and processing runs exactly then |
| DebounceQueue.AnyTimerHandsOverAll | scripts/build-code-graph.ts:957-966 | when idle, any live timer hands over all that is pending |
| DebounceQueue.FinishThenFireHandsOverAll | scripts/build-code-graph.ts:967-973 | one end of processing and one timer hand over all that is pending, and there is such a timer |
| DebounceQueue.HandedCoalescesScheduled | scripts/build-code-graph.ts:961-974 | for each path, the events handed over are a subsequence of those scheduled; with an empty queue the last handed over is the last scheduled |
| DebounceQueue.EventScheduler.DrainQueue | scripts/build-code-graph.ts:957-967 | hands over all pending events, or none while processing |
| DebounceQueue.EventScheduler.ScheduleProcess | scripts/build-code-graph.ts:973-990 | a scheduled event replaces its path's pending one, and the queue is drained at once or a timer is set |
| DebounceQueue.EventScheduler.TimerFired | scripts/build-code-graph.ts:970-989 | a timer is spent and drains, or does nothing but be spent while processing |
| DebounceQueue.EventScheduler.ProcessingDone | scripts/build-code-graph.ts:967-973 | the end of processing sets a timer exactly when events are pending |
| DebounceWindow.PutOrder | scripts/build-code-graph.ts:977 | a pending path keeps its place when its event is replaced, a new one comes last |
| DebounceWindow.ScheduleIdle | scripts/build-code-graph.ts:976-991 | while idle, an event that makes ten or more pending paths less than 500 ms after the window started hands over everything and closes the window; any other waits for a timer of its own |
| DebounceWindow.ScheduleBusy | scripts/build-code-graph.ts:976-991 | while a batch is processed an event only becomes pending, in a window that stays open; over the bulk threshold it leaves no timer |
| DebounceWindow.ScheduleRenewsTimer | scripts/build-code-graph.ts:981-989 | an event clears the timer the variable holds, sets at most one, and leaves all others |
| DebounceWindow.FireSpendsTimer | scripts/build-code-graph.ts:957-966 | a timer that fires is spent; while processing that is all, otherwise the window is closed and processing starts exactly when something is pending |
| DebounceWindow.FinishLeavesQueue | scripts/build-code-graph.ts:967-973 | the end of processing leaves pending events and window alone, and timers too when nothing is pending |
| DebounceWindow.WindowStartsWithFirstPending | scripts/build-code-graph.ts:957-990 | in every run the window is open exactly while events are pending, and its start is the time of the event that found the queue empty last |
| MigrationProtocol.ActKeepsSafe | scripts/migrate.ts:65-131 | every step of every runner, crashes included, keeps lock, log and phases consistent |
| MigrationProtocol.NeverCommittedTwice | scripts/migrate.ts:92-119 | in every interleaving no migration is committed twice and at most one runner is inside |
| MigrationProtocol.KeyNeverFires | scripts/migrate.ts:70-73 | a runner in its transaction never inserts a file name that is already there |
| MigrationProtocol.SuccessMeansApplied | scripts/migrate.ts:97-119 | a run that ends without failure has every file it listed in the log, and no later step removes it |
| MigrationProtocol.PendingIsRest | scripts/migrate.ts:97-99 | when the log is a prefix of the directory, what is pending is the rest of the listing |
| MigrationProtocol.AppliedIsPrefix | scripts/migrate.ts:93-119 | over a directory that only grows at its end, the log is a prefix of it after every step of every interleaving |
| MigrationProtocol.SuccessMeansUpToDate | scripts/migrate.ts:101-119 | over a fixed directory, once a runner that started during the run ends in success, the log is the directory |
| MigrationProtocol.OrderAfterCompleteRun | scripts/migrate.ts:99-107 | whatever is in the log, applying all that is pending leaves the log in directory order if and only if it was a prefix before |
| MigrationProtocol.OnlyCommitsGrowTheLog | scripts/migrate.ts:65-79 | only a commit changes the log, by the next file of the committing runner |
| MigrationProtocol.OnlyOwnPhaseMoves | scripts/migrate.ts:92-127 | a step moves only its own runner; the lock changes only when taken, given back, or lost in a crash |
| MigrationProtocol.NobodyIsStuck | scripts/migrate.ts:92-131 | the lock holder can always go on, a waiting runner exactly when the lock is free, and a lock that is held has a holder |
| MigrationProtocol.AnyoneCanCrash | scripts/migrate.ts:120-131 | a runner that has not ended can crash at any moment, and the log stays as it was |
| MigrationProtocol.FailureIsReported | scripts/migrate.ts:111-117 | after a failed set-up or file, a lost acknowledgement or a crash, that runner does not end in success, whatever follows |
| MigrationRunner.SortMeaning | scripts/migrate.ts:39 | sorting gives the same names in order, none twice |
| MigrationRunner.SortedIsUnique | scripts/migrate.ts:39 | the order of file names leaves one possible list |
| MigrationRunner.ListingIgnoresReadOrder | scripts/migrate.ts:34-40 | the list holds exactly the plain files named like a migration, sorted, and does not depend on the order the directory was read in |
| MigrationRunner.Database.ApplyMigration | scripts/migrate.ts:65-79 | the file name is recorded if the file works and was not recorded, and otherwise nothing changes |
| MigrationRunner.ApplyAll | scripts/migrate.ts:107-118 | the loop applies the files up to the first that fails, and succeeds exactly when all work |
| MigrationRunner.RunMigrations | scripts/migrate.ts:81-132 | a run applies the working prefix of what is pending and frees the lock, on success, failure and failed set-up alike |
| MigrationRunner.SoloRunIsProtocolRun | scripts/migrate.ts:92-131 | a runner left alone goes through the protocol's steps to exactly the result of the sequential run |
| MigrationRunner.RerunIsNoOp | scripts/migrate.ts:101-104 | with every file applied, a run changes nothing and succeeds |
| MigrationRunner.CrashIsRecovered | scripts/migrate.ts:92-131 | when the lock holder crashes, a fresh runner takes the lock and applies what the log still lacks |
| MigrationRunner.MigrationNameMeaning | scripts/migrate.ts:37 | a migration is named by four digits, an underscore, any text on one line, and `.sql` |
| Text.TrimMeaning | shared/skillParameters.ts:136 | trimmed text has no white space at either end and no character that was not there |
| Text.SpaceCodes | shared/skillParameters.ts:136 | white space is what ECMAScript's `trim` and `\s` take for it, code point by code point |
| Text.TrimSplits | shared/skillParameters.ts:136 | trimming takes blanks away at the two ends and nothing else |
| Text.TrimIgnoresPadding | shared/skillParameters.ts:136 | blanks around a text do not change its trimmed form |
| Text.SplitJoin | shared/skillParameters.ts:185 | splitting at a character undoes joining with it, for parts without it |
| Text.SplitMeaning | shared/skillParameters.ts:185 | joining undoes splitting, and no part holds the separator |
| SkillParameters.ParseParameterSection | shared/skillParameters.ts:184-192 | the parameters of the lines that parse, in order; what a line and a section read is stated by `SkillParameterSpelling` |
| SkillParameters.LineYieldsWellFormed | shared/skillParameters.ts:135-181 | whatever a line holds, a parameter read from it is well formed |
| SkillParameters.SectionYieldsWellFormed | shared/skillParameters.ts:184-192 | the same for every text |
| SkillParameterRoundTrip.EnumListRoundTrip | shared/skillParameters.ts:158 | an enum list printed with commas and spaces is read back |
| SkillParameterRoundTrip.TypeReads | shared/skillParameters.ts:151-166 | the printed type is read back, enum list included, and leaves the rest |
| SkillParameterRoundTrip.LineRoundTrip | shared/skillParameters.ts:135-210 | a printed line is read back as the parameter it came from |
| SkillParameterRoundTrip.FormatRoundTrip | shared/skillParameters.ts:184-210 | parsing the formatted list returns it if and only if every parameter is well formed |
| SkillParameterRoundTrip.NormalisesEveryText | shared/skillParameters.ts:184-210 | for every text, parse after format after parse is parse, and format after parse is idempotent |
| SkillParameterRoundTrip.FormatIsInjective | shared/skillParameters.ts:199-210 | two different well-formed lists print differently |
| SkillParameterSpelling.ReadsEverySpelling | shared/skillParameters.ts:135-181 | a well-formed parameter is read from every spelling of its line: blanks anywhere, the type left out for strings, empty parts in an enum list, `(required)` in any case, three dashes or none |
| SkillParameterSpelling.WhichLinesAreRead | shared/skillParameters.ts:136-147 | a line is read if and only if, trimmed, it is `- `, a name that is not blank, a colon and a rest; the name is what stands before the first colon, trimmed |
| SkillParameterSpelling.RequiredMeaning | shared/skillParameters.ts:169-172 | a rest is marked required exactly when it starts with `(required)`, letters in any case |
| SkillParameterSpelling.PaddingIgnored | shared/skillParameters.ts:136 | blanks around a line never change what is read from it |
| SkillParameterSpelling.SectionConcat | shared/skillParameters.ts:184-192 | the parameters of two texts joined by a line feed are those of the first, then those of the second |
| SkillParameterSpelling.SectionOfLine | shared/skillParameters.ts:184-192 | a text of one line gives its parameter, or nothing |
| SkillParameterSpelling.CrLfSection | shared/skillParameters.ts:185 | a section whose lines end in CRLF reads like the one with LF ends |
| SkillParameterSpelling.PrintedForm | shared/skillParameters.ts:199-208 | the printed line of a required string parameter with a description, character by character |
| SkillParameterSpelling.PrintedEnum | shared/skillParameters.ts:202-204 | that of an enum without description |
| SkillParameterSpelling.FormatConcat | shared/skillParameters.ts:199-211 | one line for each parameter, with a line feed between two |
| SkillSchema.ParametersToSchema | shared/skillParameters.ts:20-44 | the loop builds the properties in the key order of a JavaScript object, and the required names in list order |
| SkillSchema.SchemaToParameters | shared/skillParameters.ts:52-85 | one parameter per property, in object order |
| SkillSchema.PutKeepsOrder | shared/skillParameters.ts:29-39 | assigning a property keeps the object's key order: integer-like keys ascending, then insertion order |
| SkillSchema.SameNumber | shared/skillParameters.ts:29-39 | two integer-like keys with the same number are the same key |
| SkillSchema.RequiredMeaning | shared/skillParameters.ts:40 | the required list names exactly the parameters marked required |
| SkillSchema.SchemaRoundTrip | shared/skillParameters.ts:20-85 | converting to a schema and back returns the list if and only if its names are in object order and enum lists are there exactly for enums and not empty |
| SkillSchema.PlainNamesRoundTrip | shared/skillParameters.ts:20-85 | distinct names, none integer-like or `__proto__`, always round-trip |
| SkillSchemaLaws.IndexMeaning | shared/skillParameters.ts:29-39 | the keys an object orders by number are the written numbers up to 2^32 - 2 |
| SkillSchemaLaws.ObjectOrderMeaning | shared/skillParameters.ts:29-39 | a possible key order: numbers first and ascending, no key twice, no `__proto__` |
| SkillSchemaLaws.LastDefinitionWins | shared/skillParameters.ts:26-39 | of parameters with one name, the last is the property |
| SkillSchemaLaws.ReadsAnySchema | shared/skillParameters.ts:52-85 | what is read from any property, missing parts and unknown types included |
| SkillSchemaLaws.SchemaComesBack | shared/skillParameters.ts:20-85 | reading a schema and writing it again returns it if and only if it has the form the conversion writes |
| Csv.Export | scripts/export-system-agents.ts:63-95 | the text is a header line and a line per agent, each ended by LF |
| Csv.EscapeMeaning | scripts/export-system-agents.ts:35-42 | a missing value is written as nothing; a value is quoted, with every quote doubled, exactly when it holds a quote, a comma, LF or CR |
| Csv.ScanRaw | scripts/import-system-agents.ts:26-75 | the character loop computes the scan of the text |
| Csv.ParseCsv | scripts/import-system-agents.ts:26-93 | the records of the raw rows, none when there are fewer than two |
| Csv.ScanQuoted | scripts/import-system-agents.ts:37-49 | a quoted field, quotes doubled, is read back whatever it holds |
| Csv.ReadsEveryEncoding | scripts/import-system-agents.ts:33-75 | a table comes back exactly from every text whose cells are made of quoted and plain pieces, with LF or CRLF after each row; all encodings of RFC 4180 section 2 are of this form |
| Csv.LastLineWithoutEnd | scripts/import-system-agents.ts:77-81 | a last line without a line end comes back exactly when one of its cells is not empty |
| Csv.UnclosedQuote | scripts/import-system-agents.ts:37-49 | after a quote that is never closed, the rest of the text belongs to the last cell |
| CsvTexts.EveryTextIsRead | scripts/import-system-agents.ts:26-81 | every text, well formed or not, can be cut into lines of plain and quoted pieces, a last line and perhaps an open quote, and its rows are the texts of these, the last row only when one of its cells is not empty |
| CsvTexts.FormIsRead | scripts/import-system-agents.ts:33-81 | however a text is cut that way, the rows are those |
| Csv.LineEndsDoNotMatter | scripts/import-system-agents.ts:58-69 | any choice of CRLF or LF after each exported line gives the same rows |
| Csv.ExportRoundTrip | scripts/export-system-agents.ts:35-95 | the raw rows read from the export are the exported rows if and only if there is a row and none is without fields |
| Csv.NoRowIsEmpty | scripts/import-system-agents.ts:60-69 | the reader never yields a row without fields |
| Csv.RecordMeaning | scripts/import-system-agents.ts:85-92 | for distinct headers, the record has exactly those keys, each with its cell or the empty text |
| Csv.RecordOfMeaning | scripts/import-system-agents.ts:85-92 | for any headers, the keys are the trimmed headers, and each has the trimmed cell of the last header of that name, or the empty text when the row is short |
| Csv.PaddingNeverMatters | scripts/import-system-agents.ts:89 | blanks around a header or a cell never change a record |
| Csv.RowTextsShape | scripts/export-system-agents.ts:36 | a missing value stands for the empty text |
| Csv.ImportOfExport | scripts/import-system-agents.ts:83-93 | for headers distinct when trimmed, the imported records are the exported agents under the trimmed headers with trimmed values, a missing value as the empty text |
| AgentHierarchy.TopoSort | scripts/seed.ts:1122-1146 | terminates with a permutation: first the roots in input order, then the children of each sorted agent in turn, siblings in input order, so parents before children and level by level; then exactly those whose parent chain reaches no root, in input order |
| AgentHierarchy.Reach | scripts/seed.ts:1128-1140 | the loop visits exactly the agents whose parent chain reaches a root: the roots, then the children of each visited agent in turn |
| AgentHierarchy.ClosedHoldsRooted | scripts/seed.ts:1131-1140 | a list with all roots and closed under children holds every agent whose chain reaches a root |
| AgentHierarchy.PushKeepsBfs | scripts/seed.ts:1134-1139 | queueing an unvisited child keeps parents first and levels in order |
| AgentHierarchy.RootMeaning | scripts/seed.ts:1128 | a root has no parent reference, an empty one, or one that no listed agent has |
| AgentHierarchy.ListOrderKept | scripts/seed.ts:1128-1139 | roots and siblings keep their order in the input |
| AgentHierarchy.UnrootedKeepOrder | scripts/seed.ts:1141-1145 | so do the agents whose chain reaches no root |
| AgentActivation.SubaccountLinks.WriteLink | server/db/schema/subaccountAgents.ts:139-141 | a write goes through exactly when at most one active link without parent, and one link per agent, remain |
| AgentActivation.SubaccountLinks.LinkHere | scripts/seed.ts:1288-1368 | one agent's write to the seeded subaccount in the first pass: link refreshed, inserted inactive, or switched off, as the agent's scope and row say |
| AgentActivation.SubaccountLinks.LinkInOrg | scripts/seed.ts:1370-1415 | an org-scoped agent's write to the org subaccount: an existing link is switched on under its parent, a missing one inserted active and on top; nothing without an org subaccount, and the end of the seed without an org context |
| AgentActivation.SubaccountLinks.WireParents | scripts/seed.ts:1484-1496 | the second pass over the inserted links, stopping at the first refused write |
| AgentActivation.ActivateAll | scripts/seed.ts:1283-1496 | both passes over both subaccounts write by write, stopping at the first refused write or failed opening, as `SeedStops` says; both tables fit their indexes afterwards in any case |
| AgentActivationLaws.SortGivesParentEarlier | scripts/seed.ts:1245-1250 | in sorted order, whoever has an activated parent comes after it |
| AgentActivationLaws.FirstStepKeeps | scripts/seed.ts:1418-1480 | one agent's first-pass write to the seeded subaccount is not refused and keeps the one active root on the root's row |
| AgentActivationLaws.SecondStepKeeps | scripts/seed.ts:1484-1496 | one agent of the second pass is not refused and keeps it too |
| AgentActivationLaws.SubaccountNeverRefused | scripts/seed.ts:1418-1496 | after every single write of both passes to the seeded subaccount its index holds: no active link without a parent but the root's |
| AgentActivationLaws.RefreshBeforeParentRefused | scripts/seed.ts:1440-1444 | refreshing a parentless link before its parent is linked, with a root there, is refused |
| AgentActivationLaws.EmptySubaccountExact | scripts/seed.ts:1460-1496 | on an empty subaccount, in any order, both passes' writes to it go through if and only if at most one activated agent lacks an activated parent; then the parent links mirror the hierarchy |
| AgentActivationOutcome.FirstPassPassed | scripts/seed.ts:1418-1480 | after any number of agents' first-pass writes to the seeded subaccount, what each of its rows has become and which rows are new |
| AgentActivationOutcome.ActivationOutcome | scripts/seed.ts:1418-1496 | the seeded subaccount after both passes, from a non-empty table: links that were inserted or had no parent end active under the link of their agent's parent, all others under the parent they had; org-scoped agents' links are off, and every other row is as it was |
| AgentActivationOutcome.OutcomeIsSettled | scripts/seed.ts:1431-1459 | what the passes leave in the seeded subaccount gives a second seed nothing to do there |
| AgentActivationOutcome.SettledIsFixed | scripts/seed.ts:1418-1496 | on such a table both passes' writes to the seeded subaccount, in any order of the agents, go through and change nothing |
| AgentSeed.OrgPassExact | scripts/seed.ts:1357-1413 | from any links of the org subaccount, the org-scoped agents' writes all go through if and only if there is none to make, or there is no org subaccount, or it opens and all active roots there are and will be belong to one agent row |
| AgentSeed.OrgPassOutcome | scripts/seed.ts:1386-1412 | then every org-scoped agent has an active link, under the parent it had or on top, and no other row of the org subaccount changed |
| AgentSeed.OrgIsFixed | scripts/seed.ts:1386-1397 | where those links are all on, the writes go through and change nothing |
| AgentSeed.ActivateSplits | scripts/seed.ts:1283-1496 | the seed goes through if and only if both subaccounts alone would let it, and then does to each what it would do alone |
| AgentSeed.ActivationExact | scripts/seed.ts:1245-1496 | over sorted agents, at every moment of the first pass the seed goes on if and only if the org subaccount accepts the org-scoped agents so far; while it does, and after every write of the second pass, the indexes hold and only the root's link is an active root of the seeded subaccount |
| AgentSeed.EmptyStartExact | scripts/seed.ts:1283-1496 | from empty subaccounts, in any order: goes through if and only if at most one activated agent lacks an activated parent and, if some agent is org-scoped, the org subaccount does not throw and, once opened, only one agent is; then the parent links mirror the hierarchy |
| AgentSeed.TwoOrgAgentsRefused | scripts/seed.ts:1400-1410 | two org-scoped agents and empty tables: the second link to the org subaccount is refused and the seed ends, with the first one's link as the only row |
| AgentSeed.OrgContextMissing | scripts/seed.ts:1357-1372 | without an org context, the first org-scoped agent ends the seed, from any tables: the seeded subaccount is as the first pass leaves it after that agent, and the org subaccount is unchanged |
| AgentSeed.SeedStops | scripts/seed.ts:1283-1482 | at the first agent that either subaccount would not let through, the seed ends: the seeded subaccount is as the first pass leaves it after that agent, the org subaccount as before it, and there is no second pass |
| AgentSeed.SeedStopsSomewhere | scripts/seed.ts:1283-1482 | a first pass that does not go through has such an agent |
| AgentSeed.LaterAgentsUntouched | scripts/seed.ts:1283-1482 | the rows of agents after it are as they were |
| AgentSeed.ActivateBaseline | scripts/seed.ts:1250-1496 | sort, then both passes: succeeds if and only if the org subaccount allows it; then only the root's link is an active root, every row of both subaccounts is as the outcomes say, and settled tables are unchanged |
| AgentSeed.ActivateTwice | scripts/seed.ts:1250-1496 | after a seed that went through, seeding again, with the agents read in another order, goes through and leaves both tables as the first seed did |
| DeepDiff.DeepEqualIsEquality | scripts/diff-action-registry.ts:159-179 | the recursive comparison is structural equality |
| DeepDiff.DiffCollector.CollectDiffs | scripts/diff-action-registry.ts:128-157 | the accumulator grows by exactly the list of differences |
| DeepDiff.DiffCollector.SortKeys | scripts/diff-action-registry.ts:147-148 | the union of the keys, each once, in code-unit order |
| DeepDiff.BeforeMeaning | scripts/diff-action-registry.ts:148 | in that order the first differing character decides, and a text comes before its continuations |
| DeepDiffLaws.EntriesTruthful | scripts/diff-action-registry.ts:148-156 | each entry reports what both values hold at its path, the two differ, and they are not both objects |
| DeepDiffLaws.EntriesApart | scripts/diff-action-registry.ts:148-156 | the report is sorted by path, key by key, and no reported path is a prefix of another |
| DeepDiffLaws.PatchGivesActual | scripts/diff-action-registry.ts:128-157 | at every depth, applying the list to the expected value gives the actual one |
| DeepDiffLaws.ReportIsPatch | scripts/diff-action-registry.ts:128-157 | on values without undefined, the list is a patch and is empty exactly on equal values |
| DeepDiffLaws.ReportIsMinimal | scripts/diff-action-registry.ts:135-156 | leaving out any entry leaves a value that differs from the actual one |
| DeepDiffLaws.NothingReported | scripts/diff-action-registry.ts:135-152 | on all values, nothing is reported exactly when they are equal once object keys holding undefined are dropped |
| DeepDiffLaws.FieldNamesPath | scripts/diff-action-registry.ts:149-156 | the printed field determines the path, for non-empty keys without dots |
| DeepDiffLaws.FieldOfPlainPath | scripts/diff-action-registry.ts:149-156 | the field joins the keys by dots, and is `(root)` for a difference at the top |
| DeepDiffLaws.DottedKeyIsAmbiguous | scripts/diff-action-registry.ts:149 | a key with a dot prints like a path of two keys |
| DeepDiffLaws.EmptyKeyIsAmbiguous | scripts/diff-action-registry.ts:149-156 | a leading empty key does not show: alone it prints like the root, before a key like that key |
| DeepDiffLaws.SameCleanRegistry | scripts/diff-action-registry.ts:74-99 | for JSON values the comparison of registries is equality |
| DeepDiffLaws.DiffRegistry | scripts/diff-action-registry.ts:74-109 | the script passes exactly when slugs and, key by key, entries agree up to undefined |
| ChargeMachine.GuardMirrorsTrigger | migrations/0271_agentic_commerce_schema.sql:305-356 | the guard accepts a transition if and only if the database trigger does |
| ChargeMachine.UnsetCallerIsLeast | migrations/0271_agentic_commerce_schema.sql:336-345 | without a caller the trigger passes exactly what the guard accepts for every caller |
| ChargeMachine.Refusals | shared/stateMachineGuards.ts:301-332 | a write of the same status is accepted, an unknown target is refused as unknown, and the rest is forbidden exactly where the trigger does not pass |
| ChargeMachine.EveryStatusReachable | shared/stateMachineGuards.ts:345-371 | an accepted run leads from proposed to every known status |
| ChargeMachine.LateMoves | shared/stateMachineGuards.ts:345-371 | the webhook alone turns a failed charge into a successful one; every caller can win or lose a dispute, refund, approve and block |
| ChargeMachine.NoMoneyWithoutApproval | shared/stateMachineGuards.ts:345-371 | in every accepted run from proposed, any status from execution on was preceded by approval, and any outcome of the payment by execution |
| ChargeMachine.StepsRise | shared/stateMachineGuards.ts:345-371 | every accepted change raises the rank or moves between succeeded and disputed |
| ChargeMachine.RanksNeverFall | shared/stateMachineGuards.ts:301-332 | the rank never falls along an accepted run |
| ChargeMachine.FailedIsLeftOnce | shared/stateMachineGuards.ts:364-370 | failed is left at most once, for succeeded, by the payment webhook, and never returned to |
| ChargeMachine.FewRises | shared/stateMachineGuards.ts:301-332 | an accepted run holds at most six changes of rank |
| ChargeMachine.FinalIsForGood | shared/stateMachineGuards.ts:372-377 | the four final statuses are exactly those no caller can leave |
| ChargeMachine.StaysKnown | shared/stateMachineGuards.ts:311-319 | from a known status, an accepted run stays among the known ones |
| RunMachines.TerminalIsForGood | shared/stateMachineGuards.ts:171-179 | in all five machines, an accepted run from a terminal status stays there |
| RunMachines.StuckIsTerminal | shared/stateMachineGuards.ts:156-180 | in all five machines, a status has no accepted change if and only if it is terminal |
| RunMachines.Transitions | shared/stateMachineGuards.ts:156-180 | from a status that is not terminal exactly the known statuses and the status itself are accepted; from a terminal one only itself; an unknown target other than the status itself from none |
| RunMachines.LiveStatuses | shared/stateMachineGuards.ts:34-104 | which statuses a run of each machine can still leave, and in which it can end |
| RunMachines.StaysKnown | shared/stateMachineGuards.ts:161-169 | in all five machines, an accepted run from a known status stays among the known ones |
| RunMachines.OneTerminalStatus | shared/stateMachineGuards.ts:156-180 | an accepted run visits at most one terminal status |
| RunMachines.TerminalIsKnown | shared/stateMachineGuards.ts:34-104 | in all five machines the terminal statuses are among the known ones |
| RunMachines.BucketsPartition | shared/runStatus.ts:16-60 | in-flight, awaiting and terminal partition the agent-run statuses |

## Left out

- ts-morph, chokidar, proper-lockfile, SHA-256 and the file system: extraction and hashing are arbitrary functions, a read is an optional text.
- Dependence of a file's extraction on other files: extraction is a function of path and content, while the code documents an eventual-consistency window for aliases (`scripts/build-code-graph.ts:729-735`).
- `project-map.md`, line counts, the skip log and the topology check that decides on regeneration.
- The `importedBy` field of cached entries: it goes stale through aliasing (`scripts/build-code-graph.ts:849`), and no later code reads it.
- Failing writes of shard and cache files in the middle of a flush.
- CodeGraphWatcher.Watcher.ProcessEvents: assumes that every loaded shard entry is filed under its own directory; hand-edited shard files are not modelled.
- Shard and cache files that parse but have no `files` or hold records of another shape.
- ImportGraphInvariants.MissingAfterRun: starts from shards and cache in agreement, as a completed build leaves them; `MissingFromAnyStart` is the law for other starts.
- Order and repetition in `importedBy` when the watcher is compared with a rebuild: they are compared as sets, since a rebuild lists importers in file order and as often as they import, and the watcher in the order of its events and once (`ListAfterStep`, `CountAfterStep`).
- WatcherPipeline.CaughtUpIsRebuilt: assumes that each path's last event saw a final file that can be extracted; for one that cannot, the watcher keeps the old entry where a cold build lists none.
- ImportGraphInvariants.LastEventWins: needs agreeing reads, an honest cache and an injective hash; without them `TornReadSticks` shows it fail.
- Real time in the scheduler: timers fire in any order at any moment, so the proofs cover every delay.
- Path handling: lower-casing of drive letters and separators on Windows.
- MigrationRunner.RunMigrations: `localeCompare` is an arbitrary total order without ties between different names; the pool, the extension bootstrap and the messages are one set-up step that works or fails.
- MigrationProtocol.AppliedIsPrefix: needs a directory that only grows at its end; a file added in the middle is applied after later ones, as `OrderAfterCompleteRun` shows.
- MigrationProtocol.SuccessMeansApplied: a migration that edits `schema_migrations` or commits by itself is not modelled.
- Text is a sequence of Unicode characters: lone surrogates and UTF-16 code units are not modelled, which matters only for the sort order of keys beyond the basic plane.
- `buildToolDefinition` and `isValidToolDefinitionShape`: a record built and a few type tests.
- Csv.RecordMeaning: the header `__proto__`, which an object literal does not store, is treated like any other header.
- The conversion of database values to text before export and of text to database values after import.
- AgentActivation.ActivateAll: the upsert of the org-level agent row is a function from slugs to rows; the seeded subaccount is not itself the org subaccount; the columns other than agent, activity and parent are not modelled.
- The deactivation of retired system agents before the sort (`scripts/seed.ts:1200-1243`).
- AgentActivationLaws.SubaccountNeverRefused: assumes that chains of activated agents reach a root, that all activated agents without an activated parent share one row, and that any active root at the start is on it; links whose parent is stale but present are kept as they are, as the code does.
- DeepDiff.DeepEqualIsEquality: numbers are reals, without NaN and the two zeros; keys such as `toString` that an object inherits are treated as missing.
- The column allow-list of the charge trigger and its rule for updates without a status change.
- Adapters, server, client and configuration tables; `scripts/registrySerialiserPure.ts`, `scripts/code-graph-health-check.ts` and `scripts/convert-skills-to-new-format.ts`.
