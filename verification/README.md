# Crash-safe protocols of the memory server: a verified model

This project models the file-backed protocols of the memory server in Dafny and proves what they
guarantee when any write can fail, before or after it took effect, and when the program can stop
between any two steps. The disk is a value: maps from names to contents. Digests are collision-free
functions, and encoding followed by decoding is the identity. Every operation of the catalog, the
installer, the budget, the fact sweep, the review store, the migration and the report runner is a
method that changes its object as the program changes its files. A specification function says what
the method did, and the theorems are about that function and about whole runs of it. The run history,
where writers, recoverers and readers work at the same time, is a state machine over single steps.

| modules | what they are about |
|---|---|
| `Options`, `Faults` | a value that may be missing; what can become of a durable write |
| `CatalogTypes`, `CatalogJournal` | catalog entries, generations, the intent and receipt journal, every operation as a list of durable writes |
| `CatalogInvariant`, `CatalogSteps`, `CatalogTheorems` | the invariant of the catalog directory, why every write keeps it, and what follows for all runs |
| `CatalogHolds`, `CatalogRetries`, `CatalogSources` | restores and publication holds, repeated and reused operation ids, when publications and restores succeed, declared text |
| `CatalogChecks`, `CatalogPolicies`, `CatalogPublications` | when restores, policy changes and publications go ahead, and what each of them leaves, in terms of the pointer history, the stored generations and the policies |
| `CatalogTornWrites` | crashes in the middle of a record or a generation |
| `CatalogVersions` | paged version listings |
| `CatalogStore` | the catalog operations as methods on the directory; each is a step of the run semantics |
| `MaintenanceMerge`, `MaintenanceFits`, `MaintenancePublish` | the two-pass merge and its prediction, when they accept a proposal, the guarded publication |
| `MaintenanceProjection`, `MaintenanceOriginals` | the projection of original texts, and which originals are proven, passed on and saved |
| `FileBytes`, `ManagedBlock`, `ManagedBlockLaws`, `ManagedBlockMarks`, `ClaudeHooks` | the managed block inside a user's file, byte by byte, and the managed hook inside a settings file |
| `InstallTransaction`, `InstallRollback`, `InstallRoundTrip` | installation of several files with automatic recovery, rollback, and the files that come back from both |
| `BudgetLedger`, `BudgetRuns`, `BudgetStore` | the daily ledger of inference calls |
| `FactSweep`, `FactSweepRuns`, `FactSweepFailures`, `FactSweepWorker` | the paged sweep over stored facts, with and without failing ticks |
| `RunHistory`, `RunHistoryTheorems` | the record of a maintenance run under interleaved writers, recoverers and readers |
| `ReviewRevisions` | revisions of review assessments |
| `EmbeddingMigration`, `KeyOrder` | resumable migration to another embedding; sorting by keys |
| `ConformanceTrace`, `ConformanceScenario`, `ConformanceReport` | trace validation, the verdict on a scenario, report production and strict reading |

Results that differ from what the code or its documentation suggests are stated exactly, with a run or
an input that shows them:

- A publication whose operation id already has a receipt moves the pointer and leaves a journal that
  says it was not applied (`CatalogTheorems.PublicationStaysTruthfulIffFresh`,
  `CatalogRetries.RetryBreaksTheJournal`). A change of a policy or hold does the same
  (`CatalogTheorems.PolicyChangeStaysTruthfulIff`), and the hold of a restore
  (`CatalogRetries.RestoreStaysTruthfulIff`).
- Journal records are created in place. A crash that leaves one half written makes every later operation
  fail (`CatalogTornWrites.TornRecordIsFatal`); the theorems that recovery never fails are about records
  that are there as a whole or not at all.
- A restore whose reason is longer than the journal takes makes every later operation fail
  (`CatalogRetries.RestoreIsSurvivedIffReasonFits`).
- Restoring the description that a project already has sets the hold and then fails
  (`CatalogRetries.RestoreEndsIff`, `CatalogRetries.ChangeIsAnnouncedIff`).
- A restore can turn generated text into declared text (`CatalogSources.RestoreKeepsDeclaredSourceIff`,
  and a run in `CatalogSources.GeneratedTextIsPromoted`).
- The automatic recovery of an installation misses a file whose write took effect but could not be
  read back, and still reports success: exactly then the files are not the earlier ones
  (`InstallTransaction.Root.Install`, `InstallTransaction.LostWriteSurvives`).
- Files with CR LF line endings break two round trips of the managed block: merging twice
  (`ManagedBlockLaws.MergeIsIdempotent`), and going back to an earlier block that has a carriage
  return (`InstallRollback.BlockFileRolledBack`, `InstallRollback.CrlfBlockIsLost`).
- A settings file whose value, or whose hooks, are null stops an installation before anything is
  written, but by a run-time panic and not by an error (`ClaudeHooks.HookFileMergesIff`,
  `ClaudeHooks.InstallStopsOnHook`).
- A ledger file with the largest call number is accepted, and the next call makes it invalid
  (`BudgetLedger.BookingKeepsLedger`).
- A sweep over more eligible facts than can be tracked never ends
  (`FactSweepRuns.TooManyFactsNeverEnd`).
- A run that used all its events and kept one temporary file can look corrupt, and cannot be completed
  by recovery (`RunHistoryTheorems.CountAgreesIff`, `RunHistoryTheorems.PassCompletes`, with runs in
  `RunHistoryTheorems.FullRunCanLookCorrupt` and `RunHistoryTheorems.FullRunCanStayOpen`).
- A report can be too long to be read back (`ConformanceReport.ReportIsReadAsItIs`).
- A half-written review revision ends the history of its proposal
  (`ReviewRevisions.TornRevisionBlocks`).

Lemmas switch automatic induction off; every inductive proof is written out.

## Model

| member | source | states |
|---|---|---|
| CatalogInvariant.WalkIsHistory | internal/contextcatalog/operations.go:1027-1044 | the ancestry read from disk is the list of all generations that were ever active, newest first |
| CatalogInvariant.NewTargetIsNew | internal/contextcatalog/storage.go:169-187 | a generation that extends the active one was never active before, so the ancestry has no cycle |
| CatalogInvariant.EveryPrefix | internal/contextcatalog/storage.go:384-415 | what every admissible write keeps holds wherever an operation is cut off |
| CatalogSteps.ResolveOneOk | internal/contextcatalog/operations.go:329-391 | a pending operation can always be resolved, and the receipt it gets is admissible |
| CatalogSteps.ReconcileOk | internal/contextcatalog/operations.go:299-397 | recovery succeeds from every sound state, writes receipts only, and leaves no operation pending but the one it is told to skip |
| CatalogSteps.RequestOk | internal/contextcatalog/operations.go:299-1022 | every operation performs only writes that keep the directory sound, and with fresh ids the journal truthful |
| CatalogTheorems.RecoveryNeverAmbiguous | internal/contextcatalog/operations.go:299-397 | after any run with every operation cut off anywhere, recovery never reports an ambiguous or damaged journal and leaves no operation without a receipt |
| CatalogTornWrites.RecoveredIffNoRecordIsTorn | internal/contextcatalog/storage.go:364-382 | after a crash in the middle of an admissible write recovery works if and only if the damaged file is a generation; that generation can then not be published any more |
| CatalogTornWrites.TornRecordIsFatal | internal/contextcatalog/operations.go:176-242 | the same after any run and at any write of any operation; after a torn intent or receipt every later request fails, whatever follows |
| CatalogTheorems.ReceiptsTellTheTruth | internal/contextcatalog/operations.go:221-242 | in every run with fresh operation ids a publish or restore has an applied receipt exactly when its own pointer move took place, a policy change exactly when its own write did |
| CatalogTheorems.RecoveryTellsTheTruth | internal/contextcatalog/operations.go:299-397 | recovery leaves every announced operation with a receipt that says applied exactly when its own pointer move, or its own policy write, took place |
| CatalogTheorems.ReusedIdIsMisrecorded | internal/contextcatalog/storage.go:226-254 | a publication under an id that has a receipt moves the pointer, reports an error, and is recorded as not applied |
| CatalogTheorems.PublicationStaysTruthfulIffFresh | internal/contextcatalog/operations.go:232-240 | a publication that moves the pointer leaves a truthful journal if and only if its id had no receipt |
| CatalogTheorems.PolicyChangeStaysTruthfulIff | internal/contextcatalog/operations.go:654-740 | a change of a policy or hold that saves the policy leaves a truthful journal if and only if its id has no receipt that says not applied |
| CatalogTheorems.HistoryIsAppendOnly | internal/contextcatalog/storage.go:185-249 | over any run the ancestry only grows in front, has no repetition, and stored generations and journal records never change |
| CatalogTheorems.ParentIsPreviousActive | internal/contextcatalog/storage.go:169-187 | every installed generation names the previously active one as its parent |
| CatalogHolds.RestoreHoldsFirst | internal/contextcatalog/operations.go:866-903 | wherever a restore is cut off, it has moved the pointer only if the hold was durable before |
| CatalogHolds.HeldEntryIsShielded | internal/contextcatalog/operations.go:959-1023 | no run of guarded publications and recoveries changes the entry or the hold of a held project |
| CatalogHolds.CompletedRestore | internal/contextcatalog/operations.go:795-903 | a successful restore installs one generation that differs only in the project's description, holds the project, leaves other policies alone and is recorded as applied |
| CatalogHolds.RestoredEntryIsShielded | internal/contextcatalog/operations.go:795-1023 | after a successful restore no run of guarded publications changes the restored entry |
| CatalogHolds.PublishEffect | internal/contextcatalog/storage.go:159-256 | a publication that reports success has installed exactly its generation, recorded as applied |
| CatalogRetries.RepeatedRestore | internal/contextcatalog/operations.go:807-819 | repeating a successful restore under its id changes nothing but what recovery would and returns the recorded generation; another request under that id is a conflict |
| CatalogRetries.RepeatedAnswerIsTrue | internal/contextcatalog/operations.go:807-819 | asking again under the id of an earlier publication or restore, whatever became of it: a conflict exactly for another request, else the generation it installed exactly when its own pointer move took place, and not applied otherwise |
| CatalogRetries.OneMovePerOperation | internal/contextcatalog/operations.go:114-118 | in every run no operation id moves the pointer twice |
| CatalogRetries.RetryBreaksTheJournal | internal/contextcatalog/storage.go:226-254 | a concrete run of publication, recovery and the same publication again after which the journal is wrong |
| CatalogRetries.PoisonedForever | internal/contextcatalog/operations.go:430-447 | once an intent or a receipt that fails validation is on disk, no run installs a generation or changes a policy again |
| CatalogRetries.LongReasonPoisons | internal/contextcatalog/operations.go:924-943 | a restore whose reason does not fit leaves such an intent as soon as it is announced |
| CatalogRetries.RestoreIsSurvivedIffReasonFits | internal/contextcatalog/operations.go:799-801 | the catalog survives a restore that goes ahead if and only if its reason fits the journal |
| CatalogRetries.PublishSucceedsIff | internal/contextcatalog/storage.go:185-256 | a valid publication on the active generation under an id without a receipt succeeds if and only if the id is new or was announced for the same change |
| CatalogRetries.RestoreEndsIff | internal/contextcatalog/operations.go:858-903 | a restore that passes its checks succeeds if and only if its reason fits, its hold can be recorded, all entries may be published and the publication changes exactly the announced card |
| CatalogRetries.ChangeIsAnnouncedIff | internal/contextcatalog/operations.go:866-869 | when project ids are unique, that last condition holds if and only if the historical description differs from the current one |
| CatalogRetries.RestoreLeavesHold | internal/contextcatalog/operations.go:872-893 | a restore whose hold can be recorded leaves the project held, whether it succeeds or not |
| CatalogRetries.RestoreStaysTruthfulIff | internal/contextcatalog/operations.go:872-893 | a restore that passes its checks leaves a truthful journal if and only if its hold was not announced before and recorded as not applied |
| CatalogChecks.RestoreGoesAheadIff | internal/contextcatalog/operations.go:820-865 | a restore under a new id goes ahead if and only if the historical generation was once active, both entries exist, the three expected hashes match, identity and source agree, the policy has the expected revision and allows it, and the new generation is valid; the exact conditions of the answers conflict, not found and source changed; a restore that does not go ahead writes nothing of its own |
| CatalogChecks.NothingToRestore | internal/contextcatalog/operations.go:820-829 | on an empty catalog it fails after recovery |
| CatalogChecks.RestoreSucceedsIff | internal/contextcatalog/operations.go:795-903 | a new restore succeeds if and only if it goes ahead, its reason fits, its hold can be recorded, all entries may be published and the description changes |
| CatalogChecks.RestoreLeaves | internal/contextcatalog/operations.go:866-922 | a successful restore has installed the current generation with the historical description in place of the project's, and saved one policy: held, with the reason of the request, a revision that is one higher, and the digest of the restored entry |
| CatalogPolicies.PolicyIsSaved | internal/contextcatalog/operations.go:654-740 | a policy is set if and only if the project is active, the caller has seen its current card and policy revision, the reason is acceptable and the operation id can be used; then the stored policy is the asked one with the next revision, the digest of the active entry and the time, and nothing else has changed but the journal |
| CatalogPolicies.HoldIsSaved | internal/contextcatalog/operations.go:674-697 | the same for a hold: the stored policy with the asked hold and reason, every other field as before |
| CatalogPublications.PublicationEndsIff | internal/contextcatalog/storage.go:159-256 | in a truthful journal a publication succeeds if and only if the caller has seen the active generation, the new generation and its metadata are fit and its id is new; one that is not fit writes nothing |
| CatalogPublications.GuardedEndsIff | internal/contextcatalog/operations.go:959-1023 | a guarded publication succeeds if and only if a publication would and every guard names a project without a hold at the expected digest and revision, with the same identity and source after as before, no project is guarded twice, and every changed project is guarded |
| CatalogPublications.ChangedIff | internal/contextcatalog/operations.go:119-157 | with unique projects the change list names exactly the projects whose card is new, gone or another one |
| CatalogSources.RestoreKeepsDeclaredSourceIff | internal/contextcatalog/operations.go:910-922 | a successful restore keeps the effective declared summary if and only if that is declared apart from the text, or the text is not the client's, or it is the same |
| CatalogSources.GeneratedTextIsPromoted | internal/contextcatalog/operations.go:795-922 | a run of two publications after which a restore succeeds and makes a generated text the declared one |
| CatalogVersions.PageIsSlice | internal/contextcatalog/operations.go:496-560 | a page holds the described ones among the next generations and hands out a cursor exactly when older ones remain |
| CatalogVersions.ListingIsComplete | internal/contextcatalog/operations.go:471-561 | following cursors lists every described ancestor of the first page's active generation once, newest first, whatever is published in between |
| CatalogVersions.ListingHasTheNews | internal/contextcatalog/operations.go:496-560 | a generation is listed for a project exactly when it describes the project and its predecessor did not, or described it differently |
| CatalogVersions.VersionIs | internal/contextcatalog/operations.go:520-556 | what is listed: generation, parent, time, the digest of the entry, and the fields that differ from the parent's entry, or that the project was created |
| CatalogVersions.DiffNamesFields | internal/contextcatalog/operations.go:582-612 | a field is named exactly when the descriptions differ in it |
| CatalogVersions.NoDiffIffSameDescription | internal/contextcatalog/operations.go:582-612 | two entries have no differing field exactly when their descriptions are equal |
| CatalogVersions.ProvenanceIsTheInstaller | internal/contextcatalog/operations.go:562-581 | the operation reported for a version is the one whose pointer move installed it, reported exactly when its receipt says applied and lists a change of the project |
| CatalogStore.RanIsStep | internal/contextcatalog/storage.go:348-415 | whatever a method leaves behind is a step of the run semantics, so all run theorems apply to it |
| CatalogStore.Store.Put | internal/contextcatalog/storage.go:364-415 | one durable write: done, lost, or done with an error reported |
| CatalogStore.Store.ReadAncestry | internal/contextcatalog/operations.go:318-328 | the parent walk computes the specified ancestry |
| CatalogStore.Store.ReadMembership | internal/contextcatalog/operations.go:1027-1044 | tells whether a generation was ever active |
| CatalogStore.Store.Recover | internal/contextcatalog/operations.go:299-397 | the loop over the journal performs exactly the specified recovery, up to the write that fails |
| CatalogStore.Store.ReadChanges | internal/contextcatalog/operations.go:119-157 | the change list of a publication, by maps of the last entry of every project |
| CatalogStore.Store.PublishLocked | internal/contextcatalog/storage.go:159-256 | recovery, snapshot, intent, pointer and receipt in this order, up to the write that fails |
| CatalogStore.Store.Publish | internal/contextcatalog/storage.go:114-151 | publication with generated metadata is a run of its plan |
| CatalogStore.Store.PublishWithPolicyGuard | internal/contextcatalog/operations.go:959-1023 | the guarded publication is a run of its plan |
| CatalogStore.Store.SetProjectPolicy | internal/contextcatalog/operations.go:654-740 | the policy change is a run of its plan, whose effect `CatalogPolicies.PolicyIsSaved` states |
| CatalogStore.Store.SetPublicationHold | internal/contextcatalog/operations.go:674-697 | the hold is a run of its plan, whose effect `CatalogPolicies.HoldIsSaved` states |
| CatalogStore.Store.Restore | internal/contextcatalog/operations.go:795-903 | the restore is a run of its plan; `CatalogChecks` states when it goes ahead and what it leaves |
| CatalogStore.Store.ListVersions | internal/contextcatalog/operations.go:471-561 | recovery and one page as specified |
| MaintenanceMerge.MergeSelected | internal/aimaintenance/catalog_worker.go:450-501 | the in-place merge gives the specified entries, or refuses; `MaintenanceFits` states when, and what it leaves |
| MaintenanceMerge.PredictSelected | internal/aimaintenance/catalog_worker.go:654-713 | the prediction loop computes the specified digests; `MaintenanceFits.PredictIff` states when there are any |
| MaintenanceMerge.PredictionHolds | internal/aimaintenance/catalog_worker.go:654-713 | whenever a merge succeeds, the prediction from the same base is not empty, covers all selected cards and matches the merged entries |
| MaintenanceMerge.MergeKeepsSources | internal/aimaintenance/catalog_worker.go:463-495 | unselected entries stay, and identity, evidence and effective declared summary of all entries stay |
| MaintenanceMerge.MergeIsFixpoint | internal/aimaintenance/catalog_worker.go:389-416 | merging a proposal into its own result changes nothing |
| MaintenanceMerge.GuardAcceptsRegisteredSources | internal/contextcatalog/catalog.go:209-253 | the guard accepts a derived entry exactly when its source was registered by a client or derived from one |
| MaintenanceMerge.PublicationIsAnnounced | internal/aimaintenance/catalog_worker.go:1019-1033 | what is published was announced as a change before, so originals are saved first |
| MaintenanceFits.RefsIff | internal/aimaintenance/worker.go:1086-1110 | aliases have durable references if and only if the first evidence under each alias belongs to this very card, or there is none and a fact has the alias; each reference names the kind and digest of that evidence, or the fingerprint of that fact |
| MaintenanceFits.MergeIff | internal/aimaintenance/catalog_worker.go:450-501 | a merge goes through if and only if the proposal is complete, every selected card is live and as it was selected, has a draft of its own whose text is the live one or is evidenced, and some text changes |
| MaintenanceFits.MergeResult | internal/aimaintenance/catalog_worker.go:463-495 | a selected card whose text changes gets the drafted text, the references of its aliases and the generated source, and every other entry stays |
| MaintenanceFits.ReferencesAreOwn | internal/aimaintenance/worker.go:1086-1110 | every reference of an entry that a merge changes names client evidence of that very card or a fact of the run, and there is at least one |
| MaintenanceFits.PredictIff | internal/aimaintenance/catalog_worker.go:654-713 | there is a prediction if and only if cards are selected and each has a draft whose text is the live one or is evidenced |
| MaintenancePublish.GuardsCoverMerge | internal/aimaintenance/catalog_worker.go:557-583 | the guards cover every card that the merge changes |
| MaintenancePublish.PublicationIsRecognised | internal/aimaintenance/catalog_worker.go:903-973 | wherever the publication is cut off, the next run has the same originals and policy revisions, and finds the stored proposal as to be published or as complete, according to the active pointer |
| MaintenancePublish.ReceiptIff | internal/aimaintenance/catalog_worker.go:941-973 | a stored proposal is used exactly by runs with the same originals and policy revisions: to be published while its base is active, complete on another generation exactly when that holds what it was going to publish |
| MaintenancePublish.GuardedMoves | internal/aimaintenance/catalog_worker.go:502-523 | the guarded publication moves the pointer to the merged generation or not at all |
| MaintenanceProjection.Projections.PersistOriginals | internal/aimaintenance/catalog_projection.go:308-386 | the originals of all cards about to be published are saved, all or none |
| MaintenanceProjection.Projections.RestoreOriginals | internal/aimaintenance/catalog_worker.go:1034-1081 | imports what proposals prove and gives back the specified originals |
| MaintenanceProjection.Projections.ImportArtifact | internal/aimaintenance/catalog_projection.go:214-306 | adds the records that one stored proposal proves |
| MaintenanceOriginals.RestoredIff | internal/aimaintenance/catalog_worker.go:1034-1081 | a card that is proven gives its original, other client text itself, and a derived card that is not proven is blocked and passes on nothing of its description but the declared summary |
| MaintenanceOriginals.PassedOnIff | internal/aimaintenance/catalog_worker.go:1034-1081 | exactly the admitted originals are passed on, exactly the other and the blocked cards are reported |
| MaintenanceOriginals.PersistsIff | internal/aimaintenance/catalog_projection.go:308-386 | the originals of a run are saved if and only if every card about to be published is live and admitted, has an original in the run and is not blocked; then each has its record |
| MaintenanceOriginals.KeptIff | internal/aimaintenance/catalog_projection.go:308-386 | a save keeps exactly the records of cards that are still live and admitted |
| MaintenanceOriginals.ImportIff | internal/aimaintenance/catalog_projection.go:214-306 | after an import a card is covered exactly when it was, or when a stored proposal without derived originals proves that it was published from the recorded original |
| MaintenanceOriginals.FingerprintIff | internal/aimaintenance/catalog_worker.go:756-797 | two fingerprints are the same if and only if client text, identity and evidence of the card and of all cards of its run are the same, and the policy is; generated text does not matter |
| MaintenanceProjection.PersistedRestores | internal/aimaintenance/catalog_projection.go:139-157 | after a save the same original comes back from the entry before and from the entry after the publication |
| MaintenanceProjection.PublicationKeepsOriginals | internal/aimaintenance/catalog_projection.go:308-386 | before and after the publication every card restores to the original the worker started from |
| MaintenanceProjection.PublicationKeepsFingerprints | internal/aimaintenance/catalog_worker.go:756-797 | every fingerprint is the same before and after the publication, for the same policy revisions |
| MaintenanceProjection.PublicationKeepsCards | internal/aimaintenance/catalog_worker.go:1034-1081 | once saved, the originals of all cards of a run are the same from both generations |
| MaintenanceProjection.GeneratedTextIsNeverSource | internal/aimaintenance/catalog_worker.go:1034-1081 | in every reachable state a processed card starts from text that the catalog once held as client text |
| ManagedBlock.MarkerLines | integrationbundle/installer.go:855-877 | the scan finds exactly the lines that hold the marker |
| ManagedBlock.AllCrlfMeans | integrationbundle/installer.go:878-883 | the two byte searches hold exactly when there is a line feed and none is bare |
| ManagedBlock.MarkerScanOk | integrationbundle/installer.go:855-877 | scanning distributes over concatenation of whole lines, and carriage returns before line feeds make no marker line |
| ManagedBlockMarks.MarkersIff | integrationbundle/installer.go:855-877 | the scan finds every line that holds the marker, and nothing else, in order |
| ManagedBlockMarks.MergesIff | integrationbundle/installer.go:816-842 | a block can be merged if and only if there is no marker line, or one of each kind with the begin not behind the end |
| ManagedBlockMarks.ManagedIff | integrationbundle/installer.go:843-854 | a block is found if and only if there is one marker line of each kind in order, and it is the text between them; it can be removed wherever there is one of each |
| ManagedBlockLaws.MergeLaws | integrationbundle/installer.go:816-842 | a merge changes no byte outside the block, and extracting and removing give the block and the rest |
| ManagedBlockLaws.MergeIsIdempotent | integrationbundle/installer.go:838-841 | merging twice is merging once if and only if the file is not all CR LF without a final line break |
| ManagedBlockLaws.RollbackRestoresBlock | integrationbundle/installer.go:1680-1686 | from any backup that holds the earlier block, into any file that holds a block: the earlier block is there again if and only if not both the file is all CR LF and the saved block has a carriage return; where a block is found the user text is unchanged |
| ManagedBlockLaws.RollbackOfFreshInstall | integrationbundle/installer.go:1747-1761 | removing a first block leaves the original plus at most one line feed |
| ManagedBlockLaws.InstalledBlockLaws | integrationbundle/installer.go:816-883 | all of this for the installer's own marker lines |
| ManagedBlockLaws.InstalledRollback | integrationbundle/installer.go:1680-1686 | the rollback law for the installer's own marker lines |
| ClaudeHooks.Split | integrationbundle/installer.go:932-941 | the loop separates owned entries from the user's |
| ClaudeHooks.MergeLaws | integrationbundle/installer.go:921-951 | after a merge the hook is the managed one, everything else is untouched, a second merge changes nothing and removal gives what it would have given before |
| ClaudeHooks.RemoveIsExact | integrationbundle/installer.go:1762-1793 | removing nothing changes nothing if and only if the settings have no empty list or table at the event, or are null |
| ClaudeHooks.HookFileMergesIff | integrationbundle/installer.go:921-947 | the hook can be merged into a content if and only if it decodes to an object without hooks or with a table of them, with no owned entry before the installation and at most one after it |
| ClaudeHooks.InstallStopsOnHook | integrationbundle/installer.go:292-350 | with any other content of the settings file an installation writes nothing |
| ClaudeHooks.HookFileOk | integrationbundle/installer.go:1714-1723 | undoing a merge into no file leaves no file |
| ClaudeHooks.HookFileRolledBack | integrationbundle/installer.go:1687-1693 | rollback puts the earlier hook back and keeps the user's settings as they are now |
| ClaudeHooks.HookFileRoundTrip | integrationbundle/installer.go:1687-1693 | rolling a first installation back gives the same settings if and only if they were tidy |
| InstallTransaction.Root.Install | integrationbundle/installer.go:363-583 | applied if and only if everything can be read, is intact and mergeable, something is to do, the backup is stored, every merged content is accepted and every later read and write works; unchanged exactly when nothing is to do; else everything stays, or is recovered: all files are the old ones if and only if no managed write took effect whose reading back failed. When every merged content is accepted, a single fault never ends in a failed recovery |
| InstallTransaction.Root.Prepare | integrationbundle/installer.go:379-413 | which reads and writes come before the first managed write, and when they let the installation go on |
| InstallTransaction.Root.Transact | integrationbundle/installer.go:414-583 | the writes: applied if and only if all reads and writes work and every merged content is accepted, else recovered up to the one file whose loss the faults determine |
| InstallTransaction.Root.Recover | integrationbundle/installer.go:417-467 | a recovery that reports success has put back every file but the one it does not know |
| InstallTransaction.Root.WriteActive | integrationbundle/installer.go:477-512 | merges and writes the managed files in order and records what was written |
| InstallTransaction.Root.WriteOverrides | integrationbundle/installer.go:513-546 | creates exactly the missing overrides |
| InstallTransaction.Root.CheckActive | integrationbundle/installer.go:547-567 | accepts only files whose managed part is as rendered |
| InstallTransaction.Root.Plan | integrationbundle/installer.go:292-350 | the planned contents, the missing overrides, and whether there is anything to do |
| InstallTransaction.Root.RestoreFiles | integrationbundle/installer.go:1651-1734 | every chosen file is restored as its backup says, the others stay |
| InstallTransaction.LostWriteSurvives | integrationbundle/installer.go:363-583 | an installation whose first write takes effect and cannot be read back reports a recovery and leaves the merged content |
| InstallRollback.Rollback | integrationbundle/installer.go:645-724 | starts if and only if reads work, the state exists, the installed files are intact and have backups, and the restore can be stored; rolled back if and only if it starts, every file can be restored and every later read and write works: then every file is restored with the user's part kept; else all files are as at the start, unless writing them back failed too, which takes two faults |
| InstallRollback.BlockFileOk | integrationbundle/installer.go:1704-1713 | block files meet the transaction's needs |
| InstallRollback.BlockFilePasses | integrationbundle/installer.go:547-562 | an accepted merge passes the final check |
| InstallRollback.BlockFileRoundTrip | integrationbundle/installer.go:1680-1713 | a first installation is rolled back without a trace if and only if the file was absent, empty or ended with a line feed |
| InstallRollback.CrlfBlockIsLost | integrationbundle/installer.go:1680-1686 | a file with CR LF whose block cannot be found any more after a rollback |
| InstallRollback.BlockFileRolledBack | integrationbundle/installer.go:1680-1686 | the rollback of an update, whatever the user wrote around the block before the backup and since |
| InstallRollback.InstallThenRollback | integrationbundle/installer.go:363-724 | after installation and rollback a managed file is as before exactly when its artifact makes the round trip; created overrides stay, the rest is as before |
| InstallRoundTrip.FileRoundTrip | integrationbundle/installer.go:1651-1733 | a first installation and its rollback give a managed file back byte for byte if and only if it was absent, or consists of whole lines, or holds tidy settings as the program formats them, for its kind |
| InstallRoundTrip.FirstInstallComesBack | integrationbundle/installer.go:363-724 | so exactly these files are as before |
| InstallRoundTrip.KindMergesIff | integrationbundle/installer.go:805-842 | which contents each kind of file can take: before it is owned an absent file, a text without marker lines, settings with room for the hook; later any file, a text with one block or none, settings with one hook or none |
| InstallRoundTrip.KindPasses | integrationbundle/installer.go:547-562 | what merging makes of a file passes the final check, for every kind |
| InstallRoundTrip.FirstInstall | integrationbundle/installer.go:363-583 | a first installation without faults is applied if and only if every file can take its managed part and there is something to do, refused exactly when one cannot; with a single fault it never ends half done |
| InstallRoundTrip.IntactIsRestorable | integrationbundle/installer.go:1651-1734 | a file that is as it was installed can go back to any backup |
| InstallRoundTrip.RollBackInstalled | integrationbundle/installer.go:645-724 | a rollback of an installation that starts gets through if and only if every read and write works |
| InstallRoundTrip.InstallAndRollBack | integrationbundle/installer.go:363-724 | an applied first installation is rolled back, and exactly the files that come back are as before; created overrides stay and other files are untouched |
| BudgetLedger.CheckLedger | internal/aipolicy/budget.go:58-71 | the loop accepts exactly the valid ledgers, in whatever order it meets the reservations |
| BudgetLedger.BookingKeepsLedger | internal/aipolicy/budget.go:88-97 | booking stays within the limits without overflow, and keeps the ledger valid if and only if the call number does not wrap |
| BudgetLedger.SettlingKeepsLedger | internal/aipolicy/budget.go:112-120 | settling keeps the ledger valid and frees at most what was reserved |
| BudgetRuns.LedgerCoversUsage | internal/aipolicy/budget.go:36-128 | in every run every saved ledger is valid and its tokens and calls cover those dispatched on its day |
| BudgetRuns.DailyLimitsHold | internal/aipolicy/budget.go:85-97 | whenever a call is dispatched, the calls of its day and their usage are within the limits in force, and ids never repeat |
| BudgetRuns.DayNeverGoesBack | internal/aipolicy/budget.go:81-87 | the day of the file never decreases, nor does the day in memory while the program runs |
| BudgetRuns.OneAtATime | internal/aipolicy/budget.go:74-103 | a call is dispatched only when no other is in flight and its reservation is in the file |
| BudgetRuns.DispatchedIff | internal/aipolicy/budget.go:74-103 | a call is dispatched if and only if none is in flight, the clock has not gone back, the day has room for one more call and its reservation, and the booking is saved |
| BudgetRuns.TokensAreConserved | internal/aipolicy/budget.go:85-128 | in every run, as long as no call of the day used more than it had reserved, the tokens of the ledger are exactly the pending reservations and what settled calls have used |
| BudgetRuns.OverrunEndsTheDay | internal/aipolicy/budget.go:112-120 | after a call that is known to have used more than its reservation, no other call of that day is dispatched until the program is started again |
| BudgetStore.Budget.Open | internal/aipolicy/budget.go:36-56 | opens exactly with valid limits and a valid or missing ledger |
| BudgetStore.Budget.Begin | internal/aipolicy/budget.go:74-103 | the new fields, file and reservation are those of the specified step; a busy queue changes nothing |
| BudgetStore.Budget.Finish | internal/aipolicy/budget.go:105-128 | settles once, takes a failed save back, and always leaves the queue |
| FactSweep.FactsAre | internal/aimaintenance/worker.go:558-630 | a fact is sent exactly when it is an eligible, unprocessed point whose record differs from the one of this sweep, or of the last one |
| FactSweep.ThroughCuts | internal/aimaintenance/worker.go:400-419 | sending the first facts processes exactly the points up to the last of them |
| FactSweepRuns.TrackedIsProposed | internal/aimaintenance/worker.go:468-492 | in every run, with failures and changes of the store, a tracked version is listed in a stored proposal |
| FactSweepRuns.SweepIsExact | internal/aimaintenance/worker.go:339-530 | a full sweep over a stable store ends, tracks exactly the eligible facts, reports exactly the gone ones and sends each changed fact once |
| FactSweepRuns.ChangedIff | internal/aimaintenance/worker.go:558-630 | the changed facts are the eligible points that were not known or had another record, each once |
| FactSweepRuns.SweepStartsOver | internal/aimaintenance/worker.go:339-387 | under another binding a sweep treats every eligible fact as new, and reports none as gone |
| FactSweepFailures.SweepSurvivesFailures | internal/aimaintenance/worker.go:339-530 | with ticks that fail before or after their proposal is stored, as long as good ticks keep coming, a sweep over a stable store ends in the same state, and the proposals stored on the way hold exactly the changed facts, each at least once |
| FactSweepRuns.TooManyFactsNeverEnd | internal/aimaintenance/worker.go:493-495 | with more eligible facts than can be tracked no sweep ever ends |
| FactSweepWorker.Worker.MakeInput | internal/aimaintenance/worker.go:558-630 | the loop over a page gives the specified facts and records |
| FactSweepWorker.Worker.Fit | internal/aimaintenance/worker.go:388-396 | the largest number of facts that fits into a request |
| FactSweepWorker.Worker.RunOnce | internal/aimaintenance/worker.go:339-530 | one tick leaves exactly the specified state file and proposals |
| RunHistory.CompleteIsFinal | internal/aimaintenance/history.go:254-305 | once a run is complete no step changes its completion or adds an event |
| RunHistory.RunIsGood | internal/aimaintenance/history.go:146-397 | the invariant of lock, events, completion, recoverers and readers holds in every run |
| RunHistoryTheorems.ReadersAgree | internal/aimaintenance/history.go:434-510 | a known event count is the number of events there are, and the number found when nothing was cut off |
| RunHistoryTheorems.CountAgreesIff | internal/aimaintenance/history.go:455-467 | a known count agrees with what a reader finds, whichever entry is left out, if and only if the directory is not overfull or has no event |
| RunHistoryTheorems.ReadersSeeNoGap | internal/aimaintenance/history.go:499-503 | events that are found are numbered from 1 without a gap, unless some were cut off |
| RunHistoryTheorems.OneCompletion | internal/aimaintenance/history.go:344-397 | at most one completion, and recovery writes it only for a writer that is gone, under the run's lock |
| RunHistoryTheorems.PassCompletes | internal/aimaintenance/history.go:344-397 | a recovery pass completes an unfinished run exactly when its lock is free and its directory not overfull |
| RunHistoryTheorems.AttemptIff | internal/aimaintenance/history.go:175-193 | an attempt to write an event adds the next number if and only if there is room, the number is free and the write is not lost; any attempt that does not succeed makes the count of the run unknown |
| RunHistoryTheorems.UndisturbedRun | internal/aimaintenance/history.go:146-208 | a run in which nothing goes wrong writes up to 256 events, is completed with a known count, and a reader finds exactly these events |
| RunHistoryTheorems.FullRunCanLookCorrupt | internal/aimaintenance/history.go:459-467 | a run after which a reader finds fewer events than the completion counts |
| RunHistoryTheorems.FullRunCanStayOpen | internal/aimaintenance/history.go:459-467 | a run that no recovery pass completes |
| ReviewRevisions.Reviews.SaveAssessment | internal/aimaintenance/review.go:52-137 | the new files and the answer are the specified ones |
| ReviewRevisions.RevisionsAreContiguous | internal/aimaintenance/review.go:91-137 | in every run the revisions are numbered up to the head or one behind it, and each was accepted against the one before |
| ReviewRevisions.RevisionsAreImmutable | internal/aimaintenance/review.go:218-245 | no revision changes, at most one is added, and the head never goes back |
| ReviewRevisions.AnswersAreTrue | internal/aimaintenance/review.go:91-137 | a saved request is the latest revision; a conflict means another head or an interrupted save |
| ReviewRevisions.ResendingAddsNothing | internal/aimaintenance/review.go:91-99 | sending the latest accepted request again changes nothing |
| ReviewRevisions.RetrySettles | internal/aimaintenance/review.go:100-137 | a failed save sent again is stored once or refused, and fails again exactly when the next revision is half written |
| ReviewRevisions.TornRevisionBlocks | internal/aimaintenance/review.go:112-127 | after a half-written revision no call changes anything |
| ReviewRevisions.HistoryGoesOn | internal/aimaintenance/review.go:109-137 | a request against the head moves it exactly when the next revision is not half written |
| EmbeddingMigration.FingerprintIsContent | internal/embeddingmigration/migration.go:50-73 | two collections have the same digest exactly when they hold the same points |
| EmbeddingMigration.VerifiedIsExact | internal/embeddingmigration/migration.go:284-324 | the final check accepts exactly the targets that hold the selected points, each once and with a usable vector |
| EmbeddingMigration.Migration.Apply | internal/embeddingmigration/migration.go:220-282 | a run refuses, or extends its own target with selected points that were not there; without failures and with usable vectors it ends verified |
| EmbeddingMigration.Migration.Copy | internal/embeddingmigration/migration.go:262-281 | embeds and writes exactly missing points, in order, with the vectors that were computed for them |
| EmbeddingMigration.Migration.ScanVectors | internal/embeddingmigration/migration.go:341-372 | a scan accepts exactly the points whose vectors have the right length, finite components and one that is not zero |
| EmbeddingMigration.NeverEmbeddedAgain | internal/embeddingmigration/migration.go:253-281 | over any sequence of interrupted runs a point in the target stays and is never embedded again |
| EmbeddingMigration.TargetStaysWithin | internal/embeddingmigration/migration.go:235-261 | the target always belongs to its manifest and is a part of its selection |
| EmbeddingMigration.CompleteIsIdle | internal/embeddingmigration/migration.go:253-281 | a run on a complete target changes nothing |
| KeyOrder.TextLessIff | internal/conformance/report.go:137-153 | the order of texts: a proper beginning, or smaller at the first difference |
| ConformanceTrace.ValidateTrace | internal/conformance/load.go:389-432 | one pass accepts exactly the traces with growing sequence numbers, valid fields, no prefix with more results than calls of a tool, and retries of earlier calls of the same tool |
| ConformanceTrace.FieldsIff | internal/conformance/load.go:451-487 | the fields of an event are accepted if and only if it has those of its kind and no others, each with an allowed text |
| ConformanceTrace.Root | internal/conformance/load.go:412-427 | retries lead back to one call that retries nothing, of the same tool |
| ConformanceTrace.RetriesAreAcyclic | internal/conformance/load.go:412-427 | along a path of retries positions strictly decrease, and all have the same root |
| ConformanceScenario.CountMatches | internal/conformance/validate.go:134-142 | counts the positions of matching events |
| ConformanceScenario.MatchesIff | internal/conformance/validate.go:153-159 | an event matches exactly when it has the kind and every text that the pattern asks for |
| ConformanceScenario.CheckOrder | internal/conformance/validate.go:87-93 | comparing the first matches decides whether both patterns occur and every later one has an earlier one before it |
| ConformanceScenario.AnyOfReasons | internal/conformance/validate.go:65-79 | stops at the first alternative that holds, or gives the reasons of all |
| ConformanceScenario.CompactReasons | internal/conformance/validate.go:161-172 | the loop drops exactly the immediate repetitions |
| ConformanceScenario.CompactSorts | internal/conformance/validate.go:161-172 | a sorted list of reasons becomes strictly sorted and loses nothing else |
| ConformanceScenario.NoReasonMeansMeaning | internal/conformance/validate.go:105-107 | there is no justified reason exactly when the meaning of the scenario holds |
| ConformanceScenario.ValidateScenario | internal/conformance/validate.go:37-111 | passes exactly when the declarative meaning holds, and gives exactly the justified reasons, sorted and once |
| ConformanceReport.TallyPartitions | internal/conformance/runner.go:127-138 | each count is the number of rows with its status, the counts partition the rows, and the gates pass exactly when every row does |
| ConformanceReport.DecodeReport | internal/conformance/report.go:76-135 | accepts exactly the texts of at most 8 MiB that decode to an acceptable report, and returns it in normal form |
| ConformanceReport.NormalizeTwice | internal/conformance/report.go:137-153 | normalising twice is normalising once, for every report |
| ConformanceReport.NormalizeKeeps | internal/conformance/report.go:137-153 | normalising keeps head and counts, and for every row one with the same client, scenario, status and set of reasons |
| ConformanceReport.ReportIsReadAsItIs | internal/conformance/report.go:39-153 | rendering and reading an acceptable normal report gives the same report if and only if its text is at most 8 MiB long |
| ConformanceReport.Run | internal/conformance/runner.go:10-82 | every report is acceptable and normal, every row is true, and there is one for every pair of client and scenario |
| ConformanceReport.RunAdapter | internal/conformance/runner.go:85-125 | the same for one live client, whose failures become adapter errors |

## Left out

- Symbolic links, permissions, directory handles and lock calls: a lock is mutual exclusion that ends with its holder.
- Reads and writes of the installer are counted as operations of the model: storing a backup is one write. Which of them have to work is stated in these counts.
- Texts are sequences of characters; only ASCII space counts as white space. Hence a reason of other spaces counts as a text.
- CatalogStore.Store.Publish: like the other methods of the store, promises to run its plan to the end when no write fails, and else only that it stops at the write that fails.
- Contents of digests: SHA-256 is a collision-free function to nonempty texts; the 64-digit format is not modelled, because a finite range contradicts collision freedom.
- JSON, regular expressions, templates and the texts of policies and prompts: abstract values and predicates.
- Clocks and random numbers: times and operation ids are parameters; all steps of one catalog operation see the same time.
- Torn writes of other files than review revisions, catalog records and catalog generations: those are replaced by a rename or created by a link. What follows a torn generation is covered up to the next recovery.
- CatalogRetries.ChangeIsAnnouncedIff: lists of a description that are null and lists that are empty are one value. The program encodes them differently and restores null lists as empty ones, so a restore of the same description onto an entry with null lists changes it and succeeds.
- The wrap of a policy revision after 2^64 changes, and other integer limits than those of the budget.
- The order of the change list of a publication: it is a set. Errors of a failed guard are one conflict.
- `Validate` of a catalog: a predicate; that project ids are unique is a hypothesis where it is needed, because the program does not enforce it.
- Project registration and the duplicates it can leave: the catalog it publishes is an arbitrary valid one.
- The search of the version history for derived entries: a predicate of `MaintenanceProjection`. The projection file is a map from card keys.
- MaintenanceProjection.GeneratedTextIsNeverSource: counts every entry that the catalog held as client text, also one that a restore promoted (see `CatalogSources`).
- Selection of cards, cursor and backoff of the catalog worker, provider calls and proposal validation: arbitrary inputs.
- Outside writers during an installation: the program checks for them but not atomically. Pruning of backups and checks of a backup manifest other than its inventory are left out too.
- ClaudeHooks.Merge: settings are decoded values; formatting of the file is lost, as in the program.
- BudgetRuns.DailyLimitsHold: usage beyond a reservation is not counted; the program then uses up the day's tokens.
- Evidence-only proposals, backoff and publication of descriptions by the fact worker.
- FactSweepRuns.SweepIsExact: runs in which ticks fail are covered by `TrackedIsProposed`, which does not count how often a fact is sent.
- Overlapping workers of the run history and paged reading of it: one run directory at a time. Drafts referenced by events.
- Hash formats inside review requests, and the limit of 2^63 revisions.
- EmbeddingMigration.Migration.Apply: pages and size limits of the scans are not modelled; a scan is complete or fails. The source does not change during one run.
- ConformanceReport.NormalizeTwice: rows with the same client and scenario keep their order; the program's sort leaves it open.
- The list that loses its repeated reasons is a value; the program overwrites it.
- Header fields of traces, coverage of the contract catalog, the Markdown form of reports, and the size limit of the other inputs of a conformance run.
- Retrieval evaluation, replay scoring, HTTP, search and routing layers: other concerns, or easier than the protocols above.
