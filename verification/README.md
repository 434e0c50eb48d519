# Verification of the world backup, release, port, config and file-lifecycle logic

This project models the stateful core of the `cyberia` and `underpost` command lines and proves properties of
it with Dafny 4.11. `dafny verify dfyconfig.toml` checks everything.

| file | what it models |
|---|---|
| `KeyedCollection.dfy` | a collection under two unique keys and the restore loop that deletes by code, deletes by `_id` and creates |
| `AudioImport.dfy` | the audio assets of an import and the reclamation of superseded blobs |
| `EntityDefaults.dfy` | the import of entity-type defaults with cross-world protection, and the compaction of conf references |
| `Dialogues.dfy` | grouping dialogues by code on export, restoring one file per code |
| `Worlds.dfy` | the content of a world, what an export selects, what a drop takes |
| `WorldBackup.dfy` | export, drop and import of one world as a round trip over the whole database |
| `WorldDatabase.dfy` | the same three commands as the loops that run them, one collection at a time |
| `ReleaseLedger.dfy` | the content-release ledger: tasks, lease, build plans, lifecycle; the process may throw or stop between any two writes |
| `ReleaseRuns.dfy`, `ReleaseTheorems.dfy` | runs of build, promote, live-edit and retire commands, and what every run guarantees |
| `ReleaseService.dfy` | the release commands as methods that change one ledger |
| `PortSync.dfy` | the port allocator of `client --sync-env-port` |
| `CloudConfig.dfy`, `Text.dfy` | the `write_files` printer, an indentation reader for it, and text splitting |
| `DomainArgs.dfy` | the `--args` parser and the context factory |
| `AppSecrets.dfy` | Secret names and the commands that change the cluster's Secrets |
| `Compose.dfy` | the files of the Docker Compose workflow over generate, reset and up |
| `TreeChanges.dfy` | the file-tree comparison of a live export |

Code that changes a database, a ledger, a cluster or a file tree is a class whose methods equal a specification
function; the lemmas are about that function. A database collection is a sequence or a map of documents, a file
is its content, a network or shell call is its effect or a parameter that says how it ended.

## What the proofs found

- Export, then `--import --drop`, restores maps, audio confs, audio assets and the instance exactly. It does not
  restore everything. A default dialogue is lost if and only if no action names it and its item, which no other world
  places, is a placeholder the maps place or is summoned by placeholders only (`DialoguesLostExactly`,
  `PlaceholderDialogueIsLost`); a skill is lost if and only if its trigger, which no other world places, is a placed
  placeholder or is only summoned (`SkillsLostExactly`, `SummonedSkillIsLost`).
- The drop before an import does not protect dialogues of actions: one that another world's action names too is
  deleted (`SharedActionDialogueGoes`).
- A world with two entity-type defaults for one build loses a reference when its own backup is imported
  (`DuplicateBuildLosesReference`); `ReferencesReturnExactly` says when a round trip loses none.
- A build whose clean-up of staged files throws reports a failure over a release that is validated: exactly then a
  throwing attempt ends validated (`AttemptFreesExecution`, `ThrowingCleanUpValidates`, `CleanUpThrowsOnce`).
- For audio, "a backup asset names a stored file only when it supersedes its holder" is not enough for every
  reference to resolve: it has to be the first backup asset that does (`LateHolderDangles`).
- `--reset` drops the candidate database before the execution is taken. If another release executes, or the process
  stops, a completed artifact step stays completed over an empty database and no build from source can go on
  (`ResetKeepsStagedExactly`, `DyingResetLosesStaged`, `LostStagingBlocksSource`).
- A deploy shares its port with the first replica it opens if and only if the first host that reserves any port has
  only single-replica paths and no later slot is recorded for that replica (`SharesStartExactly`,
  `StartsMeetExactly`, `ReplicaTakesParentPort`). An ordinary path anywhere in that host takes the port first.
- A `write_files` content whose first text line starts with a space does not read back (`BlockReadsBackExactly`).
- `rotate` deletes the unscoped Secret before `apply` checks anything: with a scope, with a missing environment
  file, or when the second delete throws, that Secret is gone (`RotateEndsLikeApplyExactly`).

## Model

| member | source | states |
|---|---|---|
| `KeyedCollection.TwoDeletesRemoveCollisions` | bin/cyberia.js:2297-2299 | on a collection with unique keys, the two first-match deletes remove exactly the documents that share the code or the `_id` |
| `KeyedCollection.RestoreKeepsUnique` | bin/cyberia.js:2295-2301 | code and `_id` stay unique through the restore loop, whatever duplicates the backup holds |
| `KeyedCollection.RestoredMembers` | bin/cyberia.js:2295-2301 | a document is stored afterwards if and only if it was stored and collides with no backup document, or it is a backup document no later one collides with |
| `KeyedCollection.RestoreIdempotent` | bin/cyberia.js:2295-2301 | restoring the same documents a second time changes nothing, not even order |
| `KeyedCollection.WrittenIgnoresMinted` | bin/cyberia.js:2428-2445 | two imports of a backup write the same documents if and only if every document that is written carries its own `_id` |
| `KeyedCollection.MintedIsNew` | bin/cyberia.js:2489-2506 | an `_id` minted for a backup document without one meets nothing stored so far |
| `KeyedCollection.Collection.Create` | bin/cyberia.js:2299 | `create` is refused, with nothing written, exactly when a unique key would repeat |
| `KeyedCollection.Collection.ImportAll` | bin/cyberia.js:2290-2303 | the loop leaves the restored collection: survivors of the prior one and the last writers of the backup |
| `AudioImport.ReplacedInLoop` | bin/cyberia.js:2321-2333 | what step `i` of the loop supersedes, read off the input: stored assets it is the first to collide with, and earlier backup assets it is the next to collide with |
| `AudioImport.DeletedExactlyWhenGivenUp` | bin/cyberia.js:2321-2333 | a blob is gone after the import if and only if some backup asset superseded a holder of it under another file id |
| `AudioImport.NoOrphanBlob` | bin/cyberia.js:2310-2335 | after any import, a blob that was referenced by the store or the backup and still exists is referenced; no condition on the backup |
| `AudioImport.ResolvesExactlyWithoutClash` | bin/cyberia.js:2310-2335 | every file id that resolved still resolves if and only if no backup asset that names another file is the first to collide with a holder of a blob a staying asset holds; said of the store and the backup alone |
| `AudioImport.DisciplinedImportResolves` | bin/cyberia.js:2310-2335 | with no file shared inside the store or the backup, and shared across them only by the first superseder, every reference resolves |
| `AudioImport.LateHolderDangles` | bin/cyberia.js:2321-2333 | colliding with the holder is not enough: a store and backup where a later superseder finds its blob deleted |
| `AudioImport.AudioStore.Reclaim` | bin/cyberia.js:2330-2333 | the files lose exactly the blobs of superseded assets that named another file |
| `AudioImport.AudioStore.ImportAll` | bin/cyberia.js:2310-2335 | assets and files end as the restored assets and the files no replacement gave up |
| `EntityDefaults.ImportedExactly` | bin/cyberia.js:2519-2540 | membership after the import, both ways: kept because no backup document removes it under the protection rule, or written last |
| `EntityDefaults.OtherWorldsStayWhole` | bin/cyberia.js:2512-2540 | every id another world's conf references that existed still exists, unchanged unless the backup carries that id |
| `EntityDefaults.UnrelatedUntouched` | bin/cyberia.js:2519-2540 | a document whose key and `_id` the backup does not name stays as it is, and none appears |
| `EntityDefaults.ImportedKeyIsSettled` | bin/cyberia.js:2527-2537 | of an imported key only the last imported document and those other worlds reference are left |
| `EntityDefaults.CompactionResolves` | src/api/cyberia-entity-type-default/cyberia-entity-type-default.service.js:309-337 | after compaction every reference of this conf resolves and no other conf moved |
| `EntityDefaults.ReferencesSurviveExactly` | bin/cyberia.js:2508-2544 | all references of a world survive the import of its own backup if and only if no unprotected document is followed by one of the same key |
| `EntityDefaults.DuplicateBuildLosesReference` | bin/cyberia.js:2527-2544 | two defaults of one build: the reference to the first is lost |
| `EntityDefaults.DefaultsCollection.Import` | bin/cyberia.js:2512-2544 | store and confs end as the protected import followed by the compaction; the count is that of the documents imported |
| `EntityDefaults.DefaultsCollection.Compact` | src/api/cyberia-entity-type-default/cyberia-entity-type-default.service.js:309-337 | the conf keeps, in order, its references that resolve |
| `Dialogues.GroupingPartitions` | bin/cyberia.js:1946-1957 | every queried dialogue is in exactly one file, as often as it was queried |
| `Dialogues.GroupByCode` | bin/cyberia.js:1939-1957 | the files are a grouping: each holds the dialogues of its code in query order, and none is empty |
| `Dialogues.RestoreIsExact` | bin/cyberia.js:2399-2426 | restoring the files, in any order over any store, gives the store without their codes and ids, plus exactly the exported documents |
| `Dialogues.EachCodeIsExact` | bin/cyberia.js:2399-2426 | each exported code ends with exactly its exported documents |
| `Dialogues.DialogueCollection.ImportEntries` | bin/cyberia.js:2405-2424 | one file: its codes and ids go, its documents are created, a file without a code is skipped; it throws exactly when the file holds an `_id` twice, and no other document moves |
| `Dialogues.DialogueCollection.Import` | bin/cyberia.js:2399-2426 | the loop over the files equals restoring them one after another, and stops at the first that throws |
| `Dialogues.DialogueCollection.ExportCodes` | bin/cyberia.js:1934-1957 | the query and the grouping of its result write files that carry exactly the documents of the requested codes |
| `Dialogues.ExportThenRestore` | bin/cyberia.js:1939-1957 | whatever order the query and the directory answered in, no `create` throws on the grouped files and restoring them over any store leaves exactly the exported documents under their codes |
| `Worlds.DropHarmsNoSurvivor` | bin/cyberia.js:2125-2180 | no object layer of an item placed on a surviving map goes; a picture of a surviving map or instance keeps its File if and only if that is no render of a purged definition; no other map or instance moves |
| `Worlds.PurgedOnContent` | bin/cyberia.js:2044-2134 | an item is purged if and only if no map outside the world places it and the world places it, wires it, or uses a trigger whose skill summons it |
| `Worlds.ExportedOnContent` | bin/cyberia.js:1892-1909 | an item is exported if and only if the world's documents name it, or a trigger they name has a skill that summons it |
| `Worlds.ForgottenExactly` | bin/cyberia.js:1892-1909 | an item is purged and not exported if and only if no other world places it and it is a placed placeholder, or is summoned by placed placeholders only |
| `Worlds.PurgedIsNamedOrSummoned` | bin/cyberia.js:2044-2123 | every purged item is placed by the dropped world, wired by its defaults, or summoned by a skill one of those triggers |
| `Worlds.DropTakesExactly` | bin/cyberia.js:2044-2179 | read off maps, defaults and skills: an object layer goes if and only if it is unregistered and only this world uses its item; a skill, before an import, if only this world uses its trigger; a File if it is a render of a purged definition, or this world shows it and no other does |
| `Worlds.DropTakesDialoguesExactly` | bin/cyberia.js:2091-2108 | a dialogue goes if and only if it is the default one of an item only this world uses or, before an import, a non-default one an action of the world names |
| `Worlds.SharedActionDialogueGoes` | bin/cyberia.js:2091-2111 | a dialogue that an action of another world names too is deleted while that action stays |
| `Worlds.PurgedExactly` | bin/cyberia.js:2125-2134 | an item of the drop surface is purged if and only if every map that places it belongs to the dropped world |
| `Worlds.BothDropsSelectTheSame` | bin/cyberia.js:2577-2693 | both drops leave the same maps, object layers, bindings, Files, instances and confs; the standalone one keeps more dialogues and skills, never fewer |
| `WorldBackup.RestoreOntoPart` | bin/cyberia.js:2290-2303 | restoring documents of a collection over a part of it only adds them |
| `WorldBackup.ExportKeepsDropSet` | bin/cyberia.js:1703-1722 | the conf work of an export moves neither the map closure nor the items a later drop purges |
| `WorldBackup.MapsAndInstanceReturn` | bin/cyberia.js:1756-1792 | export then import with drop leaves maps, audio confs, audio assets and the instance as they were; the instance is also what the export left if and only if the export did not link a new conf |
| `WorldBackup.QuestsAndActionsReturnDeclared` | bin/cyberia.js:1820-1852 | quests and actions of the world come back with their declared fields, the others are untouched |
| `WorldBackup.SkillsReturnExactly` | bin/cyberia.js:1892-1909 | the skills after the round trip are the skills before without the lost ones |
| `WorldBackup.SkillsLostExactly` | bin/cyberia.js:2117-2134 | a skill is lost if and only if no other world places its trigger and that is a placed placeholder, or is summoned and neither placed, wired nor traded by the world |
| `WorldBackup.DialoguesReturnExactly` | bin/cyberia.js:1934-1957 | no dialogue file of the backup throws, and the dialogues after the round trip are the dialogues before without the lost ones |
| `WorldBackup.DialoguesLostExactly` | bin/cyberia.js:2154-2155 | a dialogue is lost if and only if it is the default line of a forgotten item - a placeholder, or one only placeholders summon, that no other world places - and no action of the world names it |
| `WorldBackup.FilesReturn` | bin/cyberia.js:2175-2179 | every File that is no atlas render comes back with its content |
| `WorldBackup.LayersReturnExactly` | bin/cyberia.js:1965-1982 | an object-layer definition is lost if and only if it is unregistered, only this world uses its item, and no exported item runs it; the others keep their label |
| `WorldBackup.BindingsReturnExactly` | bin/cyberia.js:1965-1982 | a binding is lost if and only if its definition was purged and the export does not carry its item |
| `WorldBackup.ReferencesReturnExactly` | bin/cyberia.js:2508-2544 | after the round trip the references are as the export left them if and only if no default of the backup that no other world references is followed by one of its key |
| `WorldBackup.DefaultsReturnExactly` | bin/cyberia.js:2508-2544 | a default is gone if and only if no other world references it and its key is imported under another `_id` with no later import of it; the others are unchanged, none is new, and other worlds' references stay |
| `WorldBackup.ClosuresNest` | bin/cyberia.js:2023-2123 | without placeholders on its maps, all a drop purges is in the export and no dialogue is lost; a lost skill has a trigger that is only summoned |
| `WorldBackup.PlaceholderDialogueIsLost` | bin/cyberia.js:2064-2073 | for every placeholder item, a world that places it loses its default dialogue |
| `WorldBackup.SummonedSkillIsLost` | bin/cyberia.js:1894-1909 | for every item whose skill summons another, a world that places only the first loses the skill of the second |
| `WorldDatabase.MapCodes` | bin/cyberia.js:1756-1760 | the loop over the portals collects the map closure |
| `WorldDatabase.PlacedItems` | bin/cyberia.js:2064-2073 | the nested loops collect every item the entities carry |
| `WorldDatabase.ThumbFileIds` | bin/cyberia.js:2032-2067 | the pushed list names exactly the pictures of the instance and its maps, in both copies |
| `WorldDatabase.SpliceShared` | bin/cyberia.js:2147-2149 | the backward in-place splice equals a filter that keeps the order |
| `WorldDatabase.AddSummoned` | bin/cyberia.js:2119-2123 | the loop adds exactly the material items the triggered skills summon |
| `WorldDatabase.RemoveShared` | bin/cyberia.js:2126-2134 | the loops remove exactly the items a map outside the world places |
| `WorldDatabase.ActionCodes` | bin/cyberia.js:2095-2105 | the dialogue codes of the actions that are not default codes |
| `WorldDatabase.FindConf` | bin/cyberia.js:1708-1711 | the conf an export uses: the instance's own, else the one it names, else the one to create |
| `WorldDatabase.CollectNamed` | bin/cyberia.js:1888-1892 | the items named by maps, referenced defaults, actions and quests, placeholders excluded |
| `WorldDatabase.Database.Purge` | src/api/object-layer/object-layer.purge.js:98-133 | the unregistered definitions of the items go, with the labels bound to them and the renders |
| `WorldDatabase.Database.DropBeforeImport` | bin/cyberia.js:2023-2187 | the first copy of the drop, in its own order of queries, deletes and splices, leaves the dropped database |
| `WorldDatabase.Database.DropStandalone` | bin/cyberia.js:2577-2702 | the second copy leaves the same database but for what only the first deletes |
| `WorldDatabase.Database.ExportWorld` | bin/cyberia.js:1641-1996 | a missing instance exports nothing and changes nothing; otherwise the projection with its conf, defaults and grouped dialogue files, and the conf it compacts or creates |
| `WorldDatabase.Database.ImportWorld` | bin/cyberia.js:2242-2546 | the restore loops in their order, entity-type defaults and compaction included, end in the imported database; a dialogue file that throws ends the import before quests, actions, skills and defaults |
| `WorldDatabase.Database.ImportDefaults` | bin/cyberia.js:2508-2544 | the protected import of the defaults against the confs of the other worlds, then the compaction of the restored conf |
| `ReleaseRuns.BeginOutcome` | src/projects/cyberia/content/content-release.js:728-777 | an opened release is building, with the input asked for and the lease held; no finished release moves |
| `ReleaseRuns.ConcludeOutcome` | bin/cyberia.js:4141-4186 | the end of a build validates if and only if publication is done and validation and fingerprint succeed; it records that fingerprint |
| `ReleaseRuns.ConcludeFrame` | bin/cyberia.js:4141-4186 | the end of a build moves no other release, no task and no digest |
| `ReleaseRuns.PlanOutcome` | bin/cyberia.js:4338-4369 | a build plan that goes through has completed the artifact step and every import step, and moves no other release |
| `ReleaseRuns.ExecuteOutcome` | bin/cyberia.js:4136-4187 | a build that validates passed every gate with every step done; it never activates, and no other release moves |
| `ReleaseRuns.AttemptFreesExecution` | bin/cyberia.js:4136-4187 | an attempt leaves the execution free unless the process stopped; a throw leaves the release failed or validated, the latter if and only if the plan went through, every gate passed and the clean-up threw; a success leaves no staged files |
| `ReleaseRuns.UnskippedPlanBuilt` | bin/cyberia.js:4342-4355 | an artifact step that completes leaves the artifact and the staged files of the requested digest in the database |
| `ReleaseRuns.ExecKeepsInv` | bin/cyberia.js:4107-4245 | every command, with throws and process deaths anywhere, keeps the ledger invariant |
| `ReleaseRuns.EveryRunKeepsInv` | bin/cyberia.js:4107-4245 | over every run: no completed step runs again in its generation, artifact content that was read is the recorded digest, at most one release is active, the lease is held by an executing release |
| `ReleaseRuns.FinishedOnlyByPassing` | bin/cyberia.js:4141-4186 | a release becomes validated only by a build of its id with publication done, validation passed and every step complete |
| `ReleaseTheorems.EveryRunKeepsStaged` | bin/cyberia.js:4338-4369 | over every run without `--reset`, an unvalidated release whose artifact step is complete holds its artifact and staged import files |
| `ReleaseTheorems.ResetKeepsStagedExactly` | src/projects/cyberia/content/content-release.js:741-776 | a `--reset` keeps that property if and only if it is refused at entry, or the artifact step was not complete, or the process lives and no other release executes under a running lease |
| `ReleaseTheorems.OpensExactly` | src/projects/cyberia/content/content-release.js:732-776 | a release opens if and only if it is not refused at entry, the process lives, and the execution is free, its own, or held by an expired lease |
| `ReleaseTheorems.DyingResetLosesStaged` | src/projects/cyberia/content/content-release.js:741-776 | the run that loses staged files: a build stopped at its publication, then a `--reset` that stops after the drop |
| `ReleaseTheorems.LostStagingBlocksSource` | bin/cyberia.js:4356-4358 | after such a loss no build from source without another reset goes on, and it stays lost |
| `ReleaseTheorems.ResumeCompletes` | bin/cyberia.js:4130-4187 | wherever earlier attempts stopped, an attempt in which nothing fails validates the release |
| `ReleaseTheorems.ThrowingCleanUpValidates` | bin/cyberia.js:4176-4186 | wherever earlier attempts stopped, an attempt in which only the clean-up throws fails the command over a validated release |
| `ReleaseTheorems.CleanUpThrowsOnce` | bin/cyberia.js:4176-4186 | a concrete such attempt from an empty ledger |
| `ReleaseTheorems.PromotionIsGated` | bin/cyberia.js:4212-4236 | a promotion over live changes carries the discard flag and leaves the same audit entry on both releases |
| `ReleaseTheorems.BuildKeepsActive` | bin/cyberia.js:4107-4187 | a build leaves the active release and its live-change status as they are |
| `ReleaseTheorems.EveryReplacementIsGated` | bin/cyberia.js:4196-4245 | for one command: replacing a release with live changes or no fingerprint needs the discard flag and is on record; `--bootstrap` alone replaces none |
| `ReleaseTheorems.EveryRunIsGated` | bin/cyberia.js:4196-4245 | the gate holds of every command of every run |
| `ReleaseService.Releases.Fail` | src/projects/cyberia/content/content-release.js:682-694 | only an executing release fails, and the execution is free again |
| `ReleaseService.Releases.Open` | src/projects/cyberia/content/content-release.js:728-777 | opening in place equals the specification: refusals, database reset, expired lease, acquisition |
| `ReleaseService.Releases.ReleaseStep` | src/projects/cyberia/content/content-release.js:641-664 | a completed step is skipped, a held one throws, a claimed one runs and records how it ended |
| `ReleaseService.Releases.ImportArtifact` | src/projects/cyberia/content/content-release.js:93-101 | the imports run as steps in order and the first that stops ends them |
| `ReleaseService.Releases.BuildContent` | bin/cyberia.js:4338-4369 | the three build plans: the artifact once, then the import from the built, staged or given content |
| `ReleaseService.Releases.BuildRelease` | bin/cyberia.js:4107-4187 | the ledger ends as the build specification says and keeps the invariant |
| `ReleaseService.Releases.PromoteRelease` | bin/cyberia.js:4212-4236 | the ledger ends as the promotion specification says and keeps the invariant |
| `PortSync.TilingCoversOnce` | src/cli/client.js:212-238 | in a tiling each offset below the end is in exactly one reservation, reservations are disjoint, none passes the end |
| `PortSync.RunTiles` | src/cli/client.js:185-238 | the reservations of any run tile 0 to the final `portOffset`, which is what the reserving deploys need; skipped deploys and recorded replicas reserve nothing |
| `PortSync.StartsDiffer` | src/cli/client.js:193-236 | deploys whose first port is an ordinary path's, and recorded replicas of distinct ids, start at distinct offsets |
| `PortSync.SharesStartExactly` | src/cli/client.js:214-236 | a deploy shares its start with one of its replica slots if and only if the first host of its conf that reserves anything has only single-replica paths |
| `PortSync.StartsMeetExactly` | src/cli/client.js:185-238 | over every run, a deploy and a recorded replica get one offset if and only if the deploy comes first, starts with such a host, and the replica is the first of the slots opened from there on and no later one |
| `PortSync.HostFirst` | src/cli/client.js:214-236 | a host reserves nothing exactly when it has no ordinary path and no replica; otherwise its first port is a slot's exactly when all its paths are single-replica ones |
| `PortSync.ReplicaTakesParentPort` | src/cli/client.js:214-236 | the smallest conf where parent and replica get one port |
| `PortSync.FamiliesStayApart` | src/cli/client.js:180-184 | the 3000, 4000 and 5000 families share no port while offsets are below 1000 |
| `PortSync.StartsAreWritten` | src/cli/client.js:196-207 | every environment file of a fully processed deploy gets its base port plus the deploy's offset |
| `PortSync.PortsDiffer` | src/cli/client.js:185-238 | the written `PORT` texts of any two such deploys or environments differ while offsets are below 1000 |
| `PortSync.SyncIsRepeatable` | src/cli/client.js:193-210 | a second run writes identical files; every key but `PORT` is preserved and no file appears or goes |
| `PortSync.EnvStore.WriteDeploy` | src/cli/client.js:195-207 | the files of a deploy are written in order up to the first missing one, which skips the deploy |
| `PortSync.EnvStore.SyncEnvPort` | src/cli/client.js:178-240 | the nested loops end with the planned files and the planned `portOffset` |
| `PortSync.EnvStore.ReservePaths` | src/cli/client.js:217-236 | ordinary paths at once and deferred slots after them, as the allocation says |
| `PortSync.EnvStore.ReserveSlot` | src/cli/client.js:228-235 | the replicas of one slot, each recorded at its offset, two units with `peer` |
| `Text.SplitOfJoin` | src/cli/cloud-init.js:590 | joining separator-free parts and splitting gives the parts back |
| `Text.JoinOfSplit` | src/cli/cloud-init.js:617 | splitting and joining gives the text back |
| `CloudConfig.GenerateCloudConfig` | src/cli/cloud-init.js:579-617 | the pushes and the final join give the document of the files between the other sections |
| `CloudConfig.BlockReadsBackExactly` | src/cli/cloud-init.js:588-591 | a printed block reads back as its clipped content if and only if the first text line starts with no space and only empty lines precede it |
| `CloudConfig.ClipIsIdentityExactly` | src/cli/cloud-init.js:588-591 | clipping changes nothing if and only if the content is empty or ends in exactly one line break after a text |
| `CloudConfig.ReadEntryBack` | src/cli/cloud-init.js:581-592 | one printed item is read back whole and the reader stops where it ends |
| `CloudConfig.DocumentReadsBackExactly` | src/cli/cloud-init.js:579-617 | for any list of files with one-line scalars, reading the joined document gives every field and the clipped contents back if and only if every content is plain |
| `DomainArgs.TrimIsExact` | src/cli/domains.js:96 | a trim leaves no outer space and changes a text only if it had one |
| `DomainArgs.LastEntryWins` | src/cli/domains.js:93-102 | of repeated keys the last entry is the value, and no other key appears |
| `DomainArgs.ParseOfPrint` | src/cli/domains.js:89-103 | printing printable entries and parsing the text gives their object back |
| `DomainArgs.ParsedIsPrintable` | src/cli/domains.js:89-103 | every entry any text parses to is printable, so the condition of the round trip is exact |
| `DomainArgs.ParseIsStable` | src/cli/domains.js:89-103 | parsing the printed form of what was parsed gives the same object |
| `DomainArgs.ValueKeepsEquals` | src/cli/domains.js:99-100 | a value keeps every `=` after the first |
| `DomainArgs.FactoryIsIdempotent` | src/cli/domains.js:112-118 | normalizing a context twice is normalizing it once |
| `AppSecrets.NamesAreDistinct` | src/cli/app.js:47-48 | for one deployment, distinct targets with hyphen-free environment and scope and no scope called `env` have distinct Secret names |
| `AppSecrets.UnclearTargetsMeet` | src/cli/app.js:47-48 | without those conditions names meet |
| `AppSecrets.DeploymentsMeet` | src/cli/app.js:47-48 | across deployments an instance and a deployment of the joined name share a Secret name, so isolation is claimed for one deployment |
| `AppSecrets.RotateEndsLikeApplyExactly` | src/cli/app.js:368-381 | `rotate` whose delete goes through ends where `apply` ends if and only if the unscoped Secret did not exist, or the call addresses it and reaches the delete of `apply`; a delete that throws changes nothing |
| `AppSecrets.RotateForgetsTheCluster` | src/cli/app.js:368-381 | from any cluster, the unscoped `rotate` in which no delete throws leaves at its name what one `apply` would leave from any other |
| `AppSecrets.SecretsAreIsolated` | src/cli/app.js:272-402 | over every run, the Secret of a target ends as if only the commands addressing it had run |
| `AppSecrets.AppDomain.ApplySecret` | src/cli/app.js:272-323 | delete then create under the checks of `apply`; a delete that throws leaves the Secret; false exactly when something throws |
| `AppSecrets.AppDomain.RotateSecret` | src/cli/app.js:368-381 | the unscoped Secret is deleted before `apply` runs; a delete that throws ends the command |
| `AppSecrets.AppDomain.CleanSecret` | src/cli/app.js:390-402 | only a forced clean whose delete goes through deletes, and only the unscoped Secret |
| `Compose.FileIsKept` | src/cli/docker-compose.js:457-510 | a file no step overwrites stays as it is, however far a generation gets |
| `Compose.InvocationKeeps` | src/cli/docker-compose.js:647-724 | one invocation that neither prunes nor renders a file leaves it unchanged, even when it throws |
| `Compose.EveryRunKeeps` | src/cli/docker-compose.js:647-724 | over every sequence of such invocations the file never changes |
| `Compose.CredentialsSurviveEveryRun` | src/cli/docker-compose.js:497-502 | over every sequence without a forced reset and without redirected outputs, an existing docker/compose.env never changes, in both workflows |
| `Compose.ForcedResetDropsIt` | src/cli/docker-compose.js:590-600 | a forced reset of the default workflow takes the env-file it names; what stands there afterwards is at most the generated example |
| `Compose.GeneratedIsComplete` | src/cli/docker-compose.js:497-508 | after a generation of the default workflow the override has the text of the asked deployment and an env-file exists |
| `Compose.UpHasItsOverride` | src/cli/docker-compose.js:675-690 | bringing the default stack up either throws before composing or composes a command naming an override that exists |
| `Compose.NoHeadlessUp` | src/cli/docker-compose.js:675-690 | over every run no default stack is brought up without its override |
| `Compose.RegenerationSucceeds` | src/cli/docker-compose.js:590-600 | a generation that goes through also goes through after an unforced reset |
| `Compose.ResetThenGenerate` | src/cli/docker-compose.js:574-603 | at every path, generating after an unforced reset equals generating alone, but for unrendered files under the pruned paths, which are gone |
| `Compose.ResetIsInvisibleExactly` | src/cli/docker-compose.js:574-603 | the two agree on all files if and only if nothing else lies under the pruned paths |
| `Compose.GenerateIsIdempotent` | src/cli/docker-compose.js:433-510 | generating twice with the same options equals generating once, in both workflows |
| `Compose.Workflow.Write` | src/cli/docker-compose.js:441-444 | a write makes its directories, throws on a file above it or a directory at it, and changes one file |
| `Compose.Workflow.GenerateDefault` | src/cli/docker-compose.js:457-510 | the sequence of writes of the default workflow, up to the first that throws |
| `Compose.Workflow.GenerateStack` | src/cli/docker-compose.js:395-450 | a custom workflow throws without its files, writes its rendered stack, or uses its own files as they are |
| `Compose.Workflow.Reset` | src/cli/docker-compose.js:574-603 | the tear-down command, then the pruned tree; a custom workflow prunes nothing |
| `Compose.Workflow.Callback` | src/cli/docker-compose.js:647-724 | one invocation equals install, reset, generate and the one chosen action, with their early returns |
| `TreeChanges.Compare` | bin/cyberia.js:4489-4504 | the loop that strikes files off a set reports the three selections in listing order and the count |
| `TreeChanges.TargetIsPartitioned` | bin/cyberia.js:4489-4504 | created, modified and unchanged count each target file once; removed, modified and unchanged each source file once |
| `TreeChanges.PatchGivesTarget` | bin/cyberia.js:4489-4504 | applying the difference to the source gives the target |
| `TreeChanges.SwapMirrors` | bin/cyberia.js:4489-4504 | swapping the trees swaps created with removed and keeps modified and unchanged |
| `TreeChanges.NoChangeExactlyWhenEqual` | bin/cyberia.js:4489-4504 | nothing is reported if and only if the trees hold the same files |

## Left out

- Concurrency: two command-line processes at once are not modelled; commands run one after another and may stop anywhere.
- ExportWorld: economy, market and saga documents are not in the projection; they are further loops of the shape proved in `KeyedCollection`. So is `--conf` mode.
- ImportWorld: economy, market and saga documents are not restored, and of the calls that can throw only the `create` of a dialogue file is modelled.
- Schema coercion of a conf on export and import may change any field of it but its references.
- DropBeforeImport: render frames, IPFS pins and the other records of a purged definition are not modelled; which render Files go with it is given, because that depends on atlases outside the database modelled here.
- DropStandalone: as `DropBeforeImport`.
- FilesReturn: says nothing of atlas renders, which travel with their object layers.
- LayersReturnExactly: a definition whose render an import rebuilds from its frames comes back as the one that was exported.
- Skill documents may name any trigger in the model; the check that refuses a placeholder trigger when a skill is written is not part of it.
- ImportEntries: a dialogue without an `_id` gets a minted one from the driver; the files of an export carry theirs.
- WorldBackup: collections are maps by business key, because every business key has a unique index; the list form with both keys is `KeyedCollection`.
- MapsAndInstanceReturn: a conf that the export has to create is taken to hold no entity defaults, as the schema default does.
- Release publication tasks and their retries: the publication is one call that may finish, not finish, throw or stop the process.
- Release rollback and prune, and the audit entry's date, host and notice text.
- Two audited releases are one write in the model, as one `updateMany` call is in the program.
- EveryRunKeepsStaged: excludes `--reset`, because the property is false with it; `ResetKeepsStagedExactly` says exactly when it fails, `DyingResetLosesStaged` that it does.
- PortSync: the conf of a deploy is what `loadReplicas` returned; its expansion of replica paths and the rewriting of the conf file are not part of this model.
- PortSync: an environment file is a map of keys to values; its text form, comments included, is not modelled.
- CloudConfig: the other sections are any one-line lines; a carriage return as a line break and the typing of plain scalars are not read.
- AppSecrets: which lines of an environment a scope receives is one function; the local files `clean` withdraws are not modelled.
- Compose: the contents of the generated files are fixed texts, a project's stack is its rendering, and paths are resolved names without `..`.
- Compose: installing Docker, and what a composed command does to containers, are not modelled.
- TreeChanges: symbolic links and files that change while they are compared.
- The chain, hardhat, cluster, deploy and dashboard commands, the client build, the servers and the entry points.
