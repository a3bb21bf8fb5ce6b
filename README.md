# mlflow-export-import: import/export bookkeeping in Dafny

This project models the bookkeeping core of mlflow-export-import, the tool that copies
MLflow experiments, runs and registered models from one tracking server to another. It
leaves out the byte copying and keeps the decisions: what to import, in what order, and
what to record afterwards so that a second invocation resumes where the first stopped.

There are four parts, one or more Dafny modules each:

- **Registered-model version replay** (`ModelVersions`, `ModelImport`, `ModelPaths`,
  `Registry`, `ImportConf`): the bulk model importer's `import_model`.
  - It drops versions whose experiment was not migrated (`remove_version`, with its
    remove-while-iterating behaviour).
  - It fills the gaps of a sparse version list with archived placeholder copies
    (`fix_missing_version`).
  - It rewrites configured versions from the version one lower
    (`fix_missing_run_version`).
  - It skips versions listed in `import-model.json` and creates the rest in ascending
    order. The destination registry numbers each new version one above the last. A number
    that differs from the source's aborts the loop.
  - It moves every version to its stage, tolerating "already in that stage". The model
    describes the intended wait-then-transition; the loop as written stops at the first
    staged version (see Findings).
  - It registers the model under the given name, or under the exported one when the
    given name is empty, but creates and stages versions under the given name. A first
    import deletes the model first, which raises when the registry does not hold it.
  - It writes the version list to `import-model.json`. The model returns that list as
    `written`; the source's `import_model` itself returns nothing.
  - The registry is a class whose `models` field the importer's calls update. The
    model-path and path-join string helpers are functions.
- **Experiment import checkpoint** (`ExperimentImport`):
  - the runs still to import are the manifest's runs minus those recorded in
    `import-experiment.json`;
  - runs the run importer returns nothing for are dropped;
  - the new records are merged over the old ones and saved, and the other keys of the
    file are kept;
  - the destination experiment is created with a migration note and the
    archived-user rename.
- **Experiment export partition** (`ExperimentExport`):
  - previously exported runs are read from either manifest layout;
  - named runs are fetched one by one, and an unknown one raises before the manifest is
    written;
  - every run lands in exactly one of the ok or failed lists, and previously-ok runs
    are not exported again;
  - the `info` block's counts are built, and the closing ratio divides by zero when
    the only run failed;
  - the tags are written sorted by key.
- **Bulk run-map merging** (`BulkImportModels`): `_remap` and `read_imported_experiments`
  fold per-experiment run maps into one, a later map winning on a shared run ID.

Modelling conventions:
- **Stores as classes.** The destination tracking server (`TrackingStore`) and the model
  registry (`ModelRegistry`) are classes whose methods change their fields.
- **Loops as methods specified by functions.** The importers' loops are methods. Each is
  proved equal to a function of its inputs and of the old state, such as `ReplayAll`,
  `Transitions`, `FixRuns`, `ExportUpTo` or `Merge`. The lemmas state what the source
  promises about those functions.
- **Calls into code not shown here.** The run importer, the run exporter, the exporter's
  `get_run` and the search iterator become parameters: `importRun`, `exportRun`,
  `runExists` and `experimentRuns`. The model importer's `run_info_map` is the
  `runs: map<string, RunRecord>` parameter.
- **File contents.** A file that may be absent is an `Option`.
- **Exceptions.** An exception becomes the `Failure` case of a `Result`.
- **Replay records.** The version-creation replay records one `Creation` per version
  created: the source version and its imported run. The registry's new versions are
  `Made(...)` of those creations.

The model keeps the details of the code:
- The conflict rule of the bulk maps: the map iterated last wins.
- The `src_experiement_id` key keeps its misspelling.
- `num_total_runs` is `j + 1` of the loop counter.

## Model

| member | source | states |
|---|---|---|
| Common.FindSpec | mlflow_export_import/model/import_model.py:325 | `find` gives -1 exactly when the run ID occurs nowhere, and otherwise the index of its first occurrence |
| Common.NatToStringRoundTrip | mlflow_export_import/model/import_model.py:194-195 | the decimal form written into descriptions and version fields reads back, under `int()`, as the same number |
| Common.ReplaceWithoutOccurrence | mlflow_export_import/model/import_model.py:327-328 | `replace` leaves a string without the pattern unchanged |
| Common.ReplaceCharAt | mlflow_export_import/model/import_model.py:336 | replacing a single character is a character-by-character map that keeps the length |
| Sorting.SortByPermutes | mlflow_export_import/model/import_model.py:272 | `sorted` returns a permutation of its input |
| Sorting.SortBySorted | mlflow_export_import/model/import_model.py:288 | under a total order `sorted` returns an ordered list |
| Sorting.SortByKeepsDistinct | mlflow_export_import/experiment/export_experiment.py:67 | sorting keeps distinct keys distinct |
| ImportConf.UserPrefixMatchesSpec | mlflow_export_import/model/import_model.py:245-246 | the user loop finds a match exactly when some configured user's `/Users/<user>` begins the name |
| ImportConf.ReplaceIfUserIsArchivedCases | mlflow_export_import/model/import_model.py:241-248 | without `archived_users` the name is unchanged; with a matching user every `/Users/` becomes `/Archive/`; otherwise the name is unchanged |
| ImportConf.ReplaceIfUserIsArchived | mlflow_export_import/model/import_model.py:241-248 | the archived-user rename; `ReplaceIfUserIsArchivedCases` states its three cases |
| ImportConf.ArchivedNameMovesToArchive | mlflow_export_import/experiment/import_experiment.py:55-62 | a renamed experiment starts with `/Archive/` and keeps the rest of its path, with later `/Users/` replaced too |
| ModelPaths.ExtractModelPathUnderArtifacts | mlflow_export_import/model/import_model.py:324-329 | for a source `<root><run ID>/artifacts/<path>` the model path is `path` |
| ModelPaths.ExtractModelPathDirect | mlflow_export_import/model/import_model.py:324-329 | for a source `<root><run ID>/<path>` not under `artifacts/` the model path is `path` unchanged |
| ModelPaths.ExtractModelPathRunAbsent | mlflow_export_import/model/import_model.py:325-326 | when the run ID does not occur, `find`'s -1 makes the path everything after the first `len(run_id)` characters |
| ModelPaths.ExtractModelPath | mlflow_export_import/model/import_model.py:324-329 | `_extract_model_path`: what follows the run ID and one separator, without `artifacts/`; its three partner lemmas above state the cases |
| ModelPaths.DstSource | mlflow_export_import/model/import_model.py:317-321 | the destination `source`: artifact URI, `/`, model path, with `file://` removed, as `DstSourceRemote` and `DstSourceLocal` state |
| ModelPaths.DstSourceRemote | mlflow_export_import/model/import_model.py:51 | a URI and path without `file://` are joined as they are |
| ModelPaths.DstSourceLocal | mlflow_export_import/model/import_model.py:51 | a `file://<dir>` artifact URI gives the plain path `<dir>/<model path>` |
| ModelPaths.PathJoin | mlflow_export_import/model/import_model.py:332-337 | a join not starting with `dbfs:` comes back unchanged; a `dbfs:` join keeps its length and every non-backslash character, and holds no backslash |
| ModelPaths.PathJoinNormalisesDbfs | mlflow_export_import/model/import_model.py:335-336 | on a `dbfs:` path each backslash becomes `/` in place |
| ModelVersions.MaxVersion | mlflow_export_import/model/import_model.py:185 | the maximum is one of the versions and no version exceeds it |
| ModelVersions.Gaps | mlflow_export_import/model/import_model.py:183-185 | the missing versions are exactly the numbers of `1..max` no entry carries, strictly ascending |
| ModelVersions.LowestIndex | mlflow_export_import/model/import_model.py:192-193 | the index of the first entry with the lowest version |
| ModelVersions.SortHeadIsLowest | mlflow_export_import/model/import_model.py:192-193 | the head of the stable sort by version is that first lowest entry |
| ModelVersions.SortByVersionSpec | mlflow_export_import/model/import_model.py:272 | sorting by version is a permutation into non-decreasing version order |
| ModelVersions.SortByVersionKeepsDistinct | mlflow_export_import/model/import_model.py:288 | sorting keeps distinct version numbers distinct |
| ModelVersions.WithVersionMembers | mlflow_export_import/model/import_model.py:200-202 | the comprehension keeps exactly the entries carrying the number |
| ModelVersions.WithVersionEmpty | mlflow_export_import/model/import_model.py:200-202 | the comprehension is empty exactly when no entry carries the number |
| ModelVersions.FillerShape | mlflow_export_import/model/import_model.py:193-206 | a placeholder is numbered after its gap and archived; its description names the copied version, which is the lowest existing version for gap 1 and `g - 1` for every other gap |
| ModelVersions.FillerAfterGap | mlflow_export_import/model/import_model.py:201-203 | a gap whose predecessor is also missing copies the predecessor's placeholder |
| ModelVersions.FillerAfterPresent | mlflow_export_import/model/import_model.py:200-203 | a gap whose predecessor exists copies the first input entry numbered so |
| ModelVersions.FillerCopiesNearestLower | mlflow_export_import/model/import_model.py:199-207 | every placeholder carries the run of the nearest existing version below its gap |
| ModelVersions.FillerCopiesLowest | mlflow_export_import/model/import_model.py:190-207 | with no existing version below a gap, its placeholder carries the run of the lowest version |
| ModelVersions.FillerRunAcrossGaps | mlflow_export_import/model/import_model.py:199-207 | across a run of consecutive gaps every placeholder carries the run of the first one |
| ModelVersions.PlaceholderNumbers | mlflow_export_import/model/import_model.py:189-207 | the placeholders carry exactly the missing numbers, in ascending order |
| ModelVersions.PlaceholdersFillGaps | mlflow_export_import/model/import_model.py:185-209 | `all += fix_missing_version(all)` adds no existing number, covers `1..max` with the input, and keeps distinct numbers distinct |
| ModelVersions.GapFillersFill | mlflow_export_import/model/import_model.py:269 | any list numbered exactly with the gaps is disjoint from the input and completes `1..max` |
| ModelVersions.ReconciledIsContiguous | mlflow_export_import/model/import_model.py:269 | for versions numbered from 1 the reconciled list's numbers are exactly `{1..max}` |
| ModelVersions.NextPlaceholder | mlflow_export_import/model/import_model.py:189-206 | the loop body builds the defined placeholder for the gap: from the sorted head, from the input, or from the results so far |
| ModelVersions.AppendPlaceholder | mlflow_export_import/model/import_model.py:207 | each iteration extends `results` by the next gap's placeholder |
| ModelVersions.FixMissingVersion | mlflow_export_import/model/import_model.py:181-209 | an empty list fails (`max` of nothing); otherwise the result is the placeholders, numbered with the gaps |
| ModelVersions.Filler | mlflow_export_import/model/import_model.py:189-207 | the placeholder of one gap; `FillerShape`, `FillerAfterGap`, `FillerAfterPresent` and `FillerCopiesNearestLower` state what it is |
| ModelVersions.Placeholders | mlflow_export_import/model/import_model.py:181-209 | what `fix_missing_version` returns; `PlaceholderNumbers`, `PlaceholdersFillGaps` and `ReconciledIsContiguous` state its numbers |
| ModelVersions.RemoveFirst | mlflow_export_import/model/import_model.py:238 | `list.remove` drops the first element equal to its argument, the rest keeping their order, or nothing when there is none |
| ModelVersions.RemoveWhileIteratingOnlyExcluded | mlflow_export_import/model/import_model.py:236-238 | removing while iterating never adds an element and keeps every element of a kept experiment |
| ModelVersions.RemoveVersionOnlyExcluded | mlflow_export_import/model/import_model.py:232-238 | without `missing_experiments` nothing changes; otherwise only versions of excluded experiments are removed |
| ModelVersions.RemoveVersionSkipsSuccessor | mlflow_export_import/model/import_model.py:236-238 | of two adjacent excluded versions the second is skipped and stays |
| ModelVersions.RemoveWhileIterating | mlflow_export_import/model/import_model.py:236-238 | the list iterator over a list shrinking under it; `RemoveWhileIteratingOnlyExcluded` and `RemoveVersionSkipsSuccessor` state what it removes |
| ModelVersions.RemovedVersions | mlflow_export_import/model/import_model.py:232-238 | what `remove_version` leaves; `RemoveVersionOnlyExcluded` states that only excluded experiments' versions go |
| ModelVersions.RemoveVersion | mlflow_export_import/model/import_model.py:232-238 | the iterate-and-remove loop leaves what the position-by-position definition leaves |
| ModelVersions.IndexOfRun | mlflow_export_import/model/import_model.py:222 | a found index carries the run ID |
| ModelVersions.IndexOfRunSpec | mlflow_export_import/model/import_model.py:222 | -1 exactly when no version carries the run, otherwise the first that does |
| ModelVersions.FixRunFails | mlflow_export_import/model/import_model.py:222-223 | a fix raises exactly when no version carries the run or none is numbered one lower |
| ModelVersions.FixRunRewritesOneVersion | mlflow_export_import/model/import_model.py:222-229 | a fix rewrites only the first version carrying the run: its number, experiment and tags stay, it is archived, described as a copy, and takes run, source, user and artifact URI from the first version one lower |
| ModelVersions.FixRunsKeepsVersions | mlflow_export_import/model/import_model.py:220-229 | the fixes never renumber any version |
| ModelVersions.FixRun | mlflow_export_import/model/import_model.py:221-229 | one fix; `FixRunFails` and `FixRunRewritesOneVersion` state when it raises and what it rewrites |
| ModelVersions.FixRuns | mlflow_export_import/model/import_model.py:220-229 | the fixes in configuration order, the first failure raising; `FixRunsKeepsVersions` states that none renumbers |
| ModelVersions.FixedRunVersions | mlflow_export_import/model/import_model.py:211-230 | nothing changes without a `missing_runs` entry for the model name; otherwise `FixRuns` |
| ModelVersions.FixVersionOfRun | mlflow_export_import/model/import_model.py:221-229 | one loop iteration gives the defined fix or its error |
| ModelVersions.FixMissingRunVersion | mlflow_export_import/model/import_model.py:211-230 | without a `missing_runs` entry for the model nothing changes; otherwise the fixes are applied in order, the first failing one raising |
| ModelVersions.ContiguousSorted | mlflow_export_import/model/import_model.py:288 | a strictly ascending list numbered exactly `1..m` is `1, 2, ..., m` |
| Registry.TagMap | mlflow_export_import/model/import_model.py:96 | the dict comprehension holds exactly the keys of the entries |
| Registry.TagMapLastWins | mlflow_export_import/model/import_model.py:96 | on a repeated key the last entry's value wins |
| Registry.RegisterModel | mlflow_export_import/model/import_model.py:95-108 | the model is registered under its name and every other model is untouched |
| Registry.RegisterModelIdempotent | mlflow_export_import/model/import_model.py:99-108 | registering twice changes nothing more; an existing model keeps its versions and description |
| Registry.ModelRegistry.DeleteModel | mlflow_export_import/common/model_utils.py:7-18 | the model and its versions are gone; `found` is false, the `delete_registered_model` error, when the registry did not hold the name |
| Registry.ModelRegistry.CreateRegisteredModel | mlflow_export_import/model/import_model.py:99-104 | an existing name fails with "already exists" and changes nothing; a new one is registered empty |
| Registry.ModelRegistry.SetRegisteredModelTag | mlflow_export_import/model/import_model.py:108 | sets one tag of the model |
| Registry.ModelRegistry.CreateModelVersion | mlflow_export_import/model/import_model.py:59-60 | the new version is appended without a stage and numbered one above the last; a name the registry does not hold gets no version |
| Registry.ModelRegistry.TransitionModelVersionStage | mlflow_export_import/model/import_model.py:294-297 | an unknown version fails, a version already in the stage fails with "current stage" and changes nothing, any other gets the stage |
| Registry.SetTags | mlflow_export_import/model/import_model.py:106-108 | the tag loop adds every exported tag to the existing model |
| Registry.ImportRegisteredModel | mlflow_export_import/model/import_model.py:88-109 | `_import_model` leaves the registry as `Registration` says, and reports whether it raised in `delete_model` |
| Registry.Registration | mlflow_export_import/model/import_model.py:88-109 | deleting a model the registry does not hold raises and changes nothing; a deleted model is registered anew with no versions; otherwise the model is registered or gets the tags |
| ModelImport.PlanVersions | mlflow_export_import/model/import_model.py:267-270 | remove, fill and fix run in that order on the exported versions |
| ModelImport.PlannedVersionsContiguous | mlflow_export_import/model/import_model.py:267-270 | a successful plan is numbered exactly `1..max` of the kept versions and keeps distinct numbers distinct |
| ModelImport.PlannedVersions | mlflow_export_import/model/import_model.py:267-270 | the plan: remove, fill, fix runs under the given model name; `PlannedVersionsContiguous` states its numbers |
| ModelImport.NotPrevious | mlflow_export_import/model/import_model.py:271 | the filter keeps exactly the versions not listed as previously imported |
| ModelImport.NotPreviousOfAllPrevious | mlflow_export_import/model/import_model.py:271 | when every version was imported before nothing is left |
| ModelImport.ToCreateSpec | mlflow_export_import/model/import_model.py:271-272 | the versions to create are every version not imported before, ascending |
| ModelImport.MadeAt | mlflow_export_import/model/import_model.py:276-281 | the `i`-th registry version made comes from the `i`-th creation |
| ModelImport.ReplayCreatesInOrder | mlflow_export_import/model/import_model.py:276-281 | the `j`-th creation uses the `j`-th version to create and its imported run, after setting its (possibly archived) experiment |
| ModelImport.ReplayStops | mlflow_export_import/model/import_model.py:279-284 | creations before the last got the source number; a mismatch stops the loop right after the mismatching creation; an unknown run stops it before any call |
| ModelImport.ReplaySucceedsIff | mlflow_export_import/model/import_model.py:276-284 | the loop runs to the end exactly when every run is known and the versions are numbered consecutively after the registry's last |
| ModelImport.ReplayStopped | mlflow_export_import/model/import_model.py:284 | after the exception no later version is created |
| ModelImport.ReplayStep | mlflow_export_import/model/import_model.py:277-284 | one iteration of the creation loop; `ReplayStops` and `ReplayCreatesInOrder` state what it does |
| ModelImport.ReplayUpTo | mlflow_export_import/model/import_model.py:276-284 | the creation loop over a prefix, stopping at the first error; `ReplaySucceedsIff` states when it completes |
| ModelImport.ImportVersion | mlflow_export_import/model/import_model.py:316-321 | creates one version from the artifact URI and model path; the number is one above the last |
| ModelImport.CreateNext | mlflow_export_import/model/import_model.py:277-284 | one iteration of the creation loop advances the replay by one step |
| ModelImport.CreateVersions | mlflow_export_import/model/import_model.py:276-284 | the creation loop leaves the registry with the replay's versions appended and reports the replay's experiments and error |
| ModelImport.TransitionsKeepFields | mlflow_export_import/model/import_model.py:288-297 | transitions change stages only, and fail exactly when a staged version is not in the registry |
| ModelImport.TransitionsKeepUnnamed | mlflow_export_import/model/import_model.py:289-290 | a version no staged entry names keeps its stage |
| ModelImport.TransitionsSetStage | mlflow_export_import/model/import_model.py:288-294 | each version gets the stage of the last entry naming it |
| ModelImport.Transitions | mlflow_export_import/model/import_model.py:288-297 | the intended transition loop; `TransitionsKeepFields`, `TransitionsKeepUnnamed` and `TransitionsSetStage` state its effect |
| ModelImport.TransitionVersion | mlflow_export_import/model/import_model.py:290-297 | "already in stage" is swallowed; any other failure propagates |
| ModelImport.TransitionVersions | mlflow_export_import/model/import_model.py:288-297 | the intended transition loop, once the wait returns, leaves the registry as `Transitions` does |
| ModelImport.TransitionUnregistered | mlflow_export_import/model/import_model.py:288-297 | for a name the registry does not hold nothing changes and the first version with a stage fails |
| ModelImport.TransitionsAsWritten | mlflow_export_import/model/import_model.py:289-292 | as written, the loop stops at the first version with a stage, changing nothing; it succeeds exactly when no version has a stage |
| ModelImport.AsWrittenStagesNothing | mlflow_export_import/model/import_model.py:288-297 | where the intended loop moves a version to its stage, the loop as written stops with the registry untouched |
| ModelImport.PlaceholdersStopAsWritten | mlflow_export_import/model/import_model.py:269-292 | a model with a missing version number gets an archived placeholder, so the loop as written always stops on it |
| ModelImport.ImportedModelFootprint | mlflow_export_import/model/import_model.py:259-306 | a first import of a model the registry does not hold raises in `delete_model` and changes nothing; otherwise the model is registered; no model but the registered and the given name changes |
| ModelImport.ImportedModel | mlflow_export_import/model/import_model.py:259-306 | the whole import; `ImportedModelFootprint`, `ImportedModelFresh`, `ImportedModelRerun` and `ImportedModelUnnamed` state its cases |
| ModelImport.VersionsImported | mlflow_export_import/model/import_model.py:271-306 | the creation and transition loops under the given name; `VersionsImportedFresh`, `VersionsImportedRerun` and `UnregisteredImportSpec` state them |
| ModelImport.UnregisteredImport | mlflow_export_import/model/import_model.py:276-297 | the loops for a name the registry does not hold |
| ModelImport.UnregisteredImportSpec | mlflow_export_import/model/import_model.py:276-297 | for a name the registry does not hold nothing changes, and the import succeeds exactly when every version was imported before and has no stage |
| ModelImport.VersionsImportedFresh | mlflow_export_import/model/import_model.py:271-306 | in a fresh import of `1..m`, registry version `n` is made from source version `n` and ends in its stage |
| ModelImport.ImportedModelFresh | mlflow_export_import/model/import_model.py:259-306 | the first import under a name the registry holds deletes and re-registers the model with the exported tags, creates versions `1..max`, each from its source version and in its stage, and writes the version list |
| ModelImport.ImportedModelRerun | mlflow_export_import/model/import_model.py:261-306 | re-importing under a name the registry holds, once everything was imported, creates nothing, adds the exported tags and keeps every version but its stage |
| ModelImport.ImportedModelUnnamed | mlflow_export_import/model/import_model.py:265-294 | without a model name the model is registered under the exported name, but versions go to "": nothing is created or staged, and the import succeeds only with nothing to create or stage |
| ModelImport.ImportModel | mlflow_export_import/model/import_model.py:250-307 | `import_model` registers under the given or exported name, then plans, creates and stages under the given name, leaving the registry, the written list and the error as `ImportedModel` does |
| ModelImport.ImportVersions | mlflow_export_import/model/import_model.py:271-306 | the creation then the transition loops, returning the versions of `all` |
| ModelImport.ImportUnregistered | mlflow_export_import/model/import_model.py:276-297 | the version part for a name the registry does not hold computes `UnregisteredImport` |
| ExperimentImport.ReadPreviousImport | mlflow_export_import/experiment/import_experiment.py:44-48 | an absent file reads as empty `runs`; otherwise the saved status |
| ExperimentImport.SaveImportStatus | mlflow_export_import/experiment/import_experiment.py:50-53 | only `runs` is replaced; every other key is kept |
| ExperimentImport.MigrationNote | mlflow_export_import/experiment/import_experiment.py:91-92 | the note starts with `Migrated from id: <id> \n` and continues with the existing note, or is the prefix alone |
| ExperimentImport.ToDoRuns | mlflow_export_import/experiment/import_experiment.py:102 | exactly the manifest's runs not recorded before |
| ExperimentImport.ImportedStatusMerge | mlflow_export_import/experiment/import_experiment.py:96-118 | the merged runs are the previous ones unchanged plus the new successes; the three experiment keys are recorded and other keys kept |
| ExperimentImport.ImportedStatus | mlflow_export_import/experiment/import_experiment.py:96-118 | the status the import saves; `ImportedStatusMerge`, `ResumeRetriesOnlyFailures` and `ResumeCompletes` state what it holds |
| ExperimentImport.ResumeRetriesOnlyFailures | mlflow_export_import/experiment/import_experiment.py:102-118 | after a save, the next call attempts exactly the runs that returned nothing |
| ExperimentImport.ResumeCompletes | mlflow_export_import/experiment/import_experiment.py:102-120 | a second call that succeeds on the failures leaves every manifest run recorded |
| ExperimentImport.TrackingStore.SetExperiment | mlflow_export_import/common/mlflow_utils.py:63-70 | a new name creates the experiment with the tags; an existing one returns its ID and changes nothing |
| ExperimentImport.TrackingStore.SetExperimentTag | mlflow_export_import/experiment/import_experiment.py:93-94 | sets one tag of the experiment |
| ExperimentImport.ImportRuns | mlflow_export_import/experiment/import_experiment.py:105-113 | every to-do run is attempted once; the maps hold exactly the runs the importer returned a run for |
| ExperimentImport.ImportExperiment | mlflow_export_import/experiment/import_experiment.py:64-121 | creates or finds the renamed experiment, tags it with the note and legacy ID, and saves the merged status |
| ExperimentExport.PreviousOkRuns | mlflow_export_import/experiment/export_experiment.py:28-37 | no manifest gives `[]`; `export_info.ok_runs` takes precedence over `mlflow.runs`; a missing inner key raises `MissingKey`, and a manifest with neither key raises `UnknownManifestFormat` |
| ExperimentExport.PreviousOkRunsOfWritten | mlflow_export_import/experiment/export_experiment.py:33-36 | a manifest the exporter wrote reads back as the runs it exported successfully |
| ExperimentExport.Items | mlflow_export_import/experiment/export_experiment.py:67 | `items()` lists every tag once |
| ExperimentExport.SortedTags | mlflow_export_import/experiment/export_experiment.py:67 | the tags written are every tag once, in ascending key order |
| ExperimentExport.ExportCountsEach | mlflow_export_import/experiment/export_experiment.py:81-92 | every run handled is counted once, as ok or as failed |
| ExperimentExport.ExportPartitions | mlflow_export_import/experiment/export_experiment.py:81-92 | ok exactly when skipped or exported successfully, failed exactly when exported unsuccessfully, exported exactly when not skipped |
| ExperimentExport.ReexportRetriesFailures | mlflow_export_import/experiment/export_experiment.py:81-88 | re-exporting into the same directory exports exactly the earlier failures again |
| ExperimentExport.ExportStep | mlflow_export_import/experiment/export_experiment.py:81-92 | `_export_run` on the lists so far; `ExportPartitions` states where each run goes |
| ExperimentExport.ExportUpTo | mlflow_export_import/experiment/export_experiment.py:52-58 | the export loop over a prefix; `ExportCountsEach` and `ExportPartitions` state its counts and lists |
| ExperimentExport.RunsToExport | mlflow_export_import/experiment/export_experiment.py:52-58 | the named runs, or every run of the experiment when none is named |
| ExperimentExport.ExperimentExporter.ExportRun | mlflow_export_import/experiment/export_experiment.py:81-92 | a previously exported run is counted ok without calling the exporter; any other is counted by the exporter's result |
| ExperimentExport.FirstUnknownRun | mlflow_export_import/experiment/export_experiment.py:53-54 | the first position whose run `get_run` does not find, every run before it found, or the length when all are found |
| ExperimentExport.ExperimentExporter.ExportExperiment | mlflow_export_import/experiment/export_experiment.py:39-78 | an unreadable manifest raises before any export; a named run `get_run` does not know raises after the runs before it were exported and before the manifest is written; otherwise the manifest lists the ok runs, the failures and counts, and the sorted tags; with a single run that failed, the closing ratio divides by zero after the manifest is written |
| BulkImportModels.MergeKeys | mlflow_export_import/bulk/import_models.py:91 | the merge holds the keys of all maps, each with the value of one of them |
| BulkImportModels.MergeLastWins | mlflow_export_import/bulk/import_models.py:91 | on a shared key the last map holding it wins |
| BulkImportModels.Merge | mlflow_export_import/bulk/import_models.py:91 | the maps overlaid left to right; `MergeKeys` and `MergeLastWins` state its keys and values |
| BulkImportModels.SetAll | mlflow_export_import/bulk/import_models.py:23-24 | the inner loop overlays the map on the result |
| BulkImportModels.Remap | mlflow_export_import/bulk/import_models.py:20-25 | for any inner value type, the result is the merge of the inner maps in iteration order: their key union, each value from some inner map, empty for an empty input |
| BulkImportModels.RemapKeys | mlflow_export_import/bulk/import_models.py:20-25 | whatever the order, the keys are the union and each value comes from an inner map |
| BulkImportModels.RemapLastWins | mlflow_export_import/bulk/import_models.py:22-24 | on a shared run ID the experiment iterated last wins |
| BulkImportModels.RunsOf | mlflow_export_import/bulk/import_models.py:86-90 | an experiment without an import file contributes nothing |
| BulkImportModels.ReadImportedExperiments | mlflow_export_import/bulk/import_models.py:80-92 | the loop folds the runs of each existing file over the result, skipping missing files |
| BulkImportModels.ImportedRunsKeys | mlflow_export_import/bulk/import_models.py:84-91 | the keys are the union of the `runs` of the experiments whose import file exists |
| BulkImportModels.ImportedRunsLastWins | mlflow_export_import/bulk/import_models.py:91 | a later experiment's record of a run overrides an earlier one's |

## Left out

- The thread pools of the bulk importers are not modelled. They only add concurrency.
- The run importer and run exporter, `get_run`, `get_experiment` and the search iterator are calls into code this model does not include. They are function parameters; `get_run` is reduced to whether it finds the run, and its raise on an unknown ID is modelled.
- `io_utils` reads and writes files. A file's contents are an `Option` value. An unreadable or malformed file is not modelled.
- `model.json` keeps only the fields the importer reads, and `experiment.json` and `import-experiment.json` the same.
- The `os.path.exists` check on the version source in `_import_version` is a filesystem query, so it is not modelled.
- The "Max retries" retry in `_import_version` is not modelled. As written it never retries: line 64 passes the int `int(src_vr["version"]) - 1` to `wait_until_version_is_ready`, whose loop condition holds on entry and whose first `model_version.version` raises AttributeError, before any sleep and before the second `create_model_version`. This is the same defect as the Findings row for line 292. A "Max retries" failure therefore ends the import like any other create failure, which the model abstracts as a failed create.
- `_import_version` catches every `MlflowException` of `create_model_version`. Without "Max retries" in the message it falls through to `return version` with `version` unbound and raises `UnboundLocalError`. The create failure for a model name the registry does not hold, modelled as `ModelNotRegistered`, takes this path; the model keeps the failure and not the kind of exception.
- ModelImport.TransitionVersions: models the intended loop, wait then transition. As written, line 292 passes the version string `vr['version']` to `wait_until_version_is_ready`, whose `model_version.version` raises AttributeError before any polling, so every version with a stage ends the import before `import-model.json` is written (see Findings). The polling itself is wall-clock waiting and is left out.
- Source tags (`import_source_tags`, `set_source_tags_for_field`, `fmt_timestamps`) and `utils.nested_tags` are code this model does not include.
- `strip_underscores` is code this model does not include. The exported experiment keeps only its ID, name and tags.
- ModelImport.ImportedModelFresh: stated for a registry that holds the model. A first import of a model it does not hold raises in `delete_model`, which `ImportedModelFootprint` states.
- ModelImport.ImportedModelRerun: stated, like `ImportedModelFresh`, for a non-empty model name; the empty name is the case of `ImportedModelUnnamed`.
- The printed ratios of the exporter are output only. Their division by `j` is modelled where it raises: one run, which failed.
- The durations and reports are output only.
- `mlflow.set_experiment` in the replay is not modelled as a server change. The experiment names it would set are returned in order.
- Registry errors other than "already exists", "current stage", an unknown version and an unregistered model name are not modelled. The importer re-raises them, except that those of `create_model_version` surface as the `UnboundLocalError` above, or as AttributeError when the message holds "Max retries".
- The Databricks workspace directory is not modelled. It is created only when importing into Databricks.
- Iteration orders are left open on purpose. Python dicts iterate in insertion order: tags in file order, `run_info_map` in the order the experiments were imported. Only the `set` of runs to import has no order. The `:|` choices in `SetTags`, `Items`, `Remap` and `ImportRuns` allow any order, so `SetTags`, `RemapKeys` and `RemapLastWins` hold for every order, the real one included.
- SourceVersion: version numbers are natural numbers. The source keeps them as decimal strings and compares them with `int(...)`, or, at the previous-version filter and the mismatch check, as the strings themselves; `NatToString` and its round trip connect the two.
- ExperimentImport.ImportExperiment: the destination experiment ID is a natural number. It is recorded as its decimal string.
- In-place list mutation is modelled on values. No other alias observes the lists that `remove_version`, `fix_missing_run_version` and `_export_run` mutate, so each is a method returning the new list.
- `import_experiment.py` has its own copy of `replace_if_user_is_archived`, identical to the one in `import_model.py`. It is modelled once, in `ImportConf`.
- The `main` functions and the CLI options are left out: they only pass arguments.
- `ModelImporter`, the single-model importer next to `AllModelImporter`, is outside the modelled core.

## Findings

| source | as written | input that shows it | evidently intended | confidence | as-written member | corrected member |
|---|---|---|---|---|---|---|
| mlflow_export_import/model/import_model.py:292 | `wait_until_version_is_ready` gets the string `vr['version']` and reads `model_version.version` from it (model_utils.py:26), which raises before any transition | any model with a version in a stage other than "None", such as one with a missing version number, whose placeholder is "Archived" | wait for the version, then move it to its stage | not executed | ModelImport.TransitionsAsWritten | ModelImport.Transitions |
