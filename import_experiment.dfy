/** The experiment importer's bookkeeping: the runs of an exported experiment that
    still need importing, the record of imported runs kept in
    `import-experiment.json`, the migration note and the destination experiment
    it sets up. */
module ExperimentImport {
  import opened Common
  import opened ImportConf

  /** What `import-experiment.json` records for one imported run. */
  datatype RunRecord = RunRecord(dstRunId: string, srcParentRunId: Option<string>, artifactUri: string)

  /** The `info` of a destination run. */
  datatype DstRunInfo = DstRunInfo(runId: string, artifactUri: string)

  /** What the run importer returns for a run it imported: the destination run and
      the source parent run ID. */
  datatype ImportedRun = ImportedRun(info: DstRunInfo, srcParentRunId: Option<string>)

  /** The contents of `import-experiment.json`: the `runs` map and the other,
      string-valued, keys. */
  datatype ImportStatus = ImportStatus(runs: map<string, RunRecord>, attrs: map<string, string>)

  /** The parts of the exported `experiment.json` the importer reads. */
  datatype ExperimentManifest = ExperimentManifest(
    experimentId: string,
    name: string,
    tags: map<string, string>,
    runs: seq<string>)

  const NoteTag: string := "mlflow.note.content"
  const LegacyIdTag: string := "legacy_id"
  const DstExperimentIdKey: string := "dst_experiment_id"
  const SrcExperimentIdKey: string := "src_experiement_id"
  const ExperimentNameKey: string := "experiment_name"

  /** `read_previous_import`: the saved status, or an empty `runs` map when none was saved. */
  function ReadPreviousImport(file: Option<ImportStatus>): (r: ImportStatus)
    ensures file.None? ==> r.runs == map[] && r.attrs == map[]
    ensures file.Some? ==> r == file.value
  {
    match file
    case None => ImportStatus(map[], map[])
    case Some(status) => status
  }

  /** `save_import_status`: the status with its `runs` replaced. */
  function SaveImportStatus(previous: ImportStatus, mergeRuns: map<string, RunRecord>): (r: ImportStatus)
    ensures r.runs == mergeRuns
    ensures r.attrs == previous.attrs
  {
    previous.(runs := mergeRuns)
  }

  /** A status read back after it was saved is the saved status. */
  lemma SavedStatusReadsBack(previous: ImportStatus, mergeRuns: map<string, RunRecord>)
    ensures ReadPreviousImport(Some(SaveImportStatus(previous, mergeRuns))).runs == mergeRuns
    ensures ReadPreviousImport(Some(SaveImportStatus(previous, mergeRuns))).attrs == previous.attrs
  {
  }

  const MigratedLead: string := "Migrated from id: "
  const MigratedEnd: string := " \n"

  function MigratedPrefix(srcId: string): string {
    MigratedLead + srcId + MigratedEnd
  }

  /** The new `mlflow.note.content`: the source ID line followed by the exported note. */
  function MigrationNote(srcId: string, tags: map<string, string>): (r: string)
    ensures StartsWith(r, MigratedPrefix(srcId))
    ensures NoteTag in tags ==> r[|MigratedPrefix(srcId)|..] == tags[NoteTag]
    ensures NoteTag !in tags ==> r == MigratedPrefix(srcId)
  {
    var newIdMessage := MigratedPrefix(srcId);
    if NoteTag in tags then newIdMessage + tags[NoteTag] else newIdMessage
  }

  /** `set(run_ids) - set(previous_import["runs"].keys())` */
  function ToDoRuns(runIds: seq<string>, previous: map<string, RunRecord>): (r: set<string>)
    ensures forall id :: id in r <==> id in runIds && id !in previous
  {
    (set id | id in runIds) - previous.Keys
  }

  function Record(run: ImportedRun): RunRecord {
    RunRecord(run.info.runId, run.srcParentRunId, run.info.artifactUri)
  }

  /** `run_ids_map` after the loop: the to-do runs the importer returned a run for. */
  function NewRecords(toDo: set<string>, importRun: string -> Option<ImportedRun>): map<string, RunRecord> {
    map id | id in toDo && importRun(id).Some? :: Record(importRun(id).value)
  }

  /** `run_info_map` after the loop. */
  function NewInfos(toDo: set<string>, importRun: string -> Option<ImportedRun>): map<string, DstRunInfo> {
    map id | id in toDo && importRun(id).Some? :: importRun(id).value.info
  }

  /** The three keys `import_experiment` records about the experiment. */
  function RecordedAttrs(attrs: map<string, string>, dstExperimentId: string, manifest: ExperimentManifest): map<string, string> {
    attrs[DstExperimentIdKey := dstExperimentId][SrcExperimentIdKey := manifest.experimentId][ExperimentNameKey := manifest.name]
  }

  /** The status `import_experiment` saves. */
  function ImportedStatus(previousFile: Option<ImportStatus>, manifest: ExperimentManifest, dstExperimentId: string,
                          importRun: string -> Option<ImportedRun>): ImportStatus
  {
    var previous := ReadPreviousImport(previousFile);
    var toDo := ToDoRuns(manifest.runs, previous.runs);
    SaveImportStatus(previous.(attrs := RecordedAttrs(previous.attrs, dstExperimentId, manifest)),
                     previous.runs + NewRecords(toDo, importRun))
  }

  /** The saved status keeps every previously recorded run unchanged, adds exactly the
      to-do runs the importer returned a run for, and records the experiment's
      identity while keeping the other keys. */
  lemma ImportedStatusMerge(previousFile: Option<ImportStatus>, manifest: ExperimentManifest, dstExperimentId: string,
                            importRun: string -> Option<ImportedRun>)
    ensures var previous := ReadPreviousImport(previousFile);
            var saved := ImportedStatus(previousFile, manifest, dstExperimentId, importRun);
            && (forall id :: id in saved.runs <==>
                  id in previous.runs || (id in manifest.runs && importRun(id).Some?))
            && (forall id :: id in previous.runs ==> saved.runs[id] == previous.runs[id])
            && (forall id :: id in saved.runs && id !in previous.runs ==> saved.runs[id] == Record(importRun(id).value))
            && saved.attrs[DstExperimentIdKey] == dstExperimentId
            && saved.attrs[SrcExperimentIdKey] == manifest.experimentId
            && saved.attrs[ExperimentNameKey] == manifest.name
            && (forall k :: k in previous.attrs && k != DstExperimentIdKey && k != SrcExperimentIdKey && k != ExperimentNameKey ==>
                  saved.attrs[k] == previous.attrs[k])
  {
    var previous := ReadPreviousImport(previousFile);
    var toDo := ToDoRuns(manifest.runs, previous.runs);
    var added := NewRecords(toDo, importRun);
    assert forall id :: id in added ==> id !in previous.runs;
  }

  /** Resuming after a saved status attempts exactly the manifest runs the earlier call
      attempted and got nothing back for: a run imported once is never imported again. */
  lemma ResumeRetriesOnlyFailures(previousFile: Option<ImportStatus>, manifest: ExperimentManifest, dstExperimentId: string,
                                  importRun: string -> Option<ImportedRun>)
    ensures var previous := ReadPreviousImport(previousFile);
            var saved := ImportedStatus(previousFile, manifest, dstExperimentId, importRun);
            forall id :: id in ToDoRuns(manifest.runs, saved.runs) <==>
              id in ToDoRuns(manifest.runs, previous.runs) && importRun(id).None?
  {
    ImportedStatusMerge(previousFile, manifest, dstExperimentId, importRun);
  }

  /** A second call whose importer succeeds on the runs the first call failed on leaves
      every run of the manifest recorded. */
  lemma ResumeCompletes(previousFile: Option<ImportStatus>, manifest: ExperimentManifest, dstExperimentId: string,
                        firstRun: string -> Option<ImportedRun>, secondRun: string -> Option<ImportedRun>)
    requires forall id :: id in manifest.runs && firstRun(id).None? ==> secondRun(id).Some?
    ensures var first := ImportedStatus(previousFile, manifest, dstExperimentId, firstRun);
            var second := ImportedStatus(Some(first), manifest, dstExperimentId, secondRun);
            forall id :: id in manifest.runs ==> id in second.runs
  {
    var first := ImportedStatus(previousFile, manifest, dstExperimentId, firstRun);
    ImportedStatusMerge(previousFile, manifest, dstExperimentId, firstRun);
    ImportedStatusMerge(Some(first), manifest, dstExperimentId, secondRun);
  }

  /** The destination tracking server's experiments, as far as the importer uses them. */
  class TrackingStore {
    var experimentIds: map<string, nat>                   // experiment name -> ID
    var experimentTags: map<nat, map<string, string>>     // experiment ID -> tags
    var nextId: nat

    ghost predicate Valid()
      reads this
    {
      && (forall name :: name in experimentIds ==> experimentIds[name] in experimentTags)
      && (forall id :: id in experimentTags ==> id < nextId)
    }

    constructor ()
      ensures Valid() && experimentIds == map[] && experimentTags == map[] && nextId == 0
    {
      experimentIds := map[];
      experimentTags := map[];
      nextId := 0;
    }

    /** `set_experiment`: creates the experiment with the given tags, or returns the ID
        of the existing experiment of that name, whose tags stay as they are. */
    method SetExperiment(name: string, tags: map<string, string>) returns (id: nat)
      requires Valid()
      modifies this
      ensures Valid()
      ensures id in experimentTags
      ensures name in old(experimentIds) ==>
                id == old(experimentIds)[name] && experimentIds == old(experimentIds) &&
                experimentTags == old(experimentTags) && nextId == old(nextId)
      ensures name !in old(experimentIds) ==>
                id == old(nextId) && id !in old(experimentTags) &&
                experimentIds == old(experimentIds)[name := id] &&
                experimentTags == old(experimentTags)[id := tags] && nextId == old(nextId) + 1
    {
      if name in experimentIds {
        id := experimentIds[name];
      } else {
        id := nextId;
        experimentIds := experimentIds[name := id];
        experimentTags := experimentTags[id := tags];
        nextId := nextId + 1;
      }
    }

    /** `set_experiment_tag` */
    method SetExperimentTag(id: nat, key: string, value: string)
      requires Valid() && id in experimentTags
      modifies this
      ensures Valid()
      ensures experimentIds == old(experimentIds) && nextId == old(nextId)
      ensures experimentTags == old(experimentTags)[id := old(experimentTags)[id][key := value]]
    {
      experimentTags := experimentTags[id := experimentTags[id][key := value]];
    }
  }

  /** The experiment's tags after `import_experiment` set its note and legacy ID. */
  function TaggedExperiment(tags: map<string, string>, manifest: ExperimentManifest): map<string, string> {
    tags[NoteTag := MigrationNote(manifest.experimentId, manifest.tags)][LegacyIdTag := manifest.experimentId]
  }

  /** The loop over `to_do_runs`, in the set's (unspecified) iteration order: a run for
      which the importer returns nothing is skipped. `attempted` lists the runs passed
      to the importer, in order. */
  method ImportRuns(toDo: set<string>, importRun: string -> Option<ImportedRun>)
    returns (runIdsMap: map<string, RunRecord>, runInfoMap: map<string, DstRunInfo>, attempted: seq<string>)
    ensures runIdsMap == NewRecords(toDo, importRun)
    ensures runInfoMap == NewInfos(toDo, importRun)
    ensures forall id :: id in attempted <==> id in toDo
    ensures forall i, j :: 0 <= i < j < |attempted| ==> attempted[i] != attempted[j]
  {
    runIdsMap := map[];
    runInfoMap := map[];
    attempted := [];
    var remaining := toDo;
    while remaining != {}
      invariant remaining <= toDo
      invariant forall id :: id in attempted <==> id in toDo && id !in remaining
      invariant forall i, j :: 0 <= i < j < |attempted| ==> attempted[i] != attempted[j]
      invariant runIdsMap == NewRecords(toDo - remaining, importRun)
      invariant runInfoMap == NewInfos(toDo - remaining, importRun)
      decreases |remaining|
    {
      var srcRunId :| srcRunId in remaining;
      var dstRun := importRun(srcRunId);
      attempted := attempted + [srcRunId];
      remaining := remaining - {srcRunId};
      if dstRun.Some? {
        runIdsMap := runIdsMap[srcRunId := Record(dstRun.value)];
        runInfoMap := runInfoMap[srcRunId := dstRun.value.info];
      }
    }
  }

  /** The run map `import_experiment` returns holds only runs imported by this call. */
  lemma ReturnedRunsAreNew(previousFile: Option<ImportStatus>, manifest: ExperimentManifest,
                           importRun: string -> Option<ImportedRun>)
    ensures var previous := ReadPreviousImport(previousFile);
            var returned := NewInfos(ToDoRuns(manifest.runs, previous.runs), importRun);
            forall id :: id in returned <==> id in manifest.runs && id !in previous.runs && importRun(id).Some?
  {
  }

  /** `import_experiment`: sets up the destination experiment under its (possibly
      archived) name, imports the runs not yet recorded, and saves the merged status.
      Returns the destination run infos of the runs imported by this call. */
  method ImportExperiment(tracking: TrackingStore, expName: string, manifest: ExperimentManifest,
                          previousFile: Option<ImportStatus>, conf: Conf, importRun: string -> Option<ImportedRun>)
    returns (runInfoMap: map<string, DstRunInfo>, saved: ImportStatus, attempted: seq<string>)
    requires tracking.Valid()
    modifies tracking
    ensures tracking.Valid()
    ensures var name := ReplaceIfUserIsArchived(conf, expName);
            var id := if name in old(tracking.experimentIds) then old(tracking.experimentIds)[name] else old(tracking.nextId);
            && tracking.experimentIds == old(tracking.experimentIds)[name := id]
            && tracking.experimentTags ==
                 old(tracking.experimentTags)[id := TaggedExperiment(
                   if name in old(tracking.experimentIds) then old(tracking.experimentTags)[id] else manifest.tags, manifest)]
            && saved == ImportedStatus(previousFile, manifest, NatToString(id), importRun)
    ensures var previous := ReadPreviousImport(previousFile);
            && runInfoMap == NewInfos(ToDoRuns(manifest.runs, previous.runs), importRun)
            && (forall id :: id in attempted <==> id in ToDoRuns(manifest.runs, previous.runs))
  {
    var previousImport := ReadPreviousImport(previousFile);
    var tags := manifest.tags;
    var name := ReplaceIfUserIsArchived(conf, expName);
    var experimentId := tracking.SetExperiment(name, tags);
    var description := MigrationNote(manifest.experimentId, tags);
    tracking.SetExperimentTag(experimentId, NoteTag, description);
    tracking.SetExperimentTag(experimentId, LegacyIdTag, manifest.experimentId);
    previousImport := previousImport.(attrs := RecordedAttrs(previousImport.attrs, NatToString(experimentId), manifest));
    var toDoRuns := ToDoRuns(manifest.runs, previousImport.runs);
    var runIdsMap;
    runIdsMap, runInfoMap, attempted := ImportRuns(toDoRuns, importRun);
    var mergeRuns := previousImport.runs + runIdsMap;
    saved := SaveImportStatus(previousImport, mergeRuns);
  }
}
