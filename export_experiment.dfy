/** The experiment exporter: it exports the runs of an experiment one by one, skipping
    those a previous export of the same directory already exported, and writes the
    `experiment.json` manifest listing the runs exported and those that failed. */
module ExperimentExport {
  import opened Common
  import opened Sorting

  const ManifestFile: string := "experiment.json"
  const ExportInfoKey: string := "export_info"
  const OkRunsKey: string := "ok_runs"
  const MlflowKey: string := "mlflow"
  const RunsKey: string := "runs"
  const InfoKey: string := "info"
  const FailedRunsKey: string := "failed_runs"

  /** A manifest as read back: its top-level sections, each with its list-valued fields. */
  datatype Manifest = Manifest(sections: map<string, map<string, seq<string>>>)

  /** The errors the export raises: a missing manifest key (`KeyError`), a manifest of
      neither layout, a named run the tracking server does not know (`get_run`), and the
      division by `j` of the closing message when `j` is 0. */
  datatype ExportError = MissingKey(key: string) | UnknownManifestFormat | UnknownRun(runId: string) | ZeroDivision

  /** `_get_previous_ok_runs`, given the contents of `experiment.json` if the file exists:
      the `export_info.ok_runs` of the newer layout, else the `mlflow.runs` of the older
      one; a missing inner key is Python's `KeyError`. */
  function PreviousOkRuns(file: Option<Manifest>): (r: Result<seq<string>, ExportError>)
    ensures file.None? ==> r == Success([])
    ensures file.Some? && ExportInfoKey in file.value.sections ==>
              var info := file.value.sections[ExportInfoKey];
              r == if OkRunsKey in info then Success(info[OkRunsKey]) else Failure(MissingKey(OkRunsKey))
    ensures file.Some? && ExportInfoKey !in file.value.sections && MlflowKey in file.value.sections ==>
              var mlflow := file.value.sections[MlflowKey];
              r == if RunsKey in mlflow then Success(mlflow[RunsKey]) else Failure(MissingKey(RunsKey))
    ensures r == Failure(UnknownManifestFormat) <==>
              file.Some? && ExportInfoKey !in file.value.sections && MlflowKey !in file.value.sections
  {
    if file.None? then Success([])
    else
      var sections := file.value.sections;
      if ExportInfoKey in sections then
        if OkRunsKey in sections[ExportInfoKey] then Success(sections[ExportInfoKey][OkRunsKey])
        else Failure(MissingKey(OkRunsKey))
      else if MlflowKey in sections then
        if RunsKey in sections[MlflowKey] then Success(sections[MlflowKey][RunsKey])
        else Failure(MissingKey(RunsKey))
      else Failure(UnknownManifestFormat)
  }

  /** The experiment as `get_experiment` returns it. */
  datatype Experiment = Experiment(experimentId: string, name: string, tags: map<string, string>)

  /** The counts and failures of the `info` block. */
  datatype ExportInfo = ExportInfo(numTotalRuns: int, numOkRuns: nat, numFailedRuns: nat, failedRuns: seq<string>)

  /** What `export_experiment` writes: the experiment with its tags in key order, the runs
      exported successfully, and the `info` block. */
  datatype ExperimentFile = ExperimentFile(
    experimentId: string,
    name: string,
    tags: seq<(string, string)>,
    runs: seq<string>,
    info: ExportInfo)

  /** The manifest as the exporter lays it out: the experiment's runs under `mlflow` and the
      failures under `info`. */
  function ManifestOf(f: ExperimentFile): Manifest {
    Manifest(map[MlflowKey := map[RunsKey := f.runs], InfoKey := map[FailedRunsKey := f.info.failedRuns]])
  }

  /** Reading back a manifest the exporter wrote gives the runs it exported successfully. */
  lemma PreviousOkRunsOfWritten(f: ExperimentFile)
    ensures PreviousOkRuns(Some(ManifestOf(f))) == Success(f.runs)
  {
    var sections := ManifestOf(f).sections;
    assert ExportInfoKey !in sections by {
      assert sections.Keys == {MlflowKey, InfoKey};
      assert ExportInfoKey[0] != MlflowKey[0] && ExportInfoKey[0] != InfoKey[1];
    }
  }

  // ---------------------------------------------------------------------------
  // Ordering the tags

  /** Python's `<=` on strings: lexicographic on code points. */
  predicate StringLe(a: string, b: string) {
    if a == [] then true
    else if b == [] then false
    else if a[0] != b[0] then a[0] < b[0]
    else StringLe(a[1..], b[1..])
  }

  lemma {:induction false} StringLeTotal(a: string, b: string)
    ensures StringLe(a, b) || StringLe(b, a)
  {
    if a != [] && b != [] && a[0] == b[0] {
      StringLeTotal(a[1..], b[1..]);
    }
  }

  /** Tag items ordered by key, which decides the order of `sorted(tags.items())` since the
      keys of a dict are distinct. */
  predicate KeyLe(a: (string, string), b: (string, string)) {
    StringLe(a.0, b.0)
  }

  function Key(item: (string, string)): string {
    item.0
  }

  lemma KeyLeTotal()
    ensures Total(KeyLe)
  {
    forall a: (string, string), b: (string, string) ensures KeyLe(a, b) || KeyLe(b, a) {
      StringLeTotal(a.0, b.0);
    }
  }

  /** `tags.items()`, in the dict's order, which the model leaves open. */
  method Items(tags: map<string, string>) returns (items: seq<(string, string)>)
    ensures DistinctBy(items, Key)
    ensures forall k, v :: (k, v) in items <==> k in tags && tags[k] == v
  {
    items := [];
    var remaining := tags.Keys;
    while remaining != {}
      invariant remaining <= tags.Keys
      invariant DistinctBy(items, Key)
      invariant forall i :: 0 <= i < |items| ==> items[i].0 !in remaining
      invariant forall k, v :: (k, v) in items <==> k in tags - remaining && tags[k] == v
      decreases |remaining|
    {
      var key :| key in remaining;
      items := items + [(key, tags[key])];
      remaining := remaining - {key};
    }
  }

  /** `dict(sorted(tags.items()))`: the tags, each once, in ascending key order. */
  method SortedTags(tags: map<string, string>) returns (sorted: seq<(string, string)>)
    ensures SortedBy(sorted, KeyLe)
    ensures DistinctBy(sorted, Key)
    ensures forall k, v :: (k, v) in sorted <==> k in tags && tags[k] == v
  {
    var items := Items(tags);
    sorted := SortBy(items, KeyLe);
    SortByPermutes(items, KeyLe);
    KeyLeTotal();
    SortBySorted(items, KeyLe);
    SortByKeepsDistinct(items, KeyLe, Key);
    assert forall x :: x in sorted <==> x in items by {
      forall x ensures x in sorted <==> x in items {
        assert x in sorted <==> x in multiset(sorted);
      }
    }
  }

  // ---------------------------------------------------------------------------
  // Exporting the runs

  /** The runs handled so far: those counted ok, those that failed, and those handed to the
      run exporter (every run the export did not skip). */
  datatype Partition = Partition(ok: seq<string>, failed: seq<string>, exported: seq<string>)

  /** `_export_run`: a run a previous export already exported is counted ok without being
      exported again; any other run is exported, and counted by the exporter's result. */
  function ExportStep(done: Partition, runId: string, previous: seq<string>, exportRun: string -> bool,
                      skipPrevious: bool): Partition
  {
    if skipPrevious && runId in previous then done.(ok := done.ok + [runId])
    else
      var exported := done.exported + [runId];
      if exportRun(runId) then Partition(done.ok + [runId], done.failed, exported)
      else Partition(done.ok, done.failed + [runId], exported)
  }

  /** The export loop over the first `k` runs. */
  function ExportUpTo(runs: seq<string>, k: nat, previous: seq<string>, exportRun: string -> bool,
                      skipPrevious: bool): Partition
    requires k <= |runs|
  {
    if k == 0 then Partition([], [], [])
    else ExportStep(ExportUpTo(runs, k - 1, previous, exportRun, skipPrevious), runs[k - 1], previous, exportRun, skipPrevious)
  }

  /** Every run handled is counted once, as ok or as failed. */
  lemma {:induction false} ExportCountsEach(runs: seq<string>, k: nat, previous: seq<string>,
                                            exportRun: string -> bool, skipPrevious: bool)
    requires k <= |runs|
    ensures var p := ExportUpTo(runs, k, previous, exportRun, skipPrevious);
            && |p.ok| + |p.failed| == k
            && multiset(p.ok) + multiset(p.failed) == multiset(runs[..k])
  {
    if k > 0 {
      ExportCountsEach(runs, k - 1, previous, exportRun, skipPrevious);
      var prior := ExportUpTo(runs, k - 1, previous, exportRun, skipPrevious);
      var p := ExportUpTo(runs, k, previous, exportRun, skipPrevious);
      var id := runs[k - 1];
      assert runs[..k] == runs[..k - 1] + [id];
      assert multiset(runs[..k]) == multiset(runs[..k - 1]) + multiset{id};
      if (skipPrevious && id in previous) || exportRun(id) {
        assert p.ok == prior.ok + [id] && p.failed == prior.failed;
        assert multiset(p.ok) == multiset(prior.ok) + multiset{id};
      } else {
        assert p.ok == prior.ok && p.failed == prior.failed + [id];
        assert multiset(p.failed) == multiset(prior.failed) + multiset{id};
      }
    }
  }

  /** A run is ok exactly when it was skipped or its export succeeded, failed exactly when
      it was exported and its export failed, and exported exactly when it was not skipped. */
  lemma {:induction false} ExportPartitions(runs: seq<string>, k: nat, previous: seq<string>,
                                            exportRun: string -> bool, skipPrevious: bool)
    requires k <= |runs|
    ensures var p := ExportUpTo(runs, k, previous, exportRun, skipPrevious);
            && (forall x :: x in p.ok <==> x in runs[..k] && ((skipPrevious && x in previous) || exportRun(x)))
            && (forall x :: x in p.failed <==> x in runs[..k] && !(skipPrevious && x in previous) && !exportRun(x))
            && (forall x :: x in p.exported <==> x in runs[..k] && !(skipPrevious && x in previous))
  {
    if k > 0 {
      ExportPartitions(runs, k - 1, previous, exportRun, skipPrevious);
      var prior := ExportUpTo(runs, k - 1, previous, exportRun, skipPrevious);
      var p := ExportUpTo(runs, k, previous, exportRun, skipPrevious);
      var id := runs[k - 1];
      assert runs[..k] == runs[..k - 1] + [id];
      assert forall x :: x in runs[..k] <==> x in runs[..k - 1] || x == id;
      if skipPrevious && id in previous {
        assert p == prior.(ok := prior.ok + [id]);
      } else if exportRun(id) {
        assert p == Partition(prior.ok + [id], prior.failed, prior.exported + [id]);
      } else {
        assert p == Partition(prior.ok, prior.failed + [id], prior.exported + [id]);
      }
    }
  }

  /** A later export into the same directory, with the manifest of an earlier export of the
      same runs, exports again exactly the runs that failed the first time. */
  lemma ReexportRetriesFailures(runs: seq<string>, previous: seq<string>, exportRun: string -> bool)
    ensures var first := ExportUpTo(runs, |runs|, previous, exportRun, true);
            var again := ExportUpTo(runs, |runs|, first.ok, exportRun, true);
            && (forall x :: x in again.exported <==> x in first.failed)
            && (forall x :: x in first.ok ==> x in again.ok)
  {
    ExportPartitions(runs, |runs|, previous, exportRun, true);
    var first := ExportUpTo(runs, |runs|, previous, exportRun, true);
    ExportPartitions(runs, |runs|, first.ok, exportRun, true);
  }

  /** `if run_ids:` — the runs named, unless there are none, in which case every run of the experiment. */
  function RunsToExport(runIds: Option<seq<string>>, experimentRuns: seq<string>): (r: seq<string>)
    ensures runIds.Some? && |runIds.value| > 0 ==> r == runIds.value
    ensures !(runIds.Some? && |runIds.value| > 0) ==> r == experimentRuns
  {
    if runIds.Some? && |runIds.value| > 0 then runIds.value else experimentRuns
  }

  /** The position of the first run `get_run` does not know, or `|runs|` when it knows
      them all. */
  function FirstUnknownRun(runs: seq<string>, runExists: string -> bool): (i: nat)
    ensures i <= |runs|
    ensures forall j :: 0 <= j < i ==> runExists(runs[j])
    ensures i < |runs| ==> !runExists(runs[i])
  {
    if |runs| == 0 || !runExists(runs[0]) then 0
    else
      var rest := FirstUnknownRun(runs[1..], runExists);
      assert forall j :: 1 <= j < 1 + rest ==> runs[j] == runs[1..][j - 1];
      1 + rest
  }

  /** How far the export loop gets: named runs are fetched with `get_run`, which raises at
      the first unknown ID; the runs the search iterator yields all exist. */
  function RunsReached(runIds: Option<seq<string>>, experimentRuns: seq<string>, runExists: string -> bool): (k: nat)
    ensures k <= |RunsToExport(runIds, experimentRuns)|
    ensures !(runIds.Some? && |runIds.value| > 0) ==> k == |experimentRuns|
    ensures runIds.Some? && |runIds.value| > 0 ==> k == FirstUnknownRun(runIds.value, runExists)
  {
    if runIds.Some? && |runIds.value| > 0 then FirstUnknownRun(runIds.value, runExists) else |experimentRuns|
  }


  class ExperimentExporter {
    var skipPreviousOkRuns: bool

    constructor ()
      ensures skipPreviousOkRuns
    {
      skipPreviousOkRuns := true;
    }

    /** `_export_run`: appends the run to the ok or the failed runs, and to `exported` when
        it handed the run to the run exporter. */
    method ExportRun(runId: string, done: Partition, previous: seq<string>, exportRun: string -> bool)
      returns (next: Partition)
      ensures next == ExportStep(done, runId, previous, exportRun, skipPreviousOkRuns)
    {
      var res: bool;
      var exported := done.exported;
      if skipPreviousOkRuns && runId in previous {
        res := true;
      } else {
        res := exportRun(runId);
        exported := exported + [runId];
      }
      if res {
        next := Partition(done.ok + [runId], done.failed, exported);
      } else {
        next := Partition(done.ok, done.failed + [runId], exported);
      }
    }

    /** `export_experiment`: `manifestFile` is `experiment.json` if the directory holds one,
        `experimentRuns` the runs the search iterator yields, `runExists` whether `get_run`
        finds a run and `exportRun` the result of the run exporter. It gives the manifest
        written, the runs handed to the run exporter and the returned counts. A manifest of
        unknown format raises before any run is exported. A named run `get_run` does not
        know raises after the runs before it were exported and before the manifest is
        written. When some run failed, the closing message divides by `j`, the index of
        the last run, which raises once the manifest is written if there was only one run. */
    method ExportExperiment(exp: Experiment, manifestFile: Option<Manifest>, runIds: Option<seq<string>>,
                            experimentRuns: seq<string>, runExists: string -> bool, exportRun: string -> bool)
      returns (written: Option<ExperimentFile>, exported: seq<string>, r: Result<(nat, nat), ExportError>)
      ensures PreviousOkRuns(manifestFile).Failure? ==>
                written == None && exported == [] && r == Failure(PreviousOkRuns(manifestFile).error)
      ensures PreviousOkRuns(manifestFile).Success? && RunsReached(runIds, experimentRuns, runExists) < |RunsToExport(runIds, experimentRuns)| ==>
                var runs := RunsToExport(runIds, experimentRuns);
                var u := RunsReached(runIds, experimentRuns, runExists);
                && written == None
                && exported == ExportUpTo(runs, u, PreviousOkRuns(manifestFile).value, exportRun, skipPreviousOkRuns).exported
                && r == Failure(UnknownRun(runs[u]))
      ensures PreviousOkRuns(manifestFile).Success? && RunsReached(runIds, experimentRuns, runExists) == |RunsToExport(runIds, experimentRuns)| ==>
                var runs := RunsToExport(runIds, experimentRuns);
                var p := ExportUpTo(runs, |runs|, PreviousOkRuns(manifestFile).value, exportRun, skipPreviousOkRuns);
                && written.Some?
                && written.value.experimentId == exp.experimentId && written.value.name == exp.name
                && written.value.runs == p.ok
                && written.value.info == ExportInfo(|runs|, |p.ok|, |p.failed|, p.failed)
                && SortedBy(written.value.tags, KeyLe) && DistinctBy(written.value.tags, Key)
                && (forall k, v :: (k, v) in written.value.tags <==> k in exp.tags && exp.tags[k] == v)
                && exported == p.exported
                && (|p.failed| > 0 && |runs| == 1 ==> r == Failure(ZeroDivision))
                && (!(|p.failed| > 0 && |runs| == 1) ==> r == Success((|p.ok|, |p.failed|)))
    {
      var j := -1;
      var previous := PreviousOkRuns(manifestFile);
      if previous.Failure? {
        return None, [], Failure(previous.error);
      }
      var named := runIds.Some? && |runIds.value| > 0;
      var runs := RunsToExport(runIds, experimentRuns);
      var done := Partition([], [], []);
      var k := 0;
      while k < |runs|
        invariant 0 <= k <= |runs| && j == k - 1
        invariant done == ExportUpTo(runs, k, previous.value, exportRun, skipPreviousOkRuns)
        invariant named ==> forall i :: 0 <= i < k ==> runExists(runs[i])
      {
        if named && !runExists(runs[k]) {
          return None, done.exported, Failure(UnknownRun(runs[k]));
        }
        j := k;
        done := ExportRun(runs[k], done, previous.value, exportRun);
        k := k + 1;
      }
      var info := ExportInfo(j + 1, |done.ok|, |done.failed|, done.failed);
      var tags := SortedTags(exp.tags);
      written := Some(ExperimentFile(exp.experimentId, exp.name, tags, done.ok, info));
      exported := done.exported;
      if |done.failed| != 0 && j == 0 {
        return written, exported, Failure(ZeroDivision);
      }
      r := Success((|done.ok|, |done.failed|));
    }
  }
}
