/** The bulk model importer's `import_model`: it registers the model, reconciles its
    exported versions, creates the versions not imported before in ascending order,
    requiring the registry to assign each the source's number, transitions every
    version to its stage, and returns the version list it writes to `import-model.json`. */
module ModelImport {
  import opened Common
  import opened Sorting
  import opened ImportConf
  import opened ModelVersions
  import opened ModelPaths
  import opened Registry
  import opened ExperimentImport

  /** The parts of the exported `model.json` the importer reads. */
  datatype ExportedModel = ExportedModel(
    name: string,
    tags: seq<Tag>,
    description: Option<string>,
    latestVersions: seq<SourceVersion>)

  /** The name `_import_model` registers the model under: the given one, or the exported
      one when none is given. The rebinding is local to `_import_model`: the rest of
      `import_model` goes on using the name it was given. */
  function ModelNameFor(modelName: string, exported: ExportedModel): string {
    if modelName == "" then exported.name else modelName
  }

  /** The contents of `import-model.json`, or `[]` when the file does not exist. */
  function PreviousList(file: Option<seq<nat>>): seq<nat> {
    if file.None? then [] else file.value
  }

  // ---------------------------------------------------------------------------
  // Planning: remove_version, fix_missing_version, fix_missing_run_version

  /** The list `all` once `remove_version`, `all += fix_missing_version(all)` and
      `fix_missing_run_version` have run. */
  function PlannedVersions(latest: seq<SourceVersion>, conf: Conf, name: string): Result<seq<SourceVersion>, ModelImportError> {
    var kept := RemovedVersions(latest, conf);
    if kept == [] then Failure(EmptyVersions)
    else FixedRunVersions(kept + Placeholders(kept), conf, name)
  }

  method PlanVersions(latest: seq<SourceVersion>, conf: Conf, name: string)
    returns (r: Result<seq<SourceVersion>, ModelImportError>)
    ensures r == PlannedVersions(latest, conf, name)
  {
    var all := RemoveVersion(latest, conf);
    var missing := FixMissingVersion(all);
    if missing.Failure? {
      return Failure(missing.error);
    }
    all := all + missing.value;
    r := FixMissingRunVersion(all, conf, name);
  }

  lemma VersionsDetermineNumbers(a: seq<SourceVersion>, b: seq<SourceVersion>)
    requires Versions(a) == Versions(b)
    ensures VersionSet(a) == VersionSet(b)
    ensures DistinctVersions(a) <==> DistinctVersions(b)
  {
    VersionSetIsNumbers(a);
    VersionSetIsNumbers(b);
    assert forall i :: 0 <= i < |a| ==> a[i].version == Versions(a)[i] == b[i].version;
  }

  /** A successful plan numbers its versions exactly `1..max` of the versions kept, keeps
      every kept number, and keeps distinct numbers distinct. */
  lemma PlannedVersionsContiguous(latest: seq<SourceVersion>, conf: Conf, name: string)
    requires PlannedVersions(latest, conf, name).Success?
    requires forall e :: e in latest ==> e.version >= 1
    ensures var kept := RemovedVersions(latest, conf);
            var all := PlannedVersions(latest, conf, name).value;
            && |kept| > 0
            && VersionSet(all) == Range(1, MaxVersion(kept))
            && (DistinctVersions(kept) ==> DistinctVersions(all))
  {
    var kept := RemovedVersions(latest, conf);
    RemoveVersionOnlyExcluded(latest, conf);
    assert forall e :: e in kept ==> e in latest by {
      forall e | e in kept ensures e in latest {
        assert multiset(kept)[e] > 0;
      }
    }
    var reconciled := kept + Placeholders(kept);
    ReconciledIsContiguous(kept);
    PlaceholdersFillGaps(kept);
    if conf.missingRuns.Some? && name in conf.missingRuns.value {
      FixRunsKeepsVersions(reconciled, conf.missingRuns.value[name]);
      VersionsDetermineNumbers(PlannedVersions(latest, conf, name).value, reconciled);
    }
  }

  // ---------------------------------------------------------------------------
  // Creating the versions

  /** `filter(lambda x: x["version"] not in previous_versions, all)` */
  function NotPrevious(all: seq<SourceVersion>, previous: seq<nat>): (r: seq<SourceVersion>)
    ensures forall e :: e in r <==> e in all && e.version !in previous
  {
    if all == [] then []
    else (if all[0].version in previous then [] else [all[0]]) + NotPrevious(all[1..], previous)
  }

  /** With no previous versions nothing is filtered out. */
  lemma {:induction false} NotPreviousOfEmpty(all: seq<SourceVersion>)
    ensures NotPrevious(all, []) == all
  {
    if all != [] {
      NotPreviousOfEmpty(all[1..]);
      assert all == [all[0]] + all[1..];
    }
  }

  /** When every version was imported before, nothing is left. */
  lemma {:induction false} NotPreviousOfAllPrevious(all: seq<SourceVersion>, previous: seq<nat>)
    requires forall e :: e in all ==> e.version in previous
    ensures NotPrevious(all, previous) == []
  {
    if all != [] {
      assert forall e :: e in all[1..] ==> e in all;
      NotPreviousOfAllPrevious(all[1..], previous);
    }
  }

  /** `versions`: what is left to create, in ascending version order. */
  function ToCreate(all: seq<SourceVersion>, previous: seq<nat>): seq<SourceVersion> {
    SortByVersion(NotPrevious(all, previous))
  }

  /** The destination version `import_version` creates for a source version whose run
      was imported as `run`. */
  function CreatedVersion(vr: SourceVersion, run: RunRecord): RegistryVersion {
    RegistryVersion(DstSource(run.artifactUri, ExtractModelPath(vr.source, vr.runId)), run.dstRunId,
                    vr.description, vr.tags, NoStage)
  }

  /** A creation of the loop: the source version and the imported run it was made from. */
  datatype Creation = Creation(version: SourceVersion, run: RunRecord)

  /** The registry versions the creations made, in order. */
  function Made(cs: seq<Creation>): seq<RegistryVersion> {
    if cs == [] then [] else Made(cs[..|cs| - 1]) + [CreatedVersion(cs[|cs| - 1].version, cs[|cs| - 1].run)]
  }

  /** The `i`-th version made is the one created from the `i`-th creation. */
  lemma {:induction false} MadeAt(cs: seq<Creation>)
    ensures |Made(cs)| == |cs|
    ensures forall i :: 0 <= i < |cs| ==> Made(cs)[i] == CreatedVersion(cs[i].version, cs[i].run)
  {
    if cs != [] {
      var init := cs[..|cs| - 1];
      MadeAt(init);
      assert forall i :: 0 <= i < |init| ==> init[i] == cs[i];
    }
  }

  lemma MadeSnoc(cs: seq<Creation>, c: Creation)
    ensures Made(cs + [c]) == Made(cs) + [CreatedVersion(c.version, c.run)]
  {
    assert (cs + [c])[..|cs|] == cs;
  }

  /** The creations the replay made, the experiments it set before each, and the error
      that stopped it. */
  datatype Replay = Replay(created: seq<Creation>, experiments: seq<string>, error: Option<ModelImportError>)

  /** One iteration of the creation loop, with `count` versions in the registry before
      the loop: an unknown source run stops the loop before any call; otherwise the
      version is created, and a number other than the source's stops the loop. */
  function ReplayStep(prior: Replay, vr: SourceVersion, count: nat, runs: map<string, RunRecord>, conf: Conf): Replay {
    if vr.runId !in runs then prior.(error := Some(UnknownSourceRun(vr.runId)))
    else
      var number := count + |prior.created| + 1;
      var next := Replay(prior.created + [Creation(vr, runs[vr.runId])],
                         prior.experiments + [ReplaceIfUserIsArchived(conf, vr.experimentName)], None);
      if vr.version != number then next.(error := Some(VersionMismatch(vr.version, number))) else next
  }

  /** The creation loop over the first `k` of `versions`. */
  function ReplayUpTo(versions: seq<SourceVersion>, k: nat, count: nat, runs: map<string, RunRecord>, conf: Conf): Replay
    requires k <= |versions|
  {
    if k == 0 then Replay([], [], None)
    else
      var prior := ReplayUpTo(versions, k - 1, count, runs, conf);
      if prior.error.Some? then prior else ReplayStep(prior, versions[k - 1], count, runs, conf)
  }

  /** The whole creation loop. */
  function ReplayAll(versions: seq<SourceVersion>, count: nat, runs: map<string, RunRecord>, conf: Conf): Replay {
    ReplayUpTo(versions, |versions|, count, runs, conf)
  }

  /** The replay creates the versions in list order: its `j`-th creation is made from the
      `j`-th version and that version's imported run, after setting the (possibly
      archived) experiment of that version; it goes through all `k` unless stopped. */
  lemma {:induction false} ReplayCreatesInOrder(versions: seq<SourceVersion>, k: nat, count: nat,
                                                runs: map<string, RunRecord>, conf: Conf)
    requires k <= |versions|
    ensures var r := ReplayUpTo(versions, k, count, runs, conf);
            && |r.created| == |r.experiments| <= k
            && (r.error.None? ==> |r.created| == k)
            && forall j :: 0 <= j < |r.created| ==>
                 && versions[j].runId in runs
                 && r.created[j] == Creation(versions[j], runs[versions[j].runId])
                 && r.experiments[j] == ReplaceIfUserIsArchived(conf, versions[j].experimentName)
  {
    if k > 0 {
      ReplayCreatesInOrder(versions, k - 1, count, runs, conf);
      var prior := ReplayUpTo(versions, k - 1, count, runs, conf);
      var r := ReplayUpTo(versions, k, count, runs, conf);
      if prior.error.None? {
        var vr := versions[k - 1];
        assert r == ReplayStep(prior, vr, count, runs, conf);
        if vr.runId in runs {
          assert r.created == prior.created + [Creation(vr, runs[vr.runId])];
          assert r.experiments == prior.experiments + [ReplaceIfUserIsArchived(conf, vr.experimentName)];
        } else {
          assert r.created == prior.created && r.experiments == prior.experiments;
        }
      } else {
        assert r == prior;
      }
    }
  }

  /** How the replay numbers and stops: every creation but the last got the source's
      number; a mismatch stops it right after the mismatching creation, which got the
      next number; an unknown run stops it before the version whose run is unknown. */
  lemma {:induction false} ReplayStops(versions: seq<SourceVersion>, k: nat, count: nat,
                                       runs: map<string, RunRecord>, conf: Conf)
    requires k <= |versions|
    ensures var r := ReplayUpTo(versions, k, count, runs, conf);
            && |r.created| <= k
            && (forall j :: 0 <= j < |r.created| - 1 ==> versions[j].version == count + 1 + j)
            && (r.error.Some? ==> r.error.value.VersionMismatch? || r.error.value.UnknownSourceRun?)
            && (r.error.Some? && r.error.value.VersionMismatch? ==>
                  && |r.created| >= 1
                  && r.error.value.created == count + |r.created|
                  && r.error.value.source == versions[|r.created| - 1].version
                  && r.error.value.source != r.error.value.created)
            && (!(r.error.Some? && r.error.value.VersionMismatch?) ==>
                  forall j :: 0 <= j < |r.created| ==> versions[j].version == count + 1 + j)
            && (r.error.Some? && r.error.value.UnknownSourceRun? ==>
                  && |r.created| < k
                  && versions[|r.created|].runId == r.error.value.runId
                  && r.error.value.runId !in runs)
  {
    if k > 0 {
      ReplayStops(versions, k - 1, count, runs, conf);
      ReplayCount(versions, k - 1, count, runs, conf);
      var prior := ReplayUpTo(versions, k - 1, count, runs, conf);
      var r := ReplayUpTo(versions, k, count, runs, conf);
      if prior.error.None? {
        var vr := versions[k - 1];
        assert r == ReplayStep(prior, vr, count, runs, conf);
        if vr.runId in runs {
          assert |r.created| == k;
          assert r.error.None? || r.error == Some(VersionMismatch(vr.version, count + k));
        } else {
          assert r.created == prior.created && r.error == Some(UnknownSourceRun(vr.runId));
        }
      } else {
        assert r == prior;
      }
    }
  }

  /** The replay runs to the end exactly when every version's run is known and the
      versions are numbered `count + 1`, `count + 2`, ... in list order. */
  lemma {:induction false} ReplaySucceedsIff(versions: seq<SourceVersion>, k: nat, count: nat,
                                             runs: map<string, RunRecord>, conf: Conf)
    requires k <= |versions|
    ensures ReplayUpTo(versions, k, count, runs, conf).error.None? <==>
              forall j :: 0 <= j < k ==> versions[j].runId in runs && versions[j].version == count + 1 + j
  {
    if k > 0 {
      ReplaySucceedsIff(versions, k - 1, count, runs, conf);
      ReplayCount(versions, k - 1, count, runs, conf);
      var prior := ReplayUpTo(versions, k - 1, count, runs, conf);
      var r := ReplayUpTo(versions, k, count, runs, conf);
      if prior.error.None? {
        var vr := versions[k - 1];
        assert r == ReplayStep(prior, vr, count, runs, conf);
        assert r.error.None? <==> vr.runId in runs && vr.version == count + k;
      } else {
        assert r == prior;
      }
    }
  }

  lemma {:induction false} ReplayCount(versions: seq<SourceVersion>, k: nat, count: nat,
                                       runs: map<string, RunRecord>, conf: Conf)
    requires k <= |versions|
    ensures ReplayUpTo(versions, k, count, runs, conf).error.None? ==> |ReplayUpTo(versions, k, count, runs, conf).created| == k
  {
    if k > 0 {
      ReplayCount(versions, k - 1, count, runs, conf);
    }
  }

  /** `import_version`: the destination `source` is the run's destination artifact URI
      joined with the model path, without `file://`. */
  method ImportVersion(registry: ModelRegistry, name: string, vr: SourceVersion, run: RunRecord,
                       ghost before: map<string, RegisteredModel>, ghost model: RegisteredModel,
                       ghost created: seq<Creation>)
    returns (number: nat)
    requires registry.models == before[name := model.(versions := model.versions + Made(created))]
    modifies registry
    ensures registry.models == before[name := model.(versions := model.versions + Made(created + [Creation(vr, run)]))]
    ensures number == |model.versions| + |created| + 1
  {
    var modelPath := ExtractModelPath(vr.source, vr.runId);
    var dstSource := DstSource(run.artifactUri, modelPath);
    MadeAt(created);
    MadeSnoc(created, Creation(vr, run));
    assert model.versions + Made(created) + [CreatedVersion(vr, run)] == model.versions + Made(created + [Creation(vr, run)]);
    var created := registry.CreateModelVersion(name, dstSource, run.dstRunId, vr.description, vr.tags);
    number := created.value;
  }

  /** The loop over `versions`: returns the experiments set before each creation and the
      error that stopped the loop, if any. */
  method CreateVersions(registry: ModelRegistry, name: string, versions: seq<SourceVersion>,
                        runs: map<string, RunRecord>, conf: Conf)
    returns (experiments: seq<string>, error: Option<ModelImportError>)
    requires name in registry.models
    modifies registry
    ensures var model := old(registry.models)[name];
            var replay := ReplayAll(versions, |model.versions|, runs, conf);
            && registry.models == old(registry.models)[name := model.(versions := model.versions + Made(replay.created))]
            && experiments == replay.experiments
            && error == replay.error
  {
    ghost var before := registry.models;
    ghost var model := before[name];
    ghost var n := |model.versions|;
    ghost var created: seq<Creation> := [];
    experiments := [];
    error := None;
    assert model.versions + Made(created) == model.versions;
    assert model.(versions := model.versions) == model;
    var k := 0;
    while k < |versions| && error.None?
      invariant 0 <= k <= |versions|
      invariant registry.models == before[name := model.(versions := model.versions + Made(created))]
      invariant ReplayUpTo(versions, k, n, runs, conf) == Replay(created, experiments, error)
    {
      created, experiments, error := CreateNext(registry, name, versions, k, runs, conf, before, model, created, experiments);
      k := k + 1;
    }
    ReplayFinished(versions, k, n, runs, conf);
  }

  /** Where the loop ends, by stopping or by reaching the end, the replay is complete. */
  lemma ReplayFinished(versions: seq<SourceVersion>, k: nat, count: nat, runs: map<string, RunRecord>, conf: Conf)
    requires k <= |versions|
    requires k == |versions| || ReplayUpTo(versions, k, count, runs, conf).error.Some?
    ensures ReplayAll(versions, count, runs, conf) == ReplayUpTo(versions, k, count, runs, conf)
  {
    if k < |versions| {
      ReplayStopped(versions, k, count, runs, conf);
    }
  }

  /** One iteration of the creation loop, over `versions[k]`: `created` are the versions
      the loop created so far and `experiments` the experiments it set. */
  method CreateNext(registry: ModelRegistry, name: string, versions: seq<SourceVersion>, k: nat,
                    runs: map<string, RunRecord>, conf: Conf,
                    ghost before: map<string, RegisteredModel>, ghost model: RegisteredModel,
                    ghost created: seq<Creation>, experiments: seq<string>)
    returns (ghost created': seq<Creation>, experiments': seq<string>, error: Option<ModelImportError>)
    requires k < |versions|
    requires registry.models == before[name := model.(versions := model.versions + Made(created))]
    requires ReplayUpTo(versions, k, |model.versions|, runs, conf) == Replay(created, experiments, None)
    modifies registry
    ensures registry.models == before[name := model.(versions := model.versions + Made(created'))]
    ensures ReplayUpTo(versions, k + 1, |model.versions|, runs, conf) == Replay(created', experiments', error)
  {
    var vr := versions[k];
    assert ReplayUpTo(versions, k + 1, |model.versions|, runs, conf)
        == ReplayStep(Replay(created, experiments, None), vr, |model.versions|, runs, conf);
    if vr.runId !in runs {
      return created, experiments, Some(UnknownSourceRun(vr.runId));
    }
    var run := runs[vr.runId];
    var experiment := ReplaceIfUserIsArchived(conf, vr.experimentName);
    var number := ImportVersion(registry, name, vr, run, before, model, created);
    created' := created + [Creation(vr, run)];
    experiments' := experiments + [experiment];
    error := if number != vr.version then Some(VersionMismatch(vr.version, number)) else None;
  }

  /** Once stopped, the replay stays as it is. */
  lemma {:induction false} ReplayStopped(versions: seq<SourceVersion>, k: nat, count: nat,
                                         runs: map<string, RunRecord>, conf: Conf)
    requires k <= |versions|
    requires ReplayUpTo(versions, k, count, runs, conf).error.Some?
    ensures ReplayAll(versions, count, runs, conf) == ReplayUpTo(versions, k, count, runs, conf)
    decreases |versions| - k
  {
    if k < |versions| {
      ReplayStopped(versions, k + 1, count, runs, conf);
    }
  }

  // ---------------------------------------------------------------------------
  // Transitioning the stages

  /** The registry versions once version `vr.version` was moved to `vr`'s stage. */
  function Staged(vs: seq<RegistryVersion>, vr: SourceVersion): seq<RegistryVersion>
    requires 1 <= vr.version <= |vs|
  {
    vs[vr.version - 1 := vs[vr.version - 1].(stage := vr.currentStage)]
  }

  datatype Staging = Staging(versions: seq<RegistryVersion>, error: Option<ModelImportError>)

  /** The loop over `to_transition`: versions without a stage are skipped, moving a
      version to the stage it already has changes nothing, and a version the registry
      does not hold stops the loop with an error. */
  function Transitions(vs: seq<RegistryVersion>, order: seq<SourceVersion>): Staging
    decreases |order|
  {
    if order == [] then Staging(vs, None)
    else
      var vr := order[0];
      if vr.currentStage == NoStage then Transitions(vs, order[1..])
      else if !(1 <= vr.version <= |vs|) then Staging(vs, Some(TransitionFailed(vr.version, vr.currentStage)))
      else Transitions(Staged(vs, vr), order[1..])
  }

  /** The transitions change stages only, and fail exactly when a version with a stage is
      not one the registry holds. */
  lemma {:induction false} TransitionsKeepFields(vs: seq<RegistryVersion>, order: seq<SourceVersion>)
    ensures var r := Transitions(vs, order);
            && |r.versions| == |vs|
            && (forall i :: 0 <= i < |vs| ==> r.versions[i].(stage := vs[i].stage) == vs[i])
            && (r.error.None? <==>
                  forall j :: 0 <= j < |order| && order[j].currentStage != NoStage ==> 1 <= order[j].version <= |vs|)
            && (r.error.Some? ==> r.error.value.TransitionFailed? && r.error.value.stage != NoStage &&
                                  !(1 <= r.error.value.version <= |vs|))
    decreases |order|
  {
    if order != [] {
      var vr := order[0];
      assert forall j :: 0 <= j < |order[1..]| ==> order[1..][j] == order[j + 1];
      if vr.currentStage == NoStage {
        TransitionsKeepFields(vs, order[1..]);
        assert forall j :: 0 < j < |order| ==> order[j] == order[1..][j - 1];
      } else if 1 <= vr.version <= |vs| {
        var next := Staged(vs, vr);
        TransitionsKeepFields(next, order[1..]);
        assert forall i :: 0 <= i < |vs| ==> next[i].(stage := vs[i].stage) == vs[i];
        assert forall j :: 0 < j < |order| ==> order[j] == order[1..][j - 1];
      }
    }
  }

  /** A version no entry with a stage names keeps its stage. */
  lemma {:induction false} TransitionsKeepUnnamed(vs: seq<RegistryVersion>, order: seq<SourceVersion>, i: nat)
    requires i < |vs|
    requires forall j :: 0 <= j < |order| && order[j].currentStage != NoStage ==> order[j].version != i + 1
    ensures |Transitions(vs, order).versions| == |vs| && Transitions(vs, order).versions[i] == vs[i]
    decreases |order|
  {
    TransitionsKeepFields(vs, order);
    if order != [] {
      var vr := order[0];
      assert forall j :: 0 <= j < |order[1..]| ==> order[1..][j] == order[j + 1];
      if vr.currentStage == NoStage {
        TransitionsKeepUnnamed(vs, order[1..], i);
      } else if 1 <= vr.version <= |vs| {
        TransitionsKeepUnnamed(Staged(vs, vr), order[1..], i);
      }
    }
  }

  /** When no transition fails, a version gets the stage of the last entry naming it. */
  lemma {:induction false} TransitionsSetStage(vs: seq<RegistryVersion>, order: seq<SourceVersion>, j: nat)
    requires j < |order| && order[j].currentStage != NoStage
    requires forall l :: 0 <= l < |order| && order[l].currentStage != NoStage ==> 1 <= order[l].version <= |vs|
    requires forall l :: j < l < |order| && order[l].currentStage != NoStage ==> order[l].version != order[j].version
    ensures var r := Transitions(vs, order);
            |r.versions| == |vs| && r.versions[order[j].version - 1].stage == order[j].currentStage
    decreases |order|
  {
    TransitionsKeepFields(vs, order);
    var vr := order[0];
    var rest := order[1..];
    assert forall l :: 0 <= l < |rest| ==> rest[l] == order[l + 1];
    var next := if vr.currentStage == NoStage then vs else Staged(vs, vr);
    assert Transitions(vs, order) == Transitions(next, rest);
    if j == 0 {
      TransitionsKeepUnnamed(next, rest, vr.version - 1);
    } else {
      TransitionsSetStage(next, rest, j - 1);
    }
  }

  /** One iteration of the transition loop for a version with a stage. */
  method TransitionVersion(registry: ModelRegistry, name: string, vr: SourceVersion,
                           ghost before: map<string, RegisteredModel>, ghost model: RegisteredModel,
                           ghost current: seq<RegistryVersion>)
    returns (error: Option<ModelImportError>)
    requires vr.currentStage != NoStage
    requires registry.models == before[name := model.(versions := current)]
    modifies registry
    ensures !(1 <= vr.version <= |current|) ==>
              error == Some(TransitionFailed(vr.version, vr.currentStage)) && registry.models == old(registry.models)
    ensures 1 <= vr.version <= |current| ==>
              error == None && registry.models == before[name := model.(versions := Staged(current, vr))]
  {
    var outcome := registry.TransitionModelVersionStage(name, vr.version, vr.currentStage);
    if outcome == VersionNotFound {
      return Some(TransitionFailed(vr.version, vr.currentStage));
    }
    if outcome == AlreadyInStage {
      assert current[vr.version - 1].(stage := vr.currentStage) == current[vr.version - 1];
      assert Staged(current, vr) == current;
    }
    return None;
  }

  method TransitionVersions(registry: ModelRegistry, name: string, toTransition: seq<SourceVersion>)
    returns (error: Option<ModelImportError>)
    requires name in registry.models
    modifies registry
    ensures var model := old(registry.models)[name];
            var staging := Transitions(model.versions, toTransition);
            registry.models == old(registry.models)[name := model.(versions := staging.versions)] && error == staging.error
  {
    ghost var before := registry.models;
    ghost var model := before[name];
    ghost var current := model.versions;
    assert model.(versions := current) == model;
    var k := 0;
    while k < |toTransition|
      invariant 0 <= k <= |toTransition|
      invariant registry.models == before[name := model.(versions := current)]
      invariant Transitions(current, toTransition[k..]) == Transitions(model.versions, toTransition)
    {
      var vr := toTransition[k];
      assert toTransition[k..][1..] == toTransition[k + 1..];
      if vr.currentStage != NoStage {
        error := TransitionVersion(registry, name, vr, before, model, current);
        if error.Some? {
          return error;
        }
        current := Staged(current, vr);
      }
      k := k + 1;
    }
    return None;
  }

  /** The transition loop for a name the registry does not hold: every version with a
      stage is one the registry does not find, so the first of them stops the loop. */
  method TransitionUnregistered(registry: ModelRegistry, name: string, toTransition: seq<SourceVersion>)
    returns (error: Option<ModelImportError>)
    requires name !in registry.models
    modifies registry
    ensures registry.models == old(registry.models) && error == Transitions([], toTransition).error
  {
    var k := 0;
    while k < |toTransition|
      invariant 0 <= k <= |toTransition|
      invariant registry.models == old(registry.models)
      invariant Transitions([], toTransition[k..]) == Transitions([], toTransition)
    {
      var vr := toTransition[k];
      assert toTransition[k..][1..] == toTransition[k + 1..];
      if vr.currentStage != NoStage {
        var outcome := registry.TransitionModelVersionStage(name, vr.version, vr.currentStage);
        return Some(TransitionFailed(vr.version, vr.currentStage));
      }
      k := k + 1;
    }
    return None;
  }

  /** The transition loop as written: `wait_until_version_is_ready` is handed the string
      `vr['version']` and reads its `version` attribute before it polls, which raises; the
      first version with a stage therefore ends the import before any transition. */
  function TransitionsAsWritten(vs: seq<RegistryVersion>, order: seq<SourceVersion>): (r: Staging)
    ensures r.versions == vs
    ensures r.error.None? <==> forall j :: 0 <= j < |order| ==> order[j].currentStage == NoStage
    ensures r.error.Some? ==> exists j :: 0 <= j < |order| && order[j].currentStage != NoStage &&
                                         r.error == Some(WaitFailed(order[j].version))
    decreases |order|
  {
    if order == [] then Staging(vs, None)
    else
      assert forall j :: 0 < j < |order| ==> order[j] == order[1..][j - 1];
      if order[0].currentStage == NoStage then TransitionsAsWritten(vs, order[1..])
      else Staging(vs, Some(WaitFailed(order[0].version)))
  }

  /** Where the intended loop moves a version to its stage, the loop as written stops with
      the registry untouched. */
  lemma AsWrittenStagesNothing(vs: seq<RegistryVersion>, order: seq<SourceVersion>, j: nat)
    requires j < |order| && order[j].currentStage != NoStage
    requires forall l :: 0 <= l < |order| && order[l].currentStage != NoStage ==> 1 <= order[l].version <= |vs|
    requires forall l :: j < l < |order| && order[l].currentStage != NoStage ==> order[l].version != order[j].version
    ensures Transitions(vs, order).error.None? && |Transitions(vs, order).versions| == |vs|
    ensures Transitions(vs, order).versions[order[j].version - 1].stage == order[j].currentStage
    ensures TransitionsAsWritten(vs, order).error.Some? && TransitionsAsWritten(vs, order).versions == vs
  {
    TransitionsKeepFields(vs, order);
    TransitionsSetStage(vs, order, j);
  }

  /** A model with a missing version number always reaches a version with a stage: its
      placeholders are archived. So, as written, the transition loop stops on it. */
  lemma PlaceholdersStopAsWritten(vs: seq<RegistryVersion>, kept: seq<SourceVersion>)
    requires |kept| > 0 && Gaps(kept) != []
    ensures TransitionsAsWritten(vs, SortByVersion(kept + Placeholders(kept))).error.Some?
  {
    var ps := Placeholders(kept);
    FillersForAt(kept, Gaps(kept));
    FillerShape(kept, Gaps(kept)[0]);
    var p := ps[0];
    assert p.currentStage == Archived;
    var all := kept + ps;
    assert p in all by { assert all[|kept|] == p; }
    var sorted := SortByVersion(all);
    SortByVersionSpec(all);
    assert p in multiset(sorted);
    var j :| 0 <= j < |sorted| && sorted[j] == p;
    assert sorted[j].currentStage != NoStage;
  }

  // ---------------------------------------------------------------------------
  // The whole import

  datatype ModelImportRun = ModelImportRun(
    models: map<string, RegisteredModel>,
    written: Result<seq<nat>, ModelImportError>,
    experiments: seq<string>)

  /** What `import_model` does to the registry, what it writes to `import-model.json`
      (or the error it raises), and the experiments it sets. `_import_model` registers the
      model under `ModelNameFor(modelName, exported)`; the versions are planned, created
      and staged under `modelName` itself. */
  function ImportedModel(models: map<string, RegisteredModel>, modelName: string, exported: ExportedModel,
                         previousFile: Option<seq<nat>>, runs: map<string, RunRecord>, conf: Conf): ModelImportRun
  {
    var previous := PreviousList(previousFile);
    var registeredName := ModelNameFor(modelName, exported);
    var registration := Registration(models, registeredName, TagMap(exported.tags), exported.description, |previous| == 0);
    if registration.None? then ModelImportRun(models, Failure(ModelNotRegistered(registeredName)), [])
    else
      var planned := PlannedVersions(exported.latestVersions, conf, modelName);
      if planned.Failure? then ModelImportRun(registration.value, Failure(planned.error), [])
      else VersionsImported(registration.value, modelName, planned.value, previous, runs, conf)
  }

  /** The creation and the transition loops of `import_model` over the planned versions
      `all` of the model `name`. */
  function VersionsImported(models: map<string, RegisteredModel>, name: string, all: seq<SourceVersion>,
                            previous: seq<nat>, runs: map<string, RunRecord>, conf: Conf): ModelImportRun
  {
    if name !in models then UnregisteredImport(models, name, all, previous, runs, conf)
    else
      var model := models[name];
      var replay := ReplayAll(ToCreate(all, previous), |model.versions|, runs, conf);
      var createdVersions := model.versions + Made(replay.created);
      if replay.error.Some? then
        ModelImportRun(models[name := model.(versions := createdVersions)], Failure(replay.error.value), replay.experiments)
      else
        var staging := Transitions(createdVersions, SortByVersion(all));
        ModelImportRun(models[name := model.(versions := staging.versions)],
                       if staging.error.Some? then Failure(staging.error.value) else Success(Versions(all)),
                       replay.experiments)
  }

  /** The loops for a name the registry does not hold: the first version to create stops
      the import, `create_model_version` refusing it once its run is found; with nothing to
      create, the first version with a stage fails to transition. */
  function UnregisteredImport(models: map<string, RegisteredModel>, name: string, all: seq<SourceVersion>,
                              previous: seq<nat>, runs: map<string, RunRecord>, conf: Conf): ModelImportRun
  {
    var toCreate := ToCreate(all, previous);
    if toCreate != [] then
      var vr := toCreate[0];
      if vr.runId !in runs then ModelImportRun(models, Failure(UnknownSourceRun(vr.runId)), [])
      else ModelImportRun(models, Failure(ModelNotRegistered(name)), [ReplaceIfUserIsArchived(conf, vr.experimentName)])
    else
      var staging := Transitions([], SortByVersion(all));
      ModelImportRun(models, if staging.error.Some? then Failure(staging.error.value) else Success(Versions(all)), [])
  }

  /** What is left to create is every planned version not imported before, in ascending order. */
  lemma ToCreateSpec(all: seq<SourceVersion>, previous: seq<nat>)
    ensures forall e :: e in ToCreate(all, previous) <==> e in all && e.version !in previous
    ensures forall i, j :: 0 <= i < j < |ToCreate(all, previous)| ==>
              ToCreate(all, previous)[i].version <= ToCreate(all, previous)[j].version
  {
    var rest := NotPrevious(all, previous);
    SortByVersionSpec(rest);
    forall e ensures e in ToCreate(all, previous) <==> e in rest {
      assert e in ToCreate(all, previous) <==> e in multiset(ToCreate(all, previous));
    }
  }

  /** The import changes the registry only under the name it registers and the name it
      creates the versions under. A first import (no `import-model.json`) of a model the
      registry does not hold raises in `delete_model` and changes nothing; otherwise the
      model is registered. */
  lemma ImportedModelFootprint(models: map<string, RegisteredModel>, modelName: string, exported: ExportedModel,
                               previousFile: Option<seq<nat>>, runs: map<string, RunRecord>, conf: Conf)
    ensures var run := ImportedModel(models, modelName, exported, previousFile, runs, conf);
            var name := ModelNameFor(modelName, exported);
            && (PreviousList(previousFile) == [] && name !in models ==>
                  run == ModelImportRun(models, Failure(ModelNotRegistered(name)), []))
            && (!(PreviousList(previousFile) == [] && name !in models) ==> run.models.Keys == models.Keys + {name})
            && forall other :: other in models && other != name && other != modelName ==> run.models[other] == models[other]
  {
    var name := ModelNameFor(modelName, exported);
    var previous := PreviousList(previousFile);
    var registration := Registration(models, name, TagMap(exported.tags), exported.description, |previous| == 0);
    var planned := PlannedVersions(exported.latestVersions, conf, modelName);
    if registration.Some? && planned.Success? {
      VersionsImportedKeepsOthers(registration.value, modelName, planned.value, previous, runs, conf);
    }
  }

  lemma VersionsImportedKeepsOthers(models: map<string, RegisteredModel>, name: string, all: seq<SourceVersion>,
                                    previous: seq<nat>, runs: map<string, RunRecord>, conf: Conf)
    ensures var run := VersionsImported(models, name, all, previous, runs, conf);
            run.models.Keys == models.Keys && forall other :: other in models && other != name ==> run.models[other] == models[other]
  {
  }
  /** The versions of a fresh import of versions numbered exactly `1..m`, all of whose runs
      were imported: version `n` of the registry is made from the source version `n`, and
      ends in its stage. */
  lemma VersionsImportedFresh(models: map<string, RegisteredModel>, name: string, all: seq<SourceVersion>,
                              m: nat, runs: map<string, RunRecord>, conf: Conf)
    requires name in models && models[name].versions == []
    requires DistinctVersions(all) && VersionSet(all) == Range(1, m)
    requires forall e :: e in all ==> e.runId in runs
    ensures var run := VersionsImported(models, name, all, [], runs, conf);
            && name in run.models
            && run.written == Success(Versions(all))
            && |run.models[name].versions| == |all| == m
            && |run.experiments| == m
            && forall e :: e in all ==>
                 && 1 <= e.version <= m
                 && run.models[name].versions[e.version - 1] == CreatedVersion(e, runs[e.runId]).(stage := e.currentStage)
  {
    var sorted := SortByVersion(all);
    NotPreviousOfEmpty(all);
    assert ToCreate(all, []) == sorted;
    SortedFresh(all, m);
    FreshReplay(sorted, runs, conf);
    var replay := ReplayAll(sorted, 0, runs, conf);
    var created := Made(replay.created);
    assert models[name].versions + created == created;
    FreshTransitions(sorted, created, runs);
    var staged := Transitions(created, sorted).versions;
    assert VersionsImported(models, name, all, [], runs, conf) ==
           ModelImportRun(models[name := models[name].(versions := staged)], Success(Versions(all)), replay.experiments);
    FreshVersionsByNumber(all, sorted, staged, runs);
  }

  /** Version `i + 1` sits at index `i`, so each version is found under its own number. */
  lemma FreshVersionsByNumber(all: seq<SourceVersion>, sorted: seq<SourceVersion>, staged: seq<RegistryVersion>,
                              runs: map<string, RunRecord>)
    requires forall e :: e in sorted <==> e in all
    requires |staged| == |sorted|
    requires forall i :: 0 <= i < |sorted| ==> sorted[i].version == i + 1 && sorted[i].runId in runs
    requires forall i :: 0 <= i < |sorted| ==>
               staged[i] == CreatedVersion(sorted[i], runs[sorted[i].runId]).(stage := sorted[i].currentStage)
    ensures forall e :: e in all ==>
              && 1 <= e.version <= |sorted| && e.runId in runs
              && staged[e.version - 1] == CreatedVersion(e, runs[e.runId]).(stage := e.currentStage)
  {
    forall e | e in all
      ensures 1 <= e.version <= |sorted| && e.runId in runs
      ensures staged[e.version - 1] == CreatedVersion(e, runs[e.runId]).(stage := e.currentStage)
    {
      var p :| 0 <= p < |sorted| && sorted[p] == e;
    }
  }

  /** The creation loop of a fresh import of `1, 2, ..., n`, every run known, creates them all. */
  lemma FreshReplay(sorted: seq<SourceVersion>, runs: map<string, RunRecord>, conf: Conf)
    requires forall i :: 0 <= i < |sorted| ==> sorted[i].version == i + 1 && sorted[i].runId in runs
    ensures var replay := ReplayAll(sorted, 0, runs, conf);
            && replay.error.None?
            && |Made(replay.created)| == |replay.experiments| == |sorted|
            && forall i :: 0 <= i < |sorted| ==> Made(replay.created)[i] == CreatedVersion(sorted[i], runs[sorted[i].runId])
  {
    ReplaySucceedsIff(sorted, |sorted|, 0, runs, conf);
    ReplayCreatesInOrder(sorted, |sorted|, 0, runs, conf);
    MadeAt(ReplayAll(sorted, 0, runs, conf).created);
  }

  /** The transitions of a fresh import move each version to its own stage. */
  lemma FreshTransitions(sorted: seq<SourceVersion>, created: seq<RegistryVersion>, runs: map<string, RunRecord>)
    requires |sorted| == |created|
    requires forall i :: 0 <= i < |sorted| ==> sorted[i].version == i + 1
    requires forall i :: 0 <= i < |sorted| ==> sorted[i].runId in runs && created[i] == CreatedVersion(sorted[i], runs[sorted[i].runId])
    ensures var staging := Transitions(created, sorted);
            && staging.error.None?
            && |staging.versions| == |created|
            && forall i :: 0 <= i < |sorted| ==>
                 staging.versions[i] == CreatedVersion(sorted[i], runs[sorted[i].runId]).(stage := sorted[i].currentStage)
  {
    TransitionsKeepFields(created, sorted);
    forall i | 0 <= i < |sorted|
      ensures Transitions(created, sorted).versions[i] == CreatedVersion(sorted[i], runs[sorted[i].runId]).(stage := sorted[i].currentStage)
    {
      FreshVersionAt(sorted, created, runs, i);
    }
  }

  /** The registry version `p + 1` of a fresh import, from the `p`-th of the sorted versions. */
  lemma FreshVersionAt(sorted: seq<SourceVersion>, created: seq<RegistryVersion>, runs: map<string, RunRecord>, p: nat)
    requires p < |sorted| == |created|
    requires forall i :: 0 <= i < |sorted| ==> sorted[i].version == i + 1
    requires forall i :: 0 <= i < |sorted| ==> sorted[i].runId in runs && created[i] == CreatedVersion(sorted[i], runs[sorted[i].runId])
    ensures |Transitions(created, sorted).versions| == |created|
    ensures Transitions(created, sorted).versions[p] == CreatedVersion(sorted[p], runs[sorted[p].runId]).(stage := sorted[p].currentStage)
  {
    var e := sorted[p];
    TransitionsKeepFields(created, sorted);
    var vs := Transitions(created, sorted).versions;
    if e.currentStage != NoStage {
      TransitionsSetStage(created, sorted, p);
      assert vs[p].(stage := created[p].stage) == created[p];
    } else {
      TransitionsKeepUnnamed(created, sorted, p);
    }
  }

  /** Sorted, distinct versions numbered exactly `1..m` are `1, 2, ..., m` in list order. */
  lemma SortedFresh(all: seq<SourceVersion>, m: nat)
    requires DistinctVersions(all) && VersionSet(all) == Range(1, m)
    ensures var sorted := SortByVersion(all);
            && |sorted| == |all| == m
            && (forall e :: e in sorted <==> e in all)
            && forall i :: 0 <= i < |sorted| ==> sorted[i].version == i + 1
  {
    var sorted := SortByVersion(all);
    SortByVersionSpec(all);
    SortByVersionKeepsDistinct(all);
    forall e ensures e in sorted <==> e in all {
      assert e in sorted <==> e in multiset(sorted);
    }
    assert VersionSet(sorted) == VersionSet(all);
    ContiguousSorted(sorted, m);
  }

  /** A first import (no `import-model.json`), under a given name the registry holds, of a
      model whose kept versions have distinct numbers and whose runs were all imported:
      the model is deleted and registered anew with the exported tags and description,
      version `1..max` are each created from the source version of that number and moved
      to its stage, and the planned version numbers are written. */
  lemma ImportedModelFresh(models: map<string, RegisteredModel>, modelName: string, exported: ExportedModel,
                           runs: map<string, RunRecord>, conf: Conf)
    requires modelName != "" && modelName in models
    requires forall e :: e in exported.latestVersions ==> e.version >= 1
    requires DistinctVersions(RemovedVersions(exported.latestVersions, conf))
    requires PlannedVersions(exported.latestVersions, conf, modelName).Success?
    requires forall e :: e in PlannedVersions(exported.latestVersions, conf, modelName).value ==> e.runId in runs
    ensures var all := PlannedVersions(exported.latestVersions, conf, modelName).value;
            var run := ImportedModel(models, modelName, exported, None, runs, conf);
            && run.written == Success(Versions(all))
            && modelName in run.models
            && run.models[modelName].tags == TagMap(exported.tags)
            && run.models[modelName].description == exported.description
            && |run.models[modelName].versions| == |all| == MaxVersion(RemovedVersions(exported.latestVersions, conf))
            && forall e :: e in all ==>
                 && 1 <= e.version <= |all|
                 && run.models[modelName].versions[e.version - 1] == CreatedVersion(e, runs[e.runId]).(stage := e.currentStage)
  {
    var all := PlannedVersions(exported.latestVersions, conf, modelName).value;
    PlannedVersionsContiguous(exported.latestVersions, conf, modelName);
    var kept := RemovedVersions(exported.latestVersions, conf);
    var registered := Registration(models, modelName, TagMap(exported.tags), exported.description, true).value;
    assert registered[modelName] == RegisteredModel(TagMap(exported.tags), exported.description, []);
    VersionsImportedFresh(registered, modelName, all, MaxVersion(kept), runs, conf);
  }

  /** Importing again, under a given name the registry holds, once every planned version
      was imported creates nothing and sets no experiment: the model keeps its versions, of
      which only the stages may change, and gets the exported tags. */
  lemma ImportedModelRerun(models: map<string, RegisteredModel>, modelName: string, exported: ExportedModel,
                           previous: seq<nat>, runs: map<string, RunRecord>, conf: Conf)
    requires modelName != "" && modelName in models
    requires PlannedVersions(exported.latestVersions, conf, modelName).Success?
    requires forall e :: e in PlannedVersions(exported.latestVersions, conf, modelName).value ==> e.version in previous
    ensures var model := models[modelName];
            var run := ImportedModel(models, modelName, exported, Some(previous), runs, conf);
            && run.experiments == []
            && modelName in run.models
            && run.models[modelName].tags == model.tags + TagMap(exported.tags)
            && run.models[modelName].description == model.description
            && |run.models[modelName].versions| == |model.versions|
            && forall i :: 0 <= i < |model.versions| ==>
                 run.models[modelName].versions[i].(stage := model.versions[i].stage) == model.versions[i]
  {
    var all := PlannedVersions(exported.latestVersions, conf, modelName).value;
    var kept := RemovedVersions(exported.latestVersions, conf);
    assert all == FixedRunVersions(kept + Placeholders(kept), conf, modelName).value;
    assert |all| > 0 by {
      if conf.missingRuns.Some? && modelName in conf.missingRuns.value {
        FixRunsKeepsVersions(kept + Placeholders(kept), conf.missingRuns.value[modelName]);
      }
    }
    assert all[0] in all;
    assert |previous| > 0;
    var registered := Registration(models, modelName, TagMap(exported.tags), exported.description, false).value;
    VersionsImportedRerun(registered, modelName, all, previous, runs, conf);
  }

  /** The version part of such a rerun. */
  lemma VersionsImportedRerun(models: map<string, RegisteredModel>, name: string, all: seq<SourceVersion>,
                              previous: seq<nat>, runs: map<string, RunRecord>, conf: Conf)
    requires name in models
    requires forall e :: e in all ==> e.version in previous
    ensures var model := models[name];
            var run := VersionsImported(models, name, all, previous, runs, conf);
            && run.experiments == []
            && name in run.models
            && run.models[name].tags == model.tags
            && run.models[name].description == model.description
            && |run.models[name].versions| == |model.versions|
            && forall i :: 0 <= i < |model.versions| ==>
                 run.models[name].versions[i].(stage := model.versions[i].stage) == model.versions[i]
  {
    NotPreviousOfAllPrevious(all, previous);
    var toCreate := ToCreate(all, previous);
    assert toCreate == [];
    var model := models[name];
    assert ReplayAll(toCreate, |model.versions|, runs, conf) == Replay([], [], None);
    assert model.versions + Made([]) == model.versions;
    TransitionsKeepFields(model.versions, SortByVersion(all));
  }

  /** Without a model name the model is registered under the exported name, but its
      versions go to the name "", which the registry does not hold: nothing is created or
      staged, and the import succeeds only when there is nothing to create or stage. */
  lemma ImportedModelUnnamed(models: map<string, RegisteredModel>, exported: ExportedModel,
                             previousFile: Option<seq<nat>>, runs: map<string, RunRecord>, conf: Conf)
    requires exported.name != "" && "" !in models
    requires !(PreviousList(previousFile) == [] && exported.name !in models)
    requires PlannedVersions(exported.latestVersions, conf, "").Success?
    ensures var previous := PreviousList(previousFile);
            var all := PlannedVersions(exported.latestVersions, conf, "").value;
            var run := ImportedModel(models, "", exported, previousFile, runs, conf);
            && run.models == Registration(models, exported.name, TagMap(exported.tags), exported.description, previous == []).value
            && "" !in run.models
            && |run.experiments| <= 1
            && (run.written.Success? <==> forall e :: e in all ==> e.version in previous && e.currentStage == NoStage)
  {
    var previous := PreviousList(previousFile);
    var all := PlannedVersions(exported.latestVersions, conf, "").value;
    var registered := Registration(models, exported.name, TagMap(exported.tags), exported.description, previous == []).value;
    assert ImportedModel(models, "", exported, previousFile, runs, conf) == UnregisteredImport(registered, "", all, previous, runs, conf);
    UnregisteredImportSpec(registered, "", all, previous, runs, conf);
  }

  /** For a name the registry does not hold nothing changes, and the import succeeds exactly
      when every planned version was imported before and has no stage. */
  lemma UnregisteredImportSpec(models: map<string, RegisteredModel>, name: string, all: seq<SourceVersion>,
                               previous: seq<nat>, runs: map<string, RunRecord>, conf: Conf)
    ensures var run := UnregisteredImport(models, name, all, previous, runs, conf);
            && run.models == models
            && |run.experiments| <= 1
            && (run.written.Success? <==> forall e :: e in all ==> e.version in previous && e.currentStage == NoStage)
  {
    ToCreateSpec(all, previous);
    var toCreate := ToCreate(all, previous);
    if toCreate != [] {
      assert toCreate[0] in toCreate;
    } else {
      var sorted := SortByVersion(all);
      SortByVersionSpec(all);
      TransitionsKeepFields([], sorted);
      forall e ensures e in sorted <==> e in all {
        assert e in sorted <==> e in multiset(sorted);
      }
    }
  }

  /** `AllModelImporter.import_model` */
  method ImportModel(registry: ModelRegistry, modelName: string, exported: ExportedModel,
                     previousFile: Option<seq<nat>>, runInfoMap: map<string, RunRecord>, conf: Conf)
    returns (written: Result<seq<nat>, ModelImportError>, experiments: seq<string>)
    modifies registry
    ensures var run := ImportedModel(old(registry.models), modelName, exported, previousFile, runInfoMap, conf);
            registry.models == run.models && written == run.written && experiments == run.experiments
  {
    var previousVersions := PreviousList(previousFile);
    var registeredName := ModelNameFor(modelName, exported);
    var ok := ImportRegisteredModel(registry, registeredName, exported.tags, exported.description, |previousVersions| == 0);
    if !ok {
      return Failure(ModelNotRegistered(registeredName)), [];
    }
    var planned := PlanVersions(exported.latestVersions, conf, modelName);
    if planned.Failure? {
      return Failure(planned.error), [];
    }
    written, experiments := ImportVersions(registry, modelName, planned.value, previousVersions, runInfoMap, conf);
  }

  /** The version part of `import_model`, once `_import_model` has returned. */
  method ImportVersions(registry: ModelRegistry, name: string, all: seq<SourceVersion>, previousVersions: seq<nat>,
                        runInfoMap: map<string, RunRecord>, conf: Conf)
    returns (written: Result<seq<nat>, ModelImportError>, experiments: seq<string>)
    modifies registry
    ensures var run := VersionsImported(old(registry.models), name, all, previousVersions, runInfoMap, conf);
            registry.models == run.models && written == run.written && experiments == run.experiments
  {
    if name !in registry.models {
      written, experiments := ImportUnregistered(registry, name, all, previousVersions, runInfoMap, conf);
      return;
    }
    ghost var before := registry.models;
    ghost var model := before[name];
    var versions := ToCreate(all, previousVersions);
    ghost var replay := ReplayAll(versions, |model.versions|, runInfoMap, conf);
    var error;
    experiments, error := CreateVersions(registry, name, versions, runInfoMap, conf);
    if error.Some? {
      return Failure(error.value), experiments;
    }
    ghost var createdModel := model.(versions := model.versions + Made(replay.created));
    assert registry.models == before[name := createdModel];
    var toTransition := SortByVersion(all);
    ghost var staging := Transitions(createdModel.versions, toTransition);
    error := TransitionVersions(registry, name, toTransition);
    assert registry.models == before[name := createdModel][name := createdModel.(versions := staging.versions)];
    assert createdModel.(versions := staging.versions) == model.(versions := staging.versions);
    assert registry.models == before[name := model.(versions := staging.versions)];
    if error.Some? {
      return Failure(error.value), experiments;
    }
    written := Success(Versions(all));
  }

  /** The version part of `import_model` for a name the registry does not hold. */
  method ImportUnregistered(registry: ModelRegistry, name: string, all: seq<SourceVersion>, previousVersions: seq<nat>,
                            runInfoMap: map<string, RunRecord>, conf: Conf)
    returns (written: Result<seq<nat>, ModelImportError>, experiments: seq<string>)
    requires name !in registry.models
    modifies registry
    ensures var run := UnregisteredImport(old(registry.models), name, all, previousVersions, runInfoMap, conf);
            registry.models == run.models && written == run.written && experiments == run.experiments
  {
    var versions := ToCreate(all, previousVersions);
    if |versions| > 0 {
      var vr := versions[0];
      if vr.runId !in runInfoMap {
        return Failure(UnknownSourceRun(vr.runId)), [];
      }
      var run := runInfoMap[vr.runId];
      experiments := [ReplaceIfUserIsArchived(conf, vr.experimentName)];
      var created := registry.CreateModelVersion(name, DstSource(run.artifactUri, ExtractModelPath(vr.source, vr.runId)),
                                                 run.dstRunId, vr.description, vr.tags);
      return Failure(ModelNotRegistered(name)), experiments;
    }
    var error := TransitionUnregistered(registry, name, SortByVersion(all));
    if error.Some? {
      return Failure(error.value), [];
    }
    return Success(Versions(all)), [];
  }
}
