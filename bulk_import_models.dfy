/** The bulk model importer's run map: the source-run-to-destination-run records of every
    imported experiment merged into one map, which the model importer consults for the
    run of each version. */
module BulkImportModels {
  import opened Common
  import opened ExperimentImport

  /** The maps merged left to right, a later map winning on a shared key: what repeated
      `res[k] = v` over each map's items and `{**res, **m}` both compute. */
  function Merge<V>(maps: seq<map<string, V>>): map<string, V> {
    if maps == [] then map[] else Merge(maps[..|maps| - 1]) + maps[|maps| - 1]
  }

  /** The merged map holds the keys of all the maps, each with the value of one of them. */
  lemma {:induction false} MergeKeys<V>(maps: seq<map<string, V>>)
    ensures forall k :: k in Merge(maps) <==> exists i :: 0 <= i < |maps| && k in maps[i]
    ensures forall k :: k in Merge(maps) ==> exists i :: 0 <= i < |maps| && k in maps[i] && Merge(maps)[k] == maps[i][k]
  {
    if maps != [] {
      var init := maps[..|maps| - 1];
      var last := maps[|maps| - 1];
      MergeKeys(init);
      assert Merge(maps) == Merge(init) + last;
      assert forall i :: 0 <= i < |init| ==> init[i] == maps[i];
      forall k | k in Merge(maps)
        ensures exists i :: 0 <= i < |maps| && k in maps[i] && Merge(maps)[k] == maps[i][k]
      {
        if k in last {
          assert k in maps[|maps| - 1] && Merge(maps)[k] == maps[|maps| - 1][k];
        } else {
          var i :| 0 <= i < |init| && k in init[i] && Merge(init)[k] == init[i][k];
          assert k in maps[i] && Merge(maps)[k] == maps[i][k];
        }
      }
    }
  }

  /** On a key several maps hold, the value of the last of them wins. */
  lemma {:induction false} MergeLastWins<V>(maps: seq<map<string, V>>, i: nat, k: string)
    requires i < |maps| && k in maps[i]
    requires forall j :: i < j < |maps| ==> k !in maps[j]
    ensures k in Merge(maps) && Merge(maps)[k] == maps[i][k]
  {
    if i < |maps| - 1 {
      var init := maps[..|maps| - 1];
      assert forall j :: i < j < |init| ==> init[j] == maps[j];
      MergeLastWins(init, i, k);
    }
  }

  lemma {:induction false} MergeSnoc<V>(maps: seq<map<string, V>>, k: nat)
    requires k < |maps|
    ensures Merge(maps[..k + 1]) == Merge(maps[..k]) + maps[k]
  {
    assert maps[..k + 1][..k] == maps[..k];
  }

  // ---------------------------------------------------------------------------
  // _remap

  /** The inner maps of `runInfoMap` in the order `order` lists its keys. */
  function InOrder<V>(runInfoMap: map<string, map<string, V>>, order: seq<string>): (r: seq<map<string, V>>)
    requires forall i :: 0 <= i < |order| ==> order[i] in runInfoMap
    ensures |r| == |order| && forall i :: 0 <= i < |order| ==> r[i] == runInfoMap[order[i]]
  {
    seq(|order|, i requires 0 <= i < |order| => runInfoMap[order[i]])
  }

  /** `res[k] = v` for every item of `dct`. */
  method SetAll<V>(res: map<string, V>, dct: map<string, V>) returns (r: map<string, V>)
    ensures r == res + dct
  {
    r := res;
    var remaining := dct.Keys;
    while remaining != {}
      invariant remaining <= dct.Keys
      invariant r == res + map k | k in dct.Keys - remaining :: dct[k]
      decreases |remaining|
    {
      var key :| key in remaining;
      r := r[key := dct[key]];
      remaining := remaining - {key};
    }
  }

  /** `_remap`: every experiment's run map merged, the experiments taken in the order of the
      dict, given back as `order`. The inner values are whatever `import_experiment`
      returned for a run (its `dst_run.info`), so the merge is generic in them. `import_all`
      now reads the run map with `read_imported_experiments` instead. */
  method Remap<V>(runInfoMap: map<string, map<string, V>>) returns (res: map<string, V>, ghost order: seq<string>)
    ensures |order| == |runInfoMap| && forall e :: e in order <==> e in runInfoMap
    ensures forall i :: 0 <= i < |order| ==> order[i] in runInfoMap
    ensures res == Merge(InOrder(runInfoMap, order))
    ensures forall k :: k in res <==> exists e :: e in runInfoMap && k in runInfoMap[e]
    ensures forall k :: k in res ==> exists e :: e in runInfoMap && k in runInfoMap[e] && res[k] == runInfoMap[e][k]
    ensures runInfoMap == map[] ==> res == map[]
  {
    res := map[];
    order := [];
    var remaining := runInfoMap.Keys;
    while remaining != {}
      invariant remaining <= runInfoMap.Keys
      invariant forall e :: e in order <==> e in runInfoMap.Keys - remaining
      invariant |order| + |remaining| == |runInfoMap.Keys|
      invariant forall i :: 0 <= i < |order| ==> order[i] in runInfoMap
      invariant res == Merge(InOrder(runInfoMap, order))
      decreases |remaining|
    {
      var e :| e in remaining;
      ghost var prior := InOrder(runInfoMap, order);
      res := SetAll(res, runInfoMap[e]);
      order := order + [e];
      assert InOrder(runInfoMap, order) == prior + [runInfoMap[e]];
      assert (prior + [runInfoMap[e]])[..|prior|] == prior;
      remaining := remaining - {e};
    }
    assert |runInfoMap| == |runInfoMap.Keys|;
    RemapKeys(runInfoMap, order);
  }

  /** Whatever the order of the experiments, the merged map holds the run IDs of every
      experiment, each with the record of one experiment holding it. */
  lemma RemapKeys<V>(runInfoMap: map<string, map<string, V>>, order: seq<string>)
    requires forall e :: e in order <==> e in runInfoMap
    requires forall i :: 0 <= i < |order| ==> order[i] in runInfoMap
    ensures var res := Merge(InOrder(runInfoMap, order));
            && (forall k :: k in res <==> exists e :: e in runInfoMap && k in runInfoMap[e])
            && (forall k :: k in res ==> exists e :: e in runInfoMap && k in runInfoMap[e] && res[k] == runInfoMap[e][k])
  {
    var maps := InOrder(runInfoMap, order);
    var res := Merge(maps);
    MergeKeys(maps);
    forall k | k in res ensures exists e :: e in runInfoMap && k in runInfoMap[e] && res[k] == runInfoMap[e][k] {
      var i :| 0 <= i < |maps| && k in maps[i] && res[k] == maps[i][k];
      assert order[i] in runInfoMap && k in runInfoMap[order[i]];
    }
    forall k | exists e :: e in runInfoMap && k in runInfoMap[e] ensures k in res {
      var e :| e in runInfoMap && k in runInfoMap[e];
      var i :| 0 <= i < |order| && order[i] == e;
      assert k in maps[i];
    }
  }

  /** On a run ID several experiments hold, the record of the experiment iterated last wins. */
  lemma RemapLastWins<V>(runInfoMap: map<string, map<string, V>>, order: seq<string>, i: nat, k: string)
    requires forall j :: 0 <= j < |order| ==> order[j] in runInfoMap
    requires i < |order| && k in runInfoMap[order[i]]
    requires forall j :: i < j < |order| ==> k !in runInfoMap[order[j]]
    ensures var res := Merge(InOrder(runInfoMap, order));
            k in res && res[k] == runInfoMap[order[i]][k]
  {
    MergeLastWins(InOrder(runInfoMap, order), i, k);
  }

  // ---------------------------------------------------------------------------
  // read_imported_experiments

  /** The run map an experiment contributes: the `runs` of its `import-experiment.json`,
      nothing when the file does not exist. */
  function RunsOf(file: Option<ImportStatus>): (r: map<string, RunRecord>)
    ensures file.None? ==> r == map[]
  {
    if file.None? then map[] else file.value.runs
  }

  function RunMaps(files: seq<Option<ImportStatus>>): (r: seq<map<string, RunRecord>>)
    ensures |r| == |files| && forall i :: 0 <= i < |files| ==> r[i] == RunsOf(files[i])
  {
    seq(|files|, i requires 0 <= i < |files| => RunsOf(files[i]))
  }

  /** `read_imported_experiments`, given the `import-experiment.json` of each experiment in
      the order `experiments.json` lists them, `None` where the file does not exist. */
  method ReadImportedExperiments(files: seq<Option<ImportStatus>>) returns (results: map<string, RunRecord>)
    ensures results == Merge(RunMaps(files))
  {
    results := map[];
    var k := 0;
    while k < |files|
      invariant 0 <= k <= |files|
      invariant results == Merge(RunMaps(files)[..k])
    {
      MergeSnoc(RunMaps(files), k);
      if files[k].None? {
        assert results + map[] == results;
        k := k + 1;
        continue;
      }
      results := results + files[k].value.runs;
      k := k + 1;
    }
    assert RunMaps(files)[..k] == RunMaps(files);
  }

  /** The runs read are those of the experiments whose import file exists; an experiment
      without one contributes nothing. */
  lemma ImportedRunsKeys(files: seq<Option<ImportStatus>>)
    ensures forall k :: k in Merge(RunMaps(files)) <==>
              exists i :: 0 <= i < |files| && files[i].Some? && k in files[i].value.runs
  {
    var maps := RunMaps(files);
    MergeKeys(maps);
    forall k ensures k in Merge(maps) <==> exists i :: 0 <= i < |files| && files[i].Some? && k in files[i].value.runs {
      if k in Merge(maps) {
        var i :| 0 <= i < |maps| && k in maps[i];
        assert files[i].Some? && k in files[i].value.runs;
      }
      if exists i :: 0 <= i < |files| && files[i].Some? && k in files[i].value.runs {
        var i :| 0 <= i < |files| && files[i].Some? && k in files[i].value.runs;
        assert k in maps[i];
      }
    }
  }

  /** A later experiment's record of a source run overrides an earlier one's. */
  lemma ImportedRunsLastWins(files: seq<Option<ImportStatus>>, i: nat, k: string)
    requires i < |files| && files[i].Some? && k in files[i].value.runs
    requires forall j :: i < j < |files| && files[j].Some? ==> k !in files[j].value.runs
    ensures k in Merge(RunMaps(files)) && Merge(RunMaps(files))[k] == files[i].value.runs[k]
  {
    var maps := RunMaps(files);
    assert forall j :: i < j < |maps| ==> k !in maps[j];
    MergeLastWins(maps, i, k);
  }
}
