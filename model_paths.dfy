/** The path helpers of the model importer: the model's path inside its run's
    artifacts (`_extract_model_path`), the destination `source` of a new version
    and the join that normalises DOS separators on DBFS paths (`_path_join`). */
module ModelPaths {
  import opened Common

  const ArtifactsDir: string := "artifacts/"
  const FileScheme: string := "file://"
  const DbfsScheme: string := "dbfs:"

  /** `_extract_model_path`: what follows the first occurrence of the run ID and one
      separator character, with every `artifacts/` removed when it starts with one.
      Python's slice yields "" past the end of the string. */
  function ExtractModelPath(source: string, runId: string): string {
    var start := 1 + Find(source, runId) + |runId|;
    var modelPath := if start <= |source| then source[start..] else "";
    if StartsWith(modelPath, ArtifactsDir) then Replace(modelPath, ArtifactsDir, "") else modelPath
  }

  /** A version source of the usual form `<root><run ID>/artifacts/<path>`, with the run ID
      first occurring after `root`, gives back `path` when `path` holds no `artifacts/`. */
  lemma ExtractModelPathUnderArtifacts(root: string, runId: string, sep: char, path: string)
    requires forall j :: 0 <= j < |root| ==> !OccursAt(root + runId + [sep] + ArtifactsDir + path, runId, j)
    requires forall j :: 0 <= j <= |path| ==> !OccursAt(path, ArtifactsDir, j)
    ensures ExtractModelPath(root + runId + [sep] + ArtifactsDir + path, runId) == path
  {
    var source := root + runId + [sep] + ArtifactsDir + path;
    assert OccursAt(source, runId, |root|) by {
      assert source[|root|..|root| + |runId|] == runId;
    }
    var start := 1 + |root| + |runId|;
    FindSpec(source, runId);
    assert Find(source, runId) == |root|;
    assert source[start..] == ArtifactsDir + path;
    assert StartsWith(ArtifactsDir + path, ArtifactsDir) by {
      assert (ArtifactsDir + path)[..|ArtifactsDir|] == ArtifactsDir;
    }
    assert (ArtifactsDir + path)[|ArtifactsDir|..] == path;
    ReplaceWithoutOccurrence(path, ArtifactsDir, "");
  }

  /** A source of the form `<root><run ID>/<path>` where `path` does not start with
      `artifacts/` gives back `path` unchanged. */
  lemma ExtractModelPathDirect(root: string, runId: string, sep: char, path: string)
    requires forall j :: 0 <= j < |root| ==> !OccursAt(root + runId + [sep] + path, runId, j)
    requires !StartsWith(path, ArtifactsDir)
    ensures ExtractModelPath(root + runId + [sep] + path, runId) == path
  {
    var source := root + runId + [sep] + path;
    assert OccursAt(source, runId, |root|) by {
      assert source[|root|..|root| + |runId|] == runId;
    }
    FindSpec(source, runId);
    assert Find(source, runId) == |root|;
    assert source[1 + |root| + |runId|..] == path;
  }

  /** When the run ID does not occur, `find` returns -1 and the path is what follows
      the first `len(run_id)` characters. */
  lemma ExtractModelPathRunAbsent(source: string, runId: string)
    requires forall j :: 0 <= j <= |source| ==> !OccursAt(source, runId, j)
    requires |runId| <= |source| && !StartsWith(source[|runId|..], ArtifactsDir)
    ensures ExtractModelPath(source, runId) == source[|runId|..]
  {
    FindSpec(source, runId);
  }

  /** The `source` of the destination version: the destination run's artifact URI and the
      model path, with every `file://` removed. */
  function DstSource(artifactUri: string, modelPath: string): (r: string) {
    Replace(artifactUri + "/" + modelPath, FileScheme, "")
  }

  /** A destination artifact URI and model path without `file://` are joined as they are. */
  lemma DstSourceRemote(artifactUri: string, modelPath: string)
    requires forall j :: 0 <= j <= |artifactUri + "/" + modelPath| ==> !OccursAt(artifactUri + "/" + modelPath, FileScheme, j)
    ensures DstSource(artifactUri, modelPath) == artifactUri + "/" + modelPath
  {
    ReplaceWithoutOccurrence(artifactUri + "/" + modelPath, FileScheme, "");
  }

  /** A local artifact URI `file://<dir>` gives the plain path `<dir>/<model path>`, as the
      registry of an OSS tracking server expects. */
  lemma DstSourceLocal(dir: string, modelPath: string)
    requires forall j :: 0 <= j <= |dir + "/" + modelPath| ==> !OccursAt(dir + "/" + modelPath, FileScheme, j)
    ensures DstSource(FileScheme + dir, modelPath) == dir + "/" + modelPath
  {
    var rest := dir + "/" + modelPath;
    var joined := FileScheme + dir + "/" + modelPath;
    assert joined == FileScheme + rest;
    assert joined[..|FileScheme|] == FileScheme && joined[|FileScheme|..] == rest;
    ReplaceWithoutOccurrence(rest, FileScheme, "");
  }

  /** `_path_join` over the platform's `os.path.join`, given as `join`. */
  function PathJoin(join: (string, string) -> string, x: string, y: string): (r: string)
    ensures |r| == |join(x, y)|
    ensures StartsWith(r, DbfsScheme) <==> StartsWith(join(x, y), DbfsScheme)
    ensures !StartsWith(join(x, y), DbfsScheme) ==> r == join(x, y)
    ensures StartsWith(r, DbfsScheme) ==> forall i :: 0 <= i < |r| ==> r[i] != '\\'
    ensures forall i :: 0 <= i < |r| && join(x, y)[i] != '\\' ==> r[i] == join(x, y)[i]
  {
    var path := join(x, y);
    if StartsWith(path, DbfsScheme) then
      ReplaceCharAt(path, '\\', '/');
      var r := Replace(path, "\\", "/");
      assert r[..|DbfsScheme|] == path[..|DbfsScheme|];
      r
    else path
  }

  /** A DBFS path joined with DOS separators comes out with forward slashes in their place. */
  lemma PathJoinNormalisesDbfs(join: (string, string) -> string, x: string, y: string, i: nat)
    requires StartsWith(join(x, y), DbfsScheme) && i < |join(x, y)| && join(x, y)[i] == '\\'
    ensures PathJoin(join, x, y)[i] == '/'
  {
    ReplaceCharAt(join(x, y), '\\', '/');
  }
}
