/** The version-list reconciliation of the bulk model importer: the placeholder
    versions that close the gaps of a sparse version sequence
    (`fix_missing_version`), the configured replacement of versions whose run is
    missing (`fix_missing_run_version`) and the removal of versions whose
    experiment was not migrated (`remove_version`). */
module ModelVersions {
  import opened Common
  import opened Sorting
  import opened ImportConf

  /** One entry of the exported model's `latest_versions`. Version numbers are kept as
      numbers; the export holds them as their decimal strings. */
  datatype SourceVersion = SourceVersion(
    version: nat,
    currentStage: string,
    description: string,
    runId: string,
    source: string,
    userId: string,
    runArtifactUri: string,     // "_run_artifact_uri"
    experimentName: string,     // "_experiment_name"
    tags: map<string, string>)

  /** The errors the import raises. The first three come from the reconciliation steps,
      the others from the registry calls and the replay. */
  datatype ModelImportError =
    | EmptyVersions                               // `max()` of an empty version list
    | NoVersionWithRun(runId: string)             // no version carries a configured run ID
    | NoPreviousVersion(version: nat)             // no version numbered one lower than the one to fix
    | ModelNotRegistered(name: string)            // RESOURCE_DOES_NOT_EXIST for a registered model
    | UnknownSourceRun(runId: string)             // the run map has no entry for a version's run
    | VersionMismatch(source: nat, created: nat)  // the registry assigned another number
    | TransitionFailed(version: nat, stage: string)
    | WaitFailed(version: nat)                    // `wait_until_version_is_ready` given a version string

  const Archived: string := "Archived"

  /** The description given to a version that copies version `v`. */
  function CopyNote(v: nat): string {
    CopyNotePrefix + NatToString(v) + CopyNoteSuffix
  }

  const CopyNotePrefix: string := "Copy of version "
  const CopyNoteSuffix: string := " fixed to not mess with the version ordering"

  function Versions(vs: seq<SourceVersion>): (r: seq<nat>)
    ensures |r| == |vs| && forall i :: 0 <= i < |vs| ==> r[i] == vs[i].version
  {
    seq(|vs|, i requires 0 <= i < |vs| => vs[i].version)
  }

  function VersionSet(vs: seq<SourceVersion>): set<nat> {
    set e | e in vs :: e.version
  }

  predicate DistinctVersions(vs: seq<SourceVersion>) {
    forall i, j :: 0 <= i < j < |vs| ==> vs[i].version != vs[j].version
  }

  function VersionLe(a: SourceVersion, b: SourceVersion): bool {
    a.version <= b.version
  }

  /** `sorted(vs, key=lambda x: int(x["version"]))` */
  function SortByVersion(vs: seq<SourceVersion>): seq<SourceVersion> {
    SortBy(vs, VersionLe)
  }

  lemma {:induction false} SortedVersionsChain(s: seq<SourceVersion>, i: nat, j: nat)
    requires SortedBy(s, VersionLe) && i <= j < |s|
    ensures s[i].version <= s[j].version
    decreases j - i
  {
    if i < j {
      SortedVersionsChain(s, i, j - 1);
      assert VersionLe(s[j - 1], s[j]);
    }
  }

  /** Sorting by version permutes the list into non-decreasing version order. */
  lemma SortByVersionSpec(vs: seq<SourceVersion>)
    ensures |SortByVersion(vs)| == |vs|
    ensures multiset(SortByVersion(vs)) == multiset(vs)
    ensures forall i, j :: 0 <= i < j < |vs| ==> SortByVersion(vs)[i].version <= SortByVersion(vs)[j].version
  {
    SortByPermutes(vs, VersionLe);
    assert Total(VersionLe);
    SortBySorted(vs, VersionLe);
    forall i, j | 0 <= i < j < |vs|
      ensures SortByVersion(vs)[i].version <= SortByVersion(vs)[j].version
    {
      SortedVersionsChain(SortByVersion(vs), i, j);
    }
  }

  /** `max(int(v["version"]) for v in vs)` */
  function MaxVersion(vs: seq<SourceVersion>): (m: nat)
    requires |vs| > 0
    ensures m in VersionSet(vs)
    ensures forall e :: e in vs ==> e.version <= m
  {
    if |vs| == 1 then vs[0].version
    else
      var m := MaxVersion(vs[1..]);
      assert forall e :: e in vs[1..] ==> e in vs;
      if vs[0].version >= m then vs[0].version else m
  }

  /** The numbers in `lo..hi` missing from `present`, ascending. */
  function GapsBetween(present: set<nat>, lo: nat, hi: nat): (r: seq<nat>)
    ensures forall x :: x in r <==> lo <= x <= hi && x !in present
    ensures forall i :: 0 <= i < |r| ==> lo <= r[i] <= hi
    ensures forall i, j :: 0 <= i < j < |r| ==> r[i] < r[j]
    decreases hi + 1 - lo
  {
    if lo > hi then []
    else
      var rest := GapsBetween(present, lo + 1, hi);
      (if lo in present then [] else [lo]) + rest
  }

  /** The numbers `lo..hi`. */
  function Range(lo: nat, hi: nat): (r: set<nat>)
    ensures forall x :: x in r <==> lo <= x <= hi
    decreases hi + 1 - lo
  {
    if lo > hi then {} else {lo} + Range(lo + 1, hi)
  }

  /** `missing_versions`: the numbers of `1..max` that no entry carries. */
  function Gaps(vs: seq<SourceVersion>): (r: seq<nat>)
    requires |vs| > 0
    ensures forall x :: x in r <==> 1 <= x <= MaxVersion(vs) && x !in VersionSet(vs)
    ensures forall i :: 0 <= i < |r| ==> r[i] >= 1
    ensures forall i, j :: 0 <= i < j < |r| ==> r[i] < r[j]
  {
    GapsBetween(VersionSet(vs), 1, MaxVersion(vs))
  }

  /** The index of the first entry with the lowest version. */
  function LowestIndex(vs: seq<SourceVersion>): (i: nat)
    requires |vs| > 0
    ensures i < |vs|
    ensures forall j :: 0 <= j < |vs| ==> vs[i].version <= vs[j].version
    ensures forall j :: 0 <= j < i ==> vs[j].version > vs[i].version
  {
    if |vs| == 1 then 0
    else
      var k := LowestIndex(vs[1..]);
      if vs[0].version <= vs[1 + k].version then 0 else 1 + k
  }

  /** Sorting is stable: the head of the sorted list is the first entry with the lowest version. */
  lemma {:induction false} SortHeadIsLowest(vs: seq<SourceVersion>)
    requires |vs| > 0
    ensures |SortByVersion(vs)| == |vs|
    ensures SortByVersion(vs)[0] == vs[LowestIndex(vs)]
  {
    SortByPermutes(vs, VersionLe);
    if |vs| > 1 {
      SortHeadIsLowest(vs[1..]);
      var t := SortByVersion(vs[1..]);
      assert SortByVersion(vs) == Insert(vs[0], t, VersionLe);
    }
  }

  /** `[v for v in vs if int(v["version"]) == n]` */
  function WithVersion(vs: seq<SourceVersion>, n: int): (r: seq<SourceVersion>)
  {
    if vs == [] then []
    else (if vs[0].version == n then [vs[0]] else []) + WithVersion(vs[1..], n)
  }

  /** The filter keeps exactly the entries carrying the number. */
  lemma {:induction false} WithVersionMembers(vs: seq<SourceVersion>, n: int)
    ensures forall e :: e in WithVersion(vs, n) <==> e in vs && e.version == n
  {
    if vs != [] {
      WithVersionMembers(vs[1..], n);
      assert vs == [vs[0]] + vs[1..];
    }
  }

  /** The synthesised version number `missing`, copied from `copied`. */
  function Placeholder(copied: SourceVersion, missing: nat): SourceVersion {
    copied.(description := CopyNote(copied.version), version := missing, currentStage := Archived)
  }

  /** The entry `fix_missing_version` synthesises for the gap `g` (gaps start at 1): a
      copy of `Copied(vs, g)` numbered `g`. */
  function Filler(vs: seq<SourceVersion>, g: nat): SourceVersion
    requires |vs| > 0
    decreases g, 1
  {
    Placeholder(Copied(vs, g), g)
  }

  /** The entry the placeholder of gap `g` copies: gap 1 copies the lowest existing entry;
      any other gap copies the first entry numbered `g - 1`, which is the placeholder of
      gap `g - 1` when no input entry carries that number. */
  function Copied(vs: seq<SourceVersion>, g: nat): SourceVersion
    requires |vs| > 0
    decreases g, 0
  {
    if g <= 1 then vs[LowestIndex(vs)]
    else if |WithVersion(vs, g - 1)| > 0 then WithVersion(vs, g - 1)[0]
    else Filler(vs, g - 1)
  }

  /** What `fix_missing_version` returns for a non-empty list. */
  function Placeholders(vs: seq<SourceVersion>): seq<SourceVersion>
    requires |vs| > 0
  {
    FillersFor(vs, Gaps(vs))
  }

  /** The placeholders for the gaps `gs`, in the order of `gs`. */
  function FillersFor(vs: seq<SourceVersion>, gs: seq<nat>): seq<SourceVersion>
    requires |vs| > 0
  {
    if gs == [] then [] else FillersFor(vs, gs[..|gs| - 1]) + [Filler(vs, gs[|gs| - 1])]
  }

  lemma {:induction false} FillersForAt(vs: seq<SourceVersion>, gs: seq<nat>)
    requires |vs| > 0
    ensures |FillersFor(vs, gs)| == |gs|
    ensures forall i :: 0 <= i < |gs| ==> FillersFor(vs, gs)[i] == Filler(vs, gs[i])
  {
    if gs != [] {
      var init := gs[..|gs| - 1];
      FillersForAt(vs, init);
      var prior := FillersFor(vs, init);
      assert FillersFor(vs, gs) == prior + [Filler(vs, gs[|gs| - 1])];
      forall i | 0 <= i < |init| ensures FillersFor(vs, gs)[i] == Filler(vs, gs[i]) {
        assert init[i] == gs[i] && FillersFor(vs, gs)[i] == prior[i];
      }
    }
  }

  /** Extending the gaps by one more gap appends its placeholder. */
  lemma FillersForSnoc(vs: seq<SourceVersion>, gs: seq<nat>, k: nat)
    requires |vs| > 0 && k < |gs|
    ensures FillersFor(vs, gs[..k + 1]) == FillersFor(vs, gs[..k]) + [Filler(vs, gs[k])]
  {
    assert gs[..k + 1][..k] == gs[..k];
  }

  lemma FillersForWhole(vs: seq<SourceVersion>, gs: seq<nat>)
    requires |vs| > 0
    ensures FillersFor(vs, gs[..|gs|]) == FillersFor(vs, gs)
  {
    assert gs[..|gs|] == gs;
  }

  /** The fields a placeholder takes over from the entry it copies. */
  function RunFields(e: SourceVersion): (string, string, string, string, string, map<string, string>) {
    (e.runId, e.source, e.userId, e.runArtifactUri, e.experimentName, e.tags)
  }

  /** A placeholder is archived, numbered after its gap, and describes the version it
      copies: the lowest existing one for gap 1, and version `g - 1` for any other gap. */
  lemma FillerShape(vs: seq<SourceVersion>, g: nat)
    requires |vs| > 0
    ensures Filler(vs, g).version == g
    ensures Filler(vs, g).currentStage == Archived
    ensures g == 1 ==> Filler(vs, g) == Placeholder(vs[LowestIndex(vs)], 1)
    ensures g == 1 ==> Filler(vs, g).description == CopyNote(vs[LowestIndex(vs)].version)
    ensures g > 1 ==> Filler(vs, g).description == CopyNote(g - 1)
  {
    if g > 1 {
      if |WithVersion(vs, g - 1)| > 0 {
        WithVersionMembers(vs, g - 1);
        assert WithVersion(vs, g - 1)[0] in WithVersion(vs, g - 1);
      } else {
        assert Filler(vs, g - 1).version == g - 1;
      }
      assert Copied(vs, g).version == g - 1;
    }
  }

  /** One step of the recursion that defines a placeholder. */
  lemma FillerUnfold(vs: seq<SourceVersion>, g: nat)
    requires |vs| > 0 && g >= 1
    ensures g == 1 ==> Filler(vs, g) == Placeholder(vs[LowestIndex(vs)], 1)
    ensures g > 1 && |WithVersion(vs, g - 1)| > 0 ==> Filler(vs, g) == Placeholder(WithVersion(vs, g - 1)[0], g)
    ensures g > 1 && |WithVersion(vs, g - 1)| == 0 ==> Filler(vs, g) == Placeholder(Filler(vs, g - 1), g)
  {
  }

  /** No entry carries a number missing from the version set. */
  lemma WithAbsentVersion(vs: seq<SourceVersion>, n: nat)
    requires n !in VersionSet(vs)
    ensures WithVersion(vs, n) == []
  {
    WithVersionEmpty(vs, n);
  }

  /** Some entry carries each number of the version set. */
  lemma WithPresentVersion(vs: seq<SourceVersion>, n: nat)
    requires n in VersionSet(vs)
    ensures |WithVersion(vs, n)| > 0
  {
    var e :| e in vs && e.version == n;
    WithVersionMembers(vs, n);
    assert e in WithVersion(vs, n);
  }

  /** A gap whose predecessor is a gap too copies the predecessor's placeholder. */
  lemma FillerAfterGap(vs: seq<SourceVersion>, g: nat)
    requires |vs| > 0 && g > 1 && g - 1 !in VersionSet(vs)
    ensures RunFields(Filler(vs, g)) == RunFields(Filler(vs, g - 1))
  {
    WithAbsentVersion(vs, g - 1);
    PlaceholderKeepsRunFields(Filler(vs, g - 1), g);
  }

  /** A gap whose predecessor exists copies the first entry carrying the predecessor. */
  lemma FillerAfterPresent(vs: seq<SourceVersion>, g: nat)
    requires |vs| > 0 && g > 1 && g - 1 in VersionSet(vs)
    ensures |WithVersion(vs, g - 1)| > 0 && RunFields(Filler(vs, g)) == RunFields(WithVersion(vs, g - 1)[0])
  {
    WithPresentVersion(vs, g - 1);
    FillerUnfold(vs, g);
    PlaceholderKeepsRunFields(WithVersion(vs, g - 1)[0], g);
  }

  /** Gap 1 copies the lowest entry. */
  lemma FillerOfFirstGap(vs: seq<SourceVersion>)
    requires |vs| > 0
    ensures RunFields(Filler(vs, 1)) == RunFields(vs[LowestIndex(vs)])
  {
    FillerUnfold(vs, 1);
    PlaceholderKeepsRunFields(vs[LowestIndex(vs)], 1);
  }

  lemma PlaceholderKeepsRunFields(copied: SourceVersion, missing: nat)
    ensures RunFields(Placeholder(copied, missing)) == RunFields(copied)
  {
  }

  /** Across a run of gaps `lo..g`, every placeholder carries the run of the first one. */
  lemma {:induction false} FillerRunAcrossGaps(vs: seq<SourceVersion>, lo: nat, g: nat)
    requires |vs| > 0 && 1 <= lo <= g
    requires forall x :: lo <= x < g ==> x !in VersionSet(vs)
    ensures RunFields(Filler(vs, g)) == RunFields(Filler(vs, lo))
    decreases g
  {
    if g > lo {
      assert g - 1 !in VersionSet(vs);
      FillerAfterGap(vs, g);
      FillerRunAcrossGaps(vs, lo, g - 1);
    }
  }

  /** A placeholder carries the run of the nearest existing version below its gap. */
  lemma {:induction false} FillerCopiesNearestLower(vs: seq<SourceVersion>, g: nat, p: nat)
    requires |vs| > 0
    requires 1 <= p < g && p in VersionSet(vs)
    requires forall x :: p < x < g ==> x !in VersionSet(vs)
    ensures |WithVersion(vs, p)| > 0 && RunFields(Filler(vs, g)) == RunFields(WithVersion(vs, p)[0])
  {
    WithPresentVersion(vs, p);
    FillerRunAcrossGaps(vs, p + 1, g);
    FillerAfterPresent(vs, p + 1);
  }

  /** With no existing version below a gap, its placeholder carries the run of the lowest version. */
  lemma {:induction false} FillerCopiesLowest(vs: seq<SourceVersion>, g: nat)
    requires |vs| > 0 && g >= 1
    requires forall x :: 1 <= x < g ==> x !in VersionSet(vs)
    ensures RunFields(Filler(vs, g)) == RunFields(vs[LowestIndex(vs)])
  {
    FillerRunAcrossGaps(vs, 1, g);
    FillerOfFirstGap(vs);
  }

  lemma VersionSetConcat(a: seq<SourceVersion>, b: seq<SourceVersion>)
    ensures VersionSet(a + b) == VersionSet(a) + VersionSet(b)
  {
    forall x | x in VersionSet(a + b) ensures x in VersionSet(a) + VersionSet(b) {
      var e :| e in a + b && e.version == x;
    }
    forall x | x in VersionSet(a) + VersionSet(b) ensures x in VersionSet(a + b) {
      if x in VersionSet(a) {
        var e :| e in a && e.version == x;
        assert e in a + b;
      } else {
        var e :| e in b && e.version == x;
        assert e in a + b;
      }
    }
  }

  /** The numbers carried by a list are its version set. */
  lemma VersionSetIsNumbers(vs: seq<SourceVersion>)
    ensures forall x :: x in VersionSet(vs) <==> x in Versions(vs)
  {
    forall x | x in VersionSet(vs) ensures x in Versions(vs) {
      var e :| e in vs && e.version == x;
      var i :| 0 <= i < |vs| && vs[i] == e;
      assert Versions(vs)[i] == x;
    }
    forall x | x in Versions(vs) ensures x in VersionSet(vs) {
      var i :| 0 <= i < |vs| && Versions(vs)[i] == x;
      assert vs[i] in vs;
    }
  }

  /** The placeholders carry exactly the missing numbers, ascending. */
  lemma PlaceholderNumbers(vs: seq<SourceVersion>)
    requires |vs| > 0
    ensures Versions(Placeholders(vs)) == Gaps(vs)
  {
    FillersForVersions(vs, Gaps(vs));
  }

  /** `all + fix_missing_version(all)`: no placeholder takes an existing number; together
      with the input they cover `1..max`, and distinct input versions stay distinct. */
  lemma PlaceholdersFillGaps(vs: seq<SourceVersion>)
    requires |vs| > 0
    ensures Versions(Placeholders(vs)) == Gaps(vs)
    ensures VersionSet(Placeholders(vs)) !! VersionSet(vs)
    ensures VersionSet(vs + Placeholders(vs)) == VersionSet(vs) + Range(1, MaxVersion(vs))
    ensures DistinctVersions(vs) ==> DistinctVersions(vs + Placeholders(vs))
  {
    PlaceholderNumbers(vs);
    GapFillersFill(vs, Placeholders(vs));
  }

  /** What any list numbered exactly with the gaps adds to the input. */
  lemma GapFillersFill(vs: seq<SourceVersion>, ps: seq<SourceVersion>)
    requires |vs| > 0 && Versions(ps) == Gaps(vs)
    ensures VersionSet(ps) !! VersionSet(vs)
    ensures VersionSet(vs + ps) == VersionSet(vs) + Range(1, MaxVersion(vs))
    ensures DistinctVersions(vs) ==> DistinctVersions(vs + ps)
  {
    VersionSetIsNumbers(ps);
    var range := Range(1, MaxVersion(vs));
    assert VersionSet(ps) == range - VersionSet(vs) by {
      forall x ensures x in VersionSet(ps) <==> x in range - VersionSet(vs) {
        assert x in VersionSet(ps) <==> x in Gaps(vs);
      }
    }
    VersionSetConcat(vs, ps);
    if DistinctVersions(vs) {
      GapFillersKeepDistinct(vs, ps);
    }
  }

  lemma GapFillersKeepDistinct(vs: seq<SourceVersion>, ps: seq<SourceVersion>)
    requires |vs| > 0 && DistinctVersions(vs) && Versions(ps) == Gaps(vs)
    ensures DistinctVersions(vs + ps)
  {
    var gaps := Gaps(vs);
    var all := vs + ps;
    forall i, j | 0 <= i < j < |all| ensures all[i].version != all[j].version {
      if j < |vs| {
        assert all[i] == vs[i] && all[j] == vs[j];
      } else if i >= |vs| {
        assert all[i] == ps[i - |vs|] && all[j] == ps[j - |vs|];
        assert Versions(ps)[i - |vs|] < Versions(ps)[j - |vs|];
      } else {
        assert all[j] == ps[j - |vs|];
        assert all[j].version == gaps[j - |vs|];
        assert gaps[j - |vs|] in gaps;
        assert all[i] == vs[i] && vs[i] in vs;
      }
    }
  }

  /** With versions numbered from 1, the reconciled list covers exactly `1..max`. */
  lemma ReconciledIsContiguous(vs: seq<SourceVersion>)
    requires |vs| > 0
    requires forall e :: e in vs ==> e.version >= 1
    ensures VersionSet(vs + Placeholders(vs)) == Range(1, MaxVersion(vs))
  {
    PlaceholdersFillGaps(vs);
  }

  /** When gap `gaps[k] - 1` is an earlier gap, the lookup among the placeholders built
      so far finds that gap's placeholder first. */
  lemma PredecessorIsEarlierFiller(vs: seq<SourceVersion>, gaps: seq<nat>, results: seq<SourceVersion>, k: nat)
    requires |vs| > 0 && k < |gaps| && |results| == k
    requires forall i, j :: 0 <= i < j < |gaps| ==> gaps[i] < gaps[j]
    requires forall i :: 0 <= i < k ==> results[i] == Filler(vs, gaps[i]) && results[i].version == gaps[i]
    requires gaps[k] > 1 && gaps[k] - 1 in gaps
    ensures |WithVersion(results, gaps[k] - 1)| > 0
    ensures WithVersion(results, gaps[k] - 1)[0] == Filler(vs, gaps[k] - 1)
  {
    var g := gaps[k];
    var i :| 0 <= i < |gaps| && gaps[i] == g - 1;
    assert i < k by {
      assert forall a, b :: 0 <= b <= a < |gaps| ==> gaps[b] <= gaps[a];
    }
    WithVersionMembers(results, g - 1);
    assert results[i] in WithVersion(results, g - 1);
    var w := WithVersion(results, g - 1)[0];
    assert w in WithVersion(results, g - 1);
    var j :| 0 <= j < k && results[j] == w;
    assert gaps[j] == gaps[i];
  }

  /** The placeholders built for `gs` carry the numbers of `gs`. */
  lemma FillersForVersions(vs: seq<SourceVersion>, gs: seq<nat>)
    requires |vs| > 0
    ensures |FillersFor(vs, gs)| == |gs|
    ensures forall i :: 0 <= i < |gs| ==> FillersFor(vs, gs)[i] == Filler(vs, gs[i]) && FillersFor(vs, gs)[i].version == gs[i]
  {
    FillersForAt(vs, gs);
    forall i | 0 <= i < |gs| ensures Filler(vs, gs[i]).version == gs[i] {
      FillerShape(vs, gs[i]);
    }
  }

  /** The placeholders built for the first `k` gaps, in terms of the gaps themselves. */
  lemma FillersForPrefix(vs: seq<SourceVersion>, gs: seq<nat>, k: nat)
    requires |vs| > 0 && k <= |gs|
    ensures |FillersFor(vs, gs[..k])| == k
    ensures forall i :: 0 <= i < k ==> FillersFor(vs, gs[..k])[i] == Filler(vs, gs[i]) && FillersFor(vs, gs[..k])[i].version == gs[i]
  {
    FillersForVersions(vs, gs[..k]);
    assert forall i :: 0 <= i < k ==> gs[..k][i] == gs[i];
  }

  /** Gap 1 copies the head of the version-sorted list. */
  lemma FirstGapFiller(vs: seq<SourceVersion>)
    requires |vs| > 0
    ensures |SortByVersion(vs)| == |vs|
    ensures Filler(vs, 1) == Placeholder(SortByVersion(vs)[0], 1)
  {
    SortHeadIsLowest(vs);
  }

  /** Any other gap copies an input entry numbered one lower, when there is one. */
  lemma NextFillerFromInput(vs: seq<SourceVersion>, g: nat, previous: seq<SourceVersion>)
    requires |vs| > 0 && g > 1 && previous == WithVersion(vs, g - 1) && |previous| > 0
    ensures Filler(vs, g) == Placeholder(previous[0], g)
  {
  }

  /** A number below a gap that no entry carries is itself a gap. */
  lemma PredecessorIsGap(vs: seq<SourceVersion>, k: nat)
    requires |vs| > 0 && k < |Gaps(vs)|
    requires Gaps(vs)[k] > 1 && WithVersion(vs, Gaps(vs)[k] - 1) == []
    ensures Gaps(vs)[k] - 1 in Gaps(vs)
  {
    var g := Gaps(vs)[k];
    assert g in Gaps(vs);
    WithVersionEmpty(vs, g - 1);
  }

  /** Otherwise it copies the placeholder built for the gap one lower. */
  lemma NextFillerFromResults(vs: seq<SourceVersion>, gaps: seq<nat>, results: seq<SourceVersion>, k: nat)
    requires |vs| > 0 && gaps == Gaps(vs) && k < |gaps| && |results| == k
    requires forall i :: 0 <= i < k ==> results[i] == Filler(vs, gaps[i]) && results[i].version == gaps[i]
    requires gaps[k] > 1 && WithVersion(vs, gaps[k] - 1) == []
    ensures |WithVersion(results, gaps[k] - 1)| > 0
    ensures Filler(vs, gaps[k]) == Placeholder(WithVersion(results, gaps[k] - 1)[0], gaps[k])
  {
    PredecessorIsGap(vs, k);
    PredecessorIsEarlierFiller(vs, gaps, results, k);
    FillerUnfold(vs, gaps[k]);
  }

  /** The body of `fix_missing_version`'s loop for the gap `gaps[k]`: gap 1 copies the
      head of the sorted list; any other gap copies the first input entry numbered one
      lower or, when there is none, the first placeholder built so far numbered so. */
  method NextPlaceholder(versions: seq<SourceVersion>, gaps: seq<nat>, results: seq<SourceVersion>, k: nat)
    returns (added: SourceVersion)
    requires |versions| > 0 && gaps == Gaps(versions) && k < |gaps| && |results| == k
    requires forall i :: 0 <= i < k ==> results[i] == Filler(versions, gaps[i]) && results[i].version == gaps[i]
    ensures added == Filler(versions, gaps[k])
  {
    var missing := gaps[k];
    if missing == 1 {
      var orderedVersions := SortByVersion(versions);
      FirstGapFiller(versions);
      return Placeholder(orderedVersions[0], missing);
    }
    var previousVersion := WithVersion(versions, missing - 1);
    if |previousVersion| > 0 {
      NextFillerFromInput(versions, missing, previousVersion);
      return Placeholder(previousVersion[0], missing);
    }
    NextFillerFromResults(versions, gaps, results, k);
    previousVersion := WithVersion(results, missing - 1);
    return Placeholder(previousVersion[0], missing);
  }

  /** `fix_missing_version`: the placeholder versions, built gap by gap. `max()` of an
      empty list raises. */
  method FixMissingVersion(versions: seq<SourceVersion>) returns (r: Result<seq<SourceVersion>, ModelImportError>)
    ensures |versions| == 0 <==> r.Failure?
    ensures r.Failure? ==> r.error == EmptyVersions
    ensures r.Success? ==> r.value == Placeholders(versions)
    ensures r.Success? ==> Versions(r.value) == Gaps(versions)
  {
    if |versions| == 0 {
      return Failure(EmptyVersions);
    }
    var missingVersions := Gaps(versions);
    var results: seq<SourceVersion> := [];
    var k := 0;
    while k < |missingVersions|
      invariant 0 <= k <= |missingVersions|
      invariant results == FillersFor(versions, missingVersions[..k])
    {
      results := AppendPlaceholder(versions, missingVersions, results, k);
      k := k + 1;
    }
    assert k == |missingVersions|;
    FillersForWhole(versions, missingVersions);
    PlaceholderNumbers(versions);
    return Success(results);
  }

  /** One iteration of `fix_missing_version`'s loop: `results.append(...)` for gap `gaps[k]`. */
  method AppendPlaceholder(versions: seq<SourceVersion>, gaps: seq<nat>, results: seq<SourceVersion>, k: nat)
    returns (extended: seq<SourceVersion>)
    requires |versions| > 0 && gaps == Gaps(versions) && k < |gaps|
    requires results == FillersFor(versions, gaps[..k])
    ensures extended == FillersFor(versions, gaps[..k + 1])
  {
    FillersForPrefix(versions, gaps, k);
    var added := NextPlaceholder(versions, gaps, results, k);
    FillersForSnoc(versions, gaps, k);
    extended := results + [added];
  }

  /** The position of the first element equal to `x`. */
  function FirstIndexOf(s: seq<SourceVersion>, x: SourceVersion): (i: nat)
    requires x in s
    ensures i < |s| && s[i] == x && x !in s[..i]
  {
    if s[0] == x then 0
    else
      var i := FirstIndexOf(s[1..], x) + 1;
      assert s[..i] == [s[0]] + s[1..][..i - 1];
      i
  }

  /** `versions.remove(x)`: drops the first element equal to `x`; the rest keep their order. */
  function RemoveFirst(s: seq<SourceVersion>, x: SourceVersion): (r: seq<SourceVersion>)
    ensures x in s ==> r == s[..FirstIndexOf(s, x)] + s[FirstIndexOf(s, x) + 1..]
    ensures x in s ==> |r| == |s| - 1 && multiset(r) == multiset(s) - multiset{x}
    ensures x !in s ==> r == s
  {
    if x !in s then s
    else
      var r := if s[0] == x then s[1..] else [s[0]] + RemoveFirst(s[1..], x);
      RemoveFirstAt(s, x, r);
      r
  }

  lemma RemoveFirstAt(s: seq<SourceVersion>, x: SourceVersion, r: seq<SourceVersion>)
    requires x in s
    requires s[0] == x ==> r == s[1..]
    requires s[0] != x ==> r == [s[0]] + s[1..][..FirstIndexOf(s[1..], x)] + s[1..][FirstIndexOf(s[1..], x) + 1..]
    ensures r == s[..FirstIndexOf(s, x)] + s[FirstIndexOf(s, x) + 1..]
    ensures |r| == |s| - 1 && multiset(r) == multiset(s) - multiset{x}
  {
    var i := FirstIndexOf(s, x);
    if s[0] != x {
      var j := FirstIndexOf(s[1..], x);
      assert i == j + 1;
      assert s[..i] == [s[0]] + s[1..][..j];
      assert s[i + 1..] == s[1..][j + 1..];
    }
    MultisetWithout(s, i);
  }

  lemma MultisetWithout(s: seq<SourceVersion>, i: nat)
    requires i < |s|
    ensures |s[..i] + s[i + 1..]| == |s| - 1
    ensures multiset(s[..i] + s[i + 1..]) == multiset(s) - multiset{s[i]}
  {
    assert s == s[..i] + [s[i]] + s[i + 1..];
  }

  /** The `for version in versions: ... versions.remove(version)` loop, from list
      position `i` on: the iterator examines position `i` of the current list, so
      the element that moves into a removed element's position is not examined. */
  function RemoveWhileIterating(s: seq<SourceVersion>, i: nat, excluded: seq<string>): seq<SourceVersion>
    decreases |s| - i
  {
    if i >= |s| then s
    else if s[i].experimentName in excluded then RemoveWhileIterating(RemoveFirst(s, s[i]), i + 1, excluded)
    else RemoveWhileIterating(s, i + 1, excluded)
  }

  /** What `remove_version` leaves in the list. */
  function RemovedVersions(vs: seq<SourceVersion>, conf: Conf): seq<SourceVersion> {
    if conf.missingExperiments.None? then vs
    else RemoveWhileIterating(vs, 0, conf.missingExperiments.value)
  }

  lemma {:induction false} RemoveWhileIteratingOnlyExcluded(s: seq<SourceVersion>, i: nat, excluded: seq<string>)
    ensures forall e :: multiset(RemoveWhileIterating(s, i, excluded))[e] <= multiset(s)[e]
    ensures forall e: SourceVersion :: e.experimentName !in excluded ==> multiset(RemoveWhileIterating(s, i, excluded))[e] == multiset(s)[e]
    decreases |s| - i
  {
    if i < |s| {
      if s[i].experimentName in excluded {
        RemoveWhileIteratingOnlyExcluded(RemoveFirst(s, s[i]), i + 1, excluded);
      } else {
        RemoveWhileIteratingOnlyExcluded(s, i + 1, excluded);
      }
    }
  }

  /** `remove_version` removes only versions of excluded experiments: every other
      version keeps its multiplicity; without the configuration key nothing changes. */
  lemma RemoveVersionOnlyExcluded(vs: seq<SourceVersion>, conf: Conf)
    ensures conf.missingExperiments.None? ==> RemovedVersions(vs, conf) == vs
    ensures forall e :: multiset(RemovedVersions(vs, conf))[e] <= multiset(vs)[e]
    ensures conf.missingExperiments.Some? ==>
              forall e: SourceVersion :: e.experimentName !in conf.missingExperiments.value ==>
                multiset(RemovedVersions(vs, conf))[e] == multiset(vs)[e]
  {
    if conf.missingExperiments.Some? {
      RemoveWhileIteratingOnlyExcluded(vs, 0, conf.missingExperiments.value);
    }
  }

  /** Removing while iterating skips the element after a removed one: of two adjacent
      excluded versions, the second stays in the list. */
  lemma RemoveVersionSkipsSuccessor(a: SourceVersion, b: SourceVersion, conf: Conf)
    requires conf.missingExperiments.Some?
    requires a.experimentName in conf.missingExperiments.value && b.experimentName in conf.missingExperiments.value
    requires a != b
    ensures RemovedVersions([a, b], conf) == [b]
  {
    var excluded := conf.missingExperiments.value;
    assert RemoveFirst([a, b], a) == [b];
    assert RemoveWhileIterating([a, b], 0, excluded) == RemoveWhileIterating([b], 1, excluded);
  }

  /** `remove_version`, iterating the list while removing from it. */
  method RemoveVersion(versions: seq<SourceVersion>, conf: Conf) returns (r: seq<SourceVersion>)
    ensures r == RemovedVersions(versions, conf)
  {
    if conf.missingExperiments.None? {
      return versions;
    }
    var missingExperiments := conf.missingExperiments.value;
    var list := versions;
    var i := 0;
    while i < |list|
      invariant RemoveWhileIterating(list, i, missingExperiments) == RemoveWhileIterating(versions, 0, missingExperiments)
      decreases |list| - i
    {
      var version := list[i];
      if version.experimentName in missingExperiments {
        list := RemoveFirst(list, version);
      }
      i := i + 1;
    }
    return list;
  }

  /** The index of the first version that carries run `id`, or -1. */
  function IndexOfRun(vs: seq<SourceVersion>, id: string): (i: int)
    ensures -1 <= i < |vs|
    ensures i >= 0 ==> vs[i].runId == id
  {
    if vs == [] then -1
    else if vs[0].runId == id then 0
    else
      var k := IndexOfRun(vs[1..], id);
      if k == -1 then -1 else k + 1
  }

  /** The search gives -1 exactly when no version carries the run, and otherwise the
      first version that does. */
  lemma {:induction false} IndexOfRunSpec(vs: seq<SourceVersion>, id: string)
    ensures IndexOfRun(vs, id) == -1 <==> forall e :: e in vs ==> e.runId != id
    ensures IndexOfRun(vs, id) >= 0 ==> forall j :: 0 <= j < IndexOfRun(vs, id) ==> vs[j].runId != id
  {
    if vs != [] && vs[0].runId != id {
      IndexOfRunSpec(vs[1..], id);
      assert forall e :: e in vs ==> e == vs[0] || e in vs[1..];
      assert forall j :: 0 < j < |vs| ==> vs[j] == vs[1..][j - 1];
    }
  }

  /** `version_to_fix` takes over the run of `version_to_copy` and is archived. */
  function CopyRunFrom(fix: SourceVersion, copy: SourceVersion): SourceVersion {
    fix.(description := CopyNote(copy.version), currentStage := Archived,
         runId := copy.runId, source := copy.source, userId := copy.userId,
         runArtifactUri := copy.runArtifactUri)
  }

  /** One iteration of `fix_missing_run_version`'s loop, for run `id`. */
  function FixRun(vs: seq<SourceVersion>, id: string): Result<seq<SourceVersion>, ModelImportError> {
    var i := IndexOfRun(vs, id);
    if i < 0 then Failure(NoVersionWithRun(id))
    else
      var versionToCopy := WithVersion(vs, vs[i].version - 1);
      if |versionToCopy| == 0 then Failure(NoPreviousVersion(vs[i].version))
      else Success(vs[i := CopyRunFrom(vs[i], versionToCopy[0])])
  }

  /** The whole loop over the configured run IDs, each seeing the previous rewrites. */
  function FixRuns(vs: seq<SourceVersion>, ids: seq<string>): Result<seq<SourceVersion>, ModelImportError>
    decreases |ids|
  {
    if ids == [] then Success(vs)
    else
      match FixRun(vs, ids[0])
      case Failure(e) => Failure(e)
      case Success(fixed) => FixRuns(fixed, ids[1..])
  }

  /** What `fix_missing_run_version` does to the list: nothing without a `missing_runs`
      entry for the model. */
  function FixedRunVersions(vs: seq<SourceVersion>, conf: Conf, modelName: string): Result<seq<SourceVersion>, ModelImportError> {
    if conf.missingRuns.None? || modelName !in conf.missingRuns.value then Success(vs)
    else FixRuns(vs, conf.missingRuns.value[modelName])
  }

  /** One fix fails exactly when no version carries the run, or none is numbered one
      lower than the first version that does. */
  lemma FixRunFails(vs: seq<SourceVersion>, id: string)
    ensures IndexOfRun(vs, id) == -1 <==> forall e :: e in vs ==> e.runId != id
    ensures FixRun(vs, id).Failure? <==>
              IndexOfRun(vs, id) == -1 ||
              (forall e :: e in vs ==> e.version != vs[IndexOfRun(vs, id)].version - 1)
  {
    var i := IndexOfRun(vs, id);
    IndexOfRunSpec(vs, id);
    if i >= 0 {
      WithVersionEmpty(vs, vs[i].version - 1);
    }
  }

  /** The filter finds nothing exactly when no entry carries the number. */
  lemma WithVersionEmpty(vs: seq<SourceVersion>, n: int)
    ensures WithVersion(vs, n) == [] <==> forall e :: e in vs ==> e.version != n
  {
    WithVersionMembers(vs, n);
    if WithVersion(vs, n) != [] {
      assert WithVersion(vs, n)[0] in WithVersion(vs, n);
    }
  }

  /** A successful fix rewrites the first version carrying the run from the first version
      numbered one lower: it keeps its number, is archived, describes the copied version
      and takes over its run; every other version is untouched. */
  lemma FixRunRewritesOneVersion(vs: seq<SourceVersion>, id: string)
    requires FixRun(vs, id).Success?
    ensures var i := IndexOfRun(vs, id);
            var fixed := FixRun(vs, id).value;
            var copy := WithVersion(vs, vs[i].version - 1)[0];
            && |fixed| == |vs|
            && copy in vs && copy.version + 1 == vs[i].version
            && fixed[i].version == vs[i].version
            && fixed[i].currentStage == Archived
            && fixed[i].description == CopyNote(copy.version)
            && fixed[i].runId == copy.runId && fixed[i].source == copy.source
            && fixed[i].userId == copy.userId && fixed[i].runArtifactUri == copy.runArtifactUri
            && fixed[i].experimentName == vs[i].experimentName && fixed[i].tags == vs[i].tags
            && (forall j :: 0 <= j < |vs| && j != i ==> fixed[j] == vs[j])
  {
    var i := IndexOfRun(vs, id);
    var versionToCopy := WithVersion(vs, vs[i].version - 1);
    var copy := versionToCopy[0];
    WithVersionMembers(vs, vs[i].version - 1);
    assert copy in versionToCopy;
    var fixed := vs[i := CopyRunFrom(vs[i], copy)];
    assert FixRun(vs, id) == Success(fixed);
    CopyRunFromFields(vs[i], copy);
  }

  lemma CopyRunFromFields(fix: SourceVersion, copy: SourceVersion)
    ensures var r := CopyRunFrom(fix, copy);
            && r.version == fix.version && r.currentStage == Archived
            && r.description == CopyNote(copy.version)
            && r.runId == copy.runId && r.source == copy.source
            && r.userId == copy.userId && r.runArtifactUri == copy.runArtifactUri
            && r.experimentName == fix.experimentName && r.tags == fix.tags
  {
  }

  /** The run fixes never renumber: the version numbers, in list order, are unchanged. */
  lemma {:induction false} FixRunsKeepsVersions(vs: seq<SourceVersion>, ids: seq<string>)
    requires FixRuns(vs, ids).Success?
    ensures Versions(FixRuns(vs, ids).value) == Versions(vs)
    decreases |ids|
  {
    if ids != [] {
      var fixed := FixRun(vs, ids[0]).value;
      assert Versions(fixed) == Versions(vs);
      FixRunsKeepsVersions(fixed, ids[1..]);
    }
  }

  /** `fix_missing_run_version`, rewriting the configured versions one run ID at a time. */
  method FixMissingRunVersion(versions: seq<SourceVersion>, conf: Conf, modelName: string)
    returns (r: Result<seq<SourceVersion>, ModelImportError>)
    ensures r == FixedRunVersions(versions, conf, modelName)
  {
    if conf.missingRuns.None? {
      return Success(versions);
    }
    var missingRuns := conf.missingRuns.value;
    if modelName !in missingRuns {
      return Success(versions);
    }
    var missingRunIds := missingRuns[modelName];
    var list: Result<seq<SourceVersion>, ModelImportError> := Success(versions);
    var k := 0;
    while k < |missingRunIds| && list.Success?
      invariant 0 <= k <= |missingRunIds|
      invariant list.Success? ==> FixRuns(list.value, missingRunIds[k..]) == FixRuns(versions, missingRunIds)
      invariant list.Failure? ==> list == FixRuns(versions, missingRunIds)
    {
      assert missingRunIds[k..][1..] == missingRunIds[k + 1..];
      list := FixVersionOfRun(list.value, missingRunIds[k]);
      k := k + 1;
    }
    if list.Success? {
      assert missingRunIds[k..] == [];
    }
    return list;
  }

  /** One iteration of `fix_missing_run_version`'s loop, for run `id`. */
  method FixVersionOfRun(list: seq<SourceVersion>, id: string) returns (r: Result<seq<SourceVersion>, ModelImportError>)
    ensures r == FixRun(list, id)
  {
    var i := IndexOfRun(list, id);
    if i < 0 {
      return Failure(NoVersionWithRun(id));
    }
    var versionToCopy := WithVersion(list, list[i].version - 1);
    if |versionToCopy| == 0 {
      return Failure(NoPreviousVersion(list[i].version));
    }
    return Success(list[i := CopyRunFrom(list[i], versionToCopy[0])]);
  }

  // ---------------------------------------------------------------------------
  // Sorted, distinct and contiguous version lists

  /** Sorting keeps the version numbers distinct. */
  lemma SortByVersionKeepsDistinct(vs: seq<SourceVersion>)
    requires DistinctVersions(vs)
    ensures DistinctVersions(SortByVersion(vs))
  {
    var number := (e: SourceVersion) => e.version;
    assert DistinctBy(vs, number);
    SortByKeepsDistinct(vs, VersionLe, number);
    assert DistinctBy(SortByVersion(vs), number);
  }

  /** In a strictly ascending list numbered exactly `1..m`, entry `i` has number `i + 1`. */
  lemma {:induction false} ContiguousAt(s: seq<SourceVersion>, m: nat, i: nat)
    requires forall a, b :: 0 <= a < b < |s| ==> s[a].version < s[b].version
    requires VersionSet(s) == Range(1, m)
    requires i < |s|
    ensures s[i].version == i + 1
  {
    if i > 0 {
      ContiguousAt(s, m, i - 1);
    }
    assert s[i] in s;
    assert s[i].version in Range(1, m);
    assert i + 1 in VersionSet(s);
    var e :| e in s && e.version == i + 1;
    var p :| 0 <= p < |s| && s[p] == e;
    assert forall a :: 0 <= a < i ==> s[a].version <= i;
    assert p >= i;
  }

  /** A strictly ascending list numbered exactly `1..m` is `1, 2, ..., m`. */
  lemma ContiguousSorted(s: seq<SourceVersion>, m: nat)
    requires forall a, b :: 0 <= a < b < |s| ==> s[a].version < s[b].version
    requires VersionSet(s) == Range(1, m)
    ensures |s| == m
    ensures forall i :: 0 <= i < |s| ==> s[i].version == i + 1
  {
    forall i | 0 <= i < |s| ensures s[i].version == i + 1 {
      ContiguousAt(s, m, i);
    }
    if |s| > 0 {
      assert s[|s| - 1] in s;
      assert |s| == s[|s| - 1].version && s[|s| - 1].version in VersionSet(s);
    }
    if m >= 1 {
      assert m in VersionSet(s);
      var e :| e in s && e.version == m;
      var p :| 0 <= p < |s| && s[p] == e;
      assert m == p + 1;
    }
  }
}
