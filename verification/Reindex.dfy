/**
 * What executing a plan does to an engine's index, against rebuilding the index from scratch.
 * An extractor is a function of a path and its content hash (for the semantic engine also of the
 * fingerprint; for SCIP, of a project root and all of its files).
 */
module Reindex {
  import opened Basics
  import opened ByteOrder
  import opened Manifests
  import opened DeltaPlan

  type Extractor<!T> = (string, string) -> T
  type SemanticExtractor<!T> = (Option<Fingerprint>, string, string) -> T
  type RootExtractor<!T> = (string, map<string, string>) -> T

  /** The index a full run over `files` produces. */
  function Rebuild<T>(x: Extractor<T>, files: Files): map<string, T> {
    map p | p in files :: x(p, files[p].contentHash)
  }

  function RebuildSemantic<T>(x: SemanticExtractor<T>, m: Manifest): map<string, T> {
    Rebuild(With(x, m.semantic), FileMap(m.files))
  }

  /** Drop some paths, then extract the listed paths that are present now. */
  function Patch<T>(x: Extractor<T>, index: map<string, T>, dropped: set<string>, listed: set<string>,
                    cur: Files): map<string, T> {
    (index - dropped) + (map p | p in listed && p in cur :: x(p, cur[p].contentHash))
  }

  function ApplyGraph<T>(x: Extractor<T>, plan: GraphPlan, index: map<string, T>, cur: Files): map<string, T> {
    match plan.strategy
    case GraphNoop => index
    case GraphDeltaFiles => Patch(x, index, Elements(plan.deletedFiles), Elements(plan.files), cur)
  }

  /** A file-level shard update drops every listed path; a full run or rewrite starts from nothing. */
  function ApplyZoekt<T>(x: Extractor<T>, plan: ZoektPlan, index: map<string, T>, cur: Files): map<string, T> {
    match plan.strategy
    case ZoektNoop => index
    case ZoektDeltaFiles => Patch(x, index, Elements(plan.files), Elements(plan.files), cur)
    case ZoektFullRepo => Patch(x, map[], {}, Elements(plan.files), cur)
    case ZoektFullRepoRewrite => Patch(x, map[], {}, Elements(plan.files), cur)
  }

  /** The semantic engine also drops the plan's deleted files. */
  function ApplySemantic<T>(x: Extractor<T>, plan: SemanticPlan, deletedFiles: seq<string>, index: map<string, T>,
                            cur: Files): map<string, T> {
    match plan.strategy
    case SemanticNoop => index
    case _ => Patch(x, index, Elements(deletedFiles), Elements(plan.files), cur)
  }

  function With<T>(x: SemanticExtractor<T>, f: Option<Fingerprint>): Extractor<T> {
    (p, h) => x(f, p, h)
  }

  // The file lists of a plan.

  ghost predicate Partition(whole: set<string>, a: set<string>, b: set<string>, c: set<string>) {
    whole == a + b + c && a !! b && a !! c && b !! c
  }

  lemma TouchedPartitions(p: Files, c: Files)
    ensures Partition(c.Keys, Added(p, c), Changed(p, c), Unchanged(p, c))
    ensures Partition(p.Keys, Deleted(p, c), Changed(p, c), Unchanged(p, c))
  {
  }

  /** The four file lists partition both manifests, and each is sorted and duplicate-free. */
  lemma PlanPartitionsFiles(prev: Manifest, cur: Manifest, zoektFileDelta: bool)
    ensures var plan := Between(prev, cur, zoektFileDelta);
            && Partition(FileMap(cur.files).Keys, Elements(plan.addedFiles), Elements(plan.changedFiles),
                         Elements(plan.unchangedFiles))
            && Partition(FileMap(prev.files).Keys, Elements(plan.deletedFiles), Elements(plan.changedFiles),
                         Elements(plan.unchangedFiles))
            && Ascending(plan.addedFiles) && Ascending(plan.changedFiles)
            && Ascending(plan.deletedFiles) && Ascending(plan.unchangedFiles)
  {
    TouchedPartitions(FileMap(prev.files), FileMap(cur.files));
  }

  /** Path by path, what the four lists of a plan and its mode mean. */
  lemma PlanListsFiles(prev: Manifest, cur: Manifest, zoektFileDelta: bool, path: string)
    ensures var plan, p, c := Between(prev, cur, zoektFileDelta), FileMap(prev.files), FileMap(cur.files);
            && (path in plan.addedFiles <==> path in c && path !in p)
            && (path in plan.deletedFiles <==> path in p && path !in c)
            && (path in plan.changedFiles <==> path in p && path in c && p[path].contentHash != c[path].contentHash)
            && (path in plan.unchangedFiles <==> path in p && path in c && p[path].contentHash == c[path].contentHash)
            && plan.mode != Full
            && (plan.mode == Noop <==> plan.addedFiles == [] && plan.deletedFiles == [] && plan.changedFiles == [])
  {
    var p, c := FileMap(prev.files), FileMap(cur.files);
    InSorted(Added(p, c), path);
    InSorted(Deleted(p, c), path);
    InSorted(Changed(p, c), path);
    InSorted(Unchanged(p, c), path);
    SortedIsEmpty(Added(p, c));
    SortedIsEmpty(Deleted(p, c));
    SortedIsEmpty(Changed(p, c));
  }

  lemma InSorted(s: set<string>, x: string)
    ensures x in Sorted(s) <==> x in s
  {
    assert x in Elements(Sorted(s)) <==> x in Sorted(s);
  }

  lemma SortedIsEmpty(s: set<string>)
    ensures Sorted(s) == [] <==> s == {}
  {
    ElementsEmpty(Sorted(s));
    if Sorted(s) == [] { assert Elements(Sorted(s)) == {}; }
  }

  /** New, or with another hash. */
  predicate Fresh(p: Files, c: Files, path: string) {
    path in c && (path !in p || p[path].contentHash != c[path].contentHash)
  }

  predicate Gone(p: Files, c: Files, path: string) {
    path in p && path !in c
  }

  /** A file without a root lies in the repository's. */
  predicate LiesIn(f: ManifestFile, root: string) {
    f.projectRoot == Some(root) || (f.projectRoot == None && root == ".")
  }

  lemma TouchedIs(p: Files, c: Files, path: string)
    ensures path in Touched(p, c) <==> Fresh(p, c, path) || Gone(p, c, path)
  {
  }

  lemma ChangedRootsAre(p: Files, c: Files, root: string)
    ensures root in ChangedRoots(p, c) <==>
            || (exists f :: Fresh(p, c, f) && LiesIn(c[f], root))
            || (exists f :: Gone(p, c, f) && LiesIn(p[f], root))
  {
    if f :| Fresh(p, c, f) && LiesIn(c[f], root) { assert f in Added(p, c) + Changed(p, c); }
    if f :| Gone(p, c, f) && LiesIn(p[f], root) { assert f in Deleted(p, c); }
  }

  /** SCIP reruns the touched files and their roots, and nothing when there are none. */
  lemma ScipPlanListsTouched(p: Files, c: Files, listedRoots: set<string>, path: string)
    ensures var scip := ScipPlanOf(p, c, listedRoots, false);
            && scip.strategy == (if Touched(p, c) == {} then ScipNoop else ScipProjectRoots)
            && (path in scip.files <==> Fresh(p, c, path) || Gone(p, c, path))
            && (path in scip.projectRoots <==>
                  || (exists f :: Fresh(p, c, f) && LiesIn(c[f], path))
                  || (exists f :: Gone(p, c, f) && LiesIn(p[f], path)))
  {
    TouchedHasRoots(p, c);
    TouchedIs(p, c, path);
    ChangedRootsAre(p, c, path);
    InSorted(Touched(p, c), path);
    InSorted(ChangedRoots(p, c), path);
  }

  /** When the toolchains differ it reruns everything, with every file and every listed root. */
  lemma ScipPlanListsAll(p: Files, c: Files, files: seq<ManifestFile>, path: string)
    ensures var scip := ScipPlanOf(p, c, ListedRoots(files), true);
            && scip.strategy == ScipFullRepo
            && (path in scip.files <==> path in c)
            && (path in scip.projectRoots <==> exists f :: f in files && LiesIn(f, path))
  {
    InSorted(c.Keys, path);
    InSorted(ListedRoots(files), path);
  }

  /** What the SCIP part of a plan holds. */
  lemma PlanListsScip(prev: Manifest, cur: Manifest, zoektFileDelta: bool, path: string, scip: ScipPlan)
    requires scip == Between(prev, cur, zoektFileDelta).scip
    ensures var p, c := FileMap(prev.files), FileMap(cur.files);
            if ToolchainsDiffer(prev, cur) then
              && scip.strategy == ScipFullRepo
              && (path in scip.files <==> path in c)
              && (path in scip.projectRoots <==> exists f :: f in cur.files && LiesIn(f, path))
            else
              && scip.strategy == (if Touched(p, c) == {} then ScipNoop else ScipProjectRoots)
              && (path in scip.files <==> Fresh(p, c, path) || Gone(p, c, path))
              && (path in scip.projectRoots <==>
                    || (exists f :: Fresh(p, c, f) && LiesIn(c[f], path))
                    || (exists f :: Gone(p, c, f) && LiesIn(p[f], path)))
  {
    var p, c := FileMap(prev.files), FileMap(cur.files);
    if ToolchainsDiffer(prev, cur) {
      ScipPlanListsAll(p, c, cur.files, path);
    } else {
      ScipPlanListsTouched(p, c, ListedRoots(cur.files), path);
    }
  }

  /** What changes from A to C changed from A to B or from B to C. */
  lemma TouchedComposes(a: Files, b: Files, c: Files)
    ensures Touched(a, c) <= Touched(a, b) + Touched(b, c)
  {
  }

  /** A plan runs nothing at all exactly when no file was touched and both fingerprints are equal. */
  lemma PlanIsIdle(prev: Manifest, cur: Manifest, zoektFileDelta: bool)
    ensures var plan := Between(prev, cur, zoektFileDelta);
            (plan.zoekt.strategy == ZoektNoop && plan.scip.strategy == ScipNoop
             && plan.graph.strategy == GraphNoop && plan.semantic.strategy == SemanticNoop)
            <==> Touched(FileMap(prev.files), FileMap(cur.files)) == {} && !ToolchainsDiffer(prev, cur) && !FingerprintsDiffer(prev, cur)
  {
    TouchedHasRoots(FileMap(prev.files), FileMap(cur.files));
  }

  // Patching, on file maps.

  lemma PatchAt<T>(x: Extractor<T>, index: map<string, T>, dropped: set<string>, listed: set<string>, cur: Files,
                   p: string)
    ensures p in Patch(x, index, dropped, listed, cur) <==> (p in listed && p in cur) || (p in index && p !in dropped)
    ensures p in listed && p in cur ==> Patch(x, index, dropped, listed, cur)[p] == x(p, cur[p].contentHash)
    ensures !(p in listed && p in cur) && p in index && p !in dropped ==>
              Patch(x, index, dropped, listed, cur)[p] == index[p]
  {
  }

  /** Every path that differs between `ready` and `cur` is listed if present and dropped if gone. */
  ghost predicate Covers(ready: Files, cur: Files, dropped: set<string>, listed: set<string>) {
    forall p :: p in Touched(ready, cur) ==> if p in cur then p in listed else p in dropped
  }

  /** Patching an index of `ready` rebuilds `cur` when every difference is covered. */
  lemma PatchRebuilds<T>(x: Extractor<T>, ready: Files, cur: Files, dropped: set<string>, listed: set<string>)
    requires Covers(ready, cur, dropped, listed)
    requires dropped * cur.Keys <= listed
    ensures Patch(x, Rebuild(x, ready), dropped, listed, cur) == Rebuild(x, cur)
  {
    var r := Patch(x, Rebuild(x, ready), dropped, listed, cur);
    forall p ensures (p in r <==> p in cur) && (p in cur ==> r[p] == x(p, cur[p].contentHash)) {
      PatchAt(x, Rebuild(x, ready), dropped, listed, cur, p);
    }
  }

  ghost predicate Separates<T(!new)>(x: Extractor<T>) {
    forall p, h, k :: x(p, h) == x(p, k) ==> h == k
  }

  /** Conversely, when the extractor tells contents apart, every difference must be covered. */
  lemma PatchOnlyRebuilds<T(!new)>(x: Extractor<T>, ready: Files, cur: Files, dropped: set<string>, listed: set<string>)
    requires Separates(x)
    requires Patch(x, Rebuild(x, ready), dropped, listed, cur) == Rebuild(x, cur)
    ensures Covers(ready, cur, dropped, listed)
  {
    forall p | p in Touched(ready, cur) ensures if p in cur then p in listed else p in dropped {
      PatchAt(x, Rebuild(x, ready), dropped, listed, cur, p);
    }
  }

  lemma IdlePatch<T>(x: Extractor<T>, index: map<string, T>, cur: Files)
    ensures Patch(x, index, {}, {}, cur) == index
  {
  }

  lemma DifferencesCovered(base: Files, ready: Files, cur: Files)
    ensures Covers(ready, cur, Deleted(base, cur), Added(base, cur) + Changed(base, cur))
            <==> Touched(ready, cur) <= Touched(base, cur)
  {
  }

  // One application of a plan.

  lemma GraphPlanPatches<T>(x: Extractor<T>, b: Files, index: map<string, T>, c: Files)
    ensures ApplyGraph(x, GraphPlanOf(b, c), index, c) == Patch(x, index, Deleted(b, c), Added(b, c) + Changed(b, c), c)
  {
    if Touched(b, c) == {} {
      UntouchedIsEmpty(b, c);
      IdlePatch(x, index, c);
    } else {
      var plan := GraphPlanOf(b, c);
      assert Elements(plan.deletedFiles) == Deleted(b, c);
      assert Elements(plan.files) == Added(b, c) + Changed(b, c);
    }
  }

  lemma UntouchedIsEmpty(b: Files, c: Files)
    requires Touched(b, c) == {}
    ensures Deleted(b, c) == {} && Added(b, c) + Changed(b, c) == {}
  {
  }

  /**
   * A graph plan computed against `base` but executed on the index of `ready` gives the index of
   * `cur` exactly when everything that differs from `ready` also differs from `base`.
   */
  lemma GraphPlanIsExact<T(!new)>(x: Extractor<T>, base: Manifest, ready: Files, cur: Manifest, zoektFileDelta: bool)
    requires Separates(x)
    ensures ApplyGraph(x, Between(base, cur, zoektFileDelta).graph, Rebuild(x, ready), FileMap(cur.files)) ==
            Rebuild(x, FileMap(cur.files))
            <==> Touched(ready, FileMap(cur.files)) <= Touched(FileMap(base.files), FileMap(cur.files))
  {
    var b, c := FileMap(base.files), FileMap(cur.files);
    GraphPlanPatches(x, b, Rebuild(x, ready), c);
    DifferencesCovered(b, ready, c);
    if Touched(ready, c) <= Touched(b, c) {
      PatchRebuilds(x, ready, c, Deleted(b, c), Added(b, c) + Changed(b, c));
    } else if Patch(x, Rebuild(x, ready), Deleted(b, c), Added(b, c) + Changed(b, c), c) == Rebuild(x, c) {
      PatchOnlyRebuilds(x, ready, c, Deleted(b, c), Added(b, c) + Changed(b, c));
    }
  }

  lemma GraphPlanRebuilds<T>(x: Extractor<T>, base: Manifest, ready: Files, cur: Manifest, zoektFileDelta: bool)
    requires Touched(ready, FileMap(cur.files)) <= Touched(FileMap(base.files), FileMap(cur.files))
    ensures ApplyGraph(x, Between(base, cur, zoektFileDelta).graph, Rebuild(x, ready), FileMap(cur.files)) ==
            Rebuild(x, FileMap(cur.files))
  {
    var b, c := FileMap(base.files), FileMap(cur.files);
    GraphPlanPatches(x, b, Rebuild(x, ready), c);
    DifferencesCovered(b, ready, c);
    PatchRebuilds(x, ready, c, Deleted(b, c), Added(b, c) + Changed(b, c));
  }

  /** The first graph plan of a scope deletes nothing: it is right exactly when nothing stale was left. */
  lemma FirstGraphPlanIsExact<T>(x: Extractor<T>, index: map<string, T>, cur: Manifest)
    ensures ApplyGraph(x, FullPlan(cur).graph, index, FileMap(cur.files)) == Rebuild(x, FileMap(cur.files))
            <==> index.Keys <= FileMap(cur.files).Keys
  {
    ElementsEmpty(FullPlan(cur).graph.deletedFiles);
    EverythingIsExact(x, FullPlan(cur).graph, index, FileMap(cur.files));
  }

  lemma EverythingIsExact<T>(x: Extractor<T>, plan: GraphPlan, index: map<string, T>, c: Files)
    requires plan.strategy == GraphDeltaFiles && Elements(plan.files) == c.Keys && Elements(plan.deletedFiles) == {}
    ensures ApplyGraph(x, plan, index, c) == Rebuild(x, c) <==> index.Keys <= c.Keys
  {
    PatchWithEverything(x, index, {}, c);
  }

  lemma PatchWithEverything<T>(x: Extractor<T>, index: map<string, T>, dropped: set<string>, c: Files)
    ensures Patch(x, index, dropped, c.Keys, c) == Rebuild(x, c) <==> index.Keys <= c.Keys + dropped
  {
    var r := Patch(x, index, dropped, c.Keys, c);
    forall p
      ensures (p in r <==> p in c || (p in index && p !in dropped)) && (p in c ==> r[p] == x(p, c[p].contentHash))
    {
      PatchAt(x, index, dropped, c.Keys, c, p);
    }
  }

  lemma ZoektPlanLists(b: Files, c: Files, fileDelta: bool)
    ensures var plan := ZoektPlanOf(b, c, fileDelta);
            && (Touched(b, c) == {} ==> plan.strategy == ZoektNoop)
            && (Touched(b, c) != {} && fileDelta ==> plan.strategy == ZoektDeltaFiles && Elements(plan.files) == Touched(b, c))
            && (Touched(b, c) != {} && !fileDelta ==> plan.strategy == ZoektFullRepoRewrite && Elements(plan.files) == c.Keys)
  {
  }

  lemma ZoektFilesRebuild<T>(x: Extractor<T>, b: Files, ready: Files, c: Files, plan: ZoektPlan, fileDelta: bool)
    requires Touched(ready, c) <= Touched(b, c)
    requires Touched(b, c) == {} ==> plan.strategy == ZoektNoop
    requires Touched(b, c) != {} && fileDelta ==>
               plan.strategy == ZoektDeltaFiles && Elements(plan.files) == Touched(b, c)
    requires Touched(b, c) != {} && !fileDelta ==>
               plan.strategy == ZoektFullRepoRewrite && Elements(plan.files) == c.Keys
    ensures ApplyZoekt(x, plan, Rebuild(x, ready), c) == Rebuild(x, c)
  {
    var t := Touched(b, c);
    if t == {} {
      IdlePatch(x, Rebuild(x, ready), c);
      PatchRebuilds(x, ready, c, {}, {});
    } else if fileDelta {
      PatchRebuilds(x, ready, c, t, t);
    } else {
      PatchWithEverything(x, map[], {}, c);
    }
  }

  /** A Zoekt plan, with or without file-level deltas, under the same condition. */
  lemma ZoektPlanRebuilds<T>(x: Extractor<T>, base: Manifest, ready: Files, cur: Manifest, zoektFileDelta: bool)
    requires Touched(ready, FileMap(cur.files)) <= Touched(FileMap(base.files), FileMap(cur.files))
    ensures ApplyZoekt(x, Between(base, cur, zoektFileDelta).zoekt, Rebuild(x, ready), FileMap(cur.files)) ==
            Rebuild(x, FileMap(cur.files))
  {
    var b, c := FileMap(base.files), FileMap(cur.files);
    ZoektPlanLists(b, c, zoektFileDelta);
    ZoektFilesRebuild(x, b, ready, c, ZoektPlanOf(b, c, zoektFileDelta), zoektFileDelta);
  }

  /**
   * A Zoekt plan computed against `base` but executed on the shards of `ready` gives the shards of
   * `cur` exactly when it rewrites the repository or everything that differs from `ready` also
   * differs from `base`.
   */
  lemma ZoektPlanIsExact<T(!new)>(x: Extractor<T>, base: Manifest, ready: Files, cur: Manifest, zoektFileDelta: bool)
    requires Separates(x)
    ensures var plan, c := Between(base, cur, zoektFileDelta).zoekt, FileMap(cur.files);
            ApplyZoekt(x, plan, Rebuild(x, ready), c) == Rebuild(x, c)
            <==> plan.strategy == ZoektFullRepoRewrite || Touched(ready, c) <= Touched(FileMap(base.files), c)
  {
    var b, c := FileMap(base.files), FileMap(cur.files);
    ZoektPlanLists(b, c, zoektFileDelta);
    ZoektFilesAreExact(x, b, ready, c, ZoektPlanOf(b, c, zoektFileDelta), zoektFileDelta);
  }

  lemma ZoektFilesAreExact<T(!new)>(x: Extractor<T>, b: Files, ready: Files, c: Files, plan: ZoektPlan, fileDelta: bool)
    requires Separates(x)
    requires Touched(b, c) == {} ==> plan.strategy == ZoektNoop
    requires Touched(b, c) != {} && fileDelta ==>
               plan.strategy == ZoektDeltaFiles && Elements(plan.files) == Touched(b, c)
    requires Touched(b, c) != {} && !fileDelta ==>
               plan.strategy == ZoektFullRepoRewrite && Elements(plan.files) == c.Keys
    ensures ApplyZoekt(x, plan, Rebuild(x, ready), c) == Rebuild(x, c)
            <==> plan.strategy == ZoektFullRepoRewrite || Touched(ready, c) <= Touched(b, c)
  {
    var t := Touched(b, c);
    if plan.strategy == ZoektFullRepoRewrite {
      PatchWithEverything(x, map[], {}, c);
    } else {
      IdlePatch(x, Rebuild(x, ready), c);
      assert ApplyZoekt(x, plan, Rebuild(x, ready), c) == Patch(x, Rebuild(x, ready), t, t, c);
      if Touched(ready, c) <= t {
        PatchRebuilds(x, ready, c, t, t);
      } else if Patch(x, Rebuild(x, ready), t, t, c) == Rebuild(x, c) {
        PatchOnlyRebuilds(x, ready, c, t, t);
      }
    }
  }

  lemma FirstZoektPlanRebuilds<T>(x: Extractor<T>, index: map<string, T>, cur: Manifest)
    ensures ApplyZoekt(x, FullPlan(cur).zoekt, index, FileMap(cur.files)) == Rebuild(x, FileMap(cur.files))
  {
    PatchWithEverything(x, map[], {}, FileMap(cur.files));
  }

  lemma SemanticApplyIsPatch<T>(x: Extractor<T>, plan: SemanticPlan, deleted: seq<string>, index: map<string, T>,
                                c: Files)
    requires plan.strategy == SemanticNoop ==> deleted == [] && plan.files == []
    ensures ApplySemantic(x, plan, deleted, index, c) == Patch(x, index, Elements(deleted), Elements(plan.files), c)
  {
    IdlePatch(x, index, c);
  }

  lemma SemanticPlanLists(b: Files, c: Files, differ: bool)
    ensures var plan := SemanticPlanOf(b, c, differ);
            && Elements(plan.files) == (if differ then c.Keys else Added(b, c) + Changed(b, c))
            && (plan.strategy == SemanticNoop ==> plan.files == [] && Sorted(Deleted(b, c)) == [])
  {
    if !differ && Touched(b, c) == {} {
      UntouchedIsEmpty(b, c);
    }
  }

  lemma SemanticPlanPatches<T>(x: Extractor<T>, b: Files, index: map<string, T>, c: Files, differ: bool)
    ensures ApplySemantic(x, SemanticPlanOf(b, c, differ), Sorted(Deleted(b, c)), index, c) ==
            Patch(x, index, Deleted(b, c), if differ then c.Keys else Added(b, c) + Changed(b, c), c)
  {
    SemanticPlanLists(b, c, differ);
    SemanticApplyIsPatch(x, SemanticPlanOf(b, c, differ), Sorted(Deleted(b, c)), index, c);
  }

  lemma SemanticPatchRebuilds<T>(x: SemanticExtractor<T>, b: Files, r: Files, c: Files,
                                 base: Option<Fingerprint>, ready: Option<Fingerprint>, cur: Option<Fingerprint>)
    requires Touched(r, c) <= Touched(b, c)
    requires ready == base || ready == cur
    ensures Patch(With(x, cur), Rebuild(With(x, ready), r), Deleted(b, c),
                  if base != cur then c.Keys else Added(b, c) + Changed(b, c), c)
            == Rebuild(With(x, cur), c)
  {
    if base != cur {
      forall p | p in r.Keys && p !in c.Keys ensures p in Deleted(b, c) {
        assert p in Touched(r, c);
      }
      PatchWithEverything(With(x, cur), Rebuild(With(x, ready), r), Deleted(b, c), c);
    } else {
      DifferencesCovered(b, r, c);
      PatchRebuilds(With(x, cur), r, c, Deleted(b, c), Added(b, c) + Changed(b, c));
    }
  }

  /** A semantic plan, when the index was made with the fingerprint the plan compared against. */
  lemma SemanticPlanRebuilds<T>(x: SemanticExtractor<T>, base: Manifest, ready: Manifest, cur: Manifest,
                                zoektFileDelta: bool)
    requires Touched(FileMap(ready.files), FileMap(cur.files)) <= Touched(FileMap(base.files), FileMap(cur.files))
    requires ready.semantic == base.semantic || ready.semantic == cur.semantic
    ensures var plan := Between(base, cur, zoektFileDelta);
            ApplySemantic(With(x, cur.semantic), plan.semantic, plan.deletedFiles, RebuildSemantic(x, ready),
                          FileMap(cur.files))
            == RebuildSemantic(x, cur)
  {
    var b, r, c := FileMap(base.files), FileMap(ready.files), FileMap(cur.files);
    SemanticPlanPatches(With(x, cur.semantic), b, RebuildSemantic(x, ready), c, FingerprintsDiffer(base, cur));
    SemanticPatchRebuilds(x, b, r, c, base.semantic, ready.semantic, cur.semantic);
  }

  ghost predicate SeparatesFingerprints<T(!new)>(x: SemanticExtractor<T>) {
    forall f, g, p, h, k :: x(f, p, h) == x(g, p, k) ==> f == g && h == k
  }

  /** The index of `ready` can be brought to `cur` by a semantic plan made against `base`. */
  predicate SemanticFits(b: Files, r: Files, c: Files,
                         base: Option<Fingerprint>, ready: Option<Fingerprint>, cur: Option<Fingerprint>) {
    if base != cur then r.Keys <= c.Keys + Deleted(b, c)
    else Touched(r, c) <= Touched(b, c) && (ready == cur || Unchanged(b, c) == {})
  }

  lemma SemanticPatchFits<T>(x: SemanticExtractor<T>, b: Files, r: Files, c: Files,
                             base: Option<Fingerprint>, ready: Option<Fingerprint>, cur: Option<Fingerprint>)
    requires SemanticFits(b, r, c, base, ready, cur)
    ensures Patch(With(x, cur), Rebuild(With(x, ready), r), Deleted(b, c),
                  if base != cur then c.Keys else Added(b, c) + Changed(b, c), c)
            == Rebuild(With(x, cur), c)
  {
    if base != cur {
      PatchWithEverything(With(x, cur), Rebuild(With(x, ready), r), Deleted(b, c), c);
    } else if ready == cur {
      SemanticPatchRebuilds(x, b, r, c, base, ready, cur);
    } else {
      TouchedPartitions(b, c);
      forall p | p in r.Keys && p !in c.Keys ensures p in Deleted(b, c) {
        assert p in Touched(r, c);
      }
      PatchWithEverything(With(x, cur), Rebuild(With(x, ready), r), Deleted(b, c), c);
    }
  }

  /** At a path the plan leaves alone, the old chunk is right only if it came from the same file and fingerprint. */
  lemma UnlistedChunkIsExact<T(!new)>(x: SemanticExtractor<T>, r: Files, c: Files, dropped: set<string>,
                                      listed: set<string>,
                                      ready: Option<Fingerprint>, cur: Option<Fingerprint>, p: string)
    requires SeparatesFingerprints(x)
    requires Patch(With(x, cur), Rebuild(With(x, ready), r), dropped, listed, c) == Rebuild(With(x, cur), c)
    ensures p in c && p !in listed ==> p in r && ready == cur && r[p].contentHash == c[p].contentHash
    ensures p !in c && p in r ==> p in dropped
  {
    PatchAt(With(x, cur), Rebuild(With(x, ready), r), dropped, listed, c, p);
  }

  lemma SemanticPatchOnlyFits<T(!new)>(x: SemanticExtractor<T>, b: Files, r: Files, c: Files,
                                       base: Option<Fingerprint>, ready: Option<Fingerprint>, cur: Option<Fingerprint>)
    requires SeparatesFingerprints(x)
    requires Patch(With(x, cur), Rebuild(With(x, ready), r), Deleted(b, c),
                   if base != cur then c.Keys else Added(b, c) + Changed(b, c), c)
             == Rebuild(With(x, cur), c)
    ensures SemanticFits(b, r, c, base, ready, cur)
  {
    var listed := if base != cur then c.Keys else Added(b, c) + Changed(b, c);
    forall p
      ensures p in c && p !in listed ==> p in r && ready == cur && r[p].contentHash == c[p].contentHash
      ensures p !in c && p in r ==> p in Deleted(b, c)
    {
      UnlistedChunkIsExact(x, r, c, Deleted(b, c), listed, ready, cur, p);
    }
    if base == cur && Unchanged(b, c) != {} {
      var p :| p in Unchanged(b, c);
      assert p in c && p !in listed;
    }
  }

  /**
   * A semantic plan computed against `base` but executed on the chunks of `ready` gives the chunks
   * of `cur` exactly when `SemanticFits`: if the plan re-extracts everything, nothing stale may be
   * left; otherwise every difference must be planned, and the chunks it keeps must carry the
   * current fingerprint.
   */
  lemma SemanticPlanIsExact<T(!new)>(x: SemanticExtractor<T>, base: Manifest, r: Files, ready: Option<Fingerprint>,
                                     cur: Manifest, zoektFileDelta: bool)
    requires SeparatesFingerprints(x)
    ensures var plan, b, c := Between(base, cur, zoektFileDelta), FileMap(base.files), FileMap(cur.files);
            ApplySemantic(With(x, cur.semantic), plan.semantic, plan.deletedFiles, Rebuild(With(x, ready), r), c)
            == RebuildSemantic(x, cur)
            <==> SemanticFits(b, r, c, base.semantic, ready, cur.semantic)
  {
    var b, c := FileMap(base.files), FileMap(cur.files);
    var index := Rebuild(With(x, ready), r);
    var listed := if base.semantic != cur.semantic then c.Keys else Added(b, c) + Changed(b, c);
    SemanticPlanPatches(With(x, cur.semantic), b, index, c, FingerprintsDiffer(base, cur));
    if SemanticFits(b, r, c, base.semantic, ready, cur.semantic) {
      SemanticPatchFits(x, b, r, c, base.semantic, ready, cur.semantic);
    } else if Patch(With(x, cur.semantic), index, Deleted(b, c), listed, c) == Rebuild(With(x, cur.semantic), c) {
      SemanticPatchOnlyFits(x, b, r, c, base.semantic, ready, cur.semantic);
    }
  }

  /** Nor does the first semantic plan of a scope delete anything. */
  lemma FirstSemanticPlanIsExact<T>(x: SemanticExtractor<T>, index: map<string, T>, cur: Manifest)
    ensures var plan := FullPlan(cur);
            ApplySemantic(With(x, cur.semantic), plan.semantic, plan.deletedFiles, index, FileMap(cur.files)) == RebuildSemantic(x, cur)
            <==> index.Keys <= FileMap(cur.files).Keys
  {
    ElementsEmpty(FullPlan(cur).deletedFiles);
    EveryChunkIsExact(With(x, cur.semantic), FullPlan(cur).semantic, FullPlan(cur).deletedFiles, index,
                      FileMap(cur.files));
  }

  lemma EveryChunkIsExact<T>(x: Extractor<T>, plan: SemanticPlan, deleted: seq<string>, index: map<string, T>, c: Files)
    requires plan.strategy == SemanticAllChunks && Elements(plan.files) == c.Keys && Elements(deleted) == {}
    ensures ApplySemantic(x, plan, deleted, index, c) == Rebuild(x, c) <==> index.Keys <= c.Keys
  {
    SemanticApplyIsPatch(x, plan, deleted, index, c);
    PatchWithEverything(x, index, {}, c);
  }

  // SCIP re-extracts whole project roots.

  function FilesOfRoot(files: Files, root: string): map<string, string> {
    map p | p in files && RootOf(files[p]) == root :: files[p].contentHash
  }

  function RootsOf(files: Files): set<string> {
    set p | p in files :: RootOf(files[p])
  }

  function RebuildScip<T>(x: RootExtractor<T>, files: Files): map<string, T> {
    map r | r in RootsOf(files) :: x(r, FilesOfRoot(files, r))
  }

  function PatchRoots<T>(x: RootExtractor<T>, index: map<string, T>, roots: set<string>, cur: Files): map<string, T> {
    (index - roots) + (map r | r in roots && r in RootsOf(cur) :: x(r, FilesOfRoot(cur, r)))
  }

  /** Every planned root is dropped, and extracted again if it still has files. */
  function ApplyScip<T>(x: RootExtractor<T>, plan: ScipPlan, index: map<string, T>, cur: Files): map<string, T> {
    match plan.strategy
    case ScipNoop => index
    case ScipFullRepo => RebuildScip(x, cur)
    case ScipProjectRoots =>
      PatchRoots(x, index, Elements(plan.projectRoots), cur)
  }

  predicate MovesRoot(prev: Files, cur: Files, p: string) {
    p in prev && p in cur && RootOf(prev[p]) != RootOf(cur[p])
  }

  /** Every path that moves between roots has both of them planned. */
  ghost predicate MoversPlanned(prev: Files, cur: Files) {
    forall p :: MovesRoot(prev, cur, p) ==> RootOf(prev[p]) in ChangedRoots(prev, cur) && RootOf(cur[p]) in ChangedRoots(prev, cur)
  }

  /**
   * Every root outside the planned ones keeps its files and contents exactly when each path that
   * moves between roots has both of them planned.
   */
  lemma UnplannedRootsAreUnchanged(prev: Files, cur: Files)
    ensures (forall r :: r !in ChangedRoots(prev, cur) ==> FilesOfRoot(prev, r) == FilesOfRoot(cur, r))
            <==> MoversPlanned(prev, cur)
  {
    var planned := ChangedRoots(prev, cur);
    if forall r :: r !in planned ==> FilesOfRoot(prev, r) == FilesOfRoot(cur, r) {
      forall p | MovesRoot(prev, cur, p) ensures RootOf(prev[p]) in planned && RootOf(cur[p]) in planned {
        assert p in FilesOfRoot(prev, RootOf(prev[p])) && p !in FilesOfRoot(cur, RootOf(prev[p]));
        assert p in FilesOfRoot(cur, RootOf(cur[p])) && p !in FilesOfRoot(prev, RootOf(cur[p]));
      }
    }
    if MoversPlanned(prev, cur) {
      forall r | r !in planned ensures FilesOfRoot(prev, r) == FilesOfRoot(cur, r) {
        forall p ensures (p in FilesOfRoot(prev, r) ==> p in FilesOfRoot(cur, r) && FilesOfRoot(cur, r)[p] == FilesOfRoot(prev, r)[p])
                      && (p in FilesOfRoot(cur, r) ==> p in FilesOfRoot(prev, r))
        {
          RootKeepsFile(prev, cur, r, p);
        }
      }
    }
  }

  lemma RootKeepsFile(prev: Files, cur: Files, r: string, p: string)
    requires r !in ChangedRoots(prev, cur)
    requires MovesRoot(prev, cur, p) ==>
               RootOf(prev[p]) in ChangedRoots(prev, cur) && RootOf(cur[p]) in ChangedRoots(prev, cur)
    ensures p in FilesOfRoot(prev, r) ==> p in FilesOfRoot(cur, r) && FilesOfRoot(cur, r)[p] == FilesOfRoot(prev, r)[p]
    ensures p in FilesOfRoot(cur, r) ==> p in FilesOfRoot(prev, r)
  {
    if p in Deleted(prev, cur) {
      assert RootOf(prev[p]) in ChangedRoots(prev, cur);
    } else if p in Added(prev, cur) + Changed(prev, cur) {
      assert RootOf(cur[p]) in ChangedRoots(prev, cur);
    }
  }

  ghost predicate SeparatesRoots<T(!new)>(x: RootExtractor<T>) {
    forall r, m, n :: x(r, m) == x(r, n) ==> m == n
  }

  lemma PatchRootsAt<T>(x: RootExtractor<T>, index: map<string, T>, roots: set<string>, c: Files, r: string)
    ensures r in roots ==> (r in PatchRoots(x, index, roots, c) <==> r in RootsOf(c))
    ensures r in roots && r in RootsOf(c) ==> PatchRoots(x, index, roots, c)[r] == x(r, FilesOfRoot(c, r))
    ensures r !in roots ==> (r in PatchRoots(x, index, roots, c) <==> r in index)
    ensures r !in roots && r in index ==> PatchRoots(x, index, roots, c)[r] == index[r]
  {
  }

  /** Every root whose files differ between two manifests is in `roots`. */
  ghost predicate CoversRoots(held: Files, c: Files, roots: set<string>) {
    forall r :: FilesOfRoot(held, r) != FilesOfRoot(c, r) ==> r in roots
  }

  lemma PatchRootsRebuilds<T>(x: RootExtractor<T>, held: Files, roots: set<string>, c: Files)
    requires CoversRoots(held, c, roots)
    ensures PatchRoots(x, RebuildScip(x, held), roots, c) == RebuildScip(x, c)
  {
    var patched := PatchRoots(x, RebuildScip(x, held), roots, c);
    forall r
      ensures r in patched <==> r in RootsOf(c)
      ensures r in RootsOf(c) ==> patched[r] == x(r, FilesOfRoot(c, r))
    {
      PatchRootsAt(x, RebuildScip(x, held), roots, c, r);
      RootHasFiles(held, r);
      RootHasFiles(c, r);
    }
  }

  lemma PatchRootsOnlyRebuilds<T(!new)>(x: RootExtractor<T>, held: Files, roots: set<string>, c: Files)
    requires SeparatesRoots(x)
    requires PatchRoots(x, RebuildScip(x, held), roots, c) == RebuildScip(x, c)
    ensures CoversRoots(held, c, roots)
  {
    forall r | r !in roots ensures FilesOfRoot(held, r) == FilesOfRoot(c, r) {
      PatchRootsAt(x, RebuildScip(x, held), roots, c, r);
      RootHasFiles(held, r);
      RootHasFiles(c, r);
    }
  }

  lemma ScipApplyIsPatch<T>(x: RootExtractor<T>, plan: ScipPlan, index: map<string, T>, c: Files, roots: set<string>)
    requires plan.strategy != ScipFullRepo && Elements(plan.projectRoots) == roots
    requires plan.strategy == ScipNoop ==> plan.projectRoots == []
    ensures ApplyScip(x, plan, index, c) == PatchRoots(x, index, roots, c)
  {
    IdlePatchRoots(x, index, c);
  }

  lemma IdlePatchRoots<T>(x: RootExtractor<T>, index: map<string, T>, c: Files)
    ensures PatchRoots(x, index, {}, c) == index
  {
  }

  lemma ScipPlanLists(p: Files, c: Files, listed: set<string>, differ: bool)
    ensures var plan := ScipPlanOf(p, c, listed, differ);
            (plan.strategy == ScipFullRepo <==> differ) && ListsRoots(plan, ChangedRoots(p, c))
  {
  }

  /**
   * A SCIP plan computed against `base` but executed on the index of `held` gives the index of
   * `cur` exactly when it is a full run or re-extracts every root whose files differ from `held`.
   */
  lemma ScipPlanOnIsExact<T(!new)>(x: RootExtractor<T>, base: Manifest, held: Files, cur: Manifest,
                                   zoektFileDelta: bool)
    requires SeparatesRoots(x)
    ensures var c := FileMap(cur.files);
            ApplyScip(x, Between(base, cur, zoektFileDelta).scip, RebuildScip(x, held), c) == RebuildScip(x, c)
            <==> ToolchainsDiffer(base, cur) || CoversRoots(held, c, ChangedRoots(FileMap(base.files), c))
  {
    var b, c := FileMap(base.files), FileMap(cur.files);
    var plan := ScipPlanOf(b, c, ListedRoots(cur.files), ToolchainsDiffer(base, cur));
    ScipPlanLists(b, c, ListedRoots(cur.files), ToolchainsDiffer(base, cur));
    ScipRootsAreExact(x, plan, held, c, ChangedRoots(b, c));
  }

  ghost predicate ListsRoots(plan: ScipPlan, roots: set<string>) {
    && (plan.strategy != ScipFullRepo ==> Elements(plan.projectRoots) == roots)
    && (plan.strategy == ScipNoop ==> plan.projectRoots == [])
  }

  lemma ScipRootsAreExact<T(!new)>(x: RootExtractor<T>, plan: ScipPlan, held: Files, c: Files, roots: set<string>)
    requires SeparatesRoots(x) && ListsRoots(plan, roots)
    ensures ApplyScip(x, plan, RebuildScip(x, held), c) == RebuildScip(x, c)
            <==> plan.strategy == ScipFullRepo || CoversRoots(held, c, roots)
  {
    if plan.strategy != ScipFullRepo {
      ScipApplyIsPatch(x, plan, RebuildScip(x, held), c, roots);
      if CoversRoots(held, c, roots) {
        PatchRootsRebuilds(x, held, roots, c);
      } else if PatchRoots(x, RebuildScip(x, held), roots, c) == RebuildScip(x, c) {
        PatchRootsOnlyRebuilds(x, held, roots, c);
      }
    }
  }

  lemma PlannedMoversCover(prev: Files, cur: Files)
    ensures CoversRoots(prev, cur, ChangedRoots(prev, cur)) <==> MoversPlanned(prev, cur)
  {
    UnplannedRootsAreUnchanged(prev, cur);
  }

  /**
   * So on the index of the manifest it was planned against, a SCIP plan is a full run exactly when
   * the toolchains differ or every file that moves between roots has both of them planned.
   */
  lemma ScipPlanIsExact<T(!new)>(x: RootExtractor<T>, prev: Manifest, cur: Manifest, zoektFileDelta: bool)
    requires SeparatesRoots(x)
    ensures var p, c := FileMap(prev.files), FileMap(cur.files);
            ApplyScip(x, Between(prev, cur, zoektFileDelta).scip, RebuildScip(x, p), c) == RebuildScip(x, c)
            <==> ToolchainsDiffer(prev, cur) || MoversPlanned(p, c)
  {
    ScipPlanOnIsExact(x, prev, FileMap(prev.files), cur, zoektFileDelta);
    PlannedMoversCover(FileMap(prev.files), FileMap(cur.files));
  }

  /** In that case it is a full run for every extractor. */
  lemma ScipPlanRebuilds<T>(x: RootExtractor<T>, prev: Manifest, cur: Manifest, zoektFileDelta: bool)
    requires ToolchainsDiffer(prev, cur) || MoversPlanned(FileMap(prev.files), FileMap(cur.files))
    ensures ApplyScip(x, Between(prev, cur, zoektFileDelta).scip, RebuildScip(x, FileMap(prev.files)),
                      FileMap(cur.files))
            == RebuildScip(x, FileMap(cur.files))
  {
    var p, c := FileMap(prev.files), FileMap(cur.files);
    ScipPlanLists(p, c, ListedRoots(cur.files), ToolchainsDiffer(prev, cur));
    PlannedMoversCover(p, c);
    ScipRootsRebuild(x, ScipPlanOf(p, c, ListedRoots(cur.files), ToolchainsDiffer(prev, cur)), p, c,
                     ChangedRoots(p, c));
  }

  lemma ScipRootsRebuild<T>(x: RootExtractor<T>, plan: ScipPlan, held: Files, c: Files, roots: set<string>)
    requires ListsRoots(plan, roots)
    requires plan.strategy == ScipFullRepo || CoversRoots(held, c, roots)
    ensures ApplyScip(x, plan, RebuildScip(x, held), c) == RebuildScip(x, c)
  {
    if plan.strategy != ScipFullRepo {
      ScipApplyIsPatch(x, plan, RebuildScip(x, held), c, roots);
      PatchRootsRebuilds(x, held, roots, c);
    }
  }

  lemma RootHasFiles(files: Files, r: string)
    ensures r in RootsOf(files) <==> FilesOfRoot(files, r) != map[]
  {
    if r in RootsOf(files) {
      var p :| p in files && RootOf(files[p]) == r;
      assert p in FilesOfRoot(files, r);
    }
    if FilesOfRoot(files, r) != map[] {
      var p :| p in FilesOfRoot(files, r);
    }
  }

  /**
   * A file that only moves to another root leaves both roots out of the plan, and the SCIP index
   * keeps the old root and never gets the new one.
   */
  lemma MovedFileEscapesScipPlan<T>(x: RootExtractor<T>, prev: Manifest, cur: Manifest, f: ManifestFile,
                                    g: ManifestFile,
                                    from: string, to: string, zoektFileDelta: bool) returns (plan: ScipPlan)
    requires prev.files == [f] && cur.files == [g] && prev.toolchains == cur.toolchains
    requires f.projectRoot == Some(from) && g == f.(projectRoot := Some(to)) && NormalizePath(from) != NormalizePath(to)
    ensures plan == Between(prev, cur, zoektFileDelta).scip && plan.strategy == ScipNoop
    ensures ApplyScip(x, plan, RebuildScip(x, FileMap(prev.files)), FileMap(cur.files)) !=
            RebuildScip(x, FileMap(cur.files))
  {
    var p, c, path := OneFileMaps(f, g, from, to);
    OneFileMoves(x, p, c, path, ListedRoots(cur.files));
    plan := BetweenScip(prev, cur, p, c, zoektFileDelta);
  }

  /** The two file maps: one path, one hash, two roots. */
  lemma OneFileMaps(f: ManifestFile, g: ManifestFile, from: string, to: string)
    returns (p: Files, c: Files, path: string)
    requires f.projectRoot == Some(from) && g == f.(projectRoot := Some(to)) && NormalizePath(from) != NormalizePath(to)
    ensures p == FileMap([f]) && c == FileMap([g]) && p.Keys == c.Keys == {path}
    ensures p[path].contentHash == c[path].contentHash && RootOf(p[path]) != RootOf(c[path])
  {
    p, c, path := FileMap([f]), FileMap([g]), NormalizePath(f.path);
    OneFileMap(f);
    OneFileMap(g);
  }

  lemma BetweenScip(prev: Manifest, cur: Manifest, p: Files, c: Files, zoektFileDelta: bool) returns (plan: ScipPlan)
    requires p == FileMap(prev.files) && c == FileMap(cur.files) && prev.toolchains == cur.toolchains
    ensures plan == Between(prev, cur, zoektFileDelta).scip == ScipPlanOf(p, c, ListedRoots(cur.files), false)
  {
    plan := Between(prev, cur, zoektFileDelta).scip;
  }

  lemma OneFileMoves<T>(x: RootExtractor<T>, p: Files, c: Files, path: string, listed: set<string>)
    requires p.Keys == c.Keys == {path} && p[path].contentHash == c[path].contentHash
    requires RootOf(p[path]) != RootOf(c[path])
    ensures var plan := ScipPlanOf(p, c, listed, false);
            plan.strategy == ScipNoop && ApplyScip(x, plan, RebuildScip(x, p), c) != RebuildScip(x, c)
  {
    assert ChangedRoots(p, c) == {};
    assert RootOf(c[path]) in RebuildScip(x, c) && RootOf(c[path]) !in RebuildScip(x, p);
  }

  lemma OneFileMap(f: ManifestFile)
    ensures FileMap([f]) == map[NormalizePath(f.path) := NormalizedEntry(f)]
  {
    assert [f][..0] == [];
  }
}
