/** Manifests, and the path normal form under which two of them are compared. */
module Manifests {
  import opened Basics

  datatype IndexerKind = Zoekt | Scip | Graph | SemanticLlm

  datatype ManifestFile = ManifestFile(
    path: string,
    contentHash: string,
    language: Option<string>,
    projectRoot: Option<string>,
    generated: Option<bool>,
    vendor: Option<bool>,
    test: Option<bool>,
    artifacts: Option<map<IndexerKind, string>>)

  datatype Fingerprint = Fingerprint(promptVersion: string, modelId: string, schemaVersion: int)

  /** The five columns across which no artifact may be shared. */
  datatype Scope = Scope(org: int, workspace: string, repo: int, provider: Option<string>, branch: string)

  datatype Manifest = Manifest(
    scope: Scope,
    commit: string,
    files: seq<ManifestFile>,
    toolchains: Option<map<string, string>>,
    semantic: Option<Fingerprint>)

  function ForwardSlashes(s: string): string {
    seq(|s|, i requires 0 <= i < |s| => if s[i] == '\\' then '/' else s[i])
  }

  function TrimSlashes(s: string): string {
    if s != [] && s[0] == '/' then TrimSlashes(s[1..]) else s
  }

  /** `normalize_manifest_path`: backslashes become slashes, then leading slashes go. */
  function NormalizePath(s: string): string {
    TrimSlashes(ForwardSlashes(s))
  }

  ghost predicate NormalPath(s: string) {
    '\\' !in s && (s != [] ==> s[0] != '/')
  }

  lemma {:induction false} TrimSlashesTrims(s: string)
    ensures |TrimSlashes(s)| <= |s| && TrimSlashes(s) == s[|s| - |TrimSlashes(s)|..]
    ensures TrimSlashes(s) != [] ==> TrimSlashes(s)[0] != '/'
    ensures forall i :: 0 <= i < |s| - |TrimSlashes(s)| ==> s[i] == '/'
  {
    if s != [] && s[0] == '/' { TrimSlashesTrims(s[1..]); }
  }

  /**
   * A normal path is the path without its leading slashes and backslashes; every backslash
   * after them is a slash, and every other character is kept.
   */
  lemma NormalizePathKeeps(s: string)
    ensures var r, n := NormalizePath(s), |s| - |NormalizePath(s)|;
            && n >= 0
            && (forall i :: 0 <= i < n ==> s[i] == '/' || s[i] == '\\')
            && (forall i :: n <= i < |s| ==> (s[i] == '\\' ==> r[i - n] == '/') && (s[i] != '\\' ==> r[i - n] == s[i]))
  {
    var f := ForwardSlashes(s);
    TrimSlashesTrims(f);
    forall i | 0 <= i < |s| - |TrimSlashes(f)| ensures s[i] == '/' || s[i] == '\\' { assert f[i] == '/'; }
  }

  /** Normalizing reaches a normal path, and changes exactly the paths that are not normal. */
  lemma NormalizePathNormalizes(s: string)
    ensures NormalPath(NormalizePath(s))
    ensures NormalizePath(s) == s <==> NormalPath(s)
  {
    var f := ForwardSlashes(s);
    assert forall i :: 0 <= i < |s| ==> f[i] != '\\';
    TrimSlashesTrims(f);
    if NormalPath(s) {
      assert forall i :: 0 <= i < |s| ==> s[i] in s;
      assert f == s;
    }
  }

  function NormalizedEntry(f: ManifestFile): ManifestFile {
    f.(path := NormalizePath(f.path),
       projectRoot := match f.projectRoot case Some(r) => Some(NormalizePath(r)) case None => None)
  }

  /** `normalized_file_map` as a fold: a later file with the same normal path replaces an earlier one. */
  function FileMap(files: seq<ManifestFile>): map<string, ManifestFile> {
    if files == [] then map[]
    else
      var last := files[|files| - 1];
      FileMap(files[..|files| - 1])[NormalizePath(last.path) := NormalizedEntry(last)]
  }

  method NormalizedFileMap(files: seq<ManifestFile>) returns (m: map<string, ManifestFile>)
    ensures m == FileMap(files)
  {
    m := map[];
    for i := 0 to |files|
      invariant m == FileMap(files[..i])
    {
      assert files[..i + 1][..i] == files[..i];
      m := m[NormalizePath(files[i].path) := NormalizedEntry(files[i])];
    }
    assert files[..|files|] == files;
  }

  ghost predicate LastListed(files: seq<ManifestFile>, p: string, i: nat) {
    && i < |files|
    && NormalizePath(files[i].path) == p
    && forall j :: i < j < |files| ==> NormalizePath(files[j].path) != p
  }

  /** What the map holds under a path is the last file listed under it. */
  lemma {:induction false} FileMapSource(files: seq<ManifestFile>, p: string) returns (i: nat)
    requires p in FileMap(files)
    ensures LastListed(files, p, i) && FileMap(files)[p] == NormalizedEntry(files[i])
  {
    i := |files| - 1;
    if NormalizePath(files[i].path) != p {
      i := FileMapSource(files[..i], p);
    }
  }

  /** Every listed file has an entry under its normal path. */
  lemma {:induction false} FileMapListed(files: seq<ManifestFile>, f: ManifestFile)
    requires f in files
    ensures NormalizePath(f.path) in FileMap(files)
  {
    if f != files[|files| - 1] {
      FileMapListed(files[..|files| - 1], f);
    }
  }

  ghost predicate DistinctPaths(files: set<ManifestFile>) {
    forall f, g :: f in files && g in files && NormalizePath(f.path) == NormalizePath(g.path) ==> f == g
  }

  lemma FileMapAgrees(a: seq<ManifestFile>, b: seq<ManifestFile>, p: string)
    requires DistinctPaths(Elements(a)) && Elements(a) == Elements(b)
    requires p in FileMap(a)
    ensures p in FileMap(b) && FileMap(b)[p] == FileMap(a)[p]
  {
    var i := FileMapSource(a, p);
    assert a[i] in Elements(b);
    FileMapListed(b, a[i]);
    var j := FileMapSource(b, p);
    assert b[j] in Elements(a);
  }

  /** With distinct paths the map depends only on which files are listed, not on their order. */
  lemma FileMapIgnoresOrder(a: seq<ManifestFile>, b: seq<ManifestFile>)
    requires DistinctPaths(Elements(a)) && Elements(a) == Elements(b)
    ensures FileMap(a) == FileMap(b)
  {
    forall p | p in FileMap(a) ensures p in FileMap(b) && FileMap(b)[p] == FileMap(a)[p] {
      FileMapAgrees(a, b, p);
    }
    forall p | p in FileMap(b) ensures p in FileMap(a) {
      FileMapAgrees(b, a, p);
    }
  }
}

/**
 * The per-engine delta planner.  `Between` says what the plan between two manifests is;
 * `BuildDeltaReindexPlan` is the source's computation, with its loops and its early return.
 */
module DeltaPlan {
  import opened Basics
  import opened ByteOrder
  import opened Manifests
  import Json

  datatype Mode = Noop | Delta | Full
  datatype ZoektStrategy = ZoektNoop | ZoektDeltaFiles | ZoektFullRepo | ZoektFullRepoRewrite
  datatype ScipStrategy = ScipNoop | ScipProjectRoots | ScipFullRepo
  datatype GraphStrategy = GraphNoop | GraphDeltaFiles
  datatype SemanticStrategy = SemanticNoop | SemanticChangedChunks | SemanticAllChunks

  datatype ZoektPlan = ZoektPlan(strategy: ZoektStrategy, files: seq<string>)
  datatype ScipPlan = ScipPlan(strategy: ScipStrategy, projectRoots: seq<string>, files: seq<string>)
  datatype GraphPlan = GraphPlan(strategy: GraphStrategy, files: seq<string>, deletedFiles: seq<string>)
  datatype SemanticPlan = SemanticPlan(strategy: SemanticStrategy, files: seq<string>)

  datatype Plan = Plan(
    mode: Mode,
    addedFiles: seq<string>,
    changedFiles: seq<string>,
    deletedFiles: seq<string>,
    unchangedFiles: seq<string>,
    zoekt: ZoektPlan,
    scip: ScipPlan,
    graph: GraphPlan,
    semantic: SemanticPlan)

  datatype ScopeField = OrgId | WorkspaceId | RepoId | ProviderConnectionId | Branch

  type Files = map<string, ManifestFile>

  // What changed between two file maps, as sets.

  function Added(prev: Files, cur: Files): set<string> {
    cur.Keys - prev.Keys
  }

  function Changed(prev: Files, cur: Files): set<string> {
    set p | p in cur && p in prev && prev[p].contentHash != cur[p].contentHash
  }

  function Unchanged(prev: Files, cur: Files): set<string> {
    set p | p in cur && p in prev && prev[p].contentHash == cur[p].contentHash
  }

  function Deleted(prev: Files, cur: Files): set<string> {
    prev.Keys - cur.Keys
  }

  function Touched(prev: Files, cur: Files): set<string> {
    Added(prev, cur) + Changed(prev, cur) + Deleted(prev, cur)
  }

  function RootOf(f: ManifestFile): string {
    UnwrapOr(f.projectRoot, ".")
  }

  /** Roots of added and changed files as they are now, and of deleted files as they were. */
  function ChangedRoots(prev: Files, cur: Files): set<string> {
    (set p | p in Added(prev, cur) + Changed(prev, cur) :: RootOf(cur[p]))
    + (set p | p in Deleted(prev, cur) :: RootOf(prev[p]))
  }

  function ListedRoots(files: seq<ManifestFile>): set<string> {
    set f | f in files :: RootOf(f)
  }

  function ToolchainsOf(m: Manifest): map<string, string> {
    UnwrapOr(m.toolchains, map[])
  }

  predicate ToolchainsDiffer(prev: Manifest, cur: Manifest) {
    ToolchainsOf(prev) != ToolchainsOf(cur)
  }

  predicate FingerprintsDiffer(prev: Manifest, cur: Manifest) {
    prev.semantic != cur.semantic
  }

  /** The first scope column on which two manifests disagree. */
  function ScopeMismatch(prev: Scope, cur: Scope): (r: Option<ScopeField>)
    ensures r == None <==> prev == cur
  {
    if prev.org != cur.org then Some(OrgId)
    else if prev.workspace != cur.workspace then Some(WorkspaceId)
    else if prev.repo != cur.repo then Some(RepoId)
    else if prev.provider != cur.provider then Some(ProviderConnectionId)
    else if prev.branch != cur.branch then Some(Branch)
    else None
  }

  /** The plan without a previous manifest: everything, on every engine. */
  function FullPlan(cur: Manifest): Plan {
    var all := Sorted(FileMap(cur.files).Keys);
    Plan(Full, all, [], [], [],
         ZoektPlan(ZoektFullRepo, all),
         ScipPlan(ScipFullRepo, Sorted(ListedRoots(cur.files)), all),
         GraphPlan(GraphDeltaFiles, all, []),
         SemanticPlan(SemanticAllChunks, all))
  }

  function GraphPlanOf(p: Files, c: Files): GraphPlan {
    if Touched(p, c) == {} then GraphPlan(GraphNoop, [], [])
    else GraphPlan(GraphDeltaFiles, Sorted(Added(p, c) + Changed(p, c)), Sorted(Deleted(p, c)))
  }

  function ZoektPlanOf(p: Files, c: Files, fileDelta: bool): ZoektPlan {
    if Touched(p, c) == {} then ZoektPlan(ZoektNoop, [])
    else if fileDelta then ZoektPlan(ZoektDeltaFiles, Sorted(Touched(p, c)))
    else ZoektPlan(ZoektFullRepoRewrite, Sorted(c.Keys))
  }

  function ScipPlanOf(p: Files, c: Files, listedRoots: set<string>, toolchainsDiffer: bool): ScipPlan {
    if toolchainsDiffer then ScipPlan(ScipFullRepo, Sorted(listedRoots), Sorted(c.Keys))
    else if ChangedRoots(p, c) != {} then ScipPlan(ScipProjectRoots, Sorted(ChangedRoots(p, c)), Sorted(Touched(p, c)))
    else ScipPlan(ScipNoop, [], [])
  }

  function SemanticPlanOf(p: Files, c: Files, fingerprintsDiffer: bool): SemanticPlan {
    if fingerprintsDiffer then SemanticPlan(SemanticAllChunks, Sorted(c.Keys))
    else if Touched(p, c) != {} then SemanticPlan(SemanticChangedChunks, Sorted(Added(p, c) + Changed(p, c)))
    else SemanticPlan(SemanticNoop, [])
  }

  /** The plan between two manifests of one scope, engine by engine. */
  function Between(prev: Manifest, cur: Manifest, zoektFileDelta: bool): Plan {
    var p, c := FileMap(prev.files), FileMap(cur.files);
    Plan(
      if Touched(p, c) == {} then Noop else Delta,
      Sorted(Added(p, c)), Sorted(Changed(p, c)), Sorted(Deleted(p, c)), Sorted(Unchanged(p, c)),
      ZoektPlanOf(p, c, zoektFileDelta),
      ScipPlanOf(p, c, ListedRoots(cur.files), ToolchainsDiffer(prev, cur)),
      GraphPlanOf(p, c),
      SemanticPlanOf(p, c, FingerprintsDiffer(prev, cur)))
  }

  function PlanFor(prev: Option<Manifest>, cur: Manifest, zoektFileDelta: bool): Result<Plan, ScopeField> {
    match prev
    case None => Ok(FullPlan(cur))
    case Some(p) =>
      match ScopeMismatch(p.scope, cur.scope)
      case Some(field) => Err(field)
      case None => Ok(Between(p, cur, zoektFileDelta))
  }

  // Fingerprints are compared as JSON.

  function ToolchainsJson(t: Option<map<string, string>>): Json.Json {
    match t
    case None => Json.Object([])
    case Some(m) => Json.Object(Json.Listing(map k | k in m :: Json.Str(m[k])))
  }

  function FingerprintJson(f: Option<Fingerprint>): Json.Json {
    match f
    case None => Json.Null
    case Some(v) => Json.Object([Json.Entry(FIELD_NAMES[0], Json.Str(v.promptVersion)),
                                 Json.Entry(FIELD_NAMES[1], Json.Str(v.modelId)),
                                 Json.Entry(FIELD_NAMES[2], Json.Int(v.schemaVersion))])
  }

  lemma ScalarListing(m: map<string, string>)
    ensures var values := map k | k in m :: Json.Str(m[k]);
            Json.Collect(Json.SortValues(Json.Listing(values))) == values
  {
    var values := map k | k in m :: Json.Str(m[k]);
    var es := Json.Listing(values);
    forall i | 0 <= i < |es| ensures Json.SortJson(es[i].value) == es[i].value {
      Json.ListingAt(values, i);
    }
    assert Json.SortValues(es) == es;
    Json.CollectListing(values);
  }

  /** Comparing the toolchain maps as JSON compares them as maps, a missing map being empty. */
  lemma ToolchainsJsonDecides(a: Option<map<string, string>>, b: Option<map<string, string>>)
    ensures Json.StableJsonEqual(ToolchainsJson(a), ToolchainsJson(b)) <==> UnwrapOr(a, map[]) == UnwrapOr(b, map[])
  {
    var m, n := UnwrapOr(a, map[]), UnwrapOr(b, map[]);
    ToolchainsJsonOf(a);
    ToolchainsJsonOf(b);
    Json.EqualObjects(ToolchainsJson(a).entries, ToolchainsJson(b).entries);
    ScalarListing(m);
    ScalarListing(n);
    StringMapsAgree(m, n);
  }

  lemma StringMapsAgree(m: map<string, string>, n: map<string, string>)
    ensures (map k | k in m :: Json.Str(m[k])) == (map k | k in n :: Json.Str(n[k])) <==> m == n
  {
    var v, w := map k | k in m :: Json.Str(m[k]), map k | k in n :: Json.Str(n[k]);
    if v == w {
      forall k | k in m ensures k in n && m[k] == n[k] { assert k in v && v[k] == w[k]; }
      forall k | k in n ensures k in m { assert k in w; }
    }
  }

  lemma ToolchainsJsonOf(t: Option<map<string, string>>)
    ensures ToolchainsJson(t) == ToolchainsJson(Some(UnwrapOr(t, map[])))
  {
  }

  const FIELD_NAMES := ["promptVersion", "modelId", "schemaVersion"]

  lemma FieldNamesDiffer()
    ensures FIELD_NAMES[0] != FIELD_NAMES[1] && FIELD_NAMES[1] != FIELD_NAMES[2] && FIELD_NAMES[0] != FIELD_NAMES[2]
  {
    assert FIELD_NAMES[0][0] == 'p' && FIELD_NAMES[1][0] == 'm' && FIELD_NAMES[2][0] == 's';
  }

  lemma FingerprintFields(f: Fingerprint)
    ensures var m := Json.Collect(Json.SortValues(FingerprintJson(Some(f)).entries));
            && FIELD_NAMES[0] in m && m[FIELD_NAMES[0]] == Json.Str(f.promptVersion)
            && FIELD_NAMES[1] in m && m[FIELD_NAMES[1]] == Json.Str(f.modelId)
            && FIELD_NAMES[2] in m && m[FIELD_NAMES[2]] == Json.Int(f.schemaVersion)
  {
    FieldNamesDiffer();
    var es := FingerprintJson(Some(f)).entries;
    assert Json.SortValues(es) == es;
    Json.CollectAt(es, 0);
    Json.CollectAt(es, 1);
    Json.CollectAt(es, 2);
  }

  lemma FingerprintJsonDecides(a: Option<Fingerprint>, b: Option<Fingerprint>)
    ensures Json.StableJsonEqual(FingerprintJson(a), FingerprintJson(b)) <==> a == b
  {
    if a.Some? && b.Some? && Json.StableJsonEqual(FingerprintJson(a), FingerprintJson(b)) {
      Json.EqualObjects(FingerprintJson(a).entries, FingerprintJson(b).entries);
      FingerprintFields(a.value);
      FingerprintFields(b.value);
    }
  }

  // Facts about sorted listings that the computation relies on.

  lemma DisjointAscendingSort(a: seq<string>, b: seq<string>)
    requires Ascending(a) && Ascending(b) && Elements(a) !! Elements(b)
    ensures Distinct(a + b)
    ensures Sort(a + b) == Sorted(Elements(a) + Elements(b))
  {
    AscendingIsDistinct(a);
    AscendingIsDistinct(b);
    DistinctConcat(a, b);
    ElementsConcat(a, b);
    SortOfDistinct(a + b);
  }

  lemma ThreeWaySort(a: seq<string>, b: seq<string>, c: seq<string>)
    requires Ascending(a) && Ascending(b) && Ascending(c)
    requires Elements(a) !! Elements(b) && Elements(c) !! (Elements(a) + Elements(b))
    ensures Sort(a + b + c) == Sorted(Elements(a) + Elements(b) + Elements(c))
  {
    DisjointAscendingSort(a, b);
    ElementsConcat(a, b);
    AscendingIsDistinct(c);
    DistinctConcat(a + b, c);
    ElementsConcat(a + b, c);
    SortOfDistinct(a + b + c);
  }

  /** The loop over the current files. */
  method ClassifyCurrent(prev: Files, cur: Files)
    returns (added: seq<string>, changed: seq<string>, same: seq<string>)
    ensures added == Sorted(Added(prev, cur))
    ensures changed == Sorted(Changed(prev, cur))
    ensures same == Sorted(Unchanged(prev, cur))
  {
    added, changed, same := [], [], [];
    var keys := Sorted(cur.Keys);
    for i := 0 to |keys|
      invariant Lists(added, Added(prev, cur), keys, i)
      invariant Lists(changed, Changed(prev, cur), keys, i)
      invariant Lists(same, Unchanged(prev, cur), keys, i)
    {
      var path := keys[i];
      assert path in Elements(keys);
      ListNext(added, Added(prev, cur), keys, i);
      ListNext(changed, Changed(prev, cur), keys, i);
      ListNext(same, Unchanged(prev, cur), keys, i);
      if path !in prev {
        added := added + [path];
      } else if prev[path].contentHash != cur[path].contentHash {
        changed := changed + [path];
      } else {
        same := same + [path];
      }
    }
    ListedAll(added, Added(prev, cur), keys);
    ListedAll(changed, Changed(prev, cur), keys);
    ListedAll(same, Unchanged(prev, cur), keys);
  }

  /** The loop over the previous files. */
  method ListDeleted(prev: Files, cur: Files) returns (deleted: seq<string>)
    ensures deleted == Sorted(Deleted(prev, cur))
  {
    deleted := [];
    var keys := Sorted(prev.Keys);
    for i := 0 to |keys|
      invariant Lists(deleted, Deleted(prev, cur), keys, i)
    {
      assert keys[i] in Elements(keys);
      ListNext(deleted, Deleted(prev, cur), keys, i);
      if keys[i] !in cur {
        deleted := deleted + [keys[i]];
      }
    }
    ListedAll(deleted, Deleted(prev, cur), keys);
  }

  /** `out` lists, in order, the members of `s` among the first `i` keys. */
  ghost predicate Lists(out: seq<string>, s: set<string>, keys: seq<string>, i: nat)
    requires i <= |keys|
  {
    Ascending(out) && Elements(out) == s * Elements(keys[..i])
  }

  lemma ListNext(out: seq<string>, s: set<string>, keys: seq<string>, i: nat)
    requires Ascending(keys) && i < |keys| && Lists(out, s, keys, i)
    ensures Lists(if keys[i] in s then out + [keys[i]] else out, s, keys, i + 1)
  {
    assert keys[..i + 1] == keys[..i] + [keys[i]];
    ElementsConcat(keys[..i], [keys[i]]);
    if keys[i] in s {
      forall y | y in out ensures Less(y, keys[i]) {
        assert y in Elements(out);
      }
      AscendingAppend(out, keys[i]);
    }
  }

  lemma ListedAll(out: seq<string>, s: set<string>, keys: seq<string>)
    requires Ascending(keys) && Lists(out, s, keys, |keys|) && s <= Elements(keys)
    ensures out == Sorted(s)
  {
    assert keys[..|keys|] == keys;
    AscendingIsUnique(out, Sorted(s));
  }

  method UniqueProjectRoots(files: seq<ManifestFile>) returns (roots: set<string>)
    ensures roots == ListedRoots(files)
  {
    roots := {};
    for i := 0 to |files|
      invariant roots == ListedRoots(files[..i])
    {
      assert files[..i + 1] == files[..i] + [files[i]];
      roots := roots + {RootOf(files[i])};
    }
    assert files[..|files|] == files;
  }

  function RootsAt(m: Files, paths: seq<string>): set<string> {
    set p | p in paths && p in m :: RootOf(m[p])
  }

  /** The loop over changed current files and deleted previous files. */
  method ChangedProjectRoots(prev: Files, cur: Files, present: seq<string>, deleted: seq<string>)
    returns (roots: set<string>)
    ensures roots == RootsAt(cur, present) + RootsAt(prev, deleted)
  {
    roots := {};
    for i := 0 to |present|
      invariant roots == RootsAt(cur, present[..i])
    {
      assert present[..i + 1] == present[..i] + [present[i]];
      if present[i] in cur {
        roots := roots + {RootOf(cur[present[i]])};
      }
    }
    assert present[..|present|] == present;
    for i := 0 to |deleted|
      invariant roots == RootsAt(cur, present) + RootsAt(prev, deleted[..i])
    {
      assert deleted[..i + 1] == deleted[..i] + [deleted[i]];
      if deleted[i] in prev {
        roots := roots + {RootOf(prev[deleted[i]])};
      }
    }
    assert deleted[..|deleted|] == deleted;
  }

  lemma ChangedRootsListed(prev: Files, cur: Files, present: seq<string>, deleted: seq<string>)
    requires Elements(present) == Added(prev, cur) + Changed(prev, cur)
    requires Elements(deleted) == Deleted(prev, cur)
    ensures RootsAt(cur, present) + RootsAt(prev, deleted) == ChangedRoots(prev, cur)
  {
    assert forall p :: p in present <==> p in Elements(present);
    assert forall p :: p in deleted <==> p in Elements(deleted);
  }

  /** `build_delta_reindex_plan`: the early NOOP return agrees with the general path. */
  method BuildDeltaReindexPlan(previous: Option<Manifest>, current: Manifest, zoektFileDelta: bool)
    returns (r: Result<Plan, ScopeField>)
    ensures r == PlanFor(previous, current, zoektFileDelta)
  {
    var cur := NormalizedFileMap(current.files);
    var listed := UniqueProjectRoots(current.files);
    if previous.None? {
      var all := Sorted(cur.Keys);
      return Ok(Plan(Full, all, [], [], [],
                     ZoektPlan(ZoektFullRepo, all),
                     ScipPlan(ScipFullRepo, Sorted(listed), all),
                     GraphPlan(GraphDeltaFiles, all, []),
                     SemanticPlan(SemanticAllChunks, all)));
    }
    var prior := previous.value;
    var mismatch := ScopeMismatch(prior.scope, current.scope);
    if mismatch.Some? {
      return Err(mismatch.value);
    }
    var prev := NormalizedFileMap(prior.files);
    var added, changed, same := ClassifyCurrent(prev, cur);
    var deleted := ListDeleted(prev, cur);
    var touched := Sort(added + changed + deleted);
    var toolchainsChanged := !Json.StableJsonEqual(ToolchainsJson(prior.toolchains),
                                                   ToolchainsJson(current.toolchains));
    var fingerprintChanged := !Json.StableJsonEqual(FingerprintJson(prior.semantic), FingerprintJson(current.semantic));
    ToolchainsJsonDecides(prior.toolchains, current.toolchains);
    FingerprintJsonDecides(prior.semantic, current.semantic);
    ThreeWaySort(added, changed, deleted);
    DisjointAscendingSort(added, changed);
    ElementsEmpty(touched);
    ElementsConcat(added, changed);
    ChangedRootsListed(prev, cur, added + changed, deleted);
    var roots := ChangedProjectRoots(prev, cur, added + changed, deleted);
    assert touched == Sorted(Touched(prev, cur));
    assert ChangedRoots(prev, cur) == {} <==> Touched(prev, cur) == {} by { TouchedHasRoots(prev, cur); }
    if touched == [] && !toolchainsChanged && !fingerprintChanged && prior.commit == current.commit {
      return Ok(Plan(Noop, [], [], [], same,
                     ZoektPlan(ZoektNoop, []), ScipPlan(ScipNoop, [], []),
                     GraphPlan(GraphNoop, [], []), SemanticPlan(SemanticNoop, [])));
    }
    var all := Sorted(cur.Keys);
    var present := Sort(added + changed);
    var zoekt :=
      if touched == [] then ZoektPlan(ZoektNoop, [])
      else if zoektFileDelta then ZoektPlan(ZoektDeltaFiles, touched)
      else ZoektPlan(ZoektFullRepoRewrite, all);
    var scip :=
      if toolchainsChanged then ScipPlan(ScipFullRepo, Sorted(listed), all)
      else if roots != {} then ScipPlan(ScipProjectRoots, Sorted(roots), touched)
      else ScipPlan(ScipNoop, [], []);
    var graph :=
      if touched == [] then GraphPlan(GraphNoop, [], [])
      else GraphPlan(GraphDeltaFiles, present, deleted);
    var semantic :=
      if fingerprintChanged then SemanticPlan(SemanticAllChunks, all)
      else if touched != [] then SemanticPlan(SemanticChangedChunks, present)
      else SemanticPlan(SemanticNoop, []);
    return Ok(Plan(if touched != [] then Delta else Noop, added, changed, deleted, same,
                   zoekt, scip, graph, semantic));
  }

  lemma TouchedHasRoots(prev: Files, cur: Files)
    ensures ChangedRoots(prev, cur) == {} <==> Touched(prev, cur) == {}
  {
    if Touched(prev, cur) != {} {
      var p :| p in Touched(prev, cur);
      assert (if p in cur then RootOf(cur[p]) else RootOf(prev[p])) in ChangedRoots(prev, cur);
    }
  }
}
