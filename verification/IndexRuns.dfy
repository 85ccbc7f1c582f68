/**
 * Whole runs of index cycles: an engine's incremental index against rebuilding it from scratch.
 * Executing a plan is a step of its own that changes the index and no row, so a run may execute a
 * plan whose manifest never becomes READY.  Removing a repository also removes its indexes, which
 * is the cleanup the backend pairs with deleting the manifest rows.
 */
module IndexRuns {
  import opened Basics
  import opened Manifests
  import opened DeltaPlan
  import opened Reindex
  import opened ManifestTable

  /** The plan for a manifest against the stored copy of a base. */
  type Planner = (Option<Manifest>, Manifest, Select, bool) -> Plan

  /**
   * An engine: its planner, the index of a manifest (or of nothing) built from scratch, what
   * executing a plan does to an index, and when that is right.  `fits(plan, base, held, cur)` is
   * about a plan from `base` to `cur`, executed on the index of `held`.
   */
  datatype Engine<!I> = Engine(
    plan: Planner,
    rebuild: Option<Manifest> -> I,
    apply: (Plan, I, Manifest) -> I,
    fits: (Plan, Option<Manifest>, Option<Manifest>, Manifest) -> bool)

  function FilesOf(m: Option<Manifest>): Files {
    match m case None => map[] case Some(v) => FileMap(v.files)
  }

  function FingerprintOf(m: Option<Manifest>): Option<Fingerprint> {
    match m case None => None case Some(v) => v.semantic
  }

  /** The planner of all four engines. */
  function PlanOf(base: Option<Manifest>, cur: Manifest, select: Select, fileDelta: bool): Plan {
    match base
    case None => FullPlan(cur)
    case Some(b) => Between(LoadBack(b, select), cur, fileDelta)
  }

  ghost predicate WellFormed(m: Manifest) {
    DistinctPaths(Elements(m.files))
  }

  ghost predicate WellPosed(base: Option<Manifest>, select: Select) {
    Enumerates(select) && (base.Some? ==> WellFormed(base.value))
  }

  ghost predicate ExactAt<I>(e: Engine<I>, base: Option<Manifest>, select: Select, fileDelta: bool,
                             held: Option<Manifest>, cur: Manifest) {
    WellPosed(base, select) ==>
      var plan := e.plan(base, cur, select, fileDelta);
      (e.fits(plan, base, held, cur) <==> e.apply(plan, e.rebuild(held), cur) == e.rebuild(Some(cur)))
  }

  /** `fits` says exactly when executing a plan gives the rebuild. */
  ghost predicate Exact<I>(e: Engine<I>) {
    forall base, select, fileDelta, held, cur :: ExactAt(e, base, select, fileDelta, held, cur)
  }

  // The four engines.

  predicate GraphFits(base: Option<Manifest>, held: Option<Manifest>, cur: Manifest) {
    match base
    case None => FilesOf(held).Keys <= FileMap(cur.files).Keys
    case Some(b) => Touched(FilesOf(held), FileMap(cur.files)) <= Touched(FileMap(b.files), FileMap(cur.files))
  }

  ghost function GraphEngine<T>(x: Extractor<T>): Engine<map<string, T>> {
    Engine(PlanOf,
           m => Rebuild(x, FilesOf(m)),
           (plan: Plan, index, cur: Manifest) => ApplyGraph(x, plan.graph, index, FileMap(cur.files)),
           (plan, base, held, cur) => GraphFits(base, held, cur))
  }

  /** A full run or rewrite is always right. */
  predicate ZoektFits(plan: Plan, base: Option<Manifest>, held: Option<Manifest>, cur: Manifest) {
    match base
    case None => true
    case Some(b) =>
      || plan.zoekt.strategy == ZoektFullRepoRewrite
      || Touched(FilesOf(held), FileMap(cur.files)) <= Touched(FileMap(b.files), FileMap(cur.files))
  }

  ghost function ZoektEngine<T>(x: Extractor<T>): Engine<map<string, T>> {
    Engine(PlanOf,
           m => Rebuild(x, FilesOf(m)),
           (plan: Plan, index, cur: Manifest) => ApplyZoekt(x, plan.zoekt, index, FileMap(cur.files)),
           (plan, base, held, cur) => ZoektFits(plan, base, held, cur))
  }

  /** The planner compares with the fingerprint as it was loaded back. */
  predicate ChunksFit(base: Option<Manifest>, held: Option<Manifest>, cur: Manifest) {
    match base
    case None => FilesOf(held).Keys <= FileMap(cur.files).Keys
    case Some(b) => SemanticFits(FileMap(b.files), FilesOf(held), FileMap(cur.files),
                                 LoadedFingerprint(b.semantic), FingerprintOf(held), cur.semantic)
  }

  ghost function SemanticEngine<T>(x: SemanticExtractor<T>): Engine<map<string, T>> {
    Engine(PlanOf,
           m => Rebuild(With(x, FingerprintOf(m)), FilesOf(m)),
           (plan: Plan, index, cur: Manifest) =>
             ApplySemantic(With(x, cur.semantic), plan.semantic, plan.deletedFiles, index, FileMap(cur.files)),
           (plan, base, held, cur) => ChunksFit(base, held, cur))
  }

  ghost predicate RootsFit(plan: Plan, base: Option<Manifest>, held: Option<Manifest>, cur: Manifest) {
    plan.scip.strategy == ScipFullRepo || CoversRoots(FilesOf(held), FileMap(cur.files),
                                                      ChangedRoots(FilesOf(base), FileMap(cur.files)))
  }

  ghost function ScipEngine<T>(x: RootExtractor<T>): Engine<map<string, T>> {
    Engine(PlanOf,
           m => RebuildScip(x, FilesOf(m)),
           (plan: Plan, index, cur: Manifest) => ApplyScip(x, plan.scip, index, FileMap(cur.files)),
           (plan, base, held, cur) => RootsFit(plan, base, held, cur))
  }

  lemma LoadedTouches(base: Manifest, select: Select, c: Files)
    requires Enumerates(select) && WellFormed(base)
    ensures Touched(FileMap(LoadBack(base, select).files), c) == Touched(FileMap(base.files), c)
    ensures Deleted(FileMap(LoadBack(base, select).files), c) == Deleted(FileMap(base.files), c)
    ensures Unchanged(FileMap(LoadBack(base, select).files), c) == Unchanged(FileMap(base.files), c)
    ensures ChangedRoots(FileMap(LoadBack(base, select).files), c) == ChangedRoots(FileMap(base.files), c)
  {
    LoadBackKeepsContents(base, select);
    SameContentsSameSets(FileMap(LoadBack(base, select).files), FileMap(base.files), c);
  }

  lemma SameContentsSameSets(a: Files, b: Files, c: Files)
    requires SameContents(a, b)
    ensures Touched(a, c) == Touched(b, c) && Deleted(a, c) == Deleted(b, c) && Unchanged(a, c) == Unchanged(b, c)
    ensures ChangedRoots(a, c) == ChangedRoots(b, c)
  {
    assert Added(a, c) + Changed(a, c) == Added(b, c) + Changed(b, c);
  }

  lemma GraphExactAt<T(!new)>(x: Extractor<T>, base: Option<Manifest>, select: Select, fileDelta: bool,
                              held: Option<Manifest>, cur: Manifest)
    requires Separates(x) && WellPosed(base, select)
    ensures var plan := PlanOf(base, cur, select, fileDelta);
            GraphFits(base, held, cur) <==> ApplyGraph(x, plan.graph, Rebuild(x, FilesOf(held)), FileMap(cur.files)) == Rebuild(x, FileMap(cur.files))
  {
    match base
    case None => FirstGraphPlanIsExact(x, Rebuild(x, FilesOf(held)), cur);
    case Some(b) =>
      LoadedTouches(b, select, FileMap(cur.files));
      GraphPlanIsExact(x, LoadBack(b, select), FilesOf(held), cur, fileDelta);
  }

  lemma GraphEngineAt<T>(x: Extractor<T>, plan: Plan, base: Option<Manifest>, held: Option<Manifest>, cur: Manifest)
    ensures GraphEngine(x).plan == PlanOf && GraphEngine(x).fits(plan, base, held, cur) == GraphFits(base, held, cur)
    ensures GraphEngine(x).rebuild(held) == Rebuild(x, FilesOf(held))
    ensures GraphEngine(x).rebuild(Some(cur)) == Rebuild(x, FileMap(cur.files))
    ensures GraphEngine(x).apply(plan, Rebuild(x, FilesOf(held)), cur) ==
            ApplyGraph(x, plan.graph, Rebuild(x, FilesOf(held)), FileMap(cur.files))
  {
  }

  lemma GraphEngineExactAt<T(!new)>(x: Extractor<T>, base: Option<Manifest>, select: Select, fileDelta: bool,
                                    held: Option<Manifest>, cur: Manifest)
    requires Separates(x)
    ensures ExactAt(GraphEngine(x), base, select, fileDelta, held, cur)
  {
    GraphEngineAt(x, PlanOf(base, cur, select, fileDelta), base, held, cur);
    if WellPosed(base, select) { GraphExactAt(x, base, select, fileDelta, held, cur); }
  }

  lemma GraphEngineIsExact<T(!new)>(x: Extractor<T>)
    requires Separates(x)
    ensures Exact(GraphEngine(x))
  {
    forall base, select, fileDelta, held, cur ensures ExactAt(GraphEngine(x), base, select, fileDelta, held, cur) {
      GraphEngineExactAt(x, base, select, fileDelta, held, cur);
    }
  }

  lemma ZoektExactAt<T(!new)>(x: Extractor<T>, base: Option<Manifest>, select: Select, fileDelta: bool,
                              held: Option<Manifest>, cur: Manifest)
    requires Separates(x) && WellPosed(base, select)
    ensures var plan := PlanOf(base, cur, select, fileDelta);
            ZoektFits(plan, base, held, cur) <==> ApplyZoekt(x, plan.zoekt, Rebuild(x, FilesOf(held)), FileMap(cur.files)) == Rebuild(x, FileMap(cur.files))
  {
    match base
    case None => FirstZoektPlanRebuilds(x, Rebuild(x, FilesOf(held)), cur);
    case Some(b) =>
      LoadedTouches(b, select, FileMap(cur.files));
      ZoektPlanIsExact(x, LoadBack(b, select), FilesOf(held), cur, fileDelta);
  }

  lemma ZoektEngineAt<T>(x: Extractor<T>, plan: Plan, base: Option<Manifest>, held: Option<Manifest>, cur: Manifest)
    ensures ZoektEngine(x).plan == PlanOf
    ensures ZoektEngine(x).fits(plan, base, held, cur) == ZoektFits(plan, base, held, cur)
    ensures ZoektEngine(x).rebuild(held) == Rebuild(x, FilesOf(held))
    ensures ZoektEngine(x).rebuild(Some(cur)) == Rebuild(x, FileMap(cur.files))
    ensures ZoektEngine(x).apply(plan, Rebuild(x, FilesOf(held)), cur) ==
            ApplyZoekt(x, plan.zoekt, Rebuild(x, FilesOf(held)), FileMap(cur.files))
  {
  }

  lemma ZoektEngineExactAt<T(!new)>(x: Extractor<T>, base: Option<Manifest>, select: Select, fileDelta: bool,
                                    held: Option<Manifest>, cur: Manifest)
    requires Separates(x)
    ensures ExactAt(ZoektEngine(x), base, select, fileDelta, held, cur)
  {
    ZoektEngineAt(x, PlanOf(base, cur, select, fileDelta), base, held, cur);
    if WellPosed(base, select) { ZoektExactAt(x, base, select, fileDelta, held, cur); }
  }

  lemma ZoektEngineIsExact<T(!new)>(x: Extractor<T>)
    requires Separates(x)
    ensures Exact(ZoektEngine(x))
  {
    forall base, select, fileDelta, held, cur ensures ExactAt(ZoektEngine(x), base, select, fileDelta, held, cur) {
      ZoektEngineExactAt(x, base, select, fileDelta, held, cur);
    }
  }

  lemma LoadedChunksFit(b: Manifest, select: Select, r: Files, c: Files, ready: Option<Fingerprint>,
                        cur: Option<Fingerprint>)
    requires Enumerates(select) && WellFormed(b)
    ensures SemanticFits(FileMap(LoadBack(b, select).files), r, c, LoadedFingerprint(b.semantic), ready, cur)
            <==> SemanticFits(FileMap(b.files), r, c, LoadedFingerprint(b.semantic), ready, cur)
  {
    LoadedTouches(b, select, c);
  }

  lemma SemanticExactAt<T(!new)>(x: SemanticExtractor<T>, base: Option<Manifest>, select: Select, fileDelta: bool,
                                 held: Option<Manifest>, cur: Manifest)
    requires SeparatesFingerprints(x) && WellPosed(base, select)
    ensures var plan := PlanOf(base, cur, select, fileDelta);
            ChunksFit(base, held, cur)
            <==> ApplySemantic(With(x, cur.semantic), plan.semantic, plan.deletedFiles,
                                   Rebuild(With(x, FingerprintOf(held)), FilesOf(held)), FileMap(cur.files))
                 == RebuildSemantic(x, cur)
  {
    match base
    case None => FirstSemanticPlanIsExact(x, Rebuild(With(x, FingerprintOf(held)), FilesOf(held)), cur);
    case Some(b) =>
      LoadedTouches(b, select, FileMap(cur.files));
      SemanticPlanIsExact(x, LoadBack(b, select), FilesOf(held), FingerprintOf(held), cur, fileDelta);
      LoadedChunksFit(b, select, FilesOf(held), FileMap(cur.files), FingerprintOf(held), cur.semantic);
  }

  lemma SemanticEngineAt<T>(x: SemanticExtractor<T>, plan: Plan, base: Option<Manifest>, held: Option<Manifest>,
                            cur: Manifest)
    ensures SemanticEngine(x).plan == PlanOf
    ensures SemanticEngine(x).fits(plan, base, held, cur) == ChunksFit(base, held, cur)
    ensures SemanticEngine(x).rebuild(held) == Rebuild(With(x, FingerprintOf(held)), FilesOf(held))
    ensures SemanticEngine(x).rebuild(Some(cur)) == RebuildSemantic(x, cur)
    ensures SemanticEngine(x).apply(plan, Rebuild(With(x, FingerprintOf(held)), FilesOf(held)), cur) ==
            ApplySemantic(With(x, cur.semantic), plan.semantic, plan.deletedFiles,
                          Rebuild(With(x, FingerprintOf(held)), FilesOf(held)), FileMap(cur.files))
  {
  }

  lemma SemanticEngineExactAt<T(!new)>(x: SemanticExtractor<T>, base: Option<Manifest>, select: Select, fileDelta: bool,
                                       held: Option<Manifest>, cur: Manifest)
    requires SeparatesFingerprints(x)
    ensures ExactAt(SemanticEngine(x), base, select, fileDelta, held, cur)
  {
    SemanticEngineAt(x, PlanOf(base, cur, select, fileDelta), base, held, cur);
    if WellPosed(base, select) { SemanticExactAt(x, base, select, fileDelta, held, cur); }
  }

  lemma SemanticEngineIsExact<T(!new)>(x: SemanticExtractor<T>)
    requires SeparatesFingerprints(x)
    ensures Exact(SemanticEngine(x))
  {
    forall base, select, fileDelta, held, cur ensures ExactAt(SemanticEngine(x), base, select, fileDelta, held, cur) {
      SemanticEngineExactAt(x, base, select, fileDelta, held, cur);
    }
  }

  lemma ScipExactAt<T(!new)>(x: RootExtractor<T>, base: Option<Manifest>, select: Select, fileDelta: bool,
                             held: Option<Manifest>, cur: Manifest)
    requires SeparatesRoots(x) && WellPosed(base, select)
    ensures var plan := PlanOf(base, cur, select, fileDelta);
            RootsFit(plan, base, held, cur)
            <==> ApplyScip(x, plan.scip, RebuildScip(x, FilesOf(held)), FileMap(cur.files)) == RebuildScip(x, FileMap(cur.files))
  {
    match base
    case None =>
    case Some(b) =>
      LoadedTouches(b, select, FileMap(cur.files));
      var loaded := LoadBack(b, select);
      ScipPlanLists(FileMap(loaded.files), FileMap(cur.files), ListedRoots(cur.files), ToolchainsDiffer(loaded, cur));
      ScipPlanOnIsExact(x, loaded, FilesOf(held), cur, fileDelta);
  }

  lemma ScipEngineAt<T>(x: RootExtractor<T>, plan: Plan, base: Option<Manifest>, held: Option<Manifest>, cur: Manifest)
    ensures ScipEngine(x).plan == PlanOf && ScipEngine(x).fits(plan, base, held, cur) == RootsFit(plan, base, held, cur)
    ensures ScipEngine(x).rebuild(held) == RebuildScip(x, FilesOf(held))
    ensures ScipEngine(x).rebuild(Some(cur)) == RebuildScip(x, FileMap(cur.files))
    ensures ScipEngine(x).apply(plan, RebuildScip(x, FilesOf(held)), cur) ==
            ApplyScip(x, plan.scip, RebuildScip(x, FilesOf(held)), FileMap(cur.files))
  {
  }

  lemma ScipEngineExactAt<T(!new)>(x: RootExtractor<T>, base: Option<Manifest>, select: Select, fileDelta: bool,
                                   held: Option<Manifest>, cur: Manifest)
    requires SeparatesRoots(x)
    ensures ExactAt(ScipEngine(x), base, select, fileDelta, held, cur)
  {
    ScipEngineAt(x, PlanOf(base, cur, select, fileDelta), base, held, cur);
    if WellPosed(base, select) { ScipExactAt(x, base, select, fileDelta, held, cur); }
  }

  lemma ScipEngineIsExact<T(!new)>(x: RootExtractor<T>)
    requires SeparatesRoots(x)
    ensures Exact(ScipEngine(x))
  {
    forall base, select, fileDelta, held, cur ensures ExactAt(ScipEngine(x), base, select, fileDelta, held, cur) {
      ScipEngineExactAt(x, base, select, fileDelta, held, cur);
    }
  }

  // When a plan is right on the index of its own base, and again on its own result.

  /** For base and manifest related by `good`, executing a plan on its base's index or once more is right. */
  ghost predicate Serves<I>(e: Engine<I>, good: (Manifest, Manifest) -> bool) {
    forall base, select, fileDelta, cur ::
      WellPosed(base, select) && (base.Some? ==> good(base.value, cur)) ==> ServesAt(e, base, select, fileDelta, cur)
  }

  ghost predicate ServesAt<I>(e: Engine<I>, base: Option<Manifest>, select: Select, fileDelta: bool, cur: Manifest) {
    var plan := e.plan(base, cur, select, fileDelta);
    e.fits(plan, base, base, cur) && e.fits(plan, base, Some(cur), cur)
  }

  lemma NothingTouched(c: Files)
    ensures Touched(c, c) == {}
  {
  }

  lemma GraphServesAt<T>(x: Extractor<T>, base: Option<Manifest>, select: Select, fileDelta: bool, cur: Manifest)
    ensures ServesAt(GraphEngine(x), base, select, fileDelta, cur)
  {
    NothingTouched(FileMap(cur.files));
  }

  lemma ZoektServesAt<T>(x: Extractor<T>, base: Option<Manifest>, select: Select, fileDelta: bool, cur: Manifest)
    ensures ServesAt(ZoektEngine(x), base, select, fileDelta, cur)
  {
    NothingTouched(FileMap(cur.files));
  }

  lemma GraphAndZoektServe<T>(x: Extractor<T>)
    ensures Serves(GraphEngine(x), (b, c) => true)
    ensures Serves(ZoektEngine(x), (b, c) => true)
  {
    forall base, select, fileDelta, cur ensures ServesAt(GraphEngine(x), base, select, fileDelta, cur) {
      GraphServesAt(x, base, select, fileDelta, cur);
    }
    forall base, select, fileDelta, cur ensures ServesAt(ZoektEngine(x), base, select, fileDelta, cur) {
      ZoektServesAt(x, base, select, fileDelta, cur);
    }
  }

  /** A fingerprint survives the round trip through its columns exactly when its version fits. */
  lemma LoadedFingerprintIsExact(f: Option<Fingerprint>)
    ensures LoadedFingerprint(f) == f <==> FitsColumn(f)
  {
    if f.Some? { AsI32IsExact(f.value.schemaVersion); }
  }

  lemma SemanticServesAt<T>(x: SemanticExtractor<T>, base: Option<Manifest>, select: Select, fileDelta: bool,
                            cur: Manifest)
    requires FitsColumn(FingerprintOf(base))
    ensures ServesAt(SemanticEngine(x), base, select, fileDelta, cur)
  {
    NothingTouched(FileMap(cur.files));
    LoadedFingerprintIsExact(FingerprintOf(base));
  }

  lemma SemanticServes<T>(x: SemanticExtractor<T>)
    ensures Serves(SemanticEngine(x), (b: Manifest, c) => FitsColumn(b.semantic))
  {
    forall base, select, fileDelta, cur | FitsColumn(FingerprintOf(base))
      ensures ServesAt(SemanticEngine(x), base, select, fileDelta, cur)
    {
      SemanticServesAt(x, base, select, fileDelta, cur);
    }
  }

  lemma ScipServesAt<T>(x: RootExtractor<T>, base: Option<Manifest>, select: Select, fileDelta: bool, cur: Manifest)
    requires base.Some? ==> MoversPlanned(FileMap(base.value.files), FileMap(cur.files))
    ensures ServesAt(ScipEngine(x), base, select, fileDelta, cur)
  {
    if base.Some? { PlannedMoversCover(FileMap(base.value.files), FileMap(cur.files)); }
  }

  lemma ScipServes<T>(x: RootExtractor<T>)
    ensures Serves(ScipEngine(x), (b: Manifest, c: Manifest) => MoversPlanned(FileMap(b.files), FileMap(c.files)))
  {
    forall base: Option<Manifest>, select, fileDelta, cur: Manifest | base.Some? ==> MoversPlanned(FileMap(base.value.files), FileMap(cur.files))
      ensures ServesAt(ScipEngine(x), base, select, fileDelta, cur)
    {
      ScipServesAt(x, base, select, fileDelta, cur);
    }
  }

  /**
   * A version that wraps to the current one hides the change: with the same files the plan runs
   * nothing, and every chunk extracted differently under the old version stays.
   */
  lemma WrappedVersionHidesChange<T>(x: SemanticExtractor<T>, base: Manifest, cur: Manifest, select: Select,
                                     fileDelta: bool, p: string)
    requires WellFormed(base) && Enumerates(select)
    requires LoadedFingerprint(base.semantic) == cur.semantic != base.semantic
    requires Touched(FileMap(base.files), FileMap(cur.files)) == {} && p in FileMap(cur.files)
    requires var hash := FileMap(cur.files)[p].contentHash; x(base.semantic, p, hash) != x(cur.semantic, p, hash)
    ensures var plan := Between(LoadBack(base, select), cur, fileDelta);
            && plan.semantic.strategy == SemanticNoop
            && ApplySemantic(With(x, cur.semantic), plan.semantic, plan.deletedFiles, RebuildSemantic(x, base),
                             FileMap(cur.files))
               != RebuildSemantic(x, cur)
  {
    LoadedTouches(base, select, FileMap(cur.files));
    assert p !in Touched(FileMap(base.files), FileMap(cur.files));
    assert RebuildSemantic(x, base)[p] != RebuildSemantic(x, cur)[p];
  }

  /** There are such versions. */
  lemma VersionsWrap(prompt: string, model: string)
    ensures var was, now := Some(Fingerprint(prompt, model, 0x1_0000_0001)), Some(Fingerprint(prompt, model, 1));
            LoadedFingerprint(was) == now != was
  {
  }

  /** A full plan planned before another manifest became READY keeps every file only that one has. */
  lemma LateFullPlanIsStale<T>(x: Extractor<T>, ready: Manifest, cur: Manifest, p: string)
    requires p in FileMap(ready.files) && p !in FileMap(cur.files)
    ensures ApplyGraph(x, FullPlan(cur).graph, Rebuild(x, FileMap(ready.files)), FileMap(cur.files)) !=
            Rebuild(x, FileMap(cur.files))
  {
    FirstGraphPlanIsExact(x, Rebuild(x, FileMap(ready.files)), cur);
  }

  // The table and one engine's indexes, step by step.

  /** `held` is history: the manifest whose plan was last executed in a scope. */
  datatype World<I> = World(rows: Rows, indexes: map<Scope, I>, held: map<Scope, Manifest>)

  /** A step of the table, the execution of a row's plan, or a run from scratch over a row's manifest. */
  datatype Move = Table(step: Step) | ExecutePlan(id: string) | Rewrite(id: string)

  function IndexOf<I>(e: Engine<I>, w: World<I>, s: Scope): I {
    if s in w.indexes then w.indexes[s] else e.rebuild(None)
  }

  function HeldOf<I>(w: World<I>, s: Scope): Option<Manifest> {
    if s in w.held then Some(w.held[s]) else None
  }

  function Store<I>(w: World<I>, m: Manifest, index: I): World<I> {
    w.(indexes := w.indexes[m.scope := index], held := w.held[m.scope := m])
  }

  function Insert(planner: Planner, rows: Rows, id: string, m: Manifest, select: Select, fileDelta: bool): Rows {
    var base := Previous(rows, m.scope);
    var previous := match base case None => None case Some(b) => Some(rows[b].manifest);
    rows[id := Row(m, planner(previous, m, select, fileDelta), Pending, None, base)]
  }

  /** One step of the table, with the planner as a parameter. */
  function Tabulate(planner: Planner, rows: Rows, step: Step): Rows {
    match step
    case Prepare(id, m, select, fileDelta) => if id in rows then rows else Insert(planner, rows, id, m, select, fileDelta)
    case Activate(org, ids) => ActivateAll(rows, org, ids)
    case Fail(ids, message) => FailAll(rows, ids, message)
    case Delete(repo) => DeleteRepo(rows, repo)
  }

  /** With the planner of the four engines that is a step of the manifest table. */
  lemma TabulateIsApply(rows: Rows, step: Step)
    ensures Tabulate(PlanOf, rows, step) == Apply(rows, step)
  {
  }

  /** A repository's indexes go with its rows. */
  function Remaining<V>(kept: map<Scope, V>, step: Step): map<Scope, V> {
    if step.Delete? then map s | s in kept && s.repo != step.repo :: kept[s] else kept
  }

  function Next<I>(e: Engine<I>, w: World<I>, move: Move): World<I> {
    match move
    case Table(step) => World(Tabulate(e.plan, w.rows, step), Remaining(w.indexes, step), Remaining(w.held, step))
    case ExecutePlan(id) =>
      if id !in w.rows then w
      else var row := w.rows[id]; Store(w, row.manifest,
                                        e.apply(row.plan, IndexOf(e, w, row.manifest.scope), row.manifest))
    case Rewrite(id) =>
      if id !in w.rows then w else var m := w.rows[id].manifest; Store(w, m, e.rebuild(Some(m)))
  }

  function Runs<I>(e: Engine<I>, w: World<I>, moves: seq<Move>): World<I>
    decreases |moves|
  {
    if moves == [] then w else Runs(e, Next(e, w, moves[0]), moves[1..])
  }

  lemma RunsOne<I>(e: Engine<I>, w: World<I>, move: Move)
    ensures Runs(e, w, [move]) == Next(e, w, move)
  {
    assert [move][1..] == [];
  }

  lemma RunsFirst<I>(e: Engine<I>, w: World<I>, move: Move, moves: seq<Move>)
    ensures Runs(e, w, [move] + moves) == Runs(e, Next(e, w, move), moves)
  {
    assert ([move] + moves)[1..] == moves;
  }

  ghost predicate Legal(rows: Rows, move: Move) {
    move.Table? && move.step.Prepare? ==>
      move.step.id !in rows && WellFormed(move.step.manifest) && Enumerates(move.step.select)
  }

  ghost predicate LegalRun<I>(e: Engine<I>, w: World<I>, moves: seq<Move>)
    decreases |moves|
  {
    moves == [] || (Legal(w.rows, moves[0]) && LegalRun(e, Next(e, w, moves[0]), moves[1..]))
  }

  function BaseOf(rows: Rows, row: Row): Option<Manifest> {
    match row.base
    case None => None
    case Some(b) => if b in rows then Some(rows[b].manifest) else None
  }

  /** The engine's condition for executing this row's plan now: a question about the state before the step. */
  predicate FitsNow<I>(e: Engine<I>, w: World<I>, id: string)
    requires id in w.rows
  {
    var row := w.rows[id];
    e.fits(row.plan, BaseOf(w.rows, row), HeldOf(w, row.manifest.scope), row.manifest)
  }

  ghost predicate MoveFits<I>(e: Engine<I>, w: World<I>, move: Move) {
    move.ExecutePlan? && move.id in w.rows ==> FitsNow(e, w, move.id)
  }

  ghost predicate AllFit<I>(e: Engine<I>, w: World<I>, moves: seq<Move>)
    decreases |moves|
  {
    moves == [] || (MoveFits(e, w, moves[0]) && AllFit(e, Next(e, w, moves[0]), moves[1..]))
  }

  ghost predicate IsRebuild<I>(e: Engine<I>, w: World<I>, s: Scope) {
    IndexOf(e, w, s) == e.rebuild(HeldOf(w, s))
  }

  /** In every scope the index is the rebuild of the manifest last executed there. */
  ghost predicate Consistent<I>(e: Engine<I>, w: World<I>) {
    forall s :: IsRebuild(e, w, s)
  }

  ghost predicate ConsistentThroughout<I>(e: Engine<I>, w: World<I>, moves: seq<Move>)
    decreases |moves|
  {
    Consistent(e, w) && (moves == [] || ConsistentThroughout(e, Next(e, w, moves[0]), moves[1..]))
  }

  // Where the plans in the table come from.

  ghost predicate PlannedFrom(planner: Planner, rows: Rows, row: Row, select: Select, fileDelta: bool) {
    && Enumerates(select)
    && (row.base.Some? ==> row.base.value in rows && rows[row.base.value].manifest.scope == row.manifest.scope)
    && row.plan == planner(BaseOf(rows, row), row.manifest, select, fileDelta)
  }

  ghost predicate Planned(planner: Planner, rows: Rows, row: Row) {
    exists select, fileDelta :: PlannedFrom(planner, rows, row, select, fileDelta)
  }

  ghost predicate GoodRow(planner: Planner, rows: Rows, k: string) {
    k in rows ==> WellFormed(rows[k].manifest) && Planned(planner, rows, rows[k])
  }

  ghost predicate GoodRows(planner: Planner, rows: Rows) {
    forall k :: GoodRow(planner, rows, k)
  }

  /** A plan's provenance depends only on the manifest of its base. */
  lemma PlannedStays(planner: Planner, a: Rows, b: Rows, row: Row, moved: Row)
    requires Planned(planner, a, row)
    requires moved.manifest == row.manifest && moved.plan == row.plan && moved.base == row.base
    requires row.base.Some? && row.base.value in a && a[row.base.value].manifest.scope == row.manifest.scope ==>
               row.base.value in b && b[row.base.value].manifest == a[row.base.value].manifest
    ensures Planned(planner, b, moved)
  {
    var select, fileDelta :| PlannedFrom(planner, a, row, select, fileDelta);
    assert PlannedFrom(planner, b, moved, select, fileDelta);
  }

  lemma GoodRowsStay(planner: Planner, a: Rows, b: Rows)
    requires GoodRows(planner, a) && SameButStatus(a, b)
    ensures GoodRows(planner, b)
  {
    forall k ensures GoodRow(planner, b, k) {
      assert GoodRow(planner, a, k);
      if k in b { PlannedStays(planner, a, b, a[k], b[k]); }
    }
  }

  lemma InsertKeepsGoodRows(planner: Planner, rows: Rows, id: string, row: Row, select: Select, fileDelta: bool)
    requires GoodRows(planner, rows) && id !in rows && WellFormed(row.manifest)
    requires PlannedFrom(planner, rows, row, select, fileDelta)
    ensures GoodRows(planner, rows[id := row])
  {
    var after := rows[id := row];
    assert Planned(planner, rows, row);
    forall k ensures GoodRow(planner, after, k) {
      assert GoodRow(planner, rows, k);
      if k in after { PlannedStays(planner, rows, after, if k == id then row else rows[k], after[k]); }
    }
  }

  lemma PrepareKeepsGoodRows(planner: Planner, rows: Rows, id: string, m: Manifest, select: Select, fileDelta: bool)
    requires GoodRows(planner, rows) && id !in rows && WellFormed(m) && Enumerates(select)
    ensures GoodRows(planner, Insert(planner, rows, id, m, select, fileDelta))
  {
    InsertKeepsGoodRows(planner, rows, id, Insert(planner, rows, id, m, select, fileDelta)[id], select, fileDelta);
  }

  lemma DeleteKeepsGoodRows(planner: Planner, rows: Rows, repo: int)
    requires GoodRows(planner, rows)
    ensures GoodRows(planner, DeleteRepo(rows, repo))
  {
    var after := DeleteRepo(rows, repo);
    forall k ensures GoodRow(planner, after, k) {
      assert GoodRow(planner, rows, k);
      if k in after { PlannedStays(planner, rows, after, rows[k], after[k]); }
    }
  }

  lemma NextKeepsGoodRows<I>(e: Engine<I>, w: World<I>, move: Move)
    requires GoodRows(e.plan, w.rows) && Legal(w.rows, move)
    ensures GoodRows(e.plan, Next(e, w, move).rows)
  {
    if move.Table? {
      match move.step
      case Prepare(id, m, select, fileDelta) => PrepareKeepsGoodRows(e.plan, w.rows, id, m, select, fileDelta);
      case Activate(org, ids) =>
        ActivateAllKeepsManifests(w.rows, org, ids);
        GoodRowsStay(e.plan, w.rows, ActivateAll(w.rows, org, ids));
      case Fail(ids, message) => GoodRowsStay(e.plan, w.rows, FailAll(w.rows, ids, message));
      case Delete(repo) => DeleteKeepsGoodRows(e.plan, w.rows, repo);
    }
  }

  /** Only activation and deletion change which row of a scope is READY. */
  lemma TabulateReady(planner: Planner, rows: Rows, step: Step, s: Scope)
    requires !step.Activate?
    ensures ReadyIn(Tabulate(planner, rows, step), s) ==
            if step.Delete? && s.repo == step.repo then {} else ReadyIn(rows, s)
  {
  }

  lemma TabulateKeepsOneReady(planner: Planner, rows: Rows, step: Step)
    requires AtMostOneReady(rows)
    ensures AtMostOneReady(Tabulate(planner, rows, step))
  {
    if step.Activate? {
      ActivationKeepsOneReady(rows, step.org, step.ids);
    } else {
      forall s { TabulateReady(planner, rows, step, s); }
    }
  }

  // One step.

  /** Executing a row's plan gives the rebuild of its manifest exactly when the plan fits what the index holds. */
  lemma ExecuteIsExact<I>(e: Engine<I>, w: World<I>, id: string)
    requires Exact(e) && GoodRows(e.plan, w.rows) && id in w.rows && IsRebuild(e, w, w.rows[id].manifest.scope)
    ensures IsRebuild(e, Next(e, w, ExecutePlan(id)), w.rows[id].manifest.scope) <==> FitsNow(e, w, id)
  {
    var row := w.rows[id];
    assert GoodRow(e.plan, w.rows, id);
    var select, fileDelta :| PlannedFrom(e.plan, w.rows, row, select, fileDelta);
    assert row.base.Some? ==> GoodRow(e.plan, w.rows, row.base.value);
    assert ExactAt(e, BaseOf(w.rows, row), select, fileDelta, HeldOf(w, row.manifest.scope), row.manifest);
  }

  lemma NextElsewhere<I>(e: Engine<I>, w: World<I>, move: Move, s: Scope)
    requires IsRebuild(e, w, s)
    requires move.ExecutePlan? && move.id in w.rows ==> w.rows[move.id].manifest.scope != s
    ensures IsRebuild(e, Next(e, w, move), s)
  {
  }

  lemma NextIsExact<I>(e: Engine<I>, w: World<I>, move: Move)
    requires Exact(e) && GoodRows(e.plan, w.rows) && Consistent(e, w)
    ensures Consistent(e, Next(e, w, move)) <==> MoveFits(e, w, move)
  {
    var after := Next(e, w, move);
    if move.ExecutePlan? && move.id in w.rows {
      assert IsRebuild(e, w, w.rows[move.id].manifest.scope);
      ExecuteIsExact(e, w, move.id);
    }
    if MoveFits(e, w, move) {
      forall s ensures IsRebuild(e, after, s) {
        assert IsRebuild(e, w, s);
        if !(move.ExecutePlan? && move.id in w.rows && w.rows[move.id].manifest.scope == s) {
          NextElsewhere(e, w, move, s);
        }
      }
    }
  }

  // Whole runs.

  /**
   * Over every run, executions that are never activated included: the index is the rebuild of the
   * manifest last executed in its scope, in every scope and at every point, if and only if every
   * executed plan fits what the index held when it was executed.
   */
  lemma {:induction false} RunIsExact<I>(e: Engine<I>, w: World<I>, moves: seq<Move>)
    requires Exact(e) && GoodRows(e.plan, w.rows) && Consistent(e, w) && LegalRun(e, w, moves)
    ensures ConsistentThroughout(e, w, moves) <==> AllFit(e, w, moves)
    decreases |moves|
  {
    if moves != [] {
      var after := Next(e, w, moves[0]);
      NextIsExact(e, w, moves[0]);
      NextKeepsGoodRows(e, w, moves[0]);
      if MoveFits(e, w, moves[0]) {
        RunIsExact(e, after, moves[1..]);
      } else {
        assert !ConsistentThroughout(e, after, moves[1..]);
      }
    }
  }

  lemma {:induction false} ConsistentAtEnd<I>(e: Engine<I>, w: World<I>, moves: seq<Move>)
    requires ConsistentThroughout(e, w, moves)
    ensures Consistent(e, Runs(e, w, moves))
    decreases |moves|
  {
    if moves != [] { ConsistentAtEnd(e, Next(e, w, moves[0]), moves[1..]); }
  }

  lemma {:induction false} RunsKeepOneReady<I>(e: Engine<I>, w: World<I>, moves: seq<Move>)
    requires AtMostOneReady(w.rows)
    ensures AtMostOneReady(Runs(e, w, moves).rows)
    decreases |moves|
  {
    if moves != [] {
      if moves[0].Table? { TabulateKeepsOneReady(e.plan, w.rows, moves[0].step); }
      RunsKeepOneReady(e, Next(e, w, moves[0]), moves[1..]);
    }
  }

  function Empty<I>(): World<I> {
    World(map[], map[], map[])
  }

  /**
   * So after any run from an empty database whose executed plans all fit, the index of a scope is
   * exactly that of a rebuild of its READY manifest, when that manifest's plan was the last one
   * executed there.
   */
  lemma IncrementalIsRebuild<I>(e: Engine<I>, moves: seq<Move>, s: Scope, k: string)
    requires Exact(e) && LegalRun(e, Empty(), moves) && AllFit(e, Empty(), moves)
    requires var w := Runs(e, Empty(), moves); k in ReadyIn(w.rows, s) && HeldOf(w, s) == Some(w.rows[k].manifest)
    ensures var w := Runs(e, Empty(), moves);
            ReadyIn(w.rows, s) == {k} && IndexOf(e, w, s) == e.rebuild(Some(w.rows[k].manifest))
  {
    var empty: World<I> := Empty();
    assert forall s :: IsRebuild(e, empty, s);
    RunIsExact(e, empty, moves);
    ConsistentAtEnd(e, empty, moves);
    RunsKeepOneReady(e, empty, moves);
    assert ReadyIn(Runs(e, empty, moves).rows, s) == {k};
    assert IsRebuild(e, Runs(e, empty, moves), s);
  }

  // Serial index cycles meet the condition.

  /** A table step other than activation, or a plan executed and its manifest then activated. */
  datatype Cycle = Quiet(step: Step) | Indexed(org: int, id: string)

  function MovesOf(c: Cycle): seq<Move> {
    match c
    case Quiet(step) => [Table(step)]
    case Indexed(org, id) => [ExecutePlan(id), Table(Activate(org, [id]))]
  }

  function CycleRun<I>(e: Engine<I>, w: World<I>, cycles: seq<Cycle>): World<I>
    decreases |cycles|
  {
    if cycles == [] then w else CycleRun(e, Runs(e, w, MovesOf(cycles[0])), cycles[1..])
  }

  /** No other manifest of the scope became READY since this one was planned. */
  predicate Current(rows: Rows, id: string)
    requires id in rows
  {
    var ready := ReadyIn(rows, rows[id].manifest.scope);
    ready == {id} || match rows[id].base case None => ready == {} case Some(b) => ready == {b}
  }

  ghost predicate LegalCycle(rows: Rows, good: (Manifest, Manifest) -> bool, c: Cycle) {
    match c
    case Quiet(step) => !step.Activate? && Legal(rows, Table(step))
    case Indexed(org, id) =>
      && Selected(rows, org, id) && Current(rows, id)
      && (BaseOf(rows, rows[id]).Some? ==> good(BaseOf(rows, rows[id]).value, rows[id].manifest))
  }

  ghost predicate LegalCycles<I>(e: Engine<I>, w: World<I>, good: (Manifest, Manifest) -> bool, cycles: seq<Cycle>)
    decreases |cycles|
  {
    cycles == [] || (LegalCycle(w.rows, good, cycles[0]) && LegalCycles(e, Runs(e, w, MovesOf(cycles[0])), good, cycles[1..]))
  }

  ghost predicate HoldsReady<I>(w: World<I>, s: Scope) {
    && (ReadyIn(w.rows, s) == {} ==> HeldOf(w, s) == None)
    && (forall k :: ReadyIn(w.rows, s) == {k} ==> HeldOf(w, s) == Some(w.rows[k].manifest))
  }

  /** What was last executed in a scope is its READY manifest. */
  ghost predicate Tracks<I>(w: World<I>) {
    forall s :: HoldsReady(w, s)
  }

  ghost predicate Steady<I>(e: Engine<I>, w: World<I>) {
    AtMostOneReady(w.rows) && GoodRows(e.plan, w.rows) && Consistent(e, w) && Tracks(w)
  }

  /** In such a state the index a current manifest meets is that of its base, or its own. */
  lemma CurrentFits<I>(e: Engine<I>, w: World<I>, good: (Manifest, Manifest) -> bool, org: int, id: string)
    requires Serves(e, good) && GoodRows(e.plan, w.rows) && Tracks(w) && LegalCycle(w.rows, good, Indexed(org, id))
    ensures FitsNow(e, w, id)
  {
    var row := w.rows[id];
    var base := BaseOf(w.rows, row);
    assert GoodRow(e.plan, w.rows, id);
    assert row.base.Some? ==> GoodRow(e.plan, w.rows, row.base.value);
    var select, fileDelta :| PlannedFrom(e.plan, w.rows, row, select, fileDelta);
    assert HoldsReady(w, row.manifest.scope);
    assert WellPosed(base, select);
    assert ServesAt(e, base, select, fileDelta, row.manifest);
  }

  lemma QuietKeepsTracks<I>(e: Engine<I>, w: World<I>, step: Step, s: Scope)
    requires HoldsReady(w, s) && !step.Activate?
    ensures HoldsReady(Next(e, w, Table(step)), s)
  {
    var after := Next(e, w, Table(step));
    TabulateReady(e.plan, w.rows, step, s);
    forall k | ReadyIn(after.rows, s) == {k} ensures HeldOf(after, s) == Some(after.rows[k].manifest) {
      assert k in ReadyIn(after.rows, s) && k in ReadyIn(w.rows, s);
    }
  }

  lemma QuietIsSteady<I>(e: Engine<I>, w: World<I>, good: (Manifest, Manifest) -> bool, step: Step)
    requires Exact(e) && Steady(e, w) && LegalCycle(w.rows, good, Quiet(step))
    ensures Steady(e, Next(e, w, Table(step)))
  {
    TabulateKeepsOneReady(e.plan, w.rows, step);
    NextKeepsGoodRows(e, w, Table(step));
    NextIsExact(e, w, Table(step));
    forall s { QuietKeepsTracks(e, w, step, s); }
  }

  lemma ActivatesOne(rows: Rows, org: int, id: string)
    ensures ActivateAll(rows, org, [id]) == ActivateOne(rows, org, id)
  {
    assert [id][..0] == [];
  }

  lemma CycleKeepsTracks<I>(e: Engine<I>, w: World<I>, org: int, id: string, s: Scope)
    requires HoldsReady(w, s) && Selected(w.rows, org, id)
    ensures HoldsReady(Next(e, Next(e, w, ExecutePlan(id)), Table(Activate(org, [id]))), s)
  {
    var executed := Next(e, w, ExecutePlan(id));
    var after := Next(e, executed, Table(Activate(org, [id])));
    ActivatesOne(w.rows, org, id);
    ActivateOneKeepsOneReady(w.rows, org, id, s);
    assert after.rows == ActivateOne(w.rows, org, id) && after.held == executed.held;
    forall k | ReadyIn(after.rows, s) == {k} ensures HeldOf(after, s) == Some(after.rows[k].manifest) {
      assert k in ReadyIn(after.rows, s);
    }
  }

  lemma CycleIsSteady<I>(e: Engine<I>, w: World<I>, good: (Manifest, Manifest) -> bool, org: int, id: string)
    requires Exact(e) && Serves(e, good) && Steady(e, w) && LegalCycle(w.rows, good, Indexed(org, id))
    ensures Steady(e, Next(e, Next(e, w, ExecutePlan(id)), Table(Activate(org, [id]))))
  {
    var executed := Next(e, w, ExecutePlan(id));
    var activate := Table(Activate(org, [id]));
    CurrentFits(e, w, good, org, id);
    NextIsExact(e, w, ExecutePlan(id));
    NextIsExact(e, executed, activate);
    NextKeepsGoodRows(e, executed, activate);
    TabulateKeepsOneReady(e.plan, w.rows, activate.step);
    forall s { CycleKeepsTracks(e, w, org, id, s); }
  }

  lemma RunsMoves<I>(e: Engine<I>, w: World<I>, c: Cycle)
    ensures c.Quiet? ==> Runs(e, w, MovesOf(c)) == Next(e, w, Table(c.step))
    ensures c.Indexed? ==> Runs(e, w, MovesOf(c)) == Next(e, Next(e, w, ExecutePlan(c.id)),
                                                          Table(Activate(c.org, [c.id])))
  {
    match c
    case Quiet(step) => RunsOne(e, w, Table(step));
    case Indexed(org, id) =>
      RunsFirst(e, w, ExecutePlan(id), [Table(Activate(org, [id]))]);
      RunsOne(e, Next(e, w, ExecutePlan(id)), Table(Activate(org, [id])));
  }

  lemma {:induction false} CyclesAreSteady<I>(e: Engine<I>, w: World<I>, good: (Manifest, Manifest) -> bool,
                                              cycles: seq<Cycle>)
    requires Exact(e) && Serves(e, good) && Steady(e, w) && LegalCycles(e, w, good, cycles)
    ensures Steady(e, CycleRun(e, w, cycles))
    decreases |cycles|
  {
    if cycles != [] {
      RunsMoves(e, w, cycles[0]);
      match cycles[0] {
        case Quiet(step) => QuietIsSteady(e, w, good, step);
        case Indexed(org, id) => CycleIsSteady(e, w, good, org, id);
      }
      CyclesAreSteady(e, Runs(e, w, MovesOf(cycles[0])), good, cycles[1..]);
    }
  }

  /**
   * When every executed plan is activated before the next one runs in its scope, and no other
   * manifest became READY since it was planned, the index is always that of a rebuild of READY.
   */
  lemma CyclesRebuild<I>(e: Engine<I>, good: (Manifest, Manifest) -> bool, cycles: seq<Cycle>, s: Scope, k: string)
    requires Exact(e) && Serves(e, good) && LegalCycles(e, Empty(), good, cycles)
    requires k in ReadyIn(CycleRun(e, Empty(), cycles).rows, s)
    ensures var w := CycleRun(e, Empty(), cycles);
            ReadyIn(w.rows, s) == {k} && IndexOf(e, w, s) == e.rebuild(Some(w.rows[k].manifest))
  {
    var empty: World<I> := Empty();
    assert forall s :: IsRebuild(e, empty, s);
    assert forall s :: HoldsReady(empty, s);
    CyclesAreSteady(e, empty, good, cycles);
    var w := CycleRun(e, empty, cycles);
    assert ReadyIn(w.rows, s) == {k};
    assert HoldsReady(w, s) && IsRebuild(e, w, s);
  }

  // An execution that is never activated.

  ghost predicate PlannedNow<I>(w: World<I>, planned: World<I>, m: Manifest, id: string, plan: Plan, k: string) {
    && id !in w.rows && k in w.rows && ReadyIn(w.rows, m.scope) == {k} == ReadyIn(planned.rows, m.scope)
    && planned == w.(rows := w.rows[id := Row(m, plan, Pending, None, Some(k))])
  }

  /** Planning a manifest in a scope whose READY row is `k`. */
  lemma PreparesAgainst<I>(e: Engine<I>, w: World<I>, m: Manifest, id: string, select: Select, fileDelta: bool,
                           k: string)
    requires ReadyIn(w.rows, m.scope) == {k} && id !in w.rows && k in w.rows
    ensures PlannedNow(w, Next(e, w, Table(Prepare(id, m, select, fileDelta))), m, id,
                       e.plan(Some(w.rows[k].manifest), m, select, fileDelta), k)
  {
    assert Previous(w.rows, m.scope) == Some(k) by { assert Previous(w.rows, m.scope).value in ReadyIn(w.rows, m.scope); }
    TabulateReady(e.plan, w.rows, Prepare(id, m, select, fileDelta), m.scope);
  }

  /** Executing a plan and giving up leaves the READY row alone, but the index now holds the abandoned manifest. */
  lemma AbandonHolds<I>(e: Engine<I>, w: World<I>, prepare: Move, b: Manifest, id: string, plan: Plan, message: string,
                        k: string)
    returns (left: World<I>)
    requires PlannedNow(w, Next(e, w, prepare), b, id, plan, k)
    ensures left == Runs(e, w, [prepare, ExecutePlan(id), Table(Fail([id], message))])
    ensures left.rows.Keys == w.rows.Keys + {id} && ReadyIn(left.rows, b.scope) == {k}
    ensures left.rows[k].manifest == w.rows[k].manifest
    ensures HeldOf(left, b.scope) == Some(b) && IndexOf(e, left, b.scope) == e.apply(plan, IndexOf(e, w, b.scope), b)
  {
    left := RunsThree(e, w, prepare, ExecutePlan(id), Table(Fail([id], message)));
    TabulateReady(e.plan, Next(e, w, prepare).rows, Fail([id], message), b.scope);
  }

  /** Executing a plan and activating makes the manifest READY. */
  lemma CompleteHolds<I>(e: Engine<I>, w: World<I>, prepare: Move, c: Manifest, id: string, plan: Plan, k: string)
    returns (after: World<I>)
    requires PlannedNow(w, Next(e, w, prepare), c, id, plan, k)
    ensures after == Runs(e, w, [prepare, ExecutePlan(id), Table(Activate(c.scope.org, [id]))])
    ensures ReadyIn(after.rows, c.scope) == {id} && id in after.rows && after.rows[id].manifest == c
    ensures after.rows[id].plan == plan
    ensures IndexOf(e, after, c.scope) == e.apply(plan, IndexOf(e, w, c.scope), c)
  {
    after := RunsThree(e, w, prepare, ExecutePlan(id), Table(Activate(c.scope.org, [id])));
    ActivatesOne(Next(e, w, prepare).rows, c.scope.org, id);
    ActivateOneKeepsOneReady(Next(e, w, prepare).rows, c.scope.org, id, c.scope);
  }

  lemma RunsThree<I>(e: Engine<I>, w: World<I>, a: Move, b: Move, c: Move) returns (after: World<I>)
    ensures after == Runs(e, w, [a, b, c]) == Next(e, Next(e, Next(e, w, a), b), c)
  {
    after := Runs(e, w, [a, b, c]);
    assert [a, b, c] == [a] + ([b] + [c]);
    RunsFirst(e, w, a, [b] + [c]);
    RunsFirst(e, Next(e, w, a), b, [c]);
    RunsOne(e, Next(e, Next(e, w, a), b), c);
  }

  /** The plan of a manifest, executed and given up. */
  function Abandon(b: Manifest, id: string, select: Select, fileDelta: bool, message: string): seq<Move> {
    [Table(Prepare(id, b, select, fileDelta)), ExecutePlan(id), Table(Fail([id], message))]
  }

  /** The plan of a manifest, executed and activated. */
  function Complete(c: Manifest, id: string, select: Select, fileDelta: bool): seq<Move> {
    [Table(Prepare(id, c, select, fileDelta)), ExecutePlan(id), Table(Activate(c.scope.org, [id]))]
  }

  lemma AbandonedIsHeld<I>(e: Engine<I>, w: World<I>, k: string, b: Manifest, id: string, select: Select,
                           fileDelta: bool, message: string)
    returns (left: World<I>)
    requires Exact(e) && Enumerates(select) && id !in w.rows
    requires k in w.rows && ReadyIn(w.rows, b.scope) == {k} && WellFormed(w.rows[k].manifest)
    requires IsRebuild(e, w, b.scope)
    requires var ready := Some(w.rows[k].manifest); e.fits(e.plan(ready, b, select, fileDelta), ready,
                                                           HeldOf(w, b.scope), b)
    ensures left == Runs(e, w, Abandon(b, id, select, fileDelta, message))
    ensures left.rows.Keys == w.rows.Keys + {id} && ReadyIn(left.rows, b.scope) == {k}
    ensures left.rows[k].manifest == w.rows[k].manifest
    ensures HeldOf(left, b.scope) == Some(b) && IsRebuild(e, left, b.scope)
  {
    var plan := e.plan(Some(w.rows[k].manifest), b, select, fileDelta);
    PreparesAgainst(e, w, b, id, select, fileDelta, k);
    left := AbandonHolds(e, w, Table(Prepare(id, b, select, fileDelta)), b, id, plan, message, k);
    assert ExactAt(e, Some(w.rows[k].manifest), select, fileDelta, HeldOf(w, b.scope), b);
  }

  /**
   * Whatever the index holds, the manifest that completes is READY, and its index is the rebuild
   * of it exactly when its plan fits what the index held.
   */
  lemma CompleteIsExact<I>(e: Engine<I>, w: World<I>, k: string, c: Manifest, id: string, select: Select,
                           fileDelta: bool)
    returns (after: World<I>)
    requires Exact(e) && Enumerates(select) && id !in w.rows
    requires k in w.rows && ReadyIn(w.rows, c.scope) == {k} && WellFormed(w.rows[k].manifest)
    requires IsRebuild(e, w, c.scope)
    ensures after == Runs(e, w, Complete(c, id, select, fileDelta))
    ensures ReadyIn(after.rows, c.scope) == {id} && id in after.rows && after.rows[id].manifest == c
    ensures after.rows[id].plan == e.plan(Some(w.rows[k].manifest), c, select, fileDelta)
    ensures IndexOf(e, after, c.scope) == e.rebuild(Some(c))
            <==> e.fits(after.rows[id].plan, Some(w.rows[k].manifest), HeldOf(w, c.scope), c)
  {
    var plan := e.plan(Some(w.rows[k].manifest), c, select, fileDelta);
    PreparesAgainst(e, w, c, id, select, fileDelta, k);
    after := CompleteHolds(e, w, Table(Prepare(id, c, select, fileDelta)), c, id, plan, k);
    assert ExactAt(e, Some(w.rows[k].manifest), select, fileDelta, HeldOf(w, c.scope), c);
  }

  /** A manifest with the READY contents plans nothing, whatever was executed since. */
  lemma RevertIsMissed(a: Manifest, b: Manifest, c: Manifest, select: Select, fileDelta: bool)
    requires WellFormed(a) && Enumerates(select)
    requires Touched(FileMap(a.files), FileMap(c.files)) == {} != Touched(FileMap(b.files), FileMap(c.files))
    ensures var plan := PlanOf(Some(a), c, select, fileDelta);
            && plan.zoekt.strategy == ZoektNoop && !ZoektFits(plan, Some(a), Some(b), c)
            && plan.graph.strategy == GraphNoop && !GraphFits(Some(a), Some(b), c)
  {
    LoadedTouches(a, select, FileMap(c.files));
  }

  /**
   * After an abandoned execution the manifest that completes next is READY, and its index is the
   * rebuild of it exactly when its plan fits the abandoned manifest.
   */
  lemma AbandonedRunIsExact<I>(e: Engine<I>, w: World<I>, k: string, b: Manifest, idB: string, c: Manifest, idC: string,
                               select: Select, fileDelta: bool, message: string) returns (after: World<I>, plan: Plan)
    requires Exact(e) && Enumerates(select) && b.scope == c.scope && idB !in w.rows && idC !in w.rows && idB != idC
    requires k in w.rows && ReadyIn(w.rows, b.scope) == {k} && WellFormed(w.rows[k].manifest)
    requires IsRebuild(e, w, b.scope)
    requires var ready := Some(w.rows[k].manifest); e.fits(e.plan(ready, b, select, fileDelta), ready,
                                                           HeldOf(w, b.scope), b)
    ensures after == Runs(e, Runs(e, w, Abandon(b, idB, select, fileDelta, message)),
                          Complete(c, idC, select, fileDelta))
    ensures plan == e.plan(Some(w.rows[k].manifest), c, select, fileDelta)
    ensures ReadyIn(after.rows, c.scope) == {idC} && idC in after.rows && after.rows[idC].manifest == c
    ensures after.rows[idC].plan == plan
    ensures IndexOf(e, after, c.scope) == e.rebuild(Some(c)) <==> e.fits(plan, Some(w.rows[k].manifest), Some(b), c)
  {
    var left := AbandonedIsHeld(e, w, k, b, idB, select, fileDelta, message);
    after := CompleteIsExact(e, left, k, c, idC, select, fileDelta);
    plan := after.rows[idC].plan;
  }

  /**
   * In particular an execution that is given up breaks the promise: manifest `k` is READY, the plan
   * of `b` is executed and abandoned, and then a manifest with the contents of `k` becomes READY.
   * Its Zoekt plan runs nothing, and the shards of a READY manifest are not the rebuild of it.
   */
  lemma AbandonedRunLeavesStaleShards<T(!new)>(x: Extractor<T>, e: Engine<map<string, T>>, w: World<map<string, T>>,
                                               k: string,
                                               b: Manifest, idB: string, c: Manifest, idC: string,
                                               select: Select, fileDelta: bool, message: string)
    returns (after: World<map<string, T>>)
    requires e == ZoektEngine(x) && Separates(x) && Enumerates(select)
    requires b.scope == c.scope && idB !in w.rows && idC !in w.rows && idB != idC
    requires k in w.rows && ReadyIn(w.rows, b.scope) == {k} && WellFormed(w.rows[k].manifest)
    requires IsRebuild(e, w, b.scope) && HeldOf(w, b.scope) == Some(w.rows[k].manifest)
    requires Touched(FileMap(w.rows[k].manifest.files), FileMap(c.files)) == {} != Touched(FileMap(b.files), FileMap(c.files))
    ensures after == Runs(e, Runs(e, w, Abandon(b, idB, select, fileDelta, message)),
                          Complete(c, idC, select, fileDelta))
    ensures ReadyIn(after.rows, c.scope) == {idC} && idC in after.rows && after.rows[idC].manifest == c
    ensures after.rows[idC].plan.zoekt.strategy == ZoektNoop
    ensures IndexOf(e, after, c.scope) != Rebuild(x, FileMap(c.files))
  {
    var a := w.rows[k].manifest;
    ZoektEngineIsExact(x);
    ZoektPlanAt(x, a, b, b, select, fileDelta);
    var plan;
    after, plan := AbandonedRunIsExact(e, w, k, b, idB, c, idC, select, fileDelta, message);
    ZoektPlanAt(x, a, b, c, select, fileDelta);
    RevertIsMissed(a, b, c, select, fileDelta);
  }

  lemma ZoektPlanAt<T>(x: Extractor<T>, a: Manifest, b: Manifest, c: Manifest, select: Select, fileDelta: bool)
    ensures var e, plan := ZoektEngine(x), PlanOf(Some(a), c, select, fileDelta);
            && e.plan(Some(a), c, select, fileDelta) == plan
            && e.fits(plan, Some(a), Some(a), c)
            && e.fits(plan, Some(a), Some(b), c) == ZoektFits(plan, Some(a), Some(b), c)
            && e.rebuild(Some(c)) == Rebuild(x, FileMap(c.files))
  {
  }
}
