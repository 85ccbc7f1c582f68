/**
 * The manifest table: rows as state, each SQL statement or transaction as one atomic step.
 * Timestamps are left out; `base` is not a column but history, the READY row a plan was made from.
 */
module ManifestTable {
  import opened Basics
  import opened ByteOrder
  import opened Manifests
  import opened DeltaPlan

  datatype Status = Pending | Ready | Superseded | Failed

  datatype Row = Row(manifest: Manifest, plan: Plan, status: Status, errorMessage: Option<string>, base: Option<string>)

  type Rows = map<string, Row>

  /** How the database enumerates the file rows of a manifest: the query has no ORDER BY. */
  type Select = set<ManifestFile> -> seq<ManifestFile>

  ghost predicate Enumerates(select: Select) {
    forall s :: Elements(select(s)) == s
  }

  // Writing a manifest and loading it back.

  /** The column is an INTEGER: the 64-bit version is cast to 32 bits on the way in. */
  function AsI32(n: int): int {
    (n + 0x8000_0000) % 0x1_0000_0000 - 0x8000_0000
  }

  predicate FitsI32(n: int) {
    -0x8000_0000 <= n < 0x8000_0000
  }

  predicate FitsColumn(f: Option<Fingerprint>) {
    f.Some? ==> FitsI32(f.value.schemaVersion)
  }

  /** Flags default to false, and an empty artifact object reads back as absent. */
  function LoadedFile(f: ManifestFile): ManifestFile {
    f.(generated := Some(UnwrapOr(f.generated, false)),
       vendor := Some(UnwrapOr(f.vendor, false)),
       test := Some(UnwrapOr(f.test, false)),
       artifacts := if f.artifacts == Some(map[]) then None else f.artifacts)
  }

  function LoadedFingerprint(f: Option<Fingerprint>): Option<Fingerprint> {
    match f
    case None => None
    case Some(v) => Some(v.(schemaVersion := AsI32(v.schemaVersion)))
  }

  function StoredFiles(m: Manifest): set<ManifestFile> {
    set f | f in m.files :: LoadedFile(f)
  }

  function LoadBack(m: Manifest, select: Select): Manifest {
    m.(files := select(StoredFiles(m)), toolchains := None, semantic := LoadedFingerprint(m.semantic))
  }

  /** Two file maps agree on everything the planner looks at. */
  ghost predicate SameContents(a: Files, b: Files) {
    && a.Keys == b.Keys
    && forall p :: p in a ==> a[p].contentHash == b[p].contentHash && a[p].projectRoot == b[p].projectRoot
  }

  lemma LoadedFileMap(m: Manifest, select: Select, p: string)
    requires Enumerates(select) && DistinctPaths(Elements(m.files))
    requires p in FileMap(m.files)
    ensures p in FileMap(LoadBack(m, select).files)
    ensures FileMap(LoadBack(m, select).files)[p].contentHash == FileMap(m.files)[p].contentHash
    ensures FileMap(LoadBack(m, select).files)[p].projectRoot == FileMap(m.files)[p].projectRoot
  {
    var loaded := LoadBack(m, select).files;
    var i := FileMapSource(m.files, p);
    assert LoadedFile(m.files[i]) in Elements(loaded);
    FileMapListed(loaded, LoadedFile(m.files[i]));
    var j := FileMapSource(loaded, p);
    assert loaded[j] in Elements(loaded);
    var g :| g in m.files && LoadedFile(g) == loaded[j];
    assert g in Elements(m.files) && m.files[i] in Elements(m.files);
  }

  /** In whatever order the rows come back, the planner sees the manifest that was written. */
  lemma LoadBackKeepsContents(m: Manifest, select: Select)
    requires Enumerates(select) && DistinctPaths(Elements(m.files))
    ensures SameContents(FileMap(LoadBack(m, select).files), FileMap(m.files))
  {
    var loaded := LoadBack(m, select).files;
    forall p | p in FileMap(m.files)
      ensures p in FileMap(loaded)
      ensures FileMap(loaded)[p].contentHash == FileMap(m.files)[p].contentHash
      ensures FileMap(loaded)[p].projectRoot == FileMap(m.files)[p].projectRoot
    {
      LoadedFileMap(m, select, p);
    }
    forall p | p in FileMap(loaded) ensures p in FileMap(m.files) {
      var j := FileMapSource(loaded, p);
      assert loaded[j] in Elements(loaded);
      var g :| g in m.files && LoadedFile(g) == loaded[j];
      FileMapListed(m.files, g);
    }
  }

  lemma SameContentsSameTouched(a: Files, b: Files, c: Files)
    requires SameContents(a, b)
    ensures Touched(a, c) == Touched(b, c)
  {
  }

  lemma AsI32IsExact(n: int)
    ensures AsI32(n) == n <==> FitsI32(n)
  {
  }

  // The statements.

  function ReadyIn(rows: Rows, s: Scope): set<string> {
    set k | k in rows && rows[k].manifest.scope == s && rows[k].status == Ready
  }

  ghost predicate AtMostOneReady(rows: Rows) {
    forall s, j, k :: j in ReadyIn(rows, s) && k in ReadyIn(rows, s) ==> j == k
  }

  /** `get_previous_manifest`: with at most one READY row in a scope, LIMIT 1 has no choice. */
  function Previous(rows: Rows, s: Scope): (r: Option<string>)
    ensures r.None? <==> ReadyIn(rows, s) == {}
    ensures r.Some? ==> r.value in rows && rows[r.value].manifest.scope == s && rows[r.value].status == Ready
  {
    if ReadyIn(rows, s) == {} then None else Some(Least(ReadyIn(rows, s)))
  }

  function PlanAgainst(rows: Rows, base: Option<string>, m: Manifest, select: Select, fileDelta: bool): Plan
    requires base.Some? ==> base.value in rows
  {
    match base
    case None => FullPlan(m)
    case Some(b) => Between(LoadBack(rows[b].manifest, select), m, fileDelta)
  }

  /** Inserting one PENDING manifest with the plan against the scope's READY row. */
  function PrepareOne(rows: Rows, id: string, m: Manifest, select: Select, fileDelta: bool): Rows {
    var base := Previous(rows, m.scope);
    rows[id := Row(m, PlanAgainst(rows, base, m, select, fileDelta), Pending, None, base)]
  }

  function Supersede(id: string, s: Scope, k: string, r: Row): Row {
    if k != id && r.manifest.scope == s && r.status == Ready then r.(status := Superseded) else r
  }

  predicate Selected(rows: Rows, org: int, id: string) {
    id in rows && rows[id].manifest.scope.org == org
  }

  /** One turn of the activation loop: supersede the other READY rows of the scope, then flip this one. */
  function ActivateOne(rows: Rows, org: int, id: string): Rows {
    if !Selected(rows, org, id) then rows
    else
      var superseded := map k | k in rows :: Supersede(id, rows[id].manifest.scope, k, rows[k]);
      superseded[id := rows[id].(status := Ready, errorMessage := None)]
  }

  function ActivateAll(rows: Rows, org: int, ids: seq<string>): Rows {
    if ids == [] then rows
    else ActivateOne(ActivateAll(rows, org, ids[..|ids| - 1]), org, ids[|ids| - 1])
  }

  function FailRow(ids: seq<string>, message: string, k: string, r: Row): Row {
    if k in ids && r.status == Pending then r.(status := Failed, errorMessage := Some(message)) else r
  }

  function FailAll(rows: Rows, ids: seq<string>, message: string): Rows {
    map k | k in rows :: FailRow(ids, message, k, rows[k])
  }

  function DeleteRepo(rows: Rows, repo: int): Rows {
    map k | k in rows && rows[k].manifest.scope.repo != repo :: rows[k]
  }

  // What activation does, whatever the table held before.

  /** Activation changes nothing but statuses and error messages. */
  ghost predicate SameButStatus(a: Rows, b: Rows) {
    && a.Keys == b.Keys
    && forall k :: k in a ==> a[k].manifest == b[k].manifest && a[k].plan == b[k].plan && a[k].base == b[k].base
  }

  lemma {:induction false} ActivateAllKeepsManifests(rows: Rows, org: int, ids: seq<string>)
    ensures SameButStatus(rows, ActivateAll(rows, org, ids))
  {
    if ids != [] {
      ActivateAllKeepsManifests(rows, org, ids[..|ids| - 1]);
    }
  }

  /** `ids[i]` is the last listed id that names a row of this organisation in scope `s`. */
  ghost predicate LastOfScope(rows: Rows, org: int, ids: seq<string>, s: Scope, i: nat) {
    && i < |ids|
    && Selected(rows, org, ids[i]) && rows[ids[i]].manifest.scope == s
    && forall j :: i < j < |ids| && Selected(rows, org, ids[j]) ==> rows[ids[j]].manifest.scope != s
  }

  ghost predicate UntouchedScope(rows: Rows, org: int, ids: seq<string>, s: Scope) {
    forall j :: 0 <= j < |ids| && Selected(rows, org, ids[j]) ==> rows[ids[j]].manifest.scope != s
  }

  lemma ActivateOneOther(rows: Rows, org: int, id: string, k: string)
    requires k in rows && (Selected(rows, org, id) ==> rows[id].manifest.scope != rows[k].manifest.scope)
    ensures ActivateOne(rows, org, id)[k] == rows[k]
  {
  }

  lemma ActivateOneReady(rows: Rows, org: int, id: string, k: string)
    requires Selected(rows, org, id) && k in rows && rows[k].manifest.scope == rows[id].manifest.scope
    ensures ActivateOne(rows, org, id)[k].status == Ready <==> k == id
  {
  }

  /**
   * After an activation batch, repeated, unknown and foreign ids included, the READY rows of a
   * scope the batch touched are exactly its last listed id.
   */
  lemma {:induction false} ActivationIsLastListed(rows: Rows, org: int, ids: seq<string>, s: Scope, i: nat)
    requires LastOfScope(rows, org, ids, s, i)
    ensures ReadyIn(ActivateAll(rows, org, ids), s) == {ids[i]}
  {
    var init, id := ids[..|ids| - 1], ids[|ids| - 1];
    var before := ActivateAll(rows, org, init);
    var after := ActivateAll(rows, org, ids);
    ActivateAllKeepsManifests(rows, org, init);
    if i == |ids| - 1 {
      forall k | k in before && before[k].manifest.scope == s ensures after[k].status == Ready <==> k == id {
        ActivateOneReady(before, org, id, k);
      }
    } else {
      assert LastOfScope(rows, org, init, s, i);
      ActivationIsLastListed(rows, org, init, s, i);
      ActivateOneElsewhere(before, org, id, s);
    }
  }

  lemma ActivateOneElsewhere(rows: Rows, org: int, id: string, s: Scope)
    requires Selected(rows, org, id) ==> rows[id].manifest.scope != s
    ensures InScope(ActivateOne(rows, org, id), s) == InScope(rows, s)
    ensures ReadyIn(ActivateOne(rows, org, id), s) == ReadyIn(rows, s)
  {
    forall k | k in rows && rows[k].manifest.scope == s ensures ActivateOne(rows, org, id)[k] == rows[k] {
      ActivateOneOther(rows, org, id, k);
    }
  }

  function InScope(rows: Rows, s: Scope): Rows {
    map k | k in rows && rows[k].manifest.scope == s :: rows[k]
  }

  /** A scope that no listed row of this organisation lies in keeps all its rows as they were. */
  lemma {:induction false} ActivationKeepsOtherScopes(rows: Rows, org: int, ids: seq<string>, s: Scope)
    requires UntouchedScope(rows, org, ids, s)
    ensures InScope(ActivateAll(rows, org, ids), s) == InScope(rows, s)
    ensures ReadyIn(ActivateAll(rows, org, ids), s) == ReadyIn(rows, s)
  {
    if ids != [] {
      var init, id := ids[..|ids| - 1], ids[|ids| - 1];
      ActivationKeepsOtherScopes(rows, org, init, s);
      ActivateAllKeepsManifests(rows, org, init);
      ActivateOneElsewhere(ActivateAll(rows, org, init), org, id, s);
    }
  }

  /** The batch names this row, and it belongs to the organisation. */
  predicate Named(rows: Rows, org: int, ids: seq<string>, k: string) {
    k in ids && Selected(rows, org, k)
  }

  lemma {:induction false} LastOfTouched(rows: Rows, org: int, ids: seq<string>, s: Scope) returns (i: nat)
    requires !UntouchedScope(rows, org, ids, s)
    ensures LastOfScope(rows, org, ids, s, i)
  {
    i := |ids| - 1;
    if !(Selected(rows, org, ids[i]) && rows[ids[i]].manifest.scope == s) {
      i := LastOfTouched(rows, org, ids[..i], s);
    }
  }

  /** What an activation batch makes of the row under `k`. */
  ghost predicate Activated(rows: Rows, org: int, ids: seq<string>, k: string, now: Row)
    requires k in rows
  {
    var was, s := rows[k], rows[k].manifest.scope;
    && (UntouchedScope(rows, org, ids, s) ==> now == was)
    && (forall i: nat :: LastOfScope(rows, org, ids, s, i) ==>
          now.status == if k == ids[i] then Ready
                        else if was.status == Ready || Named(rows, org, ids, k) then Superseded
                        else was.status)
    && now.errorMessage == (if Named(rows, org, ids, k) then None else was.errorMessage)
    && now.manifest == was.manifest && now.plan == was.plan && now.base == was.base
  }

  /** One more id that names no row of the scope. */
  lemma OtherIdAppended(rows: Rows, org: int, ids: seq<string>, id: string, s: Scope)
    requires Selected(rows, org, id) ==> rows[id].manifest.scope != s
    ensures UntouchedScope(rows, org, ids + [id], s) ==> UntouchedScope(rows, org, ids, s)
    ensures forall i: nat :: LastOfScope(rows, org, ids + [id], s, i) ==> LastOfScope(rows, org, ids, s, i)
  {
    var all := ids + [id];
    assert all[|ids|] == id;
    assert forall j :: 0 <= j < |ids| ==> all[j] == ids[j];
  }

  lemma ActivatedElsewhere(rows: Rows, org: int, ids: seq<string>, id: string, k: string, now: Row)
    requires k in rows && Activated(rows, org, ids, k, now)
    requires Selected(rows, org, id) ==> rows[id].manifest.scope != rows[k].manifest.scope
    ensures Activated(rows, org, ids + [id], k, now)
  {
    var all, s := ids + [id], rows[k].manifest.scope;
    OtherIdAppended(rows, org, ids, id, s);
    assert Named(rows, org, all, k) <==> Named(rows, org, ids, k);
    forall i: nat | LastOfScope(rows, org, all, s, i) ensures i < |ids| && all[i] == ids[i] {
      assert LastOfScope(rows, org, ids, s, i);
    }
  }

  lemma ActivatedHere(rows: Rows, org: int, ids: seq<string>, id: string, k: string, now: Row)
    requires k in rows && Activated(rows, org, ids, k, now)
    requires Selected(rows, org, id) && rows[id].manifest.scope == rows[k].manifest.scope
    ensures Activated(rows, org, ids + [id], k,
                      if k == id then now.(status := Ready, errorMessage := None)
                      else if now.status == Ready then now.(status := Superseded) else now)
  {
    var all, s := ids + [id], rows[k].manifest.scope;
    assert all[|ids|] == id;
    forall i | LastOfScope(rows, org, all, s, i) ensures i == |ids| {
    }
    assert Named(rows, org, all, k) <==> Named(rows, org, ids, k) || k == id;
    if UntouchedScope(rows, org, ids, s) {
      assert !Named(rows, org, ids, k);
    } else {
      var i := LastOfTouched(rows, org, ids, s);
      assert ids[i] in ids;
    }
  }

  /**
   * Activation, row by row: the last listed row of a scope becomes READY, every other row of that
   * scope that was READY or listed becomes SUPERSEDED, every other row keeps its status; the
   * listed rows, and no others, lose their error message.
   */
  lemma {:induction false} ActivationRowByRow(rows: Rows, org: int, ids: seq<string>, k: string)
    requires k in rows
    ensures k in ActivateAll(rows, org, ids) && Activated(rows, org, ids, k, ActivateAll(rows, org, ids)[k])
  {
    if ids != [] {
      var init, id := ids[..|ids| - 1], ids[|ids| - 1];
      var before := ActivateAll(rows, org, init);
      assert ids == init + [id];
      ActivationRowByRow(rows, org, init, k);
      ActivateAllKeepsManifests(rows, org, init);
      if Selected(rows, org, id) && rows[id].manifest.scope == rows[k].manifest.scope {
        ActivatedHere(rows, org, init, id, k, before[k]);
      } else {
        ActivatedElsewhere(rows, org, init, id, k, before[k]);
        ActivateOneOther(before, org, id, k);
      }
    }
  }

  // At most one READY row per scope, over every run.

  datatype Step =
    | Prepare(id: string, manifest: Manifest, select: Select, fileDelta: bool)
    | Activate(org: int, ids: seq<string>)
    | Fail(ids: seq<string>, message: string)
    | Delete(repo: int)

  function Apply(rows: Rows, step: Step): Rows {
    match step
    case Prepare(id, m, select, fileDelta) => if id in rows then rows else PrepareOne(rows, id, m, select, fileDelta)
    case Activate(org, ids) => ActivateAll(rows, org, ids)
    case Fail(ids, message) => FailAll(rows, ids, message)
    case Delete(repo) => DeleteRepo(rows, repo)
  }

  function Run(rows: Rows, steps: seq<Step>): Rows
    decreases |steps|
  {
    if steps == [] then rows else Run(Apply(rows, steps[0]), steps[1..])
  }

  lemma ActivateOneKeepsOneReady(rows: Rows, org: int, id: string, s: Scope)
    ensures Selected(rows, org, id) && rows[id].manifest.scope == s ==> ReadyIn(ActivateOne(rows, org, id), s) == {id}
    ensures !(Selected(rows, org, id) && rows[id].manifest.scope == s) ==>
              ReadyIn(ActivateOne(rows, org, id), s) == ReadyIn(rows, s)
  {
    if Selected(rows, org, id) && rows[id].manifest.scope == s {
      forall k | k in rows && rows[k].manifest.scope == s
        ensures ActivateOne(rows, org, id)[k].status == Ready <==> k == id
      {
        ActivateOneReady(rows, org, id, k);
      }
    } else {
      ActivateOneElsewhere(rows, org, id, s);
    }
  }

  lemma {:induction false} ActivationKeepsOneReady(rows: Rows, org: int, ids: seq<string>)
    requires AtMostOneReady(rows)
    ensures AtMostOneReady(ActivateAll(rows, org, ids))
  {
    if ids != [] {
      var init, id := ids[..|ids| - 1], ids[|ids| - 1];
      ActivationKeepsOneReady(rows, org, init);
      ActivateOneKeepsAtMostOne(ActivateAll(rows, org, init), org, id);
    }
  }

  lemma ActivateOneKeepsAtMostOne(rows: Rows, org: int, id: string)
    requires AtMostOneReady(rows)
    ensures AtMostOneReady(ActivateOne(rows, org, id))
  {
    forall s { ActivateOneKeepsOneReady(rows, org, id, s); }
  }

  lemma StepKeepsOneReady(rows: Rows, step: Step)
    requires AtMostOneReady(rows)
    ensures AtMostOneReady(Apply(rows, step))
  {
    match step
    case Activate(org, ids) => ActivationKeepsOneReady(rows, org, ids);
    case Delete(repo) => assert forall s :: ReadyIn(DeleteRepo(rows, repo), s) <= ReadyIn(rows, s);
    case _ => forall s { OnlyActivationMovesReady(rows, step, s); }
  }

  /** In every state reached from a good one there is at most one READY manifest per scope. */
  lemma {:induction false} RunKeepsOneReady(rows: Rows, steps: seq<Step>)
    requires AtMostOneReady(rows)
    ensures AtMostOneReady(Run(rows, steps))
    decreases |steps|
  {
    if steps != [] {
      StepKeepsOneReady(rows, steps[0]);
      RunKeepsOneReady(Apply(rows, steps[0]), steps[1..]);
    }
  }

  /** Preparing and failing never change which row of a scope is READY. */
  lemma OnlyActivationMovesReady(rows: Rows, step: Step, s: Scope)
    requires step.Prepare? || step.Fail? || (step.Activate? && UntouchedScope(rows, step.org, step.ids, s))
    ensures ReadyIn(Apply(rows, step), s) == ReadyIn(rows, s)
  {
    if step.Activate? {
      ActivationKeepsOtherScopes(rows, step.org, step.ids, s);
    }
  }

  // How a row comes to its status, over every run.

  /** This step gave the row under `k` the status `st`, which it did not have before. */
  ghost predicate Gives(rows: Rows, step: Step, k: string, st: Status) {
    && k in Apply(rows, step) && Apply(rows, step)[k].status == st
    && !(k in rows && rows[k].status == st)
  }

  /** PENDING is a new row; FAILED comes from PENDING only, by failing; READY and SUPERSEDED come by activation. */
  lemma StepGivesStatus(rows: Rows, step: Step, k: string, st: Status)
    requires Gives(rows, step, k, st)
    ensures st == Pending ==> step.Prepare? && step.id == k && k !in rows
    ensures st == Failed ==> step.Fail? && k in step.ids && k in rows && rows[k].status == Pending
    ensures st == Failed ==> Apply(rows, step)[k].errorMessage == Some(step.message)
    ensures st == Ready || st == Superseded ==> step.Activate? && k in rows
    ensures st == Ready ==>
              exists i: nat :: LastOfScope(rows, step.org, step.ids, rows[k].manifest.scope, i) && step.ids[i] == k
    ensures st == Superseded ==> rows[k].status == Ready || Named(rows, step.org, step.ids, k)
  {
    if step.Activate? {
      ActivateAllKeepsManifests(rows, step.org, step.ids);
      ActivationRowByRow(rows, step.org, step.ids, k);
      var s := rows[k].manifest.scope;
      if !UntouchedScope(rows, step.org, step.ids, s) {
        var i := LastOfTouched(rows, step.org, step.ids, s);
      }
    }
  }

  /** A status a row did not have at the start was given to it by one of the steps. */
  lemma {:induction false} RunGivesStatus(rows: Rows, steps: seq<Step>, k: string, st: Status) returns (j: nat)
    requires k in Run(rows, steps) && Run(rows, steps)[k].status == st && !(k in rows && rows[k].status == st)
    ensures j < |steps| && Gives(Run(rows, steps[..j]), steps[j], k, st)
    decreases |steps|
  {
    var next := Apply(rows, steps[0]);
    if k in next && next[k].status == st {
      j := 0;
      assert steps[..0] == [];
    } else {
      var i := RunGivesStatus(next, steps[1..], k, st);
      j := i + 1;
      assert steps[..j][1..] == steps[1..][..i];
    }
  }

  // The manager object.

  /** One revision as git answers: unresolvable, unreadable, or a commit with its files. */
  datatype Revision =
    | Unresolved(branch: string)
    | Unreadable(branch: string)
    | Resolved(branch: string, commit: string, files: seq<ManifestFile>, id: string, select: Select)

  datatype Prepared = Prepared(id: string, branch: string, commit: string, fileCount: nat, plan: Plan)

  datatype PrepareError = ListingFailed | DuplicateId | DuplicatePath

  /** What one job's manifests share. */
  datatype Job = Job(org: int, repo: int, workspace: string, provider: Option<string>, semantic: Option<Fingerprint>)

  function ManifestOf(job: Job, r: Revision): Manifest
    requires r.Resolved?
  {
    Manifest(Scope(job.org, job.workspace, job.repo, job.provider, r.branch), r.commit, r.files, None, job.semantic)
  }

  /** The unique index on (manifestId, path). */
  predicate HasDuplicatePath(files: seq<ManifestFile>) {
    exists i, j :: 0 <= i < j < |files| && files[i].path == files[j].path
  }

  datatype Outcome = Outcome(rows: Rows, result: Result<seq<Prepared>, PrepareError>)

  function PreparedAs(rows: Rows, job: Job, r: Revision): Prepared
    requires r.Resolved? && r.id in rows
  {
    Prepared(r.id, r.branch, r.commit, |r.files|, rows[r.id].plan)
  }

  /** The revisions in turn; a row already inserted stays when a later statement fails. */
  function PrepareAll(rows: Rows, job: Job, revisions: seq<Revision>, done: seq<Prepared>): Outcome
    decreases |revisions|
  {
    if revisions == [] then Outcome(rows, Ok(done))
    else
      var r := revisions[0];
      match r
      case Unresolved(_) => PrepareAll(rows, job, revisions[1..], done)
      case Unreadable(_) => Outcome(rows, Err(ListingFailed))
      case Resolved(_, _, files, id, select) =>
        if id in rows then Outcome(rows, Err(DuplicateId))
        else
          var after := PrepareOne(rows, id, ManifestOf(job, r), select, false);
          if HasDuplicatePath(files) then Outcome(after, Err(DuplicatePath))
          else PrepareAll(after, job, revisions[1..], done + [PreparedAs(after, job, r)])
  }

  /** The row a revision inserts: its manifest, PENDING, and the plan against the READY row of its scope. */
  ghost predicate InsertedFor(start: Rows, job: Job, id: string, row: Row, r: Revision) {
    r.Resolved? && r.id == id && row == PrepareOne(start, id, ManifestOf(job, r), r.select, false)[id]
  }

  /** Column by column: the job's scope with the revision's branch, its commit and files, PENDING, without a message. */
  lemma InsertedRowTells(start: Rows, job: Job, id: string, row: Row, r: Revision)
    requires InsertedFor(start, job, id, row, r)
    ensures row.manifest.scope.org == job.org && row.manifest.scope.repo == job.repo
    ensures row.manifest.scope.workspace == job.workspace && row.manifest.scope.provider == job.provider
    ensures row.manifest.scope.branch == r.branch && row.manifest.commit == r.commit && row.manifest.files == r.files
    ensures row.manifest.semantic == job.semantic && row.manifest.toolchains == None
    ensures row.status == Pending && row.errorMessage == None
    ensures row.base.None? <==> ReadyIn(start, row.manifest.scope) == {}
    ensures row.base.Some? ==> row.base.value in ReadyIn(start, row.manifest.scope)
  {
  }

  ghost predicate Extends(start: Rows, rows: Rows, job: Job, revisions: seq<Revision>) {
    && (forall k :: k in start ==> k in rows && rows[k] == start[k])
    && (forall k :: k in rows && k !in start ==> exists r :: r in revisions && InsertedFor(start, job, k, rows[k], r))
  }

  lemma SameReady(start: Rows, rows: Rows, job: Job, revisions: seq<Revision>, s: Scope)
    requires Extends(start, rows, job, revisions)
    ensures ReadyIn(rows, s) == ReadyIn(start, s)
  {
  }

  /**
   * Preparing leaves every existing row alone and adds only PENDING rows, each planned against
   * the READY row its scope had at the start, however many revisions were inserted before it.
   */
  lemma {:induction false} PrepareAllExtends(start: Rows, rows: Rows, job: Job, before: seq<Revision>,
                                             revisions: seq<Revision>, done: seq<Prepared>)
    requires Extends(start, rows, job, before)
    ensures Extends(start, PrepareAll(rows, job, revisions, done).rows, job, before + revisions)
    decreases |revisions|
  {
    if revisions == [] {
      assert before + revisions == before;
    } else {
      var r := revisions[0];
      assert before + revisions == before + [r] + revisions[1..];
      if r.Unresolved? {
        ExtendsFurther(start, rows, job, before, [r]);
        PrepareAllExtends(start, rows, job, before + [r], revisions[1..], done);
      } else if r.Unreadable? || r.id in rows {
        ExtendsFurther(start, rows, job, before, revisions);
      } else {
        var after := PrepareOne(rows, r.id, ManifestOf(job, r), r.select, false);
        SameReady(start, rows, job, before, ManifestOf(job, r).scope);
        ExtendsByOne(start, rows, job, before, r);
        if HasDuplicatePath(r.files) {
          ExtendsFurther(start, after, job, before + [r], revisions[1..]);
        } else {
          PrepareAllExtends(start, after, job, before + [r], revisions[1..], done + [PreparedAs(after, job, r)]);
        }
      }
    }
  }

  lemma ExtendsFurther(start: Rows, rows: Rows, job: Job, before: seq<Revision>, more: seq<Revision>)
    requires Extends(start, rows, job, before)
    ensures Extends(start, rows, job, before + more)
  {
    forall k | k in rows && k !in start
      ensures exists r :: r in before + more && InsertedFor(start, job, k, rows[k], r)
    {
      var r :| r in before && InsertedFor(start, job, k, rows[k], r);
      assert r in before + more;
    }
  }

  lemma ExtendsByOne(start: Rows, rows: Rows, job: Job, before: seq<Revision>, r: Revision)
    requires Extends(start, rows, job, before) && r.Resolved? && r.id !in rows
    requires ReadyIn(rows, ManifestOf(job, r).scope) == ReadyIn(start, ManifestOf(job, r).scope)
    ensures Extends(start, PrepareOne(rows, r.id, ManifestOf(job, r), r.select, false), job, before + [r])
  {
    var after := PrepareOne(rows, r.id, ManifestOf(job, r), r.select, false);
    ExtendsFurther(start, rows, job, before, [r]);
    assert InsertedFor(start, job, r.id, after[r.id], r);
    assert r in before + [r];
  }

  class IndexManifestManager {
    var rows: Rows

    constructor ()
      ensures rows == map[]
    {
      rows := map[];
    }

    /** `prepare_revision_manifests`; a previous manifest of the same scope never mismatches. */
    method PrepareRevisionManifests(job: Job, revisions: seq<Revision>) returns (r: Result<seq<Prepared>, PrepareError>)
      modifies this
      ensures Outcome(rows, r) == PrepareAll(old(rows), job, revisions, [])
    {
      var prepared: seq<Prepared> := [];
      ghost var start := rows;
      for i := 0 to |revisions|
        invariant PrepareAll(start, job, revisions, []) == PrepareAll(rows, job, revisions[i..], prepared)
      {
        var rev := revisions[i];
        assert revisions[i..][1..] == revisions[i + 1..];
        if rev.Unresolved? { continue; }
        if rev.Unreadable? { return Err(ListingFailed); }
        var current := ManifestOf(job, rev);
        var base := Previous(rows, current.scope);
        var previous := if base.None? then None else Some(LoadBack(rows[base.value].manifest, rev.select));
        var plan := BuildDeltaReindexPlan(previous, current, false);
        if rev.id in rows { return Err(DuplicateId); }
        rows := rows[rev.id := Row(current, plan.value, Pending, None, base)];
        if HasDuplicatePath(rev.files) { return Err(DuplicatePath); }
        prepared := prepared + [Prepared(rev.id, rev.branch, rev.commit, |rev.files|, plan.value)];
      }
      return Ok(prepared);
    }

    /** `activate_manifests`, inside its transaction. */
    method ActivateManifests(org: int, ids: seq<string>)
      modifies this
      ensures rows == ActivateAll(old(rows), org, ids)
      ensures rows.Keys == old(rows).Keys
      ensures forall k :: k in old(rows) ==> Activated(old(rows), org, ids, k, rows[k])
    {
      ghost var start := rows;
      for i := 0 to |ids|
        invariant rows == ActivateAll(start, org, ids[..i])
      {
        assert ids[..i + 1][..i] == ids[..i];
        if ids[i] !in rows || rows[ids[i]].manifest.scope.org != org { continue; }
        var scope := rows[ids[i]].manifest.scope;
        rows := map k | k in rows :: Supersede(ids[i], scope, k, rows[k]);
        rows := rows[ids[i] := rows[ids[i]].(status := Ready, errorMessage := None)];
      }
      assert ids[..|ids|] == ids;
      ActivateAllKeepsManifests(start, org, ids);
      forall k | k in start ensures Activated(start, org, ids, k, rows[k]) { ActivationRowByRow(start, org, ids, k); }
    }

    /** Only PENDING rows among the listed ones change, and only in status and message: READY rows never do. */
    method MarkManifestsFailed(ids: seq<string>, message: string)
      modifies this
      ensures rows == FailAll(old(rows), ids, message)
      ensures rows.Keys == old(rows).Keys
      ensures forall k :: k in rows && k in ids && old(rows)[k].status == Pending ==>
                rows[k] == old(rows)[k].(status := Failed, errorMessage := Some(message))
      ensures forall k :: k in rows && !(k in ids && old(rows)[k].status == Pending) ==> rows[k] == old(rows)[k]
      ensures forall s :: ReadyIn(rows, s) == ReadyIn(old(rows), s)
    {
      forall s { OnlyActivationMovesReady(rows, Fail(ids, message), s); }
      if ids == [] { return; }
      rows := map k | k in rows :: FailRow(ids, message, k, rows[k]);
    }

    /** Every row of the repository goes, in whatever status; every other row, and what is READY elsewhere, stays. */
    method DeleteRepoManifests(repo: int)
      modifies this
      ensures rows == DeleteRepo(old(rows), repo)
      ensures forall k :: k in rows <==> k in old(rows) && old(rows)[k].manifest.scope.repo != repo
      ensures forall k :: k in rows ==> rows[k] == old(rows)[k]
      ensures forall s :: ReadyIn(rows, s) == if s.repo == repo then {} else ReadyIn(old(rows), s)
    {
      rows := map k | k in rows && rows[k].manifest.scope.repo != repo :: rows[k];
    }
  }
}
