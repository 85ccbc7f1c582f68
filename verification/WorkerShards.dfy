/**
 * The handler's Zoekt shards.  A delivery is a run of table steps and, when its Zoekt run takes
 * effect, a rewrite of the shards of every revision it prepared; that happens before the SCIP,
 * graph and bookkeeping steps, any of which can still stop it short of activation.
 */
module WorkerShards {
  import opened Basics
  import opened Manifests
  import opened DeltaPlan
  import opened ManifestTable
  import opened R = Reindex
  import opened I = IndexRuns
  import opened Worker
  import L = WorkerLaws
  import opened WorkerOutcomes

  // What a delivery does, as moves.

  /** The run gets to preparing its manifests. */
  predicate Prepares(d: Delivery, st: State) {
    !Terminal(st, d.jobId) && d.answer(MarkInProgress) == Works && ChecksOut(d)
  }

  /** The run gets past preparing and the handoff, with every manifest prepared. */
  predicate Proceeds(d: Delivery, st: State) {
    && Prepares(d, st) && d.preparing.Through? && OutcomeOf(d, st.rows).result.Ok?
    && !(d.handoff != NoHandoff && Died(d.answer(Handoff)))
    && !(d.handoff == RequiredHandoff && d.answer(Handoff) == Fails)
  }

  /** The ids of the manifests the run prepared, if it proceeds. */
  function ListedIds(d: Delivery, st: State): seq<string> {
    if Proceeds(d, st) then IdsOf(OutcomeOf(d, st.rows).result.value) else []
  }

  predicate ZoektWanted(d: Delivery, st: State) {
    Proceeds(d, st) && ZoektRuns(d, OutcomeOf(d, st.rows).result.value)
  }

  predicate ZoektApplied(d: Delivery, st: State) {
    ZoektWanted(d, st) && Applied(d.answer(RunZoekt))
  }

  function PrepareMoves(rows: Rows, job: Job, revisions: seq<Revision>): seq<Move>
    decreases |revisions|
  {
    if revisions == [] then []
    else
      var r := revisions[0];
      match r
      case Unresolved(_) => PrepareMoves(rows, job, revisions[1..])
      case Unreadable(_) => []
      case Resolved(_, _, files, id, select) =>
        if id in rows then []
        else
          var after := PrepareOne(rows, id, ManifestOf(job, r), select, false);
          [Table(Prepare(id, ManifestOf(job, r), select, false))]
          + (if HasDuplicatePath(files) then [] else PrepareMoves(after, job, revisions[1..]))
  }

  /** One Zoekt run is given all the job's revisions, whichever of them had something planned. */
  function Rewrites(ids: seq<string>): seq<Move> {
    if ids == [] then [] else Rewrites(ids[..|ids| - 1]) + [Rewrite(ids[|ids| - 1])]
  }

  /** How the run ends for its manifests: activated, marked failed, or left PENDING. */
  function LastMoves(d: Delivery, st: State, t: Trouble): seq<Move> {
    if !Proceeds(d, st) then []
    else if Activates(t) then [Table(Activate(d.job.org, ListedIds(d, st)))]
    else if MarksRows(d, t) then [Table(Fail(ListedIds(d, st), d.message))]
    else []
  }

  function ZoektMoves(d: Delivery, st: State): seq<Move> {
    if ZoektApplied(d, st) then Rewrites(ListedIds(d, st)) else []
  }

  /** What a delivery does, told by its first stage that does not work. */
  function MovesOf(d: Delivery, st: State, t: Trouble): seq<Move> {
    if !Prepares(d, st) then []
    else PrepareMoves(st.rows, d.job, RevisionsUsed(d)) + ZoektMoves(d, st) + LastMoves(d, st, t)
  }

  function AllMoves(render: Renderer, ds: seq<Delivery>, st: State): seq<Move>
    decreases |ds|
  {
    if ds == [] then []
    else MovesOf(ds[0], st, TroubleOf(render, ds[0], st)) + AllMoves(render, ds[1..], Handle(render, ds[0], st).state)
  }

  // The moves give the handler's rows.

  lemma {:induction false} RunsAppend<I>(e: Engine<I>, w: World<I>, a: seq<Move>, b: seq<Move>)
    ensures Runs(e, w, a + b) == Runs(e, Runs(e, w, a), b)
    decreases |a|
  {
    if a == [] {
      assert a + b == b;
    } else {
      assert (a + b)[1..] == a[1..] + b;
      RunsAppend(e, Next(e, w, a[0]), a[1..], b);
    }
  }

  lemma {:induction false} PrepareMovesRun<I>(e: Engine<I>, w: World<I>, job: Job, revisions: seq<Revision>,
                                              done: seq<Prepared>)
    requires e.plan == PlanOf
    ensures Runs(e, w, PrepareMoves(w.rows, job, revisions)) ==
            w.(rows := PrepareAll(w.rows, job, revisions, done).rows)
    decreases |revisions|
  {
    if revisions != [] {
      var r := revisions[0];
      if r.Unresolved? {
        PrepareMovesRun(e, w, job, revisions[1..], done);
      } else if r.Resolved? && r.id !in w.rows {
        var prepare := Table(Prepare(r.id, ManifestOf(job, r), r.select, false));
        var after := PrepareMoveRuns(e, w, job, r);
        if HasDuplicatePath(r.files) {
          assert [prepare] + [] == [prepare];
          RunsOne(e, w, prepare);
        } else {
          RunsFirst(e, w, prepare, PrepareMoves(after.rows, job, revisions[1..]));
          PrepareMovesRun(e, after, job, revisions[1..], done + [PreparedAs(after.rows, job, r)]);
        }
      }
    }
  }

  lemma PrepareMoveRuns<I>(e: Engine<I>, w: World<I>, job: Job, r: Revision) returns (after: World<I>)
    requires e.plan == PlanOf && r.Resolved? && r.id !in w.rows
    ensures after == Next(e, w, Table(Prepare(r.id, ManifestOf(job, r), r.select, false)))
    ensures after == w.(rows := PrepareOne(w.rows, r.id, ManifestOf(job, r), r.select, false))
  {
    after := Next(e, w, Table(Prepare(r.id, ManifestOf(job, r), r.select, false)));
    TabulateIsApply(w.rows, Prepare(r.id, ManifestOf(job, r), r.select, false));
  }

  lemma StoppedAtHandoff(render: Renderer, d: Delivery, st: State, ps: seq<Prepared>)
    ensures var r := HandoffPhase(render, d, st, ps);
            && (d.handoff != NoHandoff && Died(d.answer(Handoff)) ==> r.state.rows == st.rows && !r.activated)
            && (d.handoff == RequiredHandoff && d.answer(Handoff) == Fails ==> r.state.rows == st.rows && !r.activated)
            && (r.activated && ZoektRuns(d, ps) ==> d.answer(RunZoekt) == Works)
  {
  }

  lemma PrepareEnds(render: Renderer, d: Delivery, st: State)
    requires Prepares(d, st)
    ensures var r := PreparePhase(render, d, st.(jobs := st.jobs[d.jobId := InProgress]));
            && (!Proceeds(d, st) ==> r.state.rows == OutcomeOf(d, st.rows).rows && !r.activated)
            && (r.activated && ZoektWanted(d, st) ==> ZoektApplied(d, st))
  {
    var out := OutcomeOf(d, st.rows);
    if d.preparing.Through? && out.result.Ok? {
      StoppedAtHandoff(render, d, st.(jobs := st.jobs[d.jobId := InProgress], rows := out.rows), out.result.value);
    }
  }

  /** A delivery ended as its first stage that does not work tells. */
  ghost predicate Ended(d: Delivery, st: State, r: Run, t: Trouble) {
    && (r.activated <==> Proceeds(d, st) && Activates(t))
    && (!Prepares(d, st) ==> r.state.rows == st.rows)
    && (Prepares(d, st) && !Proceeds(d, st) ==> r.state.rows == OutcomeOf(d, st.rows).rows)
    && (Proceeds(d, st) ==> r.state.rows == RowsAfter(d, OutcomeOf(d, st.rows).rows, ListedIds(d, st), t))
    && (r.activated && ZoektWanted(d, st) ==> ZoektApplied(d, st))
    && (!r.activated ==> L.CalmRows(st.rows, r.state.rows))
  }

  /**
   * Whatever fails and whenever it dies, a delivery leaves the rows as they were, prepared, prepared
   * and marked failed, or prepared and activated, and its answers tell which.
   */
  lemma HandleEnds(render: Renderer, d: Delivery, st: State) returns (r: Run, t: Trouble)
    ensures r == Handle(render, d, st) && t == TroubleOf(render, d, st) && Ended(d, st, r, t)
  {
    r, t := Handle(render, d, st), TroubleOf(render, d, st);
    L.HandleKeeps(false, render, d, st);
    if Prepares(d, st) {
      PrepareEnds(render, d, st);
      RunIsTold(render, d, st);
    }
  }

  /** A world beside the handler's state, with one engine's shards. */
  ghost predicate Beside<I>(e: Engine<I>, w: World<I>, st: State) {
    e.plan == PlanOf && w.rows == st.rows
  }

  /** The worlds a delivery goes through: its manifests prepared, its shards rewritten, its rows moved on. */
  lemma DeliveryRuns<I>(e: Engine<I>, w: World<I>, d: Delivery, st: State, t: Trouble)
    returns (ready: World<I>, written: World<I>)
    requires Beside(e, w, st) && Prepares(d, st)
    ensures ready == w.(rows := OutcomeOf(d, st.rows).rows)
    ensures written == Runs(e, ready, ZoektMoves(d, st))
    ensures Runs(e, w, MovesOf(d, st, t)) == Runs(e, written, LastMoves(d, st, t))
  {
    var prepare := PrepareMoves(st.rows, d.job, RevisionsUsed(d));
    PrepareMovesRun(e, w, d.job, RevisionsUsed(d), []);
    ready := Runs(e, w, prepare);
    written := Runs(e, ready, ZoektMoves(d, st));
    RunsAppend(e, w, prepare + ZoektMoves(d, st), LastMoves(d, st, t));
    RunsAppend(e, w, prepare, ZoektMoves(d, st));
  }

  ghost predicate AllSelected(rows: Rows, org: int, ids: seq<string>) {
    forall j :: 0 <= j < |ids| ==> Selected(rows, org, ids[j])
  }

  /** Rewriting leaves the rows alone; each scope then holds the last of its manifests listed, if any. */
  lemma {:induction false} RewritesHold<I>(e: Engine<I>, w: World<I>, org: int, ids: seq<string>, s: Scope)
    returns (after: World<I>)
    requires AllSelected(w.rows, org, ids)
    ensures after == Runs(e, w, Rewrites(ids)) && after.rows == w.rows
    ensures UntouchedScope(w.rows, org, ids, s) ==> IndexOf(e, after, s) == IndexOf(e, w, s)
    ensures forall i: nat :: LastOfScope(w.rows, org, ids, s, i) ==>
              IndexOf(e, after, s) == e.rebuild(Some(w.rows[ids[i]].manifest))
  {
    after := w;
    if ids != [] {
      var init, last := ids[..|ids| - 1], ids[|ids| - 1];
      var before := RewritesHold(e, w, org, init, s);
      RunsAppend(e, w, Rewrites(init), [Rewrite(last)]);
      RunsOne(e, before, Rewrite(last));
      after := Next(e, before, Rewrite(last));
      forall i: nat | LastOfScope(w.rows, org, ids, s, i)
        ensures IndexOf(e, after, s) == e.rebuild(Some(w.rows[ids[i]].manifest))
      {
        if i < |init| { assert LastOfScope(w.rows, org, init, s, i); }
      }
    }
  }

  lemma ListedAreSelected(d: Delivery, st: State)
    requires Prepares(d, st)
    ensures AllSelected(OutcomeOf(d, st.rows).rows, d.job.org, ListedIds(d, st))
  {
    if Proceeds(d, st) {
      var out := OutcomeOf(d, st.rows);
      L.PreparingIsCalm(st.rows, d.job, RevisionsUsed(d), []);
      forall j | 0 <= j < |ListedIds(d, st)| ensures Selected(out.rows, d.job.org, ListedIds(d, st)[j]) {
        assert L.Stands(out.rows, d.job, out.result.value[j]);
      }
    }
  }

  /** The last move changes rows only, and gives the handler's. */
  lemma LastMovesRun<I>(e: Engine<I>, w: World<I>, d: Delivery, st: State, r: Run, t: Trouble)
    requires Ended(d, st, r, t) && Prepares(d, st) && w.rows == OutcomeOf(d, st.rows).rows
    ensures Runs(e, w, LastMoves(d, st, t)) == w.(rows := r.state.rows)
  {
    RunsOne(e, w, Table(Activate(d.job.org, ListedIds(d, st))));
    RunsOne(e, w, Table(Fail(ListedIds(d, st), d.message)));
  }

  /** The last manifest listed in a scope, if any. */
  function LastListed(rows: Rows, org: int, ids: seq<string>, s: Scope): Option<Manifest> {
    if ids == [] then None
    else
      var last := ids[|ids| - 1];
      if Selected(rows, org, last) && rows[last].manifest.scope == s then Some(rows[last].manifest)
      else LastListed(rows, org, ids[..|ids| - 1], s)
  }

  lemma {:induction false} LastListedIsLast(rows: Rows, org: int, ids: seq<string>, s: Scope)
    ensures UntouchedScope(rows, org, ids, s) <==> LastListed(rows, org, ids, s) == None
    ensures forall i: nat :: LastOfScope(rows, org, ids, s, i) ==>
              LastListed(rows, org, ids, s) == Some(rows[ids[i]].manifest)
  {
    if ids != [] {
      var init := ids[..|ids| - 1];
      LastListedIsLast(rows, org, init, s);
      forall i: nat | LastOfScope(rows, org, ids, s, i)
        ensures LastListed(rows, org, ids, s) == Some(rows[ids[i]].manifest)
      {
        if i < |init| { assert LastOfScope(rows, org, init, s, i); }
      }
    }
  }

  /** A scope's index after a delivery: rebuilt from the last manifest it listed there, if its Zoekt run took effect. */
  function IndexAfter<I>(e: Engine<I>, d: Delivery, st: State, s: Scope, was: I): I {
    match LastListed(OutcomeOf(d, st.rows).rows, d.job.org, ListedIds(d, st), s)
    case None => was
    case Some(m) => if ZoektApplied(d, st) then e.rebuild(Some(m)) else was
  }

  lemma DeliveryIsRun<I>(e: Engine<I>, w: World<I>, d: Delivery, st: State, r: Run, t: Trouble, s: Scope)
    returns (after: World<I>)
    requires Ended(d, st, r, t) && Beside(e, w, st)
    ensures after == Runs(e, w, MovesOf(d, st, t)) && Beside(e, after, r.state)
    ensures IndexOf(e, after, s) == IndexAfter(e, d, st, s, IndexOf(e, w, s))
  {
    after := w;
    if Prepares(d, st) {
      var ready, written := DeliveryRuns(e, w, d, st, t);
      ListedAreSelected(d, st);
      LastListedIsLast(ready.rows, d.job.org, ListedIds(d, st), s);
      if ZoektApplied(d, st) {
        var rewritten := RewritesHold(e, ready, d.job.org, ListedIds(d, st), s);
        if !UntouchedScope(ready.rows, d.job.org, ListedIds(d, st), s) {
          var i := LastExists(ready.rows, d.job.org, ListedIds(d, st), s);
        }
      }
      LastMovesRun(e, written, d, st, r, t);
      after := Runs(e, written, LastMoves(d, st, t));
    }
  }

  /** A delivery is the run of its moves: same rows, and at every scope the index `IndexAfter`. */
  lemma HandleIsRun<I>(e: Engine<I>, w: World<I>, render: Renderer, d: Delivery, st: State, s: Scope)
    returns (t: Trouble, after: World<I>)
    requires Beside(e, w, st)
    ensures t == TroubleOf(render, d, st)
    ensures after == Runs(e, w, MovesOf(d, st, t)) && Beside(e, after, Handle(render, d, st).state)
    ensures IndexOf(e, after, s) == IndexAfter(e, d, st, s, IndexOf(e, w, s))
  {
    var r;
    r, t := HandleEnds(render, d, st);
    after := DeliveryIsRun(e, w, d, st, r, t, s);
  }

  function IndexAfterAll<I>(e: Engine<I>, render: Renderer, ds: seq<Delivery>, st: State, s: Scope, was: I): I
    decreases |ds|
  {
    if ds == [] then was
    else IndexAfterAll(e, render, ds[1..], Handle(render, ds[0], st).state, s, IndexAfter(e, ds[0], st, s, was))
  }

  /**
   * Deliveries one after the other are the run of all their moves: same rows, and at every scope
   * the index they reach one by one.
   */
  lemma {:induction false} HandleAllIsRun<I>(e: Engine<I>, w: World<I>, render: Renderer, ds: seq<Delivery>, st: State,
                                             s: Scope)
    requires Beside(e, w, st)
    ensures var after := Runs(e, w, AllMoves(render, ds, st));
            && Beside(e, after, HandleAll(render, ds, st))
            && IndexOf(e, after, s) == IndexAfterAll(e, render, ds, st, s, IndexOf(e, w, s))
    decreases |ds|
  {
    if ds != [] {
      var t, after := HandleIsRun(e, w, render, ds[0], st, s);
      RunsAppend(e, w, MovesOf(ds[0], st, t), AllMoves(render, ds[1..], Handle(render, ds[0], st).state));
      HandleAllIsRun(e, after, render, ds[1..], Handle(render, ds[0], st).state, s);
    }
  }

  // When the shards of a READY manifest are the rebuild of it.

  /** The index of a scope is that of a rebuild of its READY manifest. */
  ghost predicate ServingAt<I>(e: Engine<I>, w: World<I>, s: Scope) {
    forall k :: k in ReadyIn(w.rows, s) ==> IndexOf(e, w, s) == e.rebuild(Some(w.rows[k].manifest))
  }

  ghost predicate GoodTable(rows: Rows) {
    AtMostOneReady(rows) && forall k :: k in rows ==> WellFormed(rows[k].manifest)
  }

  /** A tree lists each path once, and the database returns the rows it was asked for. */
  ghost predicate GoodDelivery(d: Delivery) {
    forall r :: r in d.revisions && r.Resolved? ==> Enumerates(r.select) && DistinctPaths(Elements(r.files))
  }

  lemma {:induction false} PreparedAreNew(start: Rows, rows: Rows, job: Job, revisions: seq<Revision>,
                                          done: seq<Prepared>)
    requires start.Keys <= rows.Keys && forall p :: p in done ==> p.id !in start
    ensures var out := PrepareAll(rows, job, revisions, done);
            out.result.Ok? ==> forall p :: p in out.result.value ==> p.id !in start
    decreases |revisions|
  {
    if revisions != [] {
      var r := revisions[0];
      if r.Unresolved? {
        PreparedAreNew(start, rows, job, revisions[1..], done);
      } else if r.Resolved? && r.id !in rows {
        var after := PrepareOne(rows, r.id, ManifestOf(job, r), r.select, false);
        if !HasDuplicatePath(r.files) {
          PreparedAreNew(start, after, job, revisions[1..], done + [PreparedAs(after, job, r)]);
        }
      }
    }
  }

  /** A listed row is one this run inserted for one of its revisions. */
  lemma ListedRow(d: Delivery, st: State, i: nat) returns (r: Revision)
    requires i < |ListedIds(d, st)|
    ensures r in d.revisions && ListedIds(d, st)[i] in OutcomeOf(d, st.rows).rows
    ensures InsertedFor(st.rows, d.job, ListedIds(d, st)[i], OutcomeOf(d, st.rows).rows[ListedIds(d, st)[i]], r)
  {
    var out, id := OutcomeOf(d, st.rows), ListedIds(d, st)[i];
    ListedAreSelected(d, st);
    assert Selected(out.rows, d.job.org, id);
    PreparedAreNew(st.rows, st.rows, d.job, d.revisions, []);
    assert out.result.value[i] in out.result.value;
    PrepareAllExtends(st.rows, st.rows, d.job, [], d.revisions, []);
    assert [] + d.revisions == d.revisions;
    r :| r in d.revisions && InsertedFor(st.rows, d.job, id, out.rows[id], r);
  }

  /** The Zoekt plan of an inserted row is a NOOP exactly when its branch is READY with the same contents. */
  lemma NoopMeansSame(start: Rows, job: Job, id: string, row: Row, r: Revision, s: Scope)
    requires GoodTable(start) && InsertedFor(start, job, id, row, r) && Enumerates(r.select) && s == row.manifest.scope
    ensures row.plan.zoekt.strategy == ZoektNoop ==> ReadyIn(start, s) != {}
    ensures forall k :: k in ReadyIn(start, s) ==>
              (row.plan.zoekt.strategy == ZoektNoop <==> Touched(FileMap(start[k].manifest.files), FileMap(row.manifest.files)) == {})
  {
    var base := Previous(start, s);
    if base.Some? {
      assert base.value in ReadyIn(start, s);
      LoadedTouches(start[base.value].manifest, r.select, FileMap(r.files));
      BetweenZoekt(LoadBack(start[base.value].manifest, r.select), row.manifest);
    }
  }

  lemma BetweenZoekt(prev: Manifest, cur: Manifest)
    ensures Between(prev, cur, false).zoekt.strategy == ZoektNoop
            <==> Touched(FileMap(prev.files), FileMap(cur.files)) == {}
  {
  }

  lemma SameRebuild<T(!new)>(x: Extractor<T>, a: Files, b: Files)
    requires Separates(x)
    ensures Rebuild(x, a) == Rebuild(x, b) <==> Touched(a, b) == {}
  {
    if Touched(a, b) == {} {
      PatchRebuilds(x, a, b, {}, {});
      IdlePatch(x, Rebuild(x, a), b);
    } else if Rebuild(x, a) == Rebuild(x, b) {
      IdlePatch(x, Rebuild(x, a), b);
      PatchOnlyRebuilds(x, a, b, {}, {});
    }
  }

  /** So the rebuild of a listed row is that of its branch's READY row exactly when its Zoekt plan is a NOOP. */
  lemma NoopMeansSameShards<T(!new)>(x: Extractor<T>, d: Delivery, st: State, s: Scope, i: nat)
    requires Separates(x) && GoodTable(st.rows) && GoodDelivery(d)
    requires LastOfScope(OutcomeOf(d, st.rows).rows, d.job.org, ListedIds(d, st), s, i)
    ensures var row := OutcomeOf(d, st.rows).rows[ListedIds(d, st)[i]];
            && (row.plan.zoekt.strategy == ZoektNoop ==> ReadyIn(st.rows, s) != {})
            && (forall k :: k in ReadyIn(st.rows, s) ==>
                  (row.plan.zoekt.strategy == ZoektNoop
                   <==> ZoektEngine(x).rebuild(Some(st.rows[k].manifest)) == ZoektEngine(x).rebuild(Some(row.manifest))))
  {
    var id := ListedIds(d, st)[i];
    var r := ListedRow(d, st, i);
    NoopMeansSame(st.rows, d.job, id, OutcomeOf(d, st.rows).rows[id], r, s);
    ReadyShards(x, st.rows, OutcomeOf(d, st.rows).rows[id], s);
  }

  lemma ReadyShards<T(!new)>(x: Extractor<T>, start: Rows, row: Row, s: Scope)
    requires Separates(x)
    requires forall k :: k in ReadyIn(start, s) ==>
               (row.plan.zoekt.strategy == ZoektNoop <==> Touched(FileMap(start[k].manifest.files), FileMap(row.manifest.files)) == {})
    ensures forall k :: k in ReadyIn(start, s) ==>
              (row.plan.zoekt.strategy == ZoektNoop
               <==> ZoektEngine(x).rebuild(Some(start[k].manifest)) == ZoektEngine(x).rebuild(Some(row.manifest)))
  {
    forall k | k in ReadyIn(start, s)
      ensures ZoektEngine(x).rebuild(Some(start[k].manifest)) == ZoektEngine(x).rebuild(Some(row.manifest))
              <==> Touched(FileMap(start[k].manifest.files), FileMap(row.manifest.files)) == {}
    {
      SameShards(x, start[k].manifest, row.manifest);
    }
  }

  lemma SameShards<T(!new)>(x: Extractor<T>, a: Manifest, b: Manifest)
    requires Separates(x)
    ensures ZoektEngine(x).rebuild(Some(a)) == ZoektEngine(x).rebuild(Some(b))
            <==> Touched(FileMap(a.files), FileMap(b.files)) == {}
  {
    SameRebuild(x, FileMap(a.files), FileMap(b.files));
  }

  lemma {:induction false} LastExists(rows: Rows, org: int, ids: seq<string>, s: Scope) returns (i: nat)
    requires !UntouchedScope(rows, org, ids, s)
    ensures LastOfScope(rows, org, ids, s, i)
  {
    i := |ids| - 1;
    if !(Selected(rows, org, ids[i]) && rows[ids[i]].manifest.scope == s) {
      i := LastExists(rows, org, ids[..i], s);
    }
  }

  lemma SameServing<I>(e: Engine<I>, a: World<I>, b: World<I>, s: Scope)
    requires IndexOf(e, a, s) == IndexOf(e, b, s) && SameReadyRows(a.rows, b.rows, s)
    ensures ServingAt(e, a, s) <==> ServingAt(e, b, s)
  {
  }

  ghost predicate SameReadyRows(a: Rows, b: Rows, s: Scope) {
    ReadyIn(a, s) == ReadyIn(b, s) && forall k :: k in ReadyIn(a, s) ==> a[k].manifest == b[k].manifest
  }

  lemma CalmSameReady(a: Rows, b: Rows, s: Scope)
    requires L.CalmRows(a, b)
    ensures SameReadyRows(a, b, s)
  {
    forall k
      ensures (k in ReadyIn(a, s) <==> k in ReadyIn(b, s)) && (k in ReadyIn(a, s) ==> a[k].manifest == b[k].manifest)
    {
      assert L.RowCalm(a, b, k);
    }
  }

  /** A scope in which nothing is activated keeps its READY row. */
  lemma ReadyStays(d: Delivery, st: State, r: Run, t: Trouble, s: Scope)
    requires Ended(d, st, r, t)
    requires !r.activated || UntouchedScope(OutcomeOf(d, st.rows).rows, d.job.org, ListedIds(d, st), s)
    ensures SameReadyRows(st.rows, r.state.rows, s)
  {
    if r.activated {
      var rows, ids := OutcomeOf(d, st.rows).rows, ListedIds(d, st);
      L.PreparingIsCalm(st.rows, d.job, RevisionsUsed(d), []);
      CalmSameReady(st.rows, rows, s);
      ActivationKeepsOtherScopes(rows, d.job.org, ids, s);
      ActivateAllKeepsManifests(rows, d.job.org, ids);
    } else {
      CalmSameReady(st.rows, r.state.rows, s);
    }
  }

  lemma ListedIsReady(d: Delivery, st: State, r: Run, t: Trouble, s: Scope, i: nat)
    requires Ended(d, st, r, t) && r.activated
    requires LastOfScope(OutcomeOf(d, st.rows).rows, d.job.org, ListedIds(d, st), s, i)
    ensures var after, id := r.state.rows, ListedIds(d, st)[i];
            ReadyIn(after, s) == {id} && id in after && after[id].manifest == OutcomeOf(d, st.rows).rows[id].manifest
  {
    ActivationIsLastListed(OutcomeOf(d, st.rows).rows, d.job.org, ListedIds(d, st), s, i);
    ActivateAllKeepsManifests(OutcomeOf(d, st.rows).rows, d.job.org, ListedIds(d, st));
  }

  /** When the Zoekt run was not wanted, every listed plan is a NOOP. */
  lemma UnwantedIsNoop(d: Delivery, st: State, i: nat)
    requires d.zoektConfigured && Proceeds(d, st) && !ZoektWanted(d, st) && i < |ListedIds(d, st)|
    ensures ListedIds(d, st)[i] in OutcomeOf(d, st.rows).rows
    ensures OutcomeOf(d, st.rows).rows[ListedIds(d, st)[i]].plan.zoekt.strategy == ZoektNoop
  {
    var out := OutcomeOf(d, st.rows);
    L.PreparingIsCalm(st.rows, d.job, RevisionsUsed(d), []);
    assert L.Stands(out.rows, d.job, out.result.value[i]);
  }

  /** The last manifest the run listed in the scope had no Zoekt work planned. */
  ghost predicate ListedNoop(d: Delivery, st: State, s: Scope) {
    var rows, ids := OutcomeOf(d, st.rows).rows, ListedIds(d, st);
    forall i: nat :: LastOfScope(rows, d.job.org, ids, s, i) ==> rows[ids[i]].plan.zoekt.strategy == ZoektNoop
  }

  /** Whether a delivery leaves a scope's shards right, told from its answers, its plans and the shards before. */
  ghost predicate ServesAfter<I>(e: Engine<I>, w: World<I>, d: Delivery, st: State, t: Trouble, s: Scope) {
    if UntouchedScope(OutcomeOf(d, st.rows).rows, d.job.org, ListedIds(d, st), s) then ServingAt(e, w, s)
    else if Activates(t) then ZoektWanted(d, st) || ServingAt(e, w, s)
    else if ZoektApplied(d, st) then ReadyIn(st.rows, s) == {} || ListedNoop(d, st, s)
    else ServingAt(e, w, s)
  }

  /** Both worlds at a scope a run listed and activated. */
  lemma ActivatedServes<T(!new)>(x: Extractor<T>, e: Engine<map<string, T>>, w: World<map<string, T>>,
                                 after: World<map<string, T>>,
                                 d: Delivery, st: State, r: Run, t: Trouble, s: Scope, i: nat)
    requires e == ZoektEngine(x) && Separates(x) && Beside(e, w, st) && Ended(d, st, r, t) && Beside(e, after, r.state)
    requires GoodTable(st.rows) && GoodDelivery(d) && d.zoektConfigured && r.activated
    requires LastOfScope(OutcomeOf(d, st.rows).rows, d.job.org, ListedIds(d, st), s, i)
    requires !ZoektApplied(d, st) ==> IndexOf(e, after, s) == IndexOf(e, w, s)
    requires ZoektApplied(d, st) ==>
               IndexOf(e, after, s) == e.rebuild(Some(OutcomeOf(d, st.rows).rows[ListedIds(d, st)[i]].manifest))
    ensures ServingAt(e, after, s) <==> ZoektWanted(d, st) || ServingAt(e, w, s)
  {
    ListedIsReady(d, st, r, t, s, i);
    if !ZoektWanted(d, st) {
      UnwantedIsNoop(d, st, i);
      NoopMeansSameShards(x, d, st, s, i);
      var k :| k in ReadyIn(st.rows, s);
      assert ReadyIn(st.rows, s) == {k};
    }
  }

  /** Both worlds at a scope a stopped run rewrote. */
  lemma StoppedServes<T(!new)>(x: Extractor<T>, e: Engine<map<string, T>>, w: World<map<string, T>>,
                               after: World<map<string, T>>,
                               d: Delivery, st: State, r: Run, t: Trouble, s: Scope, i: nat)
    requires e == ZoektEngine(x) && Separates(x) && Beside(e, w, st) && Ended(d, st, r, t) && Beside(e, after, r.state)
    requires GoodTable(st.rows) && GoodDelivery(d) && !r.activated
    requires LastOfScope(OutcomeOf(d, st.rows).rows, d.job.org, ListedIds(d, st), s, i)
    requires IndexOf(e, after, s) == e.rebuild(Some(OutcomeOf(d, st.rows).rows[ListedIds(d, st)[i]].manifest))
    ensures ServingAt(e, after, s) <==> ReadyIn(st.rows, s) == {} || ListedNoop(d, st, s)
  {
    ReadyStays(d, st, r, t, s);
    NoopMeansSameShards(x, d, st, s, i);
    OnlyLast(OutcomeOf(d, st.rows).rows, d.job.org, ListedIds(d, st), s, i);
  }

  lemma OnlyLast(rows: Rows, org: int, ids: seq<string>, s: Scope, i: nat)
    requires LastOfScope(rows, org, ids, s, i)
    ensures forall j: nat :: LastOfScope(rows, org, ids, s, j) ==> j == i
  {
  }

  lemma DeliveryServes<T(!new)>(x: Extractor<T>, e: Engine<map<string, T>>, w: World<map<string, T>>,
                                d: Delivery, st: State, r: Run, t: Trouble, s: Scope)
    returns (after: World<map<string, T>>)
    requires e == ZoektEngine(x) && Separates(x) && Beside(e, w, st) && Ended(d, st, r, t)
    requires GoodTable(st.rows) && GoodDelivery(d) && d.zoektConfigured
    ensures after == Runs(e, w, MovesOf(d, st, t)) && Beside(e, after, r.state)
    ensures ServingAt(e, after, s) <==> ServesAfter(e, w, d, st, t, s)
  {
    var rows, ids := OutcomeOf(d, st.rows).rows, ListedIds(d, st);
    after := DeliveryIsRun(e, w, d, st, r, t, s);
    LastListedIsLast(rows, d.job.org, ids, s);
    if UntouchedScope(rows, d.job.org, ids, s) {
      ReadyStays(d, st, r, t, s);
      SameServing(e, w, after, s);
    } else {
      var i := LastExists(rows, d.job.org, ids, s);
      if r.activated {
        ActivatedServes(x, e, w, after, d, st, r, t, s, i);
      } else if ZoektApplied(d, st) {
        StoppedServes(x, e, w, after, d, st, r, t, s, i);
      } else {
        ReadyStays(d, st, r, t, s);
        SameServing(e, w, after, s);
      }
    }
  }

  /**
   * The exact law of the shards, scope by scope, whatever fails and whenever the run dies: after a
   * delivery the shards of the READY manifest are the rebuild of it if and only if `ServesAfter`.
   * In a scope it prepared, a run whose answers lead to activation is right if it ran Zoekt, and
   * otherwise if the shards were right before; a run stopped after Zoekt is right only if the scope
   * had nothing READY or nothing planned.  Everywhere else the shards are as right as they were.
   */
  lemma ShardLaw<T(!new)>(x: Extractor<T>, e: Engine<map<string, T>>, w: World<map<string, T>>, render: Renderer,
                          d: Delivery, st: State, s: Scope)
    returns (t: Trouble, after: World<map<string, T>>)
    requires e == ZoektEngine(x) && Separates(x) && Beside(e, w, st)
    requires GoodTable(st.rows) && GoodDelivery(d) && d.zoektConfigured
    ensures t == TroubleOf(render, d, st)
    ensures after == Runs(e, w, MovesOf(d, st, t)) && Beside(e, after, Handle(render, d, st).state)
    ensures ServingAt(e, after, s) <==> ServesAfter(e, w, d, st, t, s)
  {
    var r;
    r, t := HandleEnds(render, d, st);
    after := DeliveryServes(x, e, w, d, st, r, t, s);
  }

  // Whole sequences of deliveries.

  lemma CalmKeepsOneReady(a: Rows, b: Rows)
    requires L.CalmRows(a, b) && AtMostOneReady(a)
    ensures AtMostOneReady(b)
  {
    forall s, j, k | j in ReadyIn(b, s) && k in ReadyIn(b, s) ensures j == k {
      CalmSameReady(a, b, s);
    }
  }

  lemma PreparingKeepsGoodTable(d: Delivery, rows: Rows)
    requires GoodTable(rows) && GoodDelivery(d)
    ensures GoodTable(OutcomeOf(d, rows).rows)
  {
    var after := OutcomeOf(d, rows).rows;
    L.PreparingIsCalm(rows, d.job, RevisionsUsed(d), []);
    CalmKeepsOneReady(rows, after);
    PrepareAllExtends(rows, rows, d.job, [], RevisionsUsed(d), []);
    assert [] + RevisionsUsed(d) == RevisionsUsed(d);
    forall k | k in after ensures WellFormed(after[k].manifest) {
      AddedIsWellFormed(d, rows, after, k);
    }
  }

  lemma AddedIsWellFormed(d: Delivery, rows: Rows, after: Rows, k: string)
    requires GoodTable(rows) && GoodDelivery(d) && Extends(rows, after, d.job, RevisionsUsed(d)) && k in after
    ensures WellFormed(after[k].manifest)
  {
    if k !in rows {
      var r :| r in RevisionsUsed(d) && InsertedFor(rows, d.job, k, after[k], r);
      assert r in d.revisions;
      InsertedManifest(rows, d.job, k, after[k], r);
    }
  }

  lemma InsertedManifest(start: Rows, job: Job, id: string, row: Row, r: Revision)
    requires InsertedFor(start, job, id, row, r)
    ensures row.manifest == ManifestOf(job, r)
  {
  }

  lemma EndedKeepsGoodTable(d: Delivery, st: State, r: Run, t: Trouble)
    requires Ended(d, st, r, t) && GoodTable(st.rows) && GoodDelivery(d)
    ensures GoodTable(r.state.rows)
  {
    var rows, ids := OutcomeOf(d, st.rows).rows, ListedIds(d, st);
    PreparingKeepsGoodTable(d, st.rows);
    StepKeepsOneReady(rows, Activate(d.job.org, ids));
    StepKeepsOneReady(rows, Fail(ids, d.message));
    ActivateAllKeepsManifests(rows, d.job.org, ids);
  }

  ghost predicate AllServing<I>(e: Engine<I>, w: World<I>) {
    forall s :: ServingAt(e, w, s)
  }

  ghost predicate FinishesAt(d: Delivery, st: State, s: Scope) {
    || UntouchedScope(OutcomeOf(d, st.rows).rows, d.job.org, ListedIds(d, st), s)
    || ReadyIn(st.rows, s) == {} || ListedNoop(d, st, s)
  }

  /** The run activates what it rewrote, or what it rewrote was not READY or not changed. */
  ghost predicate Finishes(d: Delivery, st: State, t: Trouble) {
    Activates(t) || !ZoektApplied(d, st) || forall s :: FinishesAt(d, st, s)
  }

  ghost predicate AllFinish(render: Renderer, ds: seq<Delivery>, st: State)
    decreases |ds|
  {
    ds == [] || (Finishes(ds[0], st, TroubleOf(render, ds[0], st)) && AllFinish(render, ds[1..], Handle(render, ds[0], st).state))
  }

  ghost predicate ServingThroughout<I>(e: Engine<I>, w: World<I>, render: Renderer, ds: seq<Delivery>, st: State)
    decreases |ds|
  {
    && AllServing(e, w)
    && (ds == [] ||
        ServingThroughout(e, Runs(e, w, MovesOf(ds[0], st, TroubleOf(render, ds[0], st))), render, ds[1..],
                          Handle(render, ds[0], st).state))
  }

  lemma DeliveryFinishes<T(!new)>(x: Extractor<T>, e: Engine<map<string, T>>, w: World<map<string, T>>,
                                  d: Delivery, st: State, r: Run, t: Trouble) returns (after: World<map<string, T>>)
    requires e == ZoektEngine(x) && Separates(x) && Beside(e, w, st) && Ended(d, st, r, t)
    requires GoodTable(st.rows) && GoodDelivery(d) && d.zoektConfigured && AllServing(e, w)
    ensures after == Runs(e, w, MovesOf(d, st, t)) && Beside(e, after, r.state) && GoodTable(r.state.rows)
    ensures AllServing(e, after) <==> Finishes(d, st, t)
  {
    EndedKeepsGoodTable(d, st, r, t);
    after := DeliveryServes(x, e, w, d, st, r, t, Scope(0, "", 0, None, ""));
    forall s ensures ServingAt(e, after, s) <==> Activates(t) || !ZoektApplied(d, st) || FinishesAt(d, st, s) {
      var world := DeliveryServes(x, e, w, d, st, r, t, s);
      assert ServingAt(e, w, s);
    }
  }

  /**
   * Over every sequence of deliveries, whatever fails and whenever a run dies: in every scope and
   * after every delivery the shards are exactly those of a rebuild of the READY manifest, if and
   * only if every run finishes what it rewrote.
   */
  lemma {:induction false} DeliveriesServe<T(!new)>(x: Extractor<T>, e: Engine<map<string, T>>,
                                                    w: World<map<string, T>>,
                                                    render: Renderer, ds: seq<Delivery>, st: State)
    requires e == ZoektEngine(x) && Separates(x) && Beside(e, w, st) && GoodTable(st.rows) && AllServing(e, w)
    requires forall i :: 0 <= i < |ds| ==> GoodDelivery(ds[i]) && ds[i].zoektConfigured
    ensures ServingThroughout(e, w, render, ds, st) <==> AllFinish(render, ds, st)
    decreases |ds|
  {
    if ds != [] {
      var r, t := HandleEnds(render, ds[0], st);
      var after := DeliveryFinishes(x, e, w, ds[0], st, r, t);
      if Finishes(ds[0], st, t) {
        DeliveriesServe(x, e, after, render, ds[1..], r.state);
      }
    }
  }

  /** What repairs stale shards: the next run of the branch that has Zoekt work anywhere and activates. */
  lemma NextRunRepairs<T(!new)>(x: Extractor<T>, e: Engine<map<string, T>>, w: World<map<string, T>>, render: Renderer,
                                d: Delivery, st: State, s: Scope)
    returns (t: Trouble)
    requires e == ZoektEngine(x) && Separates(x) && Beside(e, w, st)
    requires GoodTable(st.rows) && GoodDelivery(d) && d.zoektConfigured && !ServingAt(e, w, s)
    requires !UntouchedScope(OutcomeOf(d, st.rows).rows, d.job.org, ListedIds(d, st), s)
    ensures t == TroubleOf(render, d, st)
    ensures Activates(t) ==> (ServingAt(e, Runs(e, w, MovesOf(d, st, t)), s) <==> ZoektWanted(d, st))
  {
    var after;
    t, after := ShardLaw(x, e, w, render, d, st, s);
  }

  // An input on which the promise fails.

  /** One revision, no handoff and no graph; every call works, but stamping fails if the run is to stop. */
  ghost predicate Plain(d: Delivery, r: Revision, stops: bool) {
    && d.revisions == [r] && r.Resolved? && !HasDuplicatePath(r.files) && d.preparing == Through
    && d.handoff == NoHandoff && d.zoektConfigured && !d.graphEnabled
    && forall c :: d.answer(c) == if stops && c == Stamp then Fails else Works
  }

  lemma PlainPrepares(d: Delivery, rows: Rows, r: Revision, stops: bool) returns (after: Rows, p: Prepared)
    requires Plain(d, r, stops) && r.id !in rows
    ensures after == PrepareOne(rows, r.id, ManifestOf(d.job, r), r.select, false) && p == PreparedAs(after, d.job, r)
    ensures PrepareAll(rows, d.job, d.revisions, []) == Outcome(after, Ok([p]))
  {
    after := PrepareOne(rows, r.id, ManifestOf(d.job, r), r.select, false);
    p := PreparedAs(after, d.job, r);
    assert d.revisions[1..] == [] && [] + [p] == [p];
    assert PrepareAll(after, d.job, [], [p]) == Outcome(after, Ok([p]));
  }

  /** What such a run does: it prepares, and activates unless stamping fails. */
  lemma PlainRuns(render: Renderer, d: Delivery, st: State, rev: Revision, stops: bool, after: Rows, p: Prepared)
    returns (r: Run, t: Trouble)
    requires Plain(d, rev, stops) && !Terminal(st, d.jobId)
    requires PrepareAll(st.rows, d.job, d.revisions, []) == Outcome(after, Ok([p]))
    ensures r == Handle(render, d, st) && t == TroubleOf(render, d, st) && Ended(d, st, r, t)
    ensures Proceeds(d, st) && OutcomeOf(d, st.rows) == Outcome(after, Ok([p])) && ListedIds(d, st) == [p.id]
    ensures ZoektWanted(d, st) <==> p.plan.zoekt.strategy != ZoektNoop
    ensures ZoektApplied(d, st) <==> ZoektWanted(d, st)
    ensures r.activated <==> !stops
    ensures stops ==> r.state == st.(jobs := st.jobs[d.jobId := InProgress], rows := after)
  {
    r, t := HandleEnds(render, d, st);
    assert IdsOf([p]) == [p.id];
    assert ZoektRuns(d, [p]) <==> p.plan.zoekt.strategy != ZoektNoop by { assert [p][0] == p; }
    var started := st.(jobs := st.jobs[d.jobId := InProgress], rows := after);
    assert r == HandoffPhase(render, d, started, [p]);
    PlainEngines(render, d, rev, stops, started, p);
  }

  lemma PlainEngines(render: Renderer, d: Delivery, rev: Revision, stops: bool, st: State, p: Prepared)
    requires Plain(d, rev, stops)
    ensures var r := HandoffPhase(render, d, st, [p]); (r.activated <==> !stops) && (stops ==> r.state == st)
  {
    assert ScipTrouble(d, [p]) == Works by { assert [p][1..] == []; }
    assert HandoffPhase(render, d, st, [p]) == StampPhase(d, st, [p]);
  }

  lemma OneListed(rows: Rows, org: int, id: string, s: Scope)
    requires Selected(rows, org, id) && rows[id].manifest.scope == s
    ensures LastOfScope(rows, org, [id], s, 0) && !UntouchedScope(rows, org, [id], s)
  {
    assert [id][0] == id;
  }

  /** A plan against the one READY row is a Zoekt NOOP exactly when nothing differs from it. */
  lemma NoopAgainst(rows: Rows, job: Job, r: Revision, row: Row, k: string, s: Scope)
    requires r.Resolved? && GoodTable(rows) && InsertedFor(rows, job, r.id, row, r) && Enumerates(r.select)
    requires s == ManifestOf(job, r).scope && k in rows && ReadyIn(rows, s) == {k}
    ensures row.plan.zoekt.strategy == ZoektNoop <==> Touched(FileMap(rows[k].manifest.files), FileMap(r.files)) == {}
  {
    NoopMeansSame(rows, job, r.id, row, r, s);
    assert k in ReadyIn(rows, s);
  }

  /** Preparing one row changes no other, nor what is READY. */
  lemma PreparedBeside(rows: Rows, job: Job, r: Revision, k: string, s: Scope, after: Rows)
    requires r.Resolved? && r.id !in rows && k in rows && ReadyIn(rows, s) == {k}
    requires after == PrepareOne(rows, r.id, ManifestOf(job, r), r.select, false)
    ensures after.Keys == rows.Keys + {r.id} && after[k] == rows[k] && ReadyIn(after, s) == {k}
    ensures after[r.id].manifest == ManifestOf(job, r) && InsertedFor(rows, job, r.id, after[r.id], r)
  {
    OnlyActivationMovesReady(rows, Prepare(r.id, ManifestOf(job, r), r.select, false), s);
  }

  /** The row a plain run prepares, and its plan against the READY row. */
  lemma PlainPlan(d: Delivery, rows: Rows, r: Revision, stops: bool, k: string, s: Scope)
    returns (after: Rows, p: Prepared)
    requires Plain(d, r, stops) && r.id !in rows && GoodTable(rows) && GoodDelivery(d)
    requires s == ManifestOf(d.job, r).scope && k in rows && ReadyIn(rows, s) == {k}
    ensures PrepareAll(rows, d.job, d.revisions, []) == Outcome(after, Ok([p])) && p.id == r.id
    ensures after.Keys == rows.Keys + {r.id} && after[k] == rows[k] && ReadyIn(after, s) == {k}
    ensures after[r.id].manifest == ManifestOf(d.job, r) && after[r.id].plan == p.plan
    ensures p.plan.zoekt.strategy == ZoektNoop <==> Touched(FileMap(rows[k].manifest.files), FileMap(r.files)) == {}
  {
    after, p := PlainPrepares(d, rows, r, stops);
    assert r in d.revisions;
    PreparedBeside(rows, d.job, r, k, s, after);
    NoopAgainst(rows, d.job, r, after[r.id], k, s);
  }

  /** The branch has a READY manifest `k` and the revision is new to the table. */
  ghost predicate Finds(st: State, job: Job, rev: Revision, k: string, s: Scope) {
    rev.Resolved? && s == ManifestOf(job, rev).scope && rev.id !in st.rows && k in st.rows && ReadyIn(st.rows, s) == {k}
  }

  ghost predicate SameContent(st: State, rev: Revision, k: string) {
    k in st.rows && rev.Resolved? && Touched(FileMap(st.rows[k].manifest.files), FileMap(rev.files)) == {}
  }

  /** The first run rewrites a branch that is READY with other contents, and stops: its shards are wrong. */
  lemma StoppedRunIsStale<T(!new)>(x: Extractor<T>, e: Engine<map<string, T>>, w: World<map<string, T>>,
                                   render: Renderer,
                                   d: Delivery, st: State, rev: Revision, k: string, s: Scope)
    returns (t: Trouble, left: State, after: World<map<string, T>>)
    requires e == ZoektEngine(x) && Separates(x) && Beside(e, w, st) && GoodTable(st.rows) && GoodDelivery(d)
    requires Plain(d, rev, true) && !Terminal(st, d.jobId) && Finds(st, d.job, rev, k, s) && !SameContent(st, rev, k)
    ensures t == TroubleOf(render, d, st) && left == Handle(render, d, st).state
    ensures after == Runs(e, w, MovesOf(d, st, t)) && Beside(e, after, left) && GoodTable(left.rows)
    ensures !ServingAt(e, after, s)
    ensures left.jobs == st.jobs[d.jobId := InProgress] && left.rows.Keys == st.rows.Keys + {rev.id}
    ensures left.rows[k] == st.rows[k] && ReadyIn(left.rows, s) == {k}
  {
    var rows, p := PlainPlan(d, st.rows, rev, true, k, s);
    var r;
    r, t := PlainRuns(render, d, st, rev, true, rows, p);
    left := r.state;
    after := DeliveryServes(x, e, w, d, st, r, t, s);
    EndedKeepsGoodTable(d, st, r, t);
    OneListed(rows, d.job.org, rev.id, s);
  }

  /**
   * The second run finds nothing to do for the READY contents, and makes them READY again over
   * whatever the shards are.
   */
  lemma RevertedRunKeeps<T(!new)>(x: Extractor<T>, e: Engine<map<string, T>>, w: World<map<string, T>>,
                                  render: Renderer,
                                  d: Delivery, st: State, rev: Revision, k: string, s: Scope)
    returns (t: Trouble, after: World<map<string, T>>)
    requires e == ZoektEngine(x) && Separates(x) && Beside(e, w, st) && GoodTable(st.rows) && GoodDelivery(d)
    requires Plain(d, rev, false) && !Terminal(st, d.jobId) && Finds(st, d.job, rev, k, s) && SameContent(st, rev, k)
    ensures t == TroubleOf(render, d, st)
    ensures after == Runs(e, w, MovesOf(d, st, t)) && Beside(e, after, Handle(render, d, st).state)
    ensures ReadyIn(after.rows, s) == {rev.id} && rev.id in after.rows
    ensures after.rows[rev.id].manifest == ManifestOf(d.job, rev)
    ensures ServingAt(e, after, s) <==> ServingAt(e, w, s)
  {
    var rows, p := PlainPlan(d, st.rows, rev, false, k, s);
    var r;
    r, t := PlainRuns(render, d, st, rev, false, rows, p);
    after := DeliveryServes(x, e, w, d, st, r, t, s);
    OneListed(rows, d.job.org, rev.id, s);
    ListedIsReady(d, st, r, t, s, 0);
  }

  /**
   * The promise fails on this input: manifest `k` is READY; a delivery with other contents for its
   * branch works up to and including Zoekt, and stamping fails; then the branch goes back to the
   * contents of `k`, and everything works.  The second run plans nothing, skips Zoekt and activates,
   * and its READY manifest is served from the shards of the run that was given up.
   */
  lemma RevertedBranchIsStale<T(!new)>(x: Extractor<T>, e: Engine<map<string, T>>, w: World<map<string, T>>,
                                       render: Renderer,
                                       stopped: Delivery, back: Delivery, st: State, b: Revision, c: Revision, k: string, s: Scope)
    returns (t: Trouble, left: State, between: World<map<string, T>>, u: Trouble, after: World<map<string, T>>)
    requires e == ZoektEngine(x) && Separates(x) && Beside(e, w, st) && GoodTable(st.rows)
    requires Plain(stopped, b, true) && Plain(back, c, false) && GoodDelivery(stopped) && GoodDelivery(back)
    requires !Terminal(st, stopped.jobId) && !Terminal(st, back.jobId) && b.id != c.id
    requires Finds(st, stopped.job, b, k, s) && Finds(st, back.job, c, k, s) && !SameContent(st, b, k)
    requires SameContent(st, c, k)
    ensures left == Handle(render, stopped, st).state && t == TroubleOf(render, stopped, st)
    ensures between == Runs(e, w, MovesOf(stopped, st, t))
    ensures u == TroubleOf(render, back, left) && after == Runs(e, between, MovesOf(back, left, u))
    ensures Beside(e, after, Handle(render, back, left).state)
    ensures ReadyIn(after.rows, s) == {c.id} && c.id in after.rows
    ensures after.rows[c.id].manifest == ManifestOf(back.job, c)
    ensures !ServingAt(e, after, s)
  {
    t, left, between := StoppedRunIsStale(x, e, w, render, stopped, st, b, k, s);
    FindsStill(st, left, stopped.jobId, back, b, c, k, s);
    u, after := RevertedRunKeeps(x, e, between, render, back, left, c, k, s);
  }

  lemma FindsStill(st: State, left: State, jobId: string, back: Delivery, b: Revision, c: Revision, k: string, s: Scope)
    requires !Terminal(st, back.jobId) && Finds(st, back.job, c, k, s) && SameContent(st, c, k) && b.Resolved?
    requires b.id != c.id
    requires left.jobs == st.jobs[jobId := InProgress] && left.rows.Keys == st.rows.Keys + {b.id}
    requires left.rows[k] == st.rows[k] && ReadyIn(left.rows, s) == {k}
    ensures !Terminal(left, back.jobId) && Finds(left, back.job, c, k, s) && SameContent(left, c, k)
  {
  }
}
