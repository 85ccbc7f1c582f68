/** What holds over every run of the handler, whatever fails and whenever it dies. */
module WorkerLaws {
  import opened Basics
  import opened Manifests
  import opened DeltaPlan
  import I = IndexRuns
  import R = Reindex
  import opened ManifestTable
  import G = GraphModel
  import opened GraphTypes
  import N = Ngql
  import opened Worker

  /** A snapshot with rows renders to at least one statement. */
  ghost predicate RendersRows(render: Renderer) {
    forall s :: !EmptySnapshot(s) ==> render(s) != []
  }

  /** The statement renderer does: the schema statements come first. */
  lemma StatementsRenderRows(l: N.Layout, fmt: N.NumberFormat)
    ensures RendersRows(s => N.SnapshotStatements(l, fmt, s))
  {
    assert |N.RenderSchemaStatements(l)| == |N.SchemaBodies(l)|;
  }

  function RowScope(m: Manifest): G.CodeGraphScope {
    G.CodeGraphScope(m.scope.org, m.scope.repo, m.scope.branch, m.commit, m.scope.workspace, None, None)
  }

  /** The manifest asks for graph work and has a scope in which it can be done. */
  ghost predicate NeedsGraph(row: Row) {
    row.plan.graph.strategy != GraphNoop && G.ValidScope(RowScope(row.manifest))
  }

  ghost predicate RowBacked(st: State, k: string) {
    k in st.rows && st.rows[k].status == Ready && NeedsGraph(st.rows[k]) ==> k in st.accepted
  }

  /** Every READY manifest that needs a graph has had its payload accepted. */
  ghost predicate Backed(st: State) {
    forall k :: RowBacked(st, k)
  }

  ghost predicate SameRow(a: Row, b: Row) {
    a.manifest == b.manifest && a.plan == b.plan && a.base == b.base
  }

  /** The row is not lost and keeps its contents, and it does not become READY or stop being READY. */
  ghost predicate RowCalm(a: Rows, b: Rows, k: string) {
    && (k in a ==> k in b && SameRow(a[k], b[k]) && (a[k].status == Ready <==> b[k].status == Ready))
    && (k in b && k !in a ==> b[k].status != Ready)
  }

  ghost predicate CalmRows(a: Rows, b: Rows) {
    forall k :: RowCalm(a, b, k)
  }

  ghost predicate Calm(a: State, b: State) {
    a.accepted <= b.accepted && CalmRows(a.rows, b.rows)
  }

  lemma CalmTransitive(a: State, b: State, c: State)
    requires Calm(a, b) && Calm(b, c)
    ensures Calm(a, c)
  {
    forall k ensures RowCalm(a.rows, c.rows, k) {
      assert RowCalm(a.rows, b.rows, k) && RowCalm(b.rows, c.rows, k);
    }
  }

  lemma CalmKeepsBacked(a: State, b: State)
    requires Calm(a, b) && Backed(a)
    ensures Backed(b)
  {
    forall k ensures RowBacked(b, k) {
      assert RowCalm(a.rows, b.rows, k) && RowBacked(a, k);
    }
  }

  lemma CalmKeepsReady(a: State, b: State, s: Scope)
    requires Calm(a, b)
    ensures ReadyIn(b.rows, s) == ReadyIn(a.rows, s)
  {
    forall k ensures k in ReadyIn(b.rows, s) <==> k in ReadyIn(a.rows, s) {
      assert RowCalm(a.rows, b.rows, k);
    }
  }

  lemma SameRowsAreCalm(a: State, b: State)
    requires a.rows == b.rows && a.accepted <= b.accepted
    ensures Calm(a, b)
  {
  }

  lemma FailingIsCalm(rows: Rows, ids: seq<string>, message: string)
    ensures CalmRows(rows, FailAll(rows, ids, message))
  {
  }

  lemma MarkJobIsCalm(d: Delivery, st: State)
    ensures Calm(st, GiveUpJob(d, st).state)
  {
    SameRowsAreCalm(st, GiveUpJob(d, st).state);
  }

  lemma MarkManifestsIsCalm(d: Delivery, st: State, ids: seq<string>)
    ensures Calm(st, MarkAllFailed(d, st, ids))
  {
    FailingIsCalm(st.rows, ids, d.message);
    SameRowsAreCalm(st, st);
  }

  lemma MarksAreCalm(d: Delivery, st: State, ids: seq<string>)
    ensures Calm(st, GiveUp(d, st, ids).state) && Calm(st, GiveUpManifests(d, st, ids).state)
  {
    MarkManifestsIsCalm(d, st, ids);
    MarkJobIsCalm(d, MarkAllFailed(d, st, ids));
    CalmTransitive(st, MarkAllFailed(d, st, ids), GiveUpJob(d, MarkAllFailed(d, st, ids)).state);
  }

  // Preparing.

  ghost predicate Stands(rows: Rows, job: Job, p: Prepared) {
    && p.id in rows && rows[p.id].plan == p.plan
    && rows[p.id].manifest.scope == Scope(job.org, job.workspace, job.repo, job.provider, p.branch) && rows[p.id].manifest.commit == p.commit
  }

  ghost predicate AllStand(rows: Rows, job: Job, ps: seq<Prepared>) {
    forall i :: 0 <= i < |ps| ==> Stands(rows, job, ps[i])
  }

  lemma InsertedIsCalm(rows: Rows, id: string, row: Row)
    requires id !in rows && row.status == Pending
    ensures CalmRows(rows, rows[id := row])
  {
  }

  lemma StandsAfter(rows: Rows, id: string, row: Row, job: Job, done: seq<Prepared>, p: Prepared)
    requires id !in rows && AllStand(rows, job, done) && Stands(rows[id := row], job, p)
    ensures AllStand(rows[id := row], job, done + [p])
  {
    forall i | 0 <= i < |done| ensures Stands(rows[id := row], job, done[i]) {
      assert Stands(rows, job, done[i]);
    }
  }

  lemma PreparingOneIsCalm(rows: Rows, job: Job, r: Revision, done: seq<Prepared>)
    requires r.Resolved? && r.id !in rows && AllStand(rows, job, done)
    ensures var after := PrepareOne(rows, r.id, ManifestOf(job, r), r.select, false);
            CalmRows(rows, after) && AllStand(after, job, done + [PreparedAs(after, job, r)])
  {
    var after := PrepareOne(rows, r.id, ManifestOf(job, r), r.select, false);
    InsertedIsCalm(rows, r.id, after[r.id]);
    StandsAfter(rows, r.id, after[r.id], job, done, PreparedAs(after, job, r));
  }

  lemma CalmRowsTransitive(a: Rows, b: Rows, c: Rows)
    requires CalmRows(a, b) && CalmRows(b, c)
    ensures CalmRows(a, c)
  {
    forall k ensures RowCalm(a, c, k) { assert RowCalm(a, b, k) && RowCalm(b, c, k); }
  }

  lemma {:induction false} PreparingIsCalm(rows: Rows, job: Job, revisions: seq<Revision>, done: seq<Prepared>)
    requires AllStand(rows, job, done)
    ensures var out := PrepareAll(rows, job, revisions, done);
            CalmRows(rows, out.rows) && (out.result.Ok? ==> AllStand(out.rows, job, out.result.value))
    decreases |revisions|
  {
    if revisions != [] {
      var r := revisions[0];
      if r.Unresolved? {
        PreparingIsCalm(rows, job, revisions[1..], done);
      } else if r.Resolved? && r.id !in rows {
        var after := PrepareOne(rows, r.id, ManifestOf(job, r), r.select, false);
        PreparingOneIsCalm(rows, job, r, done);
        if !HasDuplicatePath(r.files) {
          PreparingIsCalm(after, job, revisions[1..], done + [PreparedAs(after, job, r)]);
          CalmRowsTransitive(rows, after, PrepareAll(rows, job, revisions, done).rows);
        }
      }
    }
  }

  // Building and sending.

  /** Every listed revision that needs a graph has a payload built. */
  ghost predicate Wanted(d: Delivery, p: Prepared) {
    p.plan.graph.strategy != GraphNoop && G.ValidScope(GraphScope(d.job, p))
  }

  lemma {:induction false} BuiltHas(render: Renderer, d: Delivery, ps: seq<Prepared>, built: seq<string>, i: nat)
    requires RendersRows(render) && BuildAll(render, d, ps, built).Payloads?
    ensures built <= BuildAll(render, d, ps, built).ids
    ensures i < |ps| && Wanted(d, ps[i]) ==> ps[i].id in BuildAll(render, d, ps, built).ids
    decreases |ps|
  {
    if ps != [] {
      match BuildOne(render, d, ps[0]) {
        case Skipped => BuiltHas(render, d, ps[1..], built, if i > 0 then i - 1 else 0);
        case BuiltFor(id) =>
          BuiltHas(render, d, ps[1..], built + [id], if i > 0 then i - 1 else 0);
          assert (built + [id])[|built|] == id;
        case _ =>
      }
    }
  }

  lemma {:induction false} SendingIsCalm(d: Delivery, st: State, ids: seq<string>)
    ensures Calm(st, EnqueueAll(d, st, ids).state) && EnqueueAll(d, st, ids).state.jobs == st.jobs
    ensures EnqueueAll(d, st, ids).state.rows == st.rows
    ensures EnqueueAll(d, st, ids).Sent? ==> forall id :: id in ids ==> id in EnqueueAll(d, st, ids).state.accepted
    decreases |ids|
  {
    if ids != [] && d.answer(Enqueue(ids[0])) == Works {
      var next := st.(accepted := st.accepted + {ids[0]});
      SendingIsCalm(d, next, ids[1..]);
      assert ids == [ids[0]] + ids[1..];
    }
  }

  // Activating.

  lemma {:induction false} OnlyListedBecomeReady(rows: Rows, org: int, ids: seq<string>, k: string)
    requires k in rows && k in ActivateAll(rows, org, ids) && ActivateAll(rows, org, ids)[k].status == Ready
    ensures k in ids || rows[k].status == Ready
  {
    if ids != [] {
      var init, last := ids[..|ids| - 1], ids[|ids| - 1];
      ActivateAllKeepsManifests(rows, org, init);
      if k != last { OnlyListedBecomeReady(rows, org, init, k); }
    }
  }

  ghost predicate Covered(d: Delivery, st: State, ps: seq<Prepared>) {
    forall i :: 0 <= i < |ps| && Wanted(d, ps[i]) ==> ps[i].id in st.accepted
  }

  lemma ActivationKeepsBacked(d: Delivery, st: State, ps: seq<Prepared>)
    requires Backed(st) && AllStand(st.rows, d.job, ps) && Covered(d, st, ps)
    ensures Backed(st.(rows := ActivateAll(st.rows, d.job.org, IdsOf(ps))))
  {
    var after := ActivateAll(st.rows, d.job.org, IdsOf(ps));
    ActivateAllKeepsManifests(st.rows, d.job.org, IdsOf(ps));
    forall k | k in after && after[k].status == Ready && NeedsGraph(after[k]) ensures k in st.accepted {
      assert RowBacked(st, k);
      OnlyListedBecomeReady(st.rows, d.job.org, IdsOf(ps), k);
      if st.rows[k].status != Ready {
        var i :| 0 <= i < |IdsOf(ps)| && IdsOf(ps)[i] == k;
        assert Stands(st.rows, d.job, ps[i]);
        assert Wanted(d, ps[i]);
      }
    }
  }

  // The phases, last first.

  /** `g`: the graph is enabled and rows render to statements. */
  ghost predicate Keeps(g: bool, a: State, r: Run) {
    (g && Backed(a) ==> Backed(r.state)) && (!r.activated ==> Calm(a, r.state))
  }

  lemma CalmKeeps(g: bool, a: State, b: State, r: Run)
    requires Calm(a, b) && Keeps(g, b, r)
    ensures Keeps(g, a, r)
  {
    if Backed(a) { CalmKeepsBacked(a, b); }
    if !r.activated { CalmTransitive(a, b, r.state); }
  }

  lemma CalmEnd(g: bool, a: State, r: Run)
    requires Calm(a, r.state)
    ensures Keeps(g, a, r)
  {
    if Backed(a) { CalmKeepsBacked(a, r.state); }
  }

  lemma SameRowsBacked(a: State, b: State)
    requires a.rows == b.rows && a.accepted == b.accepted && Backed(a)
    ensures Backed(b)
  {
    forall k ensures RowBacked(b, k) { assert RowBacked(a, k); }
  }

  lemma ActivateKeeps(g: bool, d: Delivery, st: State, ps: seq<Prepared>)
    requires AllStand(st.rows, d.job, ps) && (g ==> Covered(d, st, ps))
    ensures Keeps(g, st, ActivatePhase(d, st, ps))
  {
    var activated := st.(rows := ActivateAll(st.rows, d.job.org, IdsOf(ps)));
    match d.answer(ActivateRows) {
      case Fails =>
        MarksAreCalm(d, st, IdsOf(ps));
        CalmEnd(g, st, GiveUp(d, st, IdsOf(ps)));
      case Dies => Unmoved(g, st, Crashed);
      case _ =>
        if g && Backed(st) {
          ActivationKeepsBacked(d, st, ps);
          SameRowsBacked(activated, Finish(d, activated).state);
        }
    }
  }

  lemma Unmoved(g: bool, st: State, ending: Ending)
    ensures Keeps(g, st, Run(st, ending, false))
  {
    SameRowsAreCalm(st, st);
  }

  lemma StampKeeps(g: bool, d: Delivery, st: State, ps: seq<Prepared>)
    requires AllStand(st.rows, d.job, ps) && (g ==> Covered(d, st, ps))
    ensures Keeps(g, st, StampPhase(d, st, ps))
  {
    Unmoved(g, st, Crashed);
    Unmoved(g, st, Error);
    ActivateKeeps(g, d, st, ps);
  }

  lemma SendKeeps(g: bool, render: Renderer, d: Delivery, st: State, ps: seq<Prepared>, ids: seq<string>)
    requires AllStand(st.rows, d.job, ps)
    requires g ==> forall i :: 0 <= i < |ps| && Wanted(d, ps[i]) ==> ps[i].id in ids
    ensures Keeps(g, st, match EnqueueAll(d, st, ids)
                      case SendFailed(st') => GiveUpManifests(d, st', IdsOf(ps))
                      case SendDied(st') => Run(st', Crashed, false)
                      case Sent(st') => StampPhase(d, st', ps))
  {
    SendingIsCalm(d, st, ids);
    match EnqueueAll(d, st, ids) {
      case Sent(st') =>
        StampKeeps(g, d, st', ps);
        CalmKeeps(g, st, st', StampPhase(d, st', ps));
      case SendFailed(st') =>
        MarksAreCalm(d, st', IdsOf(ps));
        CalmEnd(g, st', GiveUpManifests(d, st', IdsOf(ps)));
        CalmKeeps(g, st, st', GiveUpManifests(d, st', IdsOf(ps)));
      case SendDied(st') => CalmEnd(g, st, Run(st', Crashed, false));
    }
  }

  lemma GraphKeeps(g: bool, render: Renderer, d: Delivery, st: State, ps: seq<Prepared>)
    requires (g ==> RendersRows(render) && d.graphEnabled) && AllStand(st.rows, d.job, ps)
    ensures Keeps(g, st, GraphPhase(render, d, st, ps))
  {
    if !d.graphEnabled {
      StampKeeps(g, d, st, ps);
      return;
    }
    match BuildAll(render, d, ps, []) {
      case PayloadsFailed =>
        MarksAreCalm(d, st, IdsOf(ps));
        CalmEnd(g, st, GiveUp(d, st, IdsOf(ps)));
      case PayloadsDied => Unmoved(g, st, Crashed);
      case Payloads(ids) =>
        forall i | g && 0 <= i < |ps| && Wanted(d, ps[i]) ensures ps[i].id in ids { BuiltHas(render, d, ps, [], i); }
        SendKeeps(g, render, d, st, ps, ids);
    }
  }

  lemma ScipKeeps(g: bool, render: Renderer, d: Delivery, st: State, ps: seq<Prepared>)
    requires (g ==> RendersRows(render) && d.graphEnabled) && AllStand(st.rows, d.job, ps)
    ensures Keeps(g, st, ScipPhase(render, d, st, ps))
  {
    Unmoved(g, st, Crashed);
    MarksAreCalm(d, st, IdsOf(ps));
    CalmEnd(g, st, GiveUp(d, st, IdsOf(ps)));
    GraphKeeps(g, render, d, st, ps);
  }

  lemma HandoffKeeps(g: bool, render: Renderer, d: Delivery, st: State, ps: seq<Prepared>)
    requires (g ==> RendersRows(render) && d.graphEnabled) && AllStand(st.rows, d.job, ps)
    ensures Keeps(g, st, HandoffPhase(render, d, st, ps))
  {
    Unmoved(g, st, Crashed);
    Unmoved(g, st, Error);
    MarkJobIsCalm(d, st);
    CalmEnd(g, st, GiveUpJob(d, st));
    ScipKeeps(g, render, d, st, ps);
  }

  lemma GivingUpKeeps(g: bool, d: Delivery, st: State, st': State)
    requires Calm(st, st')
    ensures Keeps(g, st, GiveUpJob(d, st'))
  {
    MarkJobIsCalm(d, st');
    CalmEnd(g, st', GiveUpJob(d, st'));
    CalmKeeps(g, st, st', GiveUpJob(d, st'));
  }

  lemma PrepareKeeps(g: bool, render: Renderer, d: Delivery, st: State)
    requires g ==> RendersRows(render) && d.graphEnabled
    ensures Keeps(g, st, PreparePhase(render, d, st))
  {
    match d.preparing
    case CutOff(n, dies) =>
      PreparingIsCalm(st.rows, d.job, Cut(d.revisions, n), []);
      var st' := st.(rows := PrepareAll(st.rows, d.job, Cut(d.revisions, n), []).rows);
      GivingUpKeeps(g, d, st, st');
      CalmEnd(g, st, Run(st', Crashed, false));
    case Through =>
      PreparingIsCalm(st.rows, d.job, d.revisions, []);
      var out := PrepareAll(st.rows, d.job, d.revisions, []);
      var st' := st.(rows := out.rows);
      GivingUpKeeps(g, d, st, st');
      if out.result.Ok? {
        HandoffKeeps(g, render, d, st', out.result.value);
        CalmKeeps(g, st, st', HandoffPhase(render, d, st', out.result.value));
      }
  }

  lemma HandleKeeps(g: bool, render: Renderer, d: Delivery, st: State)
    requires g ==> RendersRows(render) && d.graphEnabled
    ensures Keeps(g, st, Handle(render, d, st))
  {
    Unmoved(g, st, Handle(render, d, st).ending);
    if !Terminal(st, d.jobId) && Applied(d.answer(MarkInProgress)) {
      var st' := st.(jobs := st.jobs[d.jobId := InProgress]);
      SameRowsAreCalm(st, st');
      CalmEnd(g, st, Run(st', Crashed, false));
      GivingUpKeeps(g, d, st, st');
      PrepareKeeps(g, render, d, st');
      CalmKeeps(g, st, st', PreparePhase(render, d, st'));
    }
  }

  // The theorems.

  /** Over every run of deliveries, a READY manifest that needs a graph has had its payload accepted by the queue. */
  lemma {:induction false} ReadyOnlyAfterAccepted(render: Renderer, ds: seq<Delivery>, st: State)
    requires RendersRows(render) && Backed(st) && forall i :: 0 <= i < |ds| ==> ds[i].graphEnabled
    ensures Backed(HandleAll(render, ds, st))
    decreases |ds|
  {
    if ds != [] {
      HandleKeeps(true, render, ds[0], st);
      ReadyOnlyAfterAccepted(render, ds[1..], Handle(render, ds[0], st).state);
    }
  }

  /** A run that stops before its activation takes effect leaves every scope's READY row as it was. */
  lemma StoppedRunKeepsReady(render: Renderer, d: Delivery, st: State, s: Scope)
    requires !Handle(render, d, st).activated
    ensures ReadyIn(Handle(render, d, st).state.rows, s) == ReadyIn(st.rows, s)
  {
    HandleKeeps(false, render, d, st);
    CalmKeepsReady(st, Handle(render, d, st).state, s);
  }

  /** A delivery for a terminal or unknown job changes nothing, however the outside answers. */
  lemma TerminalDeliveryChangesNothing(render: Renderer, d: Delivery, st: State)
    requires Terminal(st, d.jobId)
    ensures Handle(render, d, st).state == st
  {
  }

  // Redelivery after an activation.

  lemma StampActivated(d: Delivery, st: State, ps: seq<Prepared>)
    requires StampPhase(d, st, ps).activated
    ensures StampPhase(d, st, ps).state.rows == ActivateAll(st.rows, d.job.org, IdsOf(ps))
  {
  }

  lemma GraphActivated(render: Renderer, d: Delivery, st: State, ps: seq<Prepared>)
    requires GraphPhase(render, d, st, ps).activated
    ensures GraphPhase(render, d, st, ps).state.rows == ActivateAll(st.rows, d.job.org, IdsOf(ps))
  {
    if d.graphEnabled {
      var ids := BuildAll(render, d, ps, []).ids;
      SendingIsCalm(d, st, ids);
      StampActivated(d, EnqueueAll(d, st, ids).state, ps);
    } else {
      StampActivated(d, st, ps);
    }
  }

  lemma HandoffActivated(render: Renderer, d: Delivery, st: State, ps: seq<Prepared>)
    requires HandoffPhase(render, d, st, ps).activated
    ensures HandoffPhase(render, d, st, ps).state.rows == ActivateAll(st.rows, d.job.org, IdsOf(ps))
  {
    assert HandoffPhase(render, d, st, ps) == GraphPhase(render, d, st, ps);
    GraphActivated(render, d, st, ps);
  }

  /** The rows left by activating what preparing from `before` listed. */
  ghost predicate ActivatedFrom(d: Delivery, before: Rows, after: Rows) {
    var out := PrepareAll(before, d.job, d.revisions, []);
    out.result.Ok? && after == ActivateAll(out.rows, d.job.org, IdsOf(out.result.value))
  }

  lemma PrepareActivated(render: Renderer, d: Delivery, st: State)
    requires PreparePhase(render, d, st).activated
    ensures ActivatedFrom(d, st.rows, PreparePhase(render, d, st).state.rows)
  {
    var out := PrepareAll(st.rows, d.job, d.revisions, []);
    if d.preparing.Through? && out.result.Ok? {
      HandoffActivated(render, d, st.(rows := out.rows), out.result.value);
    }
  }

  /** An activation that took effect is that of the manifests the same run prepared. */
  lemma ActivatedIsPrepared(render: Renderer, d: Delivery, st: State)
    requires Handle(render, d, st).activated
    ensures ActivatedFrom(d, st.rows, Handle(render, d, st).state.rows)
  {
    var started := st.(jobs := st.jobs[d.jobId := InProgress]);
    assert Handle(render, d, st) == PreparePhase(render, d, started);
    PrepareActivated(render, d, started);
  }

  function ResolvedOf(revisions: seq<Revision>): (r: seq<Revision>)
    ensures forall i :: 0 <= i < |r| ==> r[i].Resolved?
    decreases |revisions|
  {
    if revisions == [] then [] else (if revisions[0].Resolved? then [revisions[0]] else []) + ResolvedOf(revisions[1..])
  }

  ghost predicate PreparedFrom(rows: Rows, job: Job, p: Prepared, r: Revision) {
    r.Resolved? && p.id == r.id && r.id in rows && rows[r.id].manifest == ManifestOf(job, r)
  }

  ghost predicate ListedFrom(rows: Rows, job: Job, ps: seq<Prepared>, rs: seq<Revision>) {
    |ps| == |rs| && forall i :: 0 <= i < |ps| ==> PreparedFrom(rows, job, ps[i], rs[i])
  }

  /** Every row of `a` is in `b`, unchanged. */
  ghost predicate KeepsRows(a: Rows, b: Rows) {
    forall k :: k in a ==> k in b && b[k] == a[k]
  }

  /** The first step of a preparation that goes through. */
  lemma PrepareStep(rows: Rows, job: Job, revisions: seq<Revision>, done: seq<Prepared>)
    returns (after: Rows, p: Prepared)
    requires revisions != [] && PrepareAll(rows, job, revisions, done).result.Ok?
    ensures revisions[0].Unresolved? ==>
              PrepareAll(rows, job, revisions, done) == PrepareAll(rows, job, revisions[1..], done)
    ensures !revisions[0].Unresolved? ==>
              && PreparedFrom(after, job, p, revisions[0]) && KeepsRows(rows, after)
              && PrepareAll(rows, job, revisions, done) == PrepareAll(after, job, revisions[1..], done + [p])
  {
    var r := revisions[0];
    after, p := rows, Prepared("", "", "", 0, FullPlan(Manifest(Scope(0, "", 0, None, ""), "", [], None, None)));
    if r.Resolved? {
      after := PrepareOne(rows, r.id, ManifestOf(job, r), r.select, false);
      p := PreparedAs(after, job, r);
    }
  }

  lemma ListedNext(rows: Rows, after: Rows, job: Job, done: seq<Prepared>, from: seq<Revision>, p: Prepared,
                   r: Revision)
    requires ListedFrom(rows, job, done, from) && KeepsRows(rows, after) && PreparedFrom(after, job, p, r)
    ensures ListedFrom(after, job, done + [p], from + [r])
  {
    forall i | 0 <= i < |done| ensures PreparedFrom(after, job, done[i], from[i]) {
      assert PreparedFrom(rows, job, done[i], from[i]);
    }
  }

  lemma RegroupRevisions(from: seq<Revision>, revisions: seq<Revision>)
    requires revisions != []
    ensures revisions[0].Resolved? ==>
              from + [revisions[0]] + ResolvedOf(revisions[1..]) == from + ResolvedOf(revisions)
    ensures !revisions[0].Resolved? ==> ResolvedOf(revisions[1..]) == ResolvedOf(revisions)
  {
  }

  /** The prepared manifests are those of the resolved revisions, in order. */
  lemma {:induction false} PreparedAreListed(rows: Rows, job: Job, revisions: seq<Revision>, done: seq<Prepared>,
                                             from: seq<Revision>, out: Outcome)
    requires ListedFrom(rows, job, done, from) && out == PrepareAll(rows, job, revisions, done) && out.result.Ok?
    ensures ListedFrom(out.rows, job, out.result.value, from + ResolvedOf(revisions))
    decreases |revisions|
  {
    if revisions == [] {
      assert from + ResolvedOf(revisions) == from;
    } else {
      RegroupRevisions(from, revisions);
      var after, p := PrepareStep(rows, job, revisions, done);
      if revisions[0].Unresolved? {
        PreparedAreListed(rows, job, revisions[1..], done, from, out);
      } else {
        ListedNext(rows, after, job, done, from, p, revisions[0]);
        PreparedAreListed(after, job, revisions[1..], done + [p], from + [revisions[0]], out);
      }
    }
  }

  /** `rs[i]` is the last resolved revision of its branch. */
  ghost predicate LastOfBranch(rs: seq<Revision>, i: nat) {
    i < |rs| && rs[i].Resolved? && forall j :: i < j < |rs| && rs[j].Resolved? ==> rs[j].branch != rs[i].branch
  }

  /** The READY row of the revision's branch is the revision's own row. */
  ghost predicate OwnRowIsReady(rows: Rows, job: Job, r: Revision)
    requires r.Resolved?
  {
    ReadyIn(rows, ManifestOf(job, r).scope) == {r.id} && r.id in rows && rows[r.id].manifest == ManifestOf(job, r)
  }

  lemma ListedBranchIsReady(rows: Rows, job: Job, ps: seq<Prepared>, rs: seq<Revision>, i: nat)
    requires ListedFrom(rows, job, ps, rs) && LastOfBranch(rs, i)
    ensures OwnRowIsReady(ActivateAll(rows, job.org, IdsOf(ps)), job, rs[i])
  {
    var ids := IdsOf(ps);
    assert PreparedFrom(rows, job, ps[i], rs[i]);
    forall j | i < j < |ids| && Selected(rows, job.org, ids[j])
      ensures rows[ids[j]].manifest.scope != ManifestOf(job, rs[i]).scope
    {
      assert PreparedFrom(rows, job, ps[j], rs[j]);
    }
    ActivationIsLastListed(rows, job.org, ids, ManifestOf(job, rs[i]).scope, i);
    ActivateAllKeepsManifests(rows, job.org, ids);
  }

  /** After an activation, the READY row of each branch is the one just prepared for it. */
  lemma ActivatedBranchIsReady(render: Renderer, d: Delivery, st: State, i: nat)
    requires Handle(render, d, st).activated && LastOfBranch(ResolvedOf(d.revisions), i)
    ensures OwnRowIsReady(Handle(render, d, st).state.rows, d.job, ResolvedOf(d.revisions)[i])
  {
    ActivatedIsPrepared(render, d, st);
    BranchIsReady(d, st.rows, Handle(render, d, st).state.rows, i);
  }

  lemma BranchIsReady(d: Delivery, before: Rows, after: Rows, i: nat)
    requires ActivatedFrom(d, before, after) && LastOfBranch(ResolvedOf(d.revisions), i)
    ensures OwnRowIsReady(after, d.job, ResolvedOf(d.revisions)[i])
  {
    var out := PrepareAll(before, d.job, d.revisions, []);
    PreparedAreListed(before, d.job, d.revisions, [], [], out);
    assert [] + ResolvedOf(d.revisions) == ResolvedOf(d.revisions);
    ListedBranchIsReady(out.rows, d.job, out.result.value, ResolvedOf(d.revisions), i);
  }

  ghost predicate Idle(plan: Plan) {
    plan.zoekt.strategy == ZoektNoop && plan.scip.strategy == ScipNoop && plan.graph.strategy == GraphNoop && plan.semantic.strategy == SemanticNoop
  }

  /** Planning the same files and fingerprint against a stored copy of themselves. */
  lemma SameManifestIsIdle(m: Manifest, select: Select)
    requires Enumerates(select) && DistinctPaths(Elements(m.files)) && m.toolchains == None
    ensures Idle(Between(LoadBack(m, select), m, false)) <==> FitsColumn(m.semantic)
  {
    var loaded := LoadBack(m, select);
    R.PlanIsIdle(loaded, m, false);
    LoadBackKeepsContents(m, select);
    SameContentsSameTouched(FileMap(loaded.files), FileMap(m.files), FileMap(m.files));
    I.NothingTouched(FileMap(m.files));
    I.LoadedFingerprintIsExact(m.semantic);
  }

  /** The redelivered revision is one the first run resolved, unchanged. */
  ghost predicate SameAs(first: Revision, r: Revision) {
    first.Resolved? && r.Resolved? && r.branch == first.branch && r.commit == first.commit && r.files == first.files
  }

  ghost predicate SameRef(rs: seq<Revision>, r: Revision) {
    exists i: nat :: LastOfBranch(rs, i) && SameAs(rs[i], r)
  }

  lemma PreparedAgainIsIdle(rows: Rows, job: Job, first: Revision, r: Revision)
    requires SameAs(first, r) && OwnRowIsReady(rows, job, first)
    requires Enumerates(r.select) && DistinctPaths(Elements(r.files))
    ensures Idle(PrepareOne(rows, r.id, ManifestOf(job, r), r.select, false)[r.id].plan) <==> FitsColumn(job.semantic)
  {
    assert ManifestOf(job, r) == ManifestOf(job, first);
    assert Previous(rows, ManifestOf(job, r).scope) == Some(first.id);
    SameManifestIsIdle(ManifestOf(job, r), r.select);
  }

  /**
   * Redelivering a job after its activation, with unchanged refs and fingerprint, plans NOOP for
   * every engine on every row it prepares, exactly when the fingerprint's version fits its column.
   */
  lemma RedeliveryIsIdle(render: Renderer, d: Delivery, st: State, again: seq<Revision>, k: string)
    requires Handle(render, d, st).activated
    requires forall r :: r in again && r.Resolved? ==>
               SameRef(ResolvedOf(d.revisions), r) && Enumerates(r.select) && DistinctPaths(Elements(r.files))
    requires k !in Handle(render, d, st).state.rows
    requires k in PrepareAll(Handle(render, d, st).state.rows, d.job, again, []).rows
    ensures Idle(PrepareAll(Handle(render, d, st).state.rows, d.job, again, []).rows[k].plan)
            <==> FitsColumn(d.job.semantic)
  {
    ActivatedIsPrepared(render, d, st);
    RedeliveredIsIdle(d, st.rows, Handle(render, d, st).state.rows, again, k);
  }

  lemma RedeliveredIsIdle(d: Delivery, before: Rows, after: Rows, again: seq<Revision>, k: string)
    requires ActivatedFrom(d, before, after)
    requires forall r :: r in again && r.Resolved? ==>
               SameRef(ResolvedOf(d.revisions), r) && Enumerates(r.select) && DistinctPaths(Elements(r.files))
    requires k !in after && k in PrepareAll(after, d.job, again, []).rows
    ensures Idle(PrepareAll(after, d.job, again, []).rows[k].plan) <==> FitsColumn(d.job.semantic)
  {
    PrepareAllExtends(after, after, d.job, [], again, []);
    assert [] + again == again;
    var r :| r in again && InsertedFor(after, d.job, k, PrepareAll(after, d.job, again, []).rows[k], r);
    var i: nat :| LastOfBranch(ResolvedOf(d.revisions), i) && SameAs(ResolvedOf(d.revisions)[i], r);
    BranchIsReady(d, before, after, i);
    PreparedAgainIsIdle(after, d.job, ResolvedOf(d.revisions)[i], r);
  }

  /** The graph of a revision carries the scope and the commit of the manifest prepared for it. */
  lemma PayloadScopeIsManifests(start: Rows, rows: Rows, job: Job, r: Revision)
    requires r.Resolved? && r.id in rows && InsertedFor(start, job, r.id, rows[r.id], r)
    ensures var scope, m := GraphScope(job, PreparedAs(rows, job, r)), rows[r.id].manifest;
            && scope.orgId == m.scope.org && scope.repoId == m.scope.repo && scope.workspaceId == m.scope.workspace
            && scope.revision == m.scope.branch && scope.commitHash == m.commit
            && G.SchemaVersionOf(scope) == G.SCHEMA_VERSION && G.BuilderVersionOf(scope) == G.BUILDER_VERSION
  {
  }

  // What the queue accepts.

  /** The revision needs a graph, and its snapshot has rows and fits the payload budget. */
  ghost predicate Deliverable(d: Delivery, p: Prepared) {
    Wanted(d, p) && !EmptySnapshot(d.snapshot(p.id)) && d.withinBudget(p.id)
  }

  ghost predicate DeliverableId(d: Delivery, ps: seq<Prepared>, id: string) {
    exists i :: 0 <= i < |ps| && ps[i].id == id && Deliverable(d, ps[i])
  }

  lemma {:induction false} BuiltOnly(render: Renderer, d: Delivery, ps: seq<Prepared>, built: seq<string>, id: string)
    requires BuildAll(render, d, ps, built).Payloads? && id in BuildAll(render, d, ps, built).ids
    ensures id in built || DeliverableId(d, ps, id)
    decreases |ps|
  {
    if ps != [] {
      var next := if BuildOne(render, d, ps[0]).BuiltFor? then built + [ps[0].id] else built;
      BuiltOnly(render, d, ps[1..], next, id);
      if DeliverableId(d, ps[1..], id) {
        var i :| 0 <= i < |ps[1..]| && ps[1..][i].id == id && Deliverable(d, ps[1..][i]);
        assert ps[i + 1] == ps[1..][i];
      }
    }
  }

  lemma {:induction false} SentOnly(d: Delivery, st: State, ids: seq<string>, id: string)
    requires id in EnqueueAll(d, st, ids).state.accepted
    ensures id in st.accepted || id in ids
    decreases |ids|
  {
    if ids != [] && d.answer(Enqueue(ids[0])) == Works {
      SentOnly(d, st.(accepted := st.accepted + {ids[0]}), ids[1..], id);
    }
  }

  lemma StampSendsNothing(d: Delivery, st: State, ps: seq<Prepared>)
    ensures StampPhase(d, st, ps).state.accepted == st.accepted
  {
  }

  lemma GraphSendsOnly(render: Renderer, d: Delivery, st: State, ps: seq<Prepared>, id: string)
    requires id in GraphPhase(render, d, st, ps).state.accepted && id !in st.accepted
    ensures d.graphEnabled && DeliverableId(d, ps, id)
  {
    StampSendsNothing(d, st, ps);
    if d.graphEnabled && BuildAll(render, d, ps, []).Payloads? {
      var ids := BuildAll(render, d, ps, []).ids;
      StampSendsNothing(d, EnqueueAll(d, st, ids).state, ps);
      SentOnly(d, st, ids, id);
      BuiltOnly(render, d, ps, [], id);
    }
  }

  lemma HandoffSendsOnly(render: Renderer, d: Delivery, st: State, ps: seq<Prepared>, id: string)
    requires id in HandoffPhase(render, d, st, ps).state.accepted && id !in st.accepted
    ensures d.graphEnabled && DeliverableId(d, ps, id)
  {
    if id in GraphPhase(render, d, st, ps).state.accepted { GraphSendsOnly(render, d, st, ps, id); }
  }

  lemma PrepareSendsOnly(render: Renderer, d: Delivery, st: State, out: Outcome, id: string)
    requires out == PrepareAll(st.rows, d.job, d.revisions, [])
    requires id in PreparePhase(render, d, st).state.accepted && id !in st.accepted
    ensures d.graphEnabled && out.result.Ok? && DeliverableId(d, out.result.value, id)
  {
    if d.preparing.Through? && out.result.Ok? {
      HandoffSendsOnly(render, d, st.(rows := out.rows), out.result.value, id);
    }
  }

  lemma StartedSends(render: Renderer, d: Delivery, st: State, id: string) returns (started: State)
    requires id in Handle(render, d, st).state.accepted && id !in st.accepted
    ensures started.rows == st.rows && started.accepted == st.accepted
    ensures id in PreparePhase(render, d, started).state.accepted
  {
    started := st.(jobs := st.jobs[d.jobId := InProgress]);
  }

  /**
   * A run hands the queue only payloads of manifests it prepared itself, with a valid scope, a
   * non-NOOP graph plan, a snapshot with rows and a size within the budget.
   */
  lemma OnlyDeliverablesAreAccepted(render: Renderer, d: Delivery, st: State, id: string)
    requires id in Handle(render, d, st).state.accepted && id !in st.accepted
    ensures d.graphEnabled
    ensures var out := PrepareAll(st.rows, d.job, d.revisions, []); out.result.Ok? && DeliverableId(d, out.result.value, id)
  {
    var started := StartedSends(render, d, st, id);
    PrepareSendsOnly(render, d, started, PrepareAll(started.rows, d.job, d.revisions, []), id);
  }

  /** Nothing the queue has accepted is ever taken back. */
  lemma HandleSendsMore(render: Renderer, d: Delivery, st: State)
    ensures st.accepted <= Handle(render, d, st).state.accepted
  {
    if !Terminal(st, d.jobId) && Applied(d.answer(MarkInProgress)) {
      var started := st.(jobs := st.jobs[d.jobId := InProgress]);
      var out := PrepareAll(started.rows, d.job, d.revisions, []);
      if d.preparing.Through? && out.result.Ok? {
        GraphSendsMore(render, d, started.(rows := out.rows), out.result.value);
      }
    }
  }

  lemma GraphSendsMore(render: Renderer, d: Delivery, st: State, ps: seq<Prepared>)
    ensures st.accepted <= GraphPhase(render, d, st, ps).state.accepted
  {
    StampSendsNothing(d, st, ps);
    if d.graphEnabled && BuildAll(render, d, ps, []).Payloads? {
      var ids := BuildAll(render, d, ps, []).ids;
      SendingIsCalm(d, st, ids);
      StampSendsNothing(d, EnqueueAll(d, st, ids).state, ps);
    }
  }

  // What the job row tells.

  /** The job row after a run that got past the first step. */
  ghost predicate Tells(d: Delivery, r: Run) {
    && d.jobId in r.state.jobs
    && (r.state.jobs[d.jobId] == Completed ==> r.activated)
    && (r.state.jobs[d.jobId] == JobFailed ==> !r.activated)
    && (r.ending == Done ==> r.state.jobs[d.jobId] == Completed)
    && r.state.jobs[d.jobId] != Queued
  }

  ghost predicate Started(d: Delivery, st: State) {
    d.jobId in st.jobs && st.jobs[d.jobId] == InProgress
  }

  lemma StampTells(d: Delivery, st: State, ps: seq<Prepared>)
    requires Started(d, st)
    ensures Tells(d, StampPhase(d, st, ps))
  {
  }

  lemma GraphTells(render: Renderer, d: Delivery, st: State, ps: seq<Prepared>)
    requires Started(d, st)
    ensures Tells(d, GraphPhase(render, d, st, ps))
  {
    StampTells(d, st, ps);
    if d.graphEnabled && BuildAll(render, d, ps, []).Payloads? {
      var ids := BuildAll(render, d, ps, []).ids;
      SendingIsCalm(d, st, ids);
      StampTells(d, EnqueueAll(d, st, ids).state, ps);
    }
  }

  lemma HandoffTells(render: Renderer, d: Delivery, st: State, ps: seq<Prepared>)
    requires Started(d, st)
    ensures Tells(d, HandoffPhase(render, d, st, ps))
  {
    GraphTells(render, d, st, ps);
  }

  lemma PrepareTells(render: Renderer, d: Delivery, st: State)
    requires Started(d, st)
    ensures Tells(d, PreparePhase(render, d, st))
  {
    var out := PrepareAll(st.rows, d.job, d.revisions, []);
    if d.preparing.Through? && out.result.Ok? {
      HandoffTells(render, d, st.(rows := out.rows), out.result.value);
    }
  }

  /**
   * A job is COMPLETED only by a run whose activation took effect, FAILED only by one whose did
   * not, and a run that ends well completes its job.
   */
  lemma JobTellsOutcome(render: Renderer, d: Delivery, st: State)
    requires !Terminal(st, d.jobId) && Applied(d.answer(MarkInProgress))
    ensures Tells(d, Handle(render, d, st))
  {
    PrepareTells(render, d, st.(jobs := st.jobs[d.jobId := InProgress]));
  }
}
