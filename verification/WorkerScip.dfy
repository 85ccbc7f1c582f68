/**
 * The handler's SCIP rows.  They are kept per repository, branch and commit, and are persisted long
 * before activation, one revision after the other, for the revisions that have SCIP work planned.
 */
module WorkerScip {
  import opened Basics
  import opened Manifests
  import opened DeltaPlan
  import opened ManifestTable
  import opened I = IndexRuns
  import opened Worker
  import L = WorkerLaws
  import opened WorkerOutcomes
  import opened WorkerShards

  datatype ScipKey = ScipKey(repo: int, revision: string, commit: string)

  function ScipKeyOf(m: Manifest): ScipKey {
    ScipKey(m.scope.repo, m.scope.branch, m.commit)
  }

  function KeyFor(job: Job, p: Prepared): ScipKey {
    ScipKey(job.repo, p.branch, p.commit)
  }

  /** The revisions whose rows are persisted: those with work planned, up to the first that does not work. */
  function Persisted(d: Delivery, ps: seq<Prepared>): seq<Prepared>
    decreases |ps|
  {
    if ps == [] then []
    else if ps[0].plan.scip.strategy == ScipNoop then Persisted(d, ps[1..])
    else
      match d.answer(RunScip(ps[0].id))
      case Works => [ps[0]] + Persisted(d, ps[1..])
      case WorksThenDies => [ps[0]]
      case _ => []
  }

  /** The run gets past Zoekt. */
  predicate ReachesScip(d: Delivery, st: State) {
    Proceeds(d, st) && d.scipEnabled && (ZoektWanted(d, st) ==> d.answer(RunZoekt) == Works)
  }

  function NewKeys(d: Delivery, st: State): set<ScipKey> {
    if ReachesScip(d, st) then set p | p in Persisted(d, OutcomeOf(d, st.rows).result.value) :: KeyFor(d.job, p) else {}
  }

  /** The commits with SCIP rows after a delivery; rows are replaced, never taken away. */
  function KeysAfter(d: Delivery, st: State, keys: set<ScipKey>): set<ScipKey> {
    keys + NewKeys(d, st)
  }

  ghost predicate NavigableAt(keys: set<ScipKey>, rows: Rows, s: Scope) {
    forall k :: k in ReadyIn(rows, s) ==> ScipKeyOf(rows[k].manifest) in keys
  }

  /** Every READY manifest has SCIP rows under its own commit. */
  ghost predicate Navigable(keys: set<ScipKey>, rows: Rows) {
    forall s :: NavigableAt(keys, rows, s)
  }

  // A run that activates has persisted everything planned.

  lemma ActivationReaches(render: Renderer, d: Delivery, st: State)
    requires Handle(render, d, st).activated
    ensures Proceeds(d, st) && (ZoektWanted(d, st) ==> d.answer(RunZoekt) == Works)
    ensures d.scipEnabled ==> ReachesScip(d, st) && ScipTrouble(d, OutcomeOf(d, st.rows).result.value) == Works
  {
    var r, t := HandleEnds(render, d, st);
    var out := OutcomeOf(d, st.rows);
    var started := st.(jobs := st.jobs[d.jobId := InProgress], rows := out.rows);
    assert r == HandoffPhase(render, d, started, out.result.value);
    assert r == ZoektPhase(render, d, started, out.result.value);
  }

  lemma {:induction false} PersistedAreAll(d: Delivery, ps: seq<Prepared>, p: Prepared)
    requires ScipTrouble(d, ps) == Works
    ensures p in Persisted(d, ps) <==> p in ps && p.plan.scip.strategy != ScipNoop
    decreases |ps|
  {
    if ps != [] {
      PersistedAreAll(d, ps[1..], p);
      assert ps == [ps[0]] + ps[1..];
    }
  }

  lemma {:induction false} PersistedAreListed(d: Delivery, ps: seq<Prepared>, p: Prepared)
    requires p in Persisted(d, ps)
    ensures p in ps && p.plan.scip.strategy != ScipNoop
    decreases |ps|
  {
    if ps[0].plan.scip.strategy == ScipNoop || p != ps[0] {
      PersistedAreListed(d, ps[1..], p);
    }
  }

  /** Only commits the run prepared and planned SCIP work for get rows. */
  lemma NewKeysArePlanned(d: Delivery, st: State, key: ScipKey) returns (i: nat)
    requires key in NewKeys(d, st)
    ensures var ps := OutcomeOf(d, st.rows).result.value;
            Proceeds(d, st) && i < |ps| && key == KeyFor(d.job, ps[i]) && ps[i].plan.scip.strategy != ScipNoop
  {
    var ps := OutcomeOf(d, st.rows).result.value;
    var p :| p in Persisted(d, ps) && KeyFor(d.job, p) == key;
    PersistedAreListed(d, ps, p);
    i :| 0 <= i < |ps| && ps[i] == p;
  }

  lemma ListedKey(d: Delivery, st: State, i: nat)
    requires i < |ListedIds(d, st)|
    ensures var ps, id, rows := OutcomeOf(d, st.rows).result.value, ListedIds(d, st)[i], OutcomeOf(d, st.rows).rows;
            i < |ps| && id in rows && rows[id].plan == ps[i].plan && ScipKeyOf(rows[id].manifest) == KeyFor(d.job, ps[i])
  {
    L.PreparingIsCalm(st.rows, d.job, RevisionsUsed(d), []);
    assert L.Stands(OutcomeOf(d, st.rows).rows, d.job, OutcomeOf(d, st.rows).result.value[i]);
  }

  /** In an activating run a listed manifest with SCIP work has its rows. */
  lemma PlannedIsPersisted(d: Delivery, st: State, i: nat)
    requires ReachesScip(d, st) && ScipTrouble(d, OutcomeOf(d, st.rows).result.value) == Works && i < |ListedIds(d, st)|
    requires OutcomeOf(d, st.rows).result.value[i].plan.scip.strategy != ScipNoop
    ensures KeyFor(d.job, OutcomeOf(d, st.rows).result.value[i]) in NewKeys(d, st)
  {
    var ps := OutcomeOf(d, st.rows).result.value;
    PersistedAreAll(d, ps, ps[i]);
    assert ps[i] in ps;
  }

  // One delivery.

  /** The last manifest the run lists in the scope has SCIP work, or its commit has rows already. */
  ghost predicate NamesScipAt(d: Delivery, st: State, keys: set<ScipKey>, s: Scope) {
    var rows, ids := OutcomeOf(d, st.rows).rows, ListedIds(d, st);
    forall i: nat :: LastOfScope(rows, d.job.org, ids, s, i) && rows[ids[i]].plan.scip.strategy == ScipNoop ==>
      ScipKeyOf(rows[ids[i]].manifest) in KeysAfter(d, st, keys)
  }

  lemma MoreKeys(keys: set<ScipKey>, more: set<ScipKey>, a: Rows, b: Rows, s: Scope)
    requires keys <= more && SameReadyRows(a, b, s) && NavigableAt(keys, a, s)
    ensures NavigableAt(more, b, s)
  {
  }

  lemma ActivatedNavigable(d: Delivery, st: State, r: Run, t: Trouble, keys: set<ScipKey>, s: Scope, i: nat)
    requires Ended(d, st, r, t) && r.activated && ReachesScip(d, st)
    requires ScipTrouble(d, OutcomeOf(d, st.rows).result.value) == Works
    requires LastOfScope(OutcomeOf(d, st.rows).rows, d.job.org, ListedIds(d, st), s, i)
    ensures NavigableAt(KeysAfter(d, st, keys), r.state.rows, s) <==> NamesScipAt(d, st, keys, s)
  {
    ListedIsReady(d, st, r, t, s, i);
    OnlyLast(OutcomeOf(d, st.rows).rows, d.job.org, ListedIds(d, st), s, i);
    ListedKey(d, st, i);
    if OutcomeOf(d, st.rows).result.value[i].plan.scip.strategy != ScipNoop { PlannedIsPersisted(d, st, i); }
  }

  /** A run stopped before its activation leaves every READY manifest its SCIP rows, whatever it persisted. */
  lemma StoppedRunKeepsScip(render: Renderer, d: Delivery, st: State, keys: set<ScipKey>, s: Scope)
    requires !Activates(TroubleOf(render, d, st)) && NavigableAt(keys, st.rows, s)
    ensures NavigableAt(KeysAfter(d, st, keys), Handle(render, d, st).state.rows, s)
  {
    var r, t := HandleEnds(render, d, st);
    ReadyStays(d, st, r, t, s);
    MoreKeys(keys, KeysAfter(d, st, keys), st.rows, r.state.rows, s);
  }

  /**
   * The exact law of the SCIP rows: after a delivery the READY manifest of a scope has rows under its
   * own commit if and only if the run stops before activation or lists, last in the scope, a manifest
   * with SCIP work or with a commit that has rows; given that it had them before.
   */
  lemma ScipLaw(render: Renderer, d: Delivery, st: State, keys: set<ScipKey>, s: Scope) returns (r: Run, t: Trouble)
    requires d.scipEnabled && NavigableAt(keys, st.rows, s)
    ensures r == Handle(render, d, st) && t == TroubleOf(render, d, st) && Ended(d, st, r, t)
    ensures NavigableAt(KeysAfter(d, st, keys), r.state.rows, s) <==> !Activates(t) || NamesScipAt(d, st, keys, s)
  {
    r, t := HandleEnds(render, d, st);
    var rows, ids := OutcomeOf(d, st.rows).rows, ListedIds(d, st);
    if r.activated && !UntouchedScope(rows, d.job.org, ids, s) {
      ActivationReaches(render, d, st);
      var i := LastExists(rows, d.job.org, ids, s);
      ActivatedNavigable(d, st, r, t, keys, s, i);
    } else {
      ReadyStays(d, st, r, t, s);
      MoreKeys(keys, KeysAfter(d, st, keys), st.rows, r.state.rows, s);
    }
  }

  // Whole sequences of deliveries.

  ghost predicate NamesScip(d: Delivery, st: State, t: Trouble, keys: set<ScipKey>) {
    !Activates(t) || forall s :: NamesScipAt(d, st, keys, s)
  }

  ghost predicate AllNameScip(render: Renderer, ds: seq<Delivery>, st: State, keys: set<ScipKey>)
    decreases |ds|
  {
    ds == [] ||
    (&& NamesScip(ds[0], st, TroubleOf(render, ds[0], st), keys)
     && AllNameScip(render, ds[1..], Handle(render, ds[0], st).state, KeysAfter(ds[0], st, keys)))
  }

  ghost predicate NavigableThroughout(render: Renderer, ds: seq<Delivery>, st: State, keys: set<ScipKey>)
    decreases |ds|
  {
    && Navigable(keys, st.rows)
    && (ds == [] || NavigableThroughout(render, ds[1..], Handle(render, ds[0], st).state, KeysAfter(ds[0], st, keys)))
  }

  lemma DeliveryNavigable(render: Renderer, d: Delivery, st: State, keys: set<ScipKey>) returns (r: Run, t: Trouble)
    requires d.scipEnabled && Navigable(keys, st.rows)
    ensures r == Handle(render, d, st) && t == TroubleOf(render, d, st)
    ensures Navigable(KeysAfter(d, st, keys), r.state.rows) <==> NamesScip(d, st, t, keys)
  {
    assert NavigableAt(keys, st.rows, Scope(0, "", 0, None, ""));
    r, t := ScipLaw(render, d, st, keys, Scope(0, "", 0, None, ""));
    forall s
      ensures NavigableAt(KeysAfter(d, st, keys), r.state.rows, s) <==> !Activates(t) || NamesScipAt(d, st, keys, s)
    {
      assert NavigableAt(keys, st.rows, s);
      var run, trouble := ScipLaw(render, d, st, keys, s);
    }
  }

  /**
   * Over every sequence of deliveries, whatever fails and whenever a run dies: every READY manifest
   * has SCIP rows under its own commit throughout, if and only if every activating run lists only
   * manifests with SCIP work or with commits that have rows.
   */
  lemma {:induction false} DeliveriesNavigable(render: Renderer, ds: seq<Delivery>, st: State, keys: set<ScipKey>)
    requires Navigable(keys, st.rows) && forall i :: 0 <= i < |ds| ==> ds[i].scipEnabled
    ensures NavigableThroughout(render, ds, st, keys) <==> AllNameScip(render, ds, st, keys)
    decreases |ds|
  {
    if ds != [] {
      var r, t := DeliveryNavigable(render, ds[0], st, keys);
      if NamesScip(ds[0], st, t, keys) {
        DeliveriesNavigable(render, ds[1..], r.state, KeysAfter(ds[0], st, keys));
      }
    }
  }

  // An input on which a READY commit has no SCIP rows.

  lemma SameContentScipNoop(base: Manifest, cur: Manifest, select: Select)
    requires Enumerates(select) && WellFormed(base) && cur.toolchains == None
    requires Touched(FileMap(base.files), FileMap(cur.files)) == {}
    ensures Between(LoadBack(base, select), cur, false).scip.strategy == ScipNoop
  {
    LoadedTouches(base, select, FileMap(cur.files));
    NothingChanged(FileMap(base.files), FileMap(cur.files));
  }

  lemma NothingChanged(p: Files, c: Files)
    requires Touched(p, c) == {}
    ensures ChangedRoots(p, c) == {}
  {
  }

  /** A new commit with the READY contents plans no SCIP work. */
  lemma RepeatedContentPlansNothing(d: Delivery, rows: Rows, r: Revision, k: string, s: Scope)
    returns (after: Rows, p: Prepared)
    requires Plain(d, r, false) && r.id !in rows && GoodTable(rows) && GoodDelivery(d)
    requires s == ManifestOf(d.job, r).scope && k in rows && ReadyIn(rows, s) == {k}
    requires Touched(FileMap(rows[k].manifest.files), FileMap(r.files)) == {}
    ensures PrepareAll(rows, d.job, d.revisions, []) == Outcome(after, Ok([p])) && p.id == r.id && p.branch == r.branch
    ensures p.commit == r.commit
    ensures r.id in after && after[r.id].manifest == ManifestOf(d.job, r) && after[r.id].plan == p.plan
    ensures p.plan.scip.strategy == ScipNoop
  {
    after, p := PlainPrepares(d, rows, r, false);
    assert r in d.revisions;
    assert Previous(rows, s) == Some(k) by { assert Previous(rows, s).value in ReadyIn(rows, s); }
    SameContentScipNoop(rows[k].manifest, ManifestOf(d.job, r), r.select);
  }

  /**
   * The input: a branch is READY, and a new commit with the same contents, which has no SCIP rows yet,
   * is delivered with every call working.  It becomes READY, and still has none.
   */
  lemma RepeatedContentHasNoScipRows(render: Renderer, d: Delivery, st: State, rev: Revision, k: string, s: Scope,
                                     keys: set<ScipKey>)
    returns (after: Rows)
    requires Plain(d, rev, false) && d.scipEnabled && GoodTable(st.rows) && GoodDelivery(d) && !Terminal(st, d.jobId)
    requires Finds(st, d.job, rev, k, s) && SameContent(st, rev, k) && ScipKeyOf(ManifestOf(d.job, rev)) !in keys
    ensures after == Handle(render, d, st).state.rows && ReadyIn(after, s) == {rev.id} && rev.id in after
    ensures after[rev.id].manifest == ManifestOf(d.job, rev) && !NavigableAt(KeysAfter(d, st, keys), after, s)
  {
    var rows, p := RepeatedContentPlansNothing(d, st.rows, rev, k, s);
    var r, t := PlainRuns(render, d, st, rev, false, rows, p);
    after := r.state.rows;
    OneListed(rows, d.job.org, rev.id, s);
    ListedIsReady(d, st, r, t, s, 0);
    assert Persisted(d, [p]) == [] by { assert [p][1..] == []; }
    assert NewKeys(d, st) == {};
  }
}
