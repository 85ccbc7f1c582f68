/** What a second delivery of a job does after the first one's activation took effect. */
module WorkerRedelivery {
  import opened Basics
  import opened Manifests
  import opened DeltaPlan
  import opened ManifestTable
  import opened Worker
  import L = WorkerLaws
  import opened WorkerOutcomes
  import S = WorkerShards

  /** The second delivery names only refs the first one resolved, unchanged. */
  ghost predicate SameRefs(d: Delivery, again: Delivery) {
    && again.job == d.job
    && forall r :: r in again.revisions && r.Resolved? ==>
         L.SameRef(L.ResolvedOf(d.revisions), r) && Enumerates(r.select) && DistinctPaths(Elements(r.files))
  }

  ghost predicate AllIdle(ps: seq<Prepared>) {
    forall i :: 0 <= i < |ps| ==> L.Idle(ps[i].plan)
  }

  /** With every plan idle no engine is called: the handoff, if any, and the bookkeeping are all that is left. */
  lemma {:induction false} IdleStages(render: Renderer, d: Delivery, ps: seq<Prepared>)
    requires AllIdle(ps)
    ensures BuildStages(d, ps) == [] && SentFor(render, d, ps) == [] && ScipStages(ps) == []
    decreases |ps|
  {
    if ps != [] {
      assert L.Idle(ps[0].plan);
      assert AllIdle(ps[1..]) by { assert forall i :: 0 <= i < |ps| - 1 ==> ps[1..][i] == ps[i + 1]; }
      IdleStages(render, d, ps[1..]);
    }
  }

  lemma IdleEngines(render: Renderer, d: Delivery, ps: seq<Prepared>)
    requires AllIdle(ps)
    ensures EngineStages(render, d, ps) == (if d.handoff != NoHandoff then [Calling(Handoff)] else []) + LastStages()
  {
    IdleStages(render, d, ps);
    assert !ZoektRuns(d, ps) by { assert forall i :: 0 <= i < |ps| ==> L.Idle(ps[i].plan); }
  }

  /** What the redelivery prepares is idle. */
  lemma RedeliveredPlans(render: Renderer, d: Delivery, again: Delivery, st: State, rows: Rows, ps: seq<Prepared>)
    requires Handle(render, d, st).activated && SameRefs(d, again) && FitsColumn(d.job.semantic)
    requires PrepareAll(Handle(render, d, st).state.rows, again.job, again.revisions, []) == Outcome(rows, Ok(ps))
    ensures AllIdle(ps)
  {
    var after := Handle(render, d, st).state.rows;
    L.PreparingIsCalm(after, d.job, again.revisions, []);
    S.PreparedAreNew(after, after, d.job, again.revisions, []);
    forall i | 0 <= i < |ps| ensures L.Idle(ps[i].plan) {
      assert L.Stands(rows, d.job, ps[i]) && ps[i] in ps;
      L.RedeliveryIsIdle(render, d, st, again.revisions, ps[i].id);
    }
  }

  /**
   * A redelivery after an activation, with unchanged refs and a fingerprint whose version fits,
   * whatever fails in it: every row it adds is planned idle, no engine is called, and the queue
   * accepts nothing from it.
   */
  lemma RedeliveryRunsNothing(render: Renderer, d: Delivery, again: Delivery, st: State)
    returns (after: State, last: State)
    requires Handle(render, d, st).activated && SameRefs(d, again) && FitsColumn(d.job.semantic)
    ensures after == Handle(render, d, st).state && last == Handle(render, again, after).state
    ensures last.accepted == after.accepted
    ensures forall k :: k in last.rows && k !in after.rows ==> L.Idle(last.rows[k].plan)
    ensures var out := PrepareAll(after.rows, again.job, again.revisions, []);
            out.result.Ok? ==>
              EngineStages(render, again, out.result.value) == (if again.handoff != NoHandoff then [Calling(Handoff)] else []) + LastStages()
  {
    after := Handle(render, d, st).state;
    last := Handle(render, again, after).state;
    var out := PrepareAll(after.rows, again.job, again.revisions, []);
    if out.result.Ok? {
      RedeliveredPlans(render, d, again, st, out.rows, out.result.value);
      IdleEngines(render, again, out.result.value);
    }
    RedeliverySendsNothing(render, d, again, st);
    forall k | k in last.rows && k !in after.rows ensures L.Idle(last.rows[k].plan) {
      RedeliveryAddsIdle(render, d, again, st, k);
    }
  }

  lemma RedeliverySendsNothing(render: Renderer, d: Delivery, again: Delivery, st: State)
    requires Handle(render, d, st).activated && SameRefs(d, again) && FitsColumn(d.job.semantic)
    ensures var after := Handle(render, d, st).state; Handle(render, again, after).state.accepted == after.accepted
  {
    var after := Handle(render, d, st).state;
    var last := Handle(render, again, after).state;
    var out := PrepareAll(after.rows, again.job, again.revisions, []);
    L.HandleSendsMore(render, again, after);
    if out.result.Ok? { RedeliveredPlans(render, d, again, st, out.rows, out.result.value); }
    forall id | id in last.accepted ensures id in after.accepted {
      if out.result.Ok? { IdleIsNotDeliverable(again, out.result.value, id); }
      if id !in after.accepted { L.OnlyDeliverablesAreAccepted(render, again, after, id); }
    }
  }

  lemma IdleIsNotDeliverable(d: Delivery, ps: seq<Prepared>, id: string)
    requires AllIdle(ps)
    ensures !L.DeliverableId(d, ps, id)
  {
    forall i | 0 <= i < |ps| ensures !L.Deliverable(d, ps[i]) {
      assert L.Idle(ps[i].plan);
    }
  }

  /** A row a delivery adds has the plan it was prepared with. */
  lemma AddedRow(render: Renderer, d: Delivery, st: State, k: string)
    requires k in Handle(render, d, st).state.rows && k !in st.rows
    ensures k in OutcomeOf(d, st.rows).rows
    ensures Handle(render, d, st).state.rows[k].plan == OutcomeOf(d, st.rows).rows[k].plan
  {
    var r, t := S.HandleEnds(render, d, st);
    ActivateAllKeepsManifests(OutcomeOf(d, st.rows).rows, d.job.org, S.ListedIds(d, st));
  }

  lemma RedeliveryAddsIdle(render: Renderer, d: Delivery, again: Delivery, st: State, k: string)
    requires Handle(render, d, st).activated && SameRefs(d, again) && FitsColumn(d.job.semantic)
    requires k !in Handle(render, d, st).state.rows
    requires k in Handle(render, again, Handle(render, d, st).state).state.rows
    ensures L.Idle(Handle(render, again, Handle(render, d, st).state).state.rows[k].plan)
  {
    AddedRow(render, again, Handle(render, d, st).state, k);
    assert forall r :: r in RevisionsUsed(again) ==> r in again.revisions;
    L.RedeliveryIsIdle(render, d, st, RevisionsUsed(again), k);
  }
}
