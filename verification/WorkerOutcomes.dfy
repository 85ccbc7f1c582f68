/**
 * What becomes of the job, told from the answers alone.  The stages a delivery would go through
 * if nothing stopped it are written down as a list; the first stage that does not work decides.
 */
module WorkerOutcomes {
  import opened Basics
  import opened Manifests
  import opened DeltaPlan
  import opened ManifestTable
  import G = GraphModel
  import opened Worker
  import L = WorkerLaws

  /** A call to the outside, or a check the handler makes itself. */
  datatype Stage = Calling(call: Call) | HasRevisions | PreparesAll | FitsPayload(id: string)

  datatype Trouble = NoTrouble | At(stage: Stage, answer: Answer)

  function AnswerAt(render: Renderer, d: Delivery, rows: Rows, stage: Stage): Answer {
    match stage
    case Calling(Handoff) => if d.handoff == OptionalHandoff && d.answer(Handoff) == Fails then Works else d.answer(Handoff)
    case Calling(call) => d.answer(call)
    case HasRevisions => if d.revisions == [] then Fails else Works
    case PreparesAll =>
      (match d.preparing
       case CutOff(_, dies) => if dies then Dies else Fails
       case Through => if PrepareAll(rows, d.job, d.revisions, []).result.Ok? then Works else Fails)
    case FitsPayload(id) =>
      if EmptySnapshot(d.snapshot(id)) || (render(d.snapshot(id)) != [] && !d.withinBudget(id)) then Fails else Works
  }

  /** The first stage that does not work. */
  function First(render: Renderer, d: Delivery, rows: Rows, stages: seq<Stage>): Trouble
    decreases |stages|
  {
    if stages == [] then NoTrouble
    else if AnswerAt(render, d, rows, stages[0]) != Works then At(stages[0], AnswerAt(render, d, rows, stages[0]))
    else First(render, d, rows, stages[1..])
  }

  // The stages, last first.

  function FinishStages(): seq<Stage> {
    [Calling(Complete), Calling(Refresh)]
  }

  function LastStages(): seq<Stage> {
    [Calling(Stamp), Calling(Record), Calling(ActivateRows)] + FinishStages()
  }

  function BuildStagesOf(d: Delivery, p: Prepared): seq<Stage> {
    if p.plan.graph.strategy == GraphNoop then []
    else [Calling(Materialize(p.id))]
         + (if G.ValidScope(GraphScope(d.job, p)) then [Calling(Scan(p.id)), FitsPayload(p.id)] else [])
  }

  function BuildStages(d: Delivery, ps: seq<Prepared>): seq<Stage>
    decreases |ps|
  {
    if ps == [] then [] else BuildStagesOf(d, ps[0]) + BuildStages(d, ps[1..])
  }

  function SendStages(ids: seq<string>): seq<Stage>
    decreases |ids|
  {
    if ids == [] then [] else [Calling(Enqueue(ids[0]))] + SendStages(ids[1..])
  }

  /** The revisions whose payload is sent. */
  function SentFor(render: Renderer, d: Delivery, ps: seq<Prepared>): seq<string>
    decreases |ps|
  {
    if ps == [] then []
    else (if BuildOne(render, d, ps[0]).BuiltFor? then [ps[0].id] else []) + SentFor(render, d, ps[1..])
  }

  function GraphStages(render: Renderer, d: Delivery, ps: seq<Prepared>): seq<Stage> {
    if d.graphEnabled then BuildStages(d, ps) + SendStages(SentFor(render, d, ps)) else []
  }

  function ScipStages(ps: seq<Prepared>): seq<Stage>
    decreases |ps|
  {
    if ps == [] then []
    else (if ps[0].plan.scip.strategy != ScipNoop then [Calling(RunScip(ps[0].id))] else []) + ScipStages(ps[1..])
  }

  function EngineStages(render: Renderer, d: Delivery, ps: seq<Prepared>): seq<Stage> {
    (if d.handoff != NoHandoff then [Calling(Handoff)] else [])
    + (if ZoektRuns(d, ps) then [Calling(RunZoekt)] else [])
    + (if d.scipEnabled then ScipStages(ps) else [])
    + GraphStages(render, d, ps)
    + LastStages()
  }

  /** Every stage of a delivery that got past marking its job IN_PROGRESS. */
  function Stages(render: Renderer, d: Delivery, rows: Rows): seq<Stage> {
    var out := PrepareAll(rows, d.job, d.revisions, []);
    [Calling(Checkout), HasRevisions, PreparesAll] + (if out.result.Ok? then EngineStages(render, d, out.result.value) else [])
  }

  // What each stage means for the job.

  /** Failing at these stages marks the job FAILED. */
  predicate MarksJob(stage: Stage) {
    match stage
    case Calling(Checkout) => true
    case HasRevisions => true
    case PreparesAll => true
    case Calling(RunZoekt) => true
    case _ => MarksManifestsFirst(stage)
  }

  /** At these the manifests are marked before the job is. */
  predicate MarksManifestsFirst(stage: Stage) {
    match stage
    case Calling(RunScip(_)) => true
    case Calling(Materialize(_)) => true
    case Calling(Scan(_)) => true
    case FitsPayload(_) => true
    case Calling(ActivateRows) => true
    case _ => false
  }

  /** At these the manifests are marked, with or without the job. */
  predicate MarksSome(stage: Stage) {
    MarksManifestsFirst(stage) || (stage.Calling? && stage.call.Enqueue?)
  }

  /** The job ends FAILED. */
  predicate FailsJob(d: Delivery, t: Trouble) {
    && t.At? && t.answer == Fails && MarksJob(t.stage) && Applied(d.answer(MarkJob))
    && (MarksManifestsFirst(t.stage) ==> !Died(d.answer(MarkManifests)))
  }

  /** The job ends COMPLETED: nothing went wrong up to and including completing it. */
  predicate CompletesJob(t: Trouble) {
    t.NoTrouble? || t.stage == Calling(Refresh) || (t.stage == Calling(Complete) && t.answer == WorksThenDies)
  }

  /** The activation takes effect: every stage before it works, and it does. */
  predicate Activates(t: Trouble) {
    || t.NoTrouble? || t.stage == Calling(Complete) || t.stage == Calling(Refresh)
    || (t.stage == Calling(ActivateRows) && t.answer == WorksThenDies)
  }

  /** The prepared manifests are marked FAILED. */
  predicate MarksRows(d: Delivery, t: Trouble) {
    && t.At? && t.answer == Fails && Applied(d.answer(MarkManifests))
    && MarksSome(t.stage)
  }

  /** What becomes of the rows once the manifests `ids` are prepared. */
  function RowsAfter(d: Delivery, before: Rows, ids: seq<string>, t: Trouble): Rows {
    if Activates(t) then ActivateAll(before, d.job.org, ids)
    else if MarksRows(d, t) then FailAll(before, ids, d.message)
    else before
  }

  function StatusAfter(d: Delivery, t: Trouble): JobStatus {
    if FailsJob(d, t) then JobFailed else if CompletesJob(t) then Completed else InProgress
  }

  /** The run is done, reports an error, or dies: at that stage, or while it marks what failed. */
  function EndingAfter(d: Delivery, t: Trouble): Ending {
    if t.NoTrouble? then Done
    else if Died(t.answer) then Crashed
    else if MarksSome(t.stage) && Died(d.answer(MarkManifests)) then Crashed
    else if MarksJob(t.stage) && Died(d.answer(MarkJob)) then Crashed
    else Error
  }

  // The phases go through the stages.

  lemma {:induction false} FirstAppend(render: Renderer, d: Delivery, rows: Rows, a: seq<Stage>, b: seq<Stage>)
    ensures First(render, d, rows, a + b) ==
            if First(render, d, rows, a).At? then First(render, d, rows, a) else First(render, d, rows, b)
    decreases |a|
  {
    if a == [] {
      assert a + b == b;
    } else {
      assert (a + b)[1..] == a[1..] + b;
      FirstAppend(render, d, rows, a[1..], b);
    }
  }

  lemma FirstCons(render: Renderer, d: Delivery, rows: Rows, stage: Stage, rest: seq<Stage>)
    ensures First(render, d, rows, [stage] + rest) ==
            if AnswerAt(render, d, rows, stage) == Works then First(render, d, rows, rest)
            else At(stage, AnswerAt(render, d, rows, stage))
  {
    assert ([stage] + rest)[1..] == rest;
  }

  /** The job row, the activation, the manifest rows and the ending of a run agree with the first trouble. */
  ghost predicate Agrees(d: Delivery, before: Rows, ids: seq<string>, r: Run, t: Trouble) {
    && d.jobId in r.state.jobs && r.state.jobs[d.jobId] == StatusAfter(d, t)
    && (r.activated <==> Activates(t))
    && r.state.rows == RowsAfter(d, before, ids, t)
    && r.ending == EndingAfter(d, t)
  }

  lemma ActivateAgrees(render: Renderer, d: Delivery, rows: Rows, st: State, ps: seq<Prepared>)
    requires L.Started(d, st)
    ensures Agrees(d, st.rows, IdsOf(ps), ActivatePhase(d, st, ps),
                   First(render, d, rows, [Calling(ActivateRows)] + FinishStages()))
  {
    FinishFirst(render, d, rows);
    FirstCons(render, d, rows, Calling(ActivateRows), FinishStages());
    if d.answer(ActivateRows) == Fails { GiveUpAgrees(d, st, IdsOf(ps), At(Calling(ActivateRows), Fails)); }
  }

  lemma LastAgrees(render: Renderer, d: Delivery, rows: Rows, st: State, ps: seq<Prepared>)
    requires L.Started(d, st)
    ensures Agrees(d, st.rows, IdsOf(ps), StampPhase(d, st, ps), First(render, d, rows, LastStages()))
  {
    var activate := [Calling(ActivateRows)] + FinishStages();
    assert LastStages() == [Calling(Stamp)] + ([Calling(Record)] + activate);
    FirstCons(render, d, rows, Calling(Stamp), [Calling(Record)] + activate);
    FirstCons(render, d, rows, Calling(Record), activate);
    if d.answer(Stamp) != Works {
      StoppedAgrees(d, st.rows, IdsOf(ps), StampPhase(d, st, ps), At(Calling(Stamp), d.answer(Stamp)));
    } else if d.answer(Record) != Works {
      StoppedAgrees(d, st.rows, IdsOf(ps), StampPhase(d, st, ps), At(Calling(Record), d.answer(Record)));
    } else {
      ActivateAgrees(render, d, rows, st, ps);
    }
  }

  lemma FinishFirst(render: Renderer, d: Delivery, rows: Rows)
    ensures First(render, d, rows, FinishStages()) ==
            if d.answer(Complete) != Works then At(Calling(Complete), d.answer(Complete))
            else if d.answer(Refresh) != Works then At(Calling(Refresh), d.answer(Refresh))
            else NoTrouble
  {
    FirstCons(render, d, rows, Calling(Complete), [Calling(Refresh)]);
    FirstCons(render, d, rows, Calling(Refresh), []);
    assert [Calling(Complete), Calling(Refresh)] == [Calling(Complete)] + [Calling(Refresh)];
    assert [Calling(Refresh)] == [Calling(Refresh)] + [];
  }

  lemma BuildOneFirst(render: Renderer, d: Delivery, rows: Rows, p: Prepared)
    ensures var t := First(render, d, rows, BuildStagesOf(d, p));
            && (t.NoTrouble? <==> BuildOne(render, d, p).Skipped? || BuildOne(render, d, p).BuiltFor?)
            && (t.At? ==> MarksManifestsFirst(t.stage) && IsEarly(t.stage))
            && (BuildOne(render, d, p).BuildFailed? <==> t.At? && t.answer == Fails)
            && (BuildOne(render, d, p).BuildDied? <==> t.At? && Died(t.answer))
            && (BuildOne(render, d, p).BuiltFor? ==> BuildOne(render, d, p).id == p.id)
  {
    if p.plan.graph.strategy != GraphNoop {
      var scan := [Calling(Scan(p.id)), FitsPayload(p.id)];
      assert scan == [Calling(Scan(p.id))] + [FitsPayload(p.id)] && [FitsPayload(p.id)] == [FitsPayload(p.id)] + [];
      FirstCons(render, d, rows, Calling(Materialize(p.id)), if G.ValidScope(GraphScope(d.job, p)) then scan else []);
      FirstCons(render, d, rows, Calling(Scan(p.id)), [FitsPayload(p.id)]);
      FirstCons(render, d, rows, FitsPayload(p.id), []);
    }
  }

  /** Building agrees with the trouble in its stages, and otherwise sends for `ids`. */
  ghost predicate BuildsAs(t: Trouble, all: Payloads, ids: seq<string>) {
    && (t.NoTrouble? ==> all == Payloads(ids))
    && (t.At? ==> MarksManifestsFirst(t.stage) && IsEarly(t.stage) && t.answer != Works)
    && (t.At? ==> all == if t.answer == Fails then PayloadsFailed else PayloadsDied)
  }

  lemma {:induction false} BuildFirst(render: Renderer, d: Delivery, rows: Rows, ps: seq<Prepared>, built: seq<string>)
    ensures BuildsAs(First(render, d, rows, BuildStages(d, ps)), BuildAll(render, d, ps, built),
                     built + SentFor(render, d, ps))
    decreases |ps|
  {
    if ps == [] {
      assert built + SentFor(render, d, ps) == built;
    } else {
      var here, later := BuildStagesOf(d, ps[0]), BuildStages(d, ps[1..]);
      var one := BuildOne(render, d, ps[0]);
      BuildOneFirst(render, d, rows, ps[0]);
      FirstAppend(render, d, rows, here, later);
      FirstIsTrouble(render, d, rows, here);
      var next := if one.BuiltFor? then built + [ps[0].id] else built;
      BuildFirst(render, d, rows, ps[1..], next);
      SentNext(render, d, ps, built, next);
      assert one.Skipped? || one.BuiltFor? ==> BuildAll(render, d, ps, built) == BuildAll(render, d, ps[1..], next);
    }
  }

  lemma SentNext(render: Renderer, d: Delivery, ps: seq<Prepared>, built: seq<string>, next: seq<string>)
    requires ps != [] && next == if BuildOne(render, d, ps[0]).BuiltFor? then built + [ps[0].id] else built
    ensures next + SentFor(render, d, ps[1..]) == built + SentFor(render, d, ps)
  {
  }

  lemma {:induction false} SendFirst(render: Renderer, d: Delivery, rows: Rows, st: State, ids: seq<string>)
    ensures var t, sent := First(render, d, rows, SendStages(ids)), EnqueueAll(d, st, ids);
            && sent.state.jobs == st.jobs && sent.state.rows == st.rows
            && (t.NoTrouble? <==> sent.Sent?)
            && (t.At? ==> t.stage.Calling? && t.stage.call.Enqueue? && t.answer != Works)
            && (t.At? ==> (t.answer == Fails <==> sent.SendFailed?))
    decreases |ids|
  {
    if ids != [] {
      FirstCons(render, d, rows, Calling(Enqueue(ids[0])), SendStages(ids[1..]));
      SendFirst(render, d, rows, st.(accepted := st.accepted + {ids[0]}), ids[1..]);
    }
  }

  lemma GiveUpAgrees(d: Delivery, st: State, ids: seq<string>, t: Trouble)
    requires L.Started(d, st) && t.At? && t.answer == Fails && MarksManifestsFirst(t.stage)
    ensures Agrees(d, st.rows, ids, GiveUp(d, st, ids), t)
  {
  }

  lemma GiveUpJobAgrees(d: Delivery, st: State, ids: seq<string>, t: Trouble)
    requires L.Started(d, st) && t.At? && t.answer == Fails && MarksJob(t.stage) && !MarksManifestsFirst(t.stage)
    ensures Agrees(d, st.rows, ids, GiveUpJob(d, st), t)
  {
  }

  /** A stage before the activation. */
  predicate IsEarly(stage: Stage) {
    stage != Calling(ActivateRows) && stage != Calling(Complete) && stage != Calling(Refresh)
  }

  /** Stopping early without marking anything leaves the job IN_PROGRESS and the rows as they were. */
  lemma StoppedAgrees(d: Delivery, before: Rows, ids: seq<string>, r: Run, t: Trouble)
    requires L.Started(d, r.state) && !r.activated && r.state.rows == before
    requires t.At? && IsEarly(t.stage) && (Died(t.answer) || (!MarksJob(t.stage) && !MarksSome(t.stage)))
    requires r.ending == if Died(t.answer) then Crashed else Error
    ensures Agrees(d, before, ids, r, t)
  {
  }

  lemma SendFailedAgrees(d: Delivery, st: State, ids: seq<string>, t: Trouble)
    requires L.Started(d, st) && t.At? && t.answer == Fails && t.stage.Calling? && t.stage.call.Enqueue?
    ensures Agrees(d, st.rows, ids, GiveUpManifests(d, st, ids), t)
  {
  }

  lemma SendAgrees(render: Renderer, d: Delivery, rows: Rows, st: State, ps: seq<Prepared>, ids: seq<string>)
    requires L.Started(d, st)
    ensures Agrees(d, st.rows, IdsOf(ps), match EnqueueAll(d, st, ids)
                                             case SendFailed(st') => GiveUpManifests(d, st', IdsOf(ps))
                                             case SendDied(st') => Run(st', Crashed, false)
                                             case Sent(st') => StampPhase(d, st', ps),
                   First(render, d, rows, SendStages(ids) + LastStages()))
  {
    SendFirst(render, d, rows, st, ids);
    FirstAppend(render, d, rows, SendStages(ids), LastStages());
    match EnqueueAll(d, st, ids)
    case Sent(st') => LastAgrees(render, d, rows, st', ps);
    case SendFailed(st') => SendFailedAgrees(d, st', IdsOf(ps), First(render, d, rows, SendStages(ids)));
    case SendDied(st') => StoppedAgrees(d, st.rows, IdsOf(ps), Run(st', Crashed, false),
                                        First(render, d, rows, SendStages(ids)));
  }

  lemma GraphAgrees(render: Renderer, d: Delivery, rows: Rows, st: State, ps: seq<Prepared>)
    requires L.Started(d, st)
    ensures Agrees(d, st.rows, IdsOf(ps), GraphPhase(render, d, st, ps),
                   First(render, d, rows, GraphStages(render, d, ps) + LastStages()))
  {
    if !d.graphEnabled {
      assert [] + LastStages() == LastStages();
      LastAgrees(render, d, rows, st, ps);
    } else {
      var build, send := BuildStages(d, ps), SendStages(SentFor(render, d, ps));
      assert GraphStages(render, d, ps) + LastStages() == build + (send + LastStages());
      FirstAppend(render, d, rows, build, send + LastStages());
      BuildFirst(render, d, rows, ps, []);
      var t := First(render, d, rows, build);
      assert [] + SentFor(render, d, ps) == SentFor(render, d, ps);
      if t.NoTrouble? {
        SendAgrees(render, d, rows, st, ps, SentFor(render, d, ps));
      } else if t.answer == Fails {
        GiveUpAgrees(d, st, IdsOf(ps), t);
      } else {
        StoppedAgrees(d, st.rows, IdsOf(ps), Run(st, Crashed, false), t);
      }
    }
  }

  lemma {:induction false} FirstIsTrouble(render: Renderer, d: Delivery, rows: Rows, stages: seq<Stage>)
    ensures First(render, d, rows, stages).At? ==> First(render, d, rows, stages).answer != Works
    decreases |stages|
  {
    if stages != [] { FirstIsTrouble(render, d, rows, stages[1..]); }
  }

  lemma {:induction false} ScipFirst(render: Renderer, d: Delivery, rows: Rows, ps: seq<Prepared>)
    ensures var t := First(render, d, rows, ScipStages(ps));
            && ScipTrouble(d, ps) == (if t.At? then t.answer else Works)
            && (t.At? ==> t.answer != Works && MarksManifestsFirst(t.stage) && IsEarly(t.stage))
    decreases |ps|
  {
    if ps != [] {
      ScipFirst(render, d, rows, ps[1..]);
      if ps[0].plan.scip.strategy != ScipNoop {
        FirstCons(render, d, rows, Calling(RunScip(ps[0].id)), ScipStages(ps[1..]));
      } else {
        assert [] + ScipStages(ps[1..]) == ScipStages(ps[1..]);
      }
    }
  }

  lemma ScipAgrees(render: Renderer, d: Delivery, rows: Rows, st: State, ps: seq<Prepared>)
    requires L.Started(d, st)
    ensures Agrees(d, st.rows, IdsOf(ps), ScipPhase(render, d, st, ps),
                   First(render, d, rows,
                         (if d.scipEnabled then ScipStages(ps) else []) + (GraphStages(render, d, ps) + LastStages())))
  {
    var rest := GraphStages(render, d, ps) + LastStages();
    GraphAgrees(render, d, rows, st, ps);
    if !d.scipEnabled {
      assert [] + rest == rest;
    } else {
      ScipFirst(render, d, rows, ps);
      FirstAppend(render, d, rows, ScipStages(ps), rest);
      var t := First(render, d, rows, ScipStages(ps));
      if t.At? && t.answer == Fails {
        GiveUpAgrees(d, st, IdsOf(ps), t);
      } else if t.At? {
        StoppedAgrees(d, st.rows, IdsOf(ps), Run(st, Crashed, false), t);
      }
    }
  }

  lemma ZoektAgrees(render: Renderer, d: Delivery, rows: Rows, st: State, ps: seq<Prepared>, rest: seq<Stage>)
    requires L.Started(d, st)
    requires Agrees(d, st.rows, IdsOf(ps), ScipPhase(render, d, st, ps), First(render, d, rows, rest))
    ensures Agrees(d, st.rows, IdsOf(ps), ZoektPhase(render, d, st, ps),
                   First(render, d, rows, (if ZoektRuns(d, ps) then [Calling(RunZoekt)] else []) + rest))
  {
    if !ZoektRuns(d, ps) {
      assert [] + rest == rest;
    } else {
      FirstCons(render, d, rows, Calling(RunZoekt), rest);
      var t := At(Calling(RunZoekt), d.answer(RunZoekt));
      if t.answer == Fails {
        GiveUpJobAgrees(d, st, IdsOf(ps), t);
      } else if t.answer != Works {
        StoppedAgrees(d, st.rows, IdsOf(ps), Run(st, Crashed, false), t);
      }
    }
  }

  lemma HandoffAgrees(render: Renderer, d: Delivery, rows: Rows, st: State, ps: seq<Prepared>, rest: seq<Stage>)
    requires L.Started(d, st)
    requires Agrees(d, st.rows, IdsOf(ps), ZoektPhase(render, d, st, ps), First(render, d, rows, rest))
    ensures Agrees(d, st.rows, IdsOf(ps), HandoffPhase(render, d, st, ps),
                   First(render, d, rows, (if d.handoff != NoHandoff then [Calling(Handoff)] else []) + rest))
  {
    if d.handoff == NoHandoff {
      assert [] + rest == rest;
    } else {
      FirstCons(render, d, rows, Calling(Handoff), rest);
      var t := At(Calling(Handoff), d.answer(Handoff));
      if AnswerAt(render, d, rows, Calling(Handoff)) != Works {
        StoppedAgrees(d, st.rows, IdsOf(ps), HandoffPhase(render, d, st, ps), t);
      }
    }
  }

  lemma Regroup(a: seq<Stage>, b: seq<Stage>, c: seq<Stage>, d: seq<Stage>, e: seq<Stage>)
    ensures a + b + c + d + e == a + (b + (c + (d + e)))
  {
  }

  lemma EnginesAgree(render: Renderer, d: Delivery, rows: Rows, st: State, ps: seq<Prepared>)
    requires L.Started(d, st)
    ensures Agrees(d, st.rows, IdsOf(ps), HandoffPhase(render, d, st, ps),
                   First(render, d, rows, EngineStages(render, d, ps)))
  {
    var handoff := if d.handoff != NoHandoff then [Calling(Handoff)] else [];
    var zoekt := if ZoektRuns(d, ps) then [Calling(RunZoekt)] else [];
    var scip := (if d.scipEnabled then ScipStages(ps) else []) + (GraphStages(render, d, ps) + LastStages());
    ScipAgrees(render, d, rows, st, ps);
    ZoektAgrees(render, d, rows, st, ps, scip);
    HandoffAgrees(render, d, rows, st, ps, zoekt + scip);
    Regroup(handoff, zoekt, if d.scipEnabled then ScipStages(ps) else [], GraphStages(render, d, ps), LastStages());
  }

  // What preparing leaves, and the whole run.

  function RevisionsUsed(d: Delivery): seq<Revision> {
    match d.preparing case Through => d.revisions case CutOff(n, _) => Cut(d.revisions, n)
  }

  function OutcomeOf(d: Delivery, rows: Rows): Outcome {
    PrepareAll(rows, d.job, RevisionsUsed(d), [])
  }

  /** The ids of the manifests prepared, when all of them are. */
  function PreparedIds(d: Delivery, rows: Rows): seq<string> {
    if d.preparing.Through? && OutcomeOf(d, rows).result.Ok? then IdsOf(OutcomeOf(d, rows).result.value) else []
  }

  lemma PrepareAgrees(render: Renderer, d: Delivery, st: State, rest: seq<Stage>)
    requires L.Started(d, st)
    requires var out := PrepareAll(st.rows, d.job, d.revisions, []);
             rest == if out.result.Ok? then EngineStages(render, d, out.result.value) else []
    ensures Agrees(d, OutcomeOf(d, st.rows).rows, PreparedIds(d, st.rows), PreparePhase(render, d, st),
                   First(render, d, st.rows, [PreparesAll] + rest))
  {
    FirstCons(render, d, st.rows, PreparesAll, rest);
    var t := At(PreparesAll, AnswerAt(render, d, st.rows, PreparesAll));
    var out, ids := OutcomeOf(d, st.rows), PreparedIds(d, st.rows);
    var st' := st.(rows := out.rows);
    if t.answer == Works {
      EnginesAgree(render, d, st.rows, st', out.result.value);
    } else if t.answer == Fails {
      GiveUpJobAgrees(d, st', ids, t);
    } else {
      StoppedAgrees(d, out.rows, ids, PreparePhase(render, d, st), t);
    }
  }

  /** The run gets to preparing, once its job is marked IN_PROGRESS. */
  predicate ChecksOut(d: Delivery) {
    d.answer(Checkout) == Works && d.revisions != []
  }

  function RowsPrepared(d: Delivery, rows: Rows): Rows {
    if ChecksOut(d) then OutcomeOf(d, rows).rows else rows
  }

  lemma CheckoutAgrees(render: Renderer, d: Delivery, st: State)
    requires L.Started(d, st)
    ensures Agrees(d, RowsPrepared(d, st.rows), PreparedIds(d, st.rows), CheckoutPhase(render, d, st),
                   First(render, d, st.rows, Stages(render, d, st.rows)))
  {
    var out := PrepareAll(st.rows, d.job, d.revisions, []);
    var ids := PreparedIds(d, st.rows);
    var rest := if out.result.Ok? then EngineStages(render, d, out.result.value) else [];
    assert Stages(render, d, st.rows) == [Calling(Checkout)] + ([HasRevisions] + ([PreparesAll] + rest));
    FirstCons(render, d, st.rows, Calling(Checkout), [HasRevisions] + ([PreparesAll] + rest));
    FirstCons(render, d, st.rows, HasRevisions, [PreparesAll] + rest);
    if ChecksOut(d) {
      PrepareAgrees(render, d, st, rest);
    } else if Died(d.answer(Checkout)) {
      StoppedAgrees(d, st.rows, ids, Run(st, Crashed, false), At(Calling(Checkout), d.answer(Checkout)));
    } else {
      GiveUpJobAgrees(d, st, ids,
                      if d.answer(Checkout) == Fails then At(Calling(Checkout), Fails) else At(HasRevisions, Fails));
    }
  }

  // The theorems.

  /**
   * Whatever fails and whenever the process dies, the job row, the activation and the manifest rows
   * after a delivery that started are decided by the first stage that does not work.
   */
  lemma RunIsTold(render: Renderer, d: Delivery, st: State)
    requires !Terminal(st, d.jobId) && d.answer(MarkInProgress) == Works
    ensures Agrees(d, RowsPrepared(d, st.rows), PreparedIds(d, st.rows), Handle(render, d, st),
                   TroubleOf(render, d, st))
  {
    CheckoutAgrees(render, d, st.(jobs := st.jobs[d.jobId := InProgress]));
  }

  lemma JobStatusIsExact(render: Renderer, d: Delivery, st: State)
    requires !Terminal(st, d.jobId) && d.answer(MarkInProgress) == Works
    ensures var after := Handle(render, d, st).state;
            d.jobId in after.jobs && after.jobs[d.jobId] == StatusAfter(d, TroubleOf(render, d, st))
  {
    RunIsTold(render, d, st);
  }

  /** A run reports success exactly when no stage, the last refresh included, gives any trouble. */
  lemma EndingIsTold(render: Renderer, d: Delivery, st: State)
    requires !Terminal(st, d.jobId) && d.answer(MarkInProgress) == Works
    ensures Handle(render, d, st).ending == EndingAfter(d, TroubleOf(render, d, st))
    ensures Handle(render, d, st).ending == Done <==> TroubleOf(render, d, st).NoTrouble?
  {
    RunIsTold(render, d, st);
  }

  /** Whether a delivery's activation takes effect, told before it is handled. */
  predicate WillActivate(render: Renderer, d: Delivery, st: State) {
    !Terminal(st, d.jobId) && d.answer(MarkInProgress) == Works && Activates(TroubleOf(render, d, st))
  }

  lemma ActivationIsTold(render: Renderer, d: Delivery, st: State)
    ensures Handle(render, d, st).activated <==> WillActivate(render, d, st)
  {
    if !Terminal(st, d.jobId) && d.answer(MarkInProgress) == Works { RunIsTold(render, d, st); }
  }

  /** The first stage of a delivery that does not work. */
  function TroubleOf(render: Renderer, d: Delivery, st: State): Trouble {
    First(render, d, st.rows, Stages(render, d, st.rows))
  }

  /**
   * A failure is final exactly when the first stage that does not work fails (rather than dies),
   * is one that marks the job, and marking it takes effect: then, and only then, does redelivering
   * the job change nothing although it never completed.
   */
  lemma FailureIsFinalExactly(render: Renderer, d: Delivery, again: Delivery, st: State)
    returns (t: Trouble, after: State)
    requires !Terminal(st, d.jobId) && d.answer(MarkInProgress) == Works
    requires again.jobId == d.jobId && again.answer(MarkInProgress) == Works
    ensures t == TroubleOf(render, d, st) && after == Handle(render, d, st).state && d.jobId in after.jobs
    ensures after.jobs[d.jobId] == JobFailed <==> FailsJob(d, t)
    ensures FailsJob(d, t) ==> Handle(render, again, after) == Run(after, Ignored, false)
    ensures !FailsJob(d, t) && !CompletesJob(t) ==>
              !Terminal(after, d.jobId) && Handle(render, again, after) == CheckoutPhase(render, again, after)
  {
    JobStatusIsExact(render, d, st);
    t, after := TroubleOf(render, d, st), Handle(render, d, st).state;
    AgainStarts(render, again, after, t, d);
  }

  lemma AgainStarts(render: Renderer, again: Delivery, after: State, t: Trouble, d: Delivery)
    requires again.jobId == d.jobId && again.answer(MarkInProgress) == Works
    requires d.jobId in after.jobs && after.jobs[d.jobId] == StatusAfter(d, t)
    ensures FailsJob(d, t) ==> Handle(render, again, after) == Run(after, Ignored, false)
    ensures !FailsJob(d, t) && !CompletesJob(t) ==>
              !Terminal(after, d.jobId) && Handle(render, again, after) == CheckoutPhase(render, again, after)
  {
    if !FailsJob(d, t) && !CompletesJob(t) {
      assert after.jobs[d.jobId := InProgress] == after.jobs;
    }
  }

  /** The stages whose failure leaves the job to be retried. */
  predicate Retried(stage: Stage) {
    stage.Calling? && (stage.call.Handoff? || stage.call.Enqueue? || stage.call.Stamp? || stage.call.Record? || stage.call.Complete?)
  }

  /**
   * A required handoff, a graph enqueue, the stamp, the record or completing that fails leaves the
   * job IN_PROGRESS, as dying anywhere before completing does; a failed refresh leaves it COMPLETED.
   */
  lemma OtherFailuresAreRetried(render: Renderer, d: Delivery, st: State) returns (t: Trouble, after: State)
    requires !Terminal(st, d.jobId) && d.answer(MarkInProgress) == Works
    ensures t == TroubleOf(render, d, st) && after == Handle(render, d, st).state && d.jobId in after.jobs
    ensures t.At? && t.answer == Fails && Retried(t.stage) ==> after.jobs[d.jobId] == InProgress
    ensures t.At? && t.stage == Calling(Refresh) ==> after.jobs[d.jobId] == Completed
    ensures t.At? && Died(t.answer) && !CompletesJob(t) ==> after.jobs[d.jobId] == InProgress
    ensures after.jobs[d.jobId] == Completed <==> CompletesJob(t)
  {
    JobStatusIsExact(render, d, st);
    t, after := TroubleOf(render, d, st), Handle(render, d, st).state;
  }

  /**
   * The smallest failing input: the checkout fails once, and the job can never run again, though
   * nothing was indexed.
   */
  lemma FailedCheckoutIsFinal(render: Renderer, d: Delivery, again: Delivery, st: State)
    requires !Terminal(st, d.jobId) && d.answer(MarkInProgress) == Works && d.answer(Checkout) == Fails
    requires d.answer(MarkJob) == Works
    requires again.jobId == d.jobId && forall c :: again.answer(c) == Works
    ensures var after := Handle(render, d, st).state;
            && after == st.(jobs := st.jobs[d.jobId := JobFailed])
            && Handle(render, again, after) == Run(after, Ignored, false)
  {
    assert st.jobs[d.jobId := InProgress][d.jobId := JobFailed] == st.jobs[d.jobId := JobFailed];
  }
}
