/**
 * The index job handler as a sequence of fallible steps.  Each call to the outside gets an
 * answer, chosen freely for every run: it works, it fails, the process dies before it, or it
 * works and the process dies after it.
 */
module Worker {
  import opened Basics
  import opened Manifests
  import opened DeltaPlan
  import opened ManifestTable
  import G = GraphModel
  import opened GraphTypes

  datatype JobStatus = Queued | InProgress | Completed | JobFailed

  /** The manifest rows, the job rows, and the manifests whose graph payload the queue has accepted. */
  datatype State = State(rows: Rows, jobs: map<string, JobStatus>, accepted: set<string>)

  datatype Answer = Works | Fails | Dies | WorksThenDies

  datatype Call =
    | MarkInProgress | Checkout | Handoff | RunZoekt | RunScip(id: string)
    | Materialize(id: string) | Scan(id: string) | Enqueue(id: string)
    | Stamp | Record | ActivateRows | Complete | Refresh
    | MarkManifests | MarkJob

  /** Preparing runs through, or is cut off after some revisions by an error or by the process dying. */
  datatype Preparing = Through | CutOff(after: nat, dies: bool)

  datatype HandoffMode = NoHandoff | OptionalHandoff | RequiredHandoff

  /** One delivery of a job: what it works on, its configuration, and how everything outside answers. */
  datatype Delivery = Delivery(
    jobId: string,
    job: Job,
    revisions: seq<Revision>,
    handoff: HandoffMode,
    zoektConfigured: bool,
    scipEnabled: bool,
    graphEnabled: bool,
    answer: Call -> Answer,
    preparing: Preparing,
    snapshot: string -> Snapshot,
    withinBudget: string -> bool,
    message: string)

  type Renderer = Snapshot -> seq<string>

  datatype Ending = Done | Ignored | Error | Crashed

  /** How a run ended, and whether its activation took effect. */
  datatype Run = Run(state: State, ending: Ending, activated: bool)

  predicate Applied(a: Answer) {
    a == Works || a == WorksThenDies
  }

  predicate Died(a: Answer) {
    a == Dies || a == WorksThenDies
  }

  // Giving up.

  function MarkJobFailed(d: Delivery, st: State): State {
    if Applied(d.answer(MarkJob)) && d.jobId in st.jobs then st.(jobs := st.jobs[d.jobId := JobFailed]) else st
  }

  function MarkAllFailed(d: Delivery, st: State, ids: seq<string>): State {
    if Applied(d.answer(MarkManifests)) then st.(rows := FailAll(st.rows, ids, d.message)) else st
  }

  /** Mark the job failed, if that works, and report the error. */
  function GiveUpJob(d: Delivery, st: State): Run {
    Run(MarkJobFailed(d, st), if Died(d.answer(MarkJob)) then Crashed else Error, false)
  }

  /** The manifests first, then the job; both best effort. */
  function GiveUp(d: Delivery, st: State, ids: seq<string>): Run {
    if Died(d.answer(MarkManifests)) then Run(MarkAllFailed(d, st, ids), Crashed, false)
    else GiveUpJob(d, MarkAllFailed(d, st, ids))
  }

  /** The manifests only. */
  function GiveUpManifests(d: Delivery, st: State, ids: seq<string>): Run {
    Run(MarkAllFailed(d, st, ids), if Died(d.answer(MarkManifests)) then Crashed else Error, false)
  }

  // The graph payloads.

  function GraphScope(job: Job, p: Prepared): G.CodeGraphScope {
    G.CodeGraphScope(job.org, job.repo, p.branch, p.commit, job.workspace, None, None)
  }

  predicate EmptySnapshot(s: Snapshot) {
    s.vertices == [] && s.edges == []
  }

  datatype Build = Skipped | BuiltFor(id: string) | BuildFailed | BuildDied

  /** What becomes of one prepared revision: no payload, a payload for its manifest, or the end of the run. */
  function BuildOne(render: Renderer, d: Delivery, p: Prepared): Build {
    if p.plan.graph.strategy == GraphNoop then Skipped
    else if Died(d.answer(Materialize(p.id))) then BuildDied
    else if d.answer(Materialize(p.id)) == Fails then BuildFailed
    else if !G.ValidScope(GraphScope(d.job, p)) then Skipped
    else if Died(d.answer(Scan(p.id))) then BuildDied
    else if d.answer(Scan(p.id)) == Fails then BuildFailed
    else if EmptySnapshot(d.snapshot(p.id)) then BuildFailed
    else if render(d.snapshot(p.id)) == [] then Skipped
    else if !d.withinBudget(p.id) then BuildFailed
    else BuiltFor(p.id)
  }

  datatype Payloads = Payloads(ids: seq<string>) | PayloadsFailed | PayloadsDied

  function BuildAll(render: Renderer, d: Delivery, ps: seq<Prepared>, built: seq<string>): Payloads
    decreases |ps|
  {
    if ps == [] then Payloads(built)
    else match BuildOne(render, d, ps[0])
      case Skipped => BuildAll(render, d, ps[1..], built)
      case BuiltFor(id) => BuildAll(render, d, ps[1..], built + [id])
      case BuildFailed => PayloadsFailed
      case BuildDied => PayloadsDied
  }

  datatype Sent = Sent(state: State) | SendFailed(state: State) | SendDied(state: State)

  function EnqueueAll(d: Delivery, st: State, ids: seq<string>): Sent
    decreases |ids|
  {
    if ids == [] then Sent(st)
    else
      var next := st.(accepted := st.accepted + {ids[0]});
      match d.answer(Enqueue(ids[0]))
      case Works => EnqueueAll(d, next, ids[1..])
      case Fails => SendFailed(st)
      case Dies => SendDied(st)
      case WorksThenDies => SendDied(next)
  }

  function IdsOf(ps: seq<Prepared>): (r: seq<string>)
    ensures |r| == |ps| && forall i :: 0 <= i < |ps| ==> r[i] == ps[i].id
  {
    seq(|ps|, i requires 0 <= i < |ps| => ps[i].id)
  }

  // The steps, last first.

  function Finish(d: Delivery, st: State): Run {
    var completed := st.(jobs := if d.jobId in st.jobs then st.jobs[d.jobId := Completed] else st.jobs);
    match d.answer(Complete)
    case Fails => Run(st, Error, true)
    case Dies => Run(st, Crashed, true)
    case WorksThenDies => Run(completed, Crashed, true)
    case Works =>
      Run(completed, match d.answer(Refresh) case Works => Done case Fails => Error case _ => Crashed, true)
  }

  function ActivatePhase(d: Delivery, st: State, ps: seq<Prepared>): Run {
    var activated := st.(rows := ActivateAll(st.rows, d.job.org, IdsOf(ps)));
    match d.answer(ActivateRows)
    case Fails => GiveUp(d, st, IdsOf(ps))
    case Dies => Run(st, Crashed, false)
    case WorksThenDies => Run(activated, Crashed, true)
    case Works => Finish(d, activated)
  }

  function StampPhase(d: Delivery, st: State, ps: seq<Prepared>): Run {
    if Died(d.answer(Stamp)) then Run(st, Crashed, false)
    else if d.answer(Stamp) == Fails then Run(st, Error, false)
    else if Died(d.answer(Record)) then Run(st, Crashed, false)
    else if d.answer(Record) == Fails then Run(st, Error, false)
    else ActivatePhase(d, st, ps)
  }

  function GraphPhase(render: Renderer, d: Delivery, st: State, ps: seq<Prepared>): Run {
    if !d.graphEnabled then StampPhase(d, st, ps)
    else match BuildAll(render, d, ps, [])
      case PayloadsFailed => GiveUp(d, st, IdsOf(ps))
      case PayloadsDied => Run(st, Crashed, false)
      case Payloads(ids) =>
        match EnqueueAll(d, st, ids)
        case SendFailed(st') => GiveUpManifests(d, st', IdsOf(ps))
        case SendDied(st') => Run(st', Crashed, false)
        case Sent(st') => StampPhase(d, st', ps)
  }

  /** The first answer among the SCIP runs that is not `Works`. */
  function ScipTrouble(d: Delivery, ps: seq<Prepared>): Answer
    decreases |ps|
  {
    if ps == [] then Works
    else if ps[0].plan.scip.strategy != ScipNoop && d.answer(RunScip(ps[0].id)) != Works then d.answer(RunScip(ps[0].id))
    else ScipTrouble(d, ps[1..])
  }

  function ScipPhase(render: Renderer, d: Delivery, st: State, ps: seq<Prepared>): Run {
    var a := if d.scipEnabled then ScipTrouble(d, ps) else Works;
    if Died(a) then Run(st, Crashed, false)
    else if a == Fails then GiveUp(d, st, IdsOf(ps))
    else GraphPhase(render, d, st, ps)
  }

  predicate ZoektRuns(d: Delivery, ps: seq<Prepared>) {
    d.zoektConfigured && exists i :: 0 <= i < |ps| && ps[i].plan.zoekt.strategy != ZoektNoop
  }

  function ZoektPhase(render: Renderer, d: Delivery, st: State, ps: seq<Prepared>): Run {
    var a := if ZoektRuns(d, ps) then d.answer(RunZoekt) else Works;
    if Died(a) then Run(st, Crashed, false)
    else if a == Fails then GiveUpJob(d, st)
    else ScipPhase(render, d, st, ps)
  }

  function HandoffPhase(render: Renderer, d: Delivery, st: State, ps: seq<Prepared>): Run {
    if d.handoff != NoHandoff && Died(d.answer(Handoff)) then Run(st, Crashed, false)
    else if d.handoff == RequiredHandoff && d.answer(Handoff) == Fails then Run(st, Error, false)
    else ZoektPhase(render, d, st, ps)
  }

  function Cut(revisions: seq<Revision>, n: nat): seq<Revision> {
    if n <= |revisions| then revisions[..n] else revisions
  }

  function PreparePhase(render: Renderer, d: Delivery, st: State): Run {
    match d.preparing
    case CutOff(n, dies) =>
      var st' := st.(rows := PrepareAll(st.rows, d.job, Cut(d.revisions, n), []).rows);
      if dies then Run(st', Crashed, false) else GiveUpJob(d, st')
    case Through =>
      var out := PrepareAll(st.rows, d.job, d.revisions, []);
      var st' := st.(rows := out.rows);
      match out.result
      case Err(_) => GiveUpJob(d, st')
      case Ok(ps) => HandoffPhase(render, d, st', ps)
  }

  function CheckoutPhase(render: Renderer, d: Delivery, st: State): Run {
    if Died(d.answer(Checkout)) then Run(st, Crashed, false)
    else if d.answer(Checkout) == Fails || d.revisions == [] then GiveUpJob(d, st)
    else PreparePhase(render, d, st)
  }

  predicate Terminal(st: State, jobId: string) {
    jobId !in st.jobs || !(st.jobs[jobId] == Queued || st.jobs[jobId] == InProgress)
  }

  /** `handle_index`. */
  function Handle(render: Renderer, d: Delivery, st: State): Run {
    var a := d.answer(MarkInProgress);
    if a == Fails then Run(st, Error, false)
    else if a == Dies then Run(st, Crashed, false)
    else if Terminal(st, d.jobId) then Run(st, if Died(a) then Crashed else Ignored, false)
    else
      var st' := st.(jobs := st.jobs[d.jobId := InProgress]);
      if Died(a) then Run(st', Crashed, false) else CheckoutPhase(render, d, st')
  }

  /** Deliveries one after the other, each starting where the last one left off. */
  function HandleAll(render: Renderer, ds: seq<Delivery>, st: State): State
    decreases |ds|
  {
    if ds == [] then st else HandleAll(render, ds[1..], Handle(render, ds[0], st).state)
  }
}
