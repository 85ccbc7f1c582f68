/** The handler as it runs: one method per stretch of the job, each doing what its phase says. */
module WorkerHandler {
  import opened Basics
  import opened DeltaPlan
  import opened ManifestTable
  import G = GraphModel
  import opened GraphTypes
  import opened Worker
  import L = WorkerLaws

  class IndexWorker {
    const manifests: IndexManifestManager
    var jobs: map<string, JobStatus>
    /** Manifests whose graph payload is in the queue. */
    var accepted: set<string>

    ghost function Value(): State
      reads this, manifests
    {
      State(manifests.rows, jobs, accepted)
    }

    constructor (m: IndexManifestManager, j: map<string, JobStatus>)
      ensures manifests == m && jobs == j && accepted == {}
    {
      manifests, jobs, accepted := m, j, {};
    }

    /** `handle_index`. */
    method HandleIndex(render: Renderer, d: Delivery) returns (ending: Ending, activated: bool)
      modifies this, manifests
      ensures Run(Value(), ending, activated) == Handle(render, d, old(Value()))
      ensures d.graphEnabled && L.RendersRows(render) && L.Backed(old(Value())) ==> L.Backed(Value())
      ensures !activated ==> forall s :: ReadyIn(manifests.rows, s) == ReadyIn(old(manifests.rows), s)
      ensures Terminal(old(Value()), d.jobId) ==> Value() == old(Value())
    {
      L.HandleKeeps(d.graphEnabled && L.RendersRows(render), render, d, Value());
      if !Handle(render, d, Value()).activated {
        forall s { L.StoppedRunKeepsReady(render, d, Value(), s); }
      }
      var a := d.answer(MarkInProgress);
      if a == Fails {
        return Error, false;
      }
      if a == Dies {
        return Crashed, false;
      }
      if d.jobId !in jobs || (jobs[d.jobId] != Queued && jobs[d.jobId] != InProgress) {
        return if a == WorksThenDies then Crashed else Ignored, false;
      }
      jobs := jobs[d.jobId := InProgress];
      if a == WorksThenDies || d.answer(Checkout) == Dies || d.answer(Checkout) == WorksThenDies {
        return Crashed, false;
      }
      if d.answer(Checkout) == Fails || d.revisions == [] {
        ending := FailJob(d);
        return ending, false;
      }
      ending, activated := PrepareAndIndex(render, d);
    }

    /** Best effort: the error of marking is swallowed. */
    method FailJob(d: Delivery) returns (ending: Ending)
      modifies this`jobs
      ensures Run(Value(), ending, false) == GiveUpJob(d, old(Value()))
    {
      var a := d.answer(MarkJob);
      if (a == Works || a == WorksThenDies) && d.jobId in jobs {
        jobs := jobs[d.jobId := JobFailed];
      }
      return if a == Dies || a == WorksThenDies then Crashed else Error;
    }

    method FailManifests(d: Delivery, ids: seq<string>) returns (ending: Ending)
      modifies manifests
      ensures Run(Value(), ending, false) == GiveUpManifests(d, old(Value()), ids)
    {
      var a := d.answer(MarkManifests);
      if a == Works || a == WorksThenDies {
        manifests.MarkManifestsFailed(ids, d.message);
      }
      return if a == Dies || a == WorksThenDies then Crashed else Error;
    }

    method FailBoth(d: Delivery, ids: seq<string>) returns (ending: Ending)
      modifies this`jobs, manifests
      ensures Run(Value(), ending, false) == GiveUp(d, old(Value()), ids)
    {
      ending := FailManifests(d, ids);
      if ending != Crashed {
        ending := FailJob(d);
      }
    }

    method PrepareAndIndex(render: Renderer, d: Delivery) returns (ending: Ending, activated: bool)
      modifies this, manifests
      ensures Run(Value(), ending, activated) == PreparePhase(render, d, old(Value()))
    {
      match d.preparing
      case CutOff(n, dies) =>
        var _ := manifests.PrepareRevisionManifests(d.job, Cut(d.revisions, n));
        if dies {
          return Crashed, false;
        }
        ending := FailJob(d);
        return ending, false;
      case Through =>
        var prepared := manifests.PrepareRevisionManifests(d.job, d.revisions);
        if prepared.Err? {
          ending := FailJob(d);
          return ending, false;
        }
        ending, activated := RunEngines(render, d, prepared.value);
    }

    /** The plan handoff, Zoekt and SCIP. */
    method RunEngines(render: Renderer, d: Delivery, ps: seq<Prepared>) returns (ending: Ending, activated: bool)
      modifies this, manifests
      ensures Run(Value(), ending, activated) == HandoffPhase(render, d, old(Value()), ps)
    {
      if d.handoff != NoHandoff {
        var a := d.answer(Handoff);
        if a == Dies || a == WorksThenDies {
          return Crashed, false;
        }
        if a == Fails && d.handoff == RequiredHandoff {
          return Error, false;
        }
      }
      if ZoektRuns(d, ps) {
        var a := d.answer(RunZoekt);
        if a == Dies || a == WorksThenDies {
          return Crashed, false;
        }
        if a == Fails {
          ending := FailJob(d);
          return ending, false;
        }
      }
      if d.scipEnabled {
        var a := RunScipIndexers(d, ps);
        if a == Dies || a == WorksThenDies {
          return Crashed, false;
        }
        if a == Fails {
          ending := FailBoth(d, IdsOf(ps));
          return ending, false;
        }
      }
      ending, activated := BuildAndEnqueue(render, d, ps);
    }

    method RunScipIndexers(d: Delivery, ps: seq<Prepared>) returns (a: Answer)
      ensures a == ScipTrouble(d, ps)
    {
      for i := 0 to |ps|
        invariant ScipTrouble(d, ps[i..]) == ScipTrouble(d, ps)
      {
        assert ps[i..][1..] == ps[i + 1..];
        if ps[i].plan.scip.strategy == ScipNoop {
          continue;
        }
        if d.answer(RunScip(ps[i].id)) != Works {
          return d.answer(RunScip(ps[i].id));
        }
      }
      return Works;
    }

    method BuildAndEnqueue(render: Renderer, d: Delivery, ps: seq<Prepared>) returns (ending: Ending, activated: bool)
      modifies this, manifests
      ensures Run(Value(), ending, activated) == GraphPhase(render, d, old(Value()), ps)
    {
      if d.graphEnabled {
        var payloads := BuildPayloads(render, d, ps);
        match payloads {
          case PayloadsDied =>
            return Crashed, false;
          case PayloadsFailed =>
            ending := FailBoth(d, IdsOf(ps));
            return ending, false;
          case Payloads(ids) =>
            var a := EnqueuePayloads(d, ids);
            if a == Fails {
              ending := FailManifests(d, IdsOf(ps));
              return ending, false;
            }
            if a != Works {
              return Crashed, false;
            }
        }
      }
      ending, activated := StampAndActivate(d, ps);
    }

    /** One payload per revision that needs a graph; an invalid scope skips the revision. */
    method BuildPayloads(render: Renderer, d: Delivery, ps: seq<Prepared>) returns (r: Payloads)
      ensures r == BuildAll(render, d, ps, [])
    {
      var ids: seq<string> := [];
      for i := 0 to |ps|
        invariant BuildAll(render, d, ps[i..], ids) == BuildAll(render, d, ps, [])
      {
        assert ps[i..][1..] == ps[i + 1..];
        var build := BuildPayload(render, d, ps[i]);
        match build {
          case BuildDied => return PayloadsDied;
          case BuildFailed => return PayloadsFailed;
          case Skipped =>
          case BuiltFor(id) => ids := ids + [id];
        }
      }
      return Payloads(ids);
    }

    method BuildPayload(render: Renderer, d: Delivery, p: Prepared) returns (r: Build)
      ensures r == BuildOne(render, d, p)
    {
      if p.plan.graph.strategy == GraphNoop {
        return Skipped;
      }
      var a := d.answer(Materialize(p.id));
      if a != Works {
        return if a == Fails then BuildFailed else BuildDied;
      }
      if G.ScopeViolation(GraphScope(d.job, p)).Some? {
        return Skipped;
      }
      a := d.answer(Scan(p.id));
      if a != Works {
        return if a == Fails then BuildFailed else BuildDied;
      }
      var snapshot := d.snapshot(p.id);
      if snapshot.vertices == [] && snapshot.edges == [] {
        return BuildFailed;
      }
      if render(snapshot) == [] {
        return Skipped;
      }
      return if d.withinBudget(p.id) then BuiltFor(p.id) else BuildFailed;
    }

    /** The answer that stopped the loop, or `Works`. */
    method EnqueuePayloads(d: Delivery, ids: seq<string>) returns (a: Answer)
      modifies this`accepted
      ensures EnqueueAll(d, old(Value()), ids) ==
              match a case Works => Sent(Value()) case Fails => SendFailed(Value()) case _ => SendDied(Value())
    {
      for i := 0 to |ids|
        invariant EnqueueAll(d, Value(), ids[i..]) == EnqueueAll(d, old(Value()), ids)
      {
        assert ids[i..][1..] == ids[i + 1..];
        a := d.answer(Enqueue(ids[i]));
        if a == Works || a == WorksThenDies {
          accepted := accepted + {ids[i]};
        }
        if a != Works {
          return;
        }
      }
      return Works;
    }

    method StampAndActivate(d: Delivery, ps: seq<Prepared>) returns (ending: Ending, activated: bool)
      modifies this, manifests
      ensures Run(Value(), ending, activated) == StampPhase(d, old(Value()), ps)
    {
      if d.answer(Stamp) != Works {
        return if d.answer(Stamp) == Fails then Error else Crashed, false;
      }
      if d.answer(Record) != Works {
        return if d.answer(Record) == Fails then Error else Crashed, false;
      }
      var a := d.answer(ActivateRows);
      if a == Fails {
        ending := FailBoth(d, IdsOf(ps));
        return ending, false;
      }
      if a == Dies {
        return Crashed, false;
      }
      manifests.ActivateManifests(d.job.org, IdsOf(ps));
      if a == WorksThenDies {
        return Crashed, true;
      }
      ending := CompleteJob(d);
      return ending, true;
    }

    method CompleteJob(d: Delivery) returns (ending: Ending)
      modifies this`jobs
      ensures Run(Value(), ending, true) == Finish(d, old(Value()))
    {
      var a := d.answer(Complete);
      if (a == Works || a == WorksThenDies) && d.jobId in jobs {
        jobs := jobs[d.jobId := Completed];
      }
      if a != Works {
        return if a == Fails then Error else Crashed;
      }
      return match d.answer(Refresh) case Works => Done case Fails => Error case _ => Crashed;
    }
  }
}
