// One run's verdicts and streak columns in terms of its configuration, its jobs and the history.
module RunInJobs {
  import opened Checks
  import opened Probing
  import opened State
  import opened Schedule
  import opened ChainDeath
  import opened JobCounts
  import opened Sentinel
  import opened History
  import opened Completeness
  import RecordRows
  import Counters = DeathMeaning
  import DeathHistory

  // The chains a run judges dead: by its own clock, age limit and domains, and its jobs' verdicts.
  lemma DeadInRun(disk: StateMap, inp: Input, out: Outcome, disk': StateMap, c: string)
    requires ValidInput(inp) && RunsTo(disk, inp, out, disk')
    ensures var jobs, env := AllJobs(inp.chains), Env(inp.now, inp.cfg.staleAfter, inp.domain);
      c in DetectDead(out.results, EnvOf(inp)) <==>
        !SuspectInJobs(jobs, inp.probe) && (AbandonedInJobs(jobs, inp.probe, env, c) || HaltedInJobs(jobs, inp.probe, env, c))
  {
    DetectionInJobs(AllJobs(inp.chains), inp.probe, out.results, EnvOf(inp), c);
  }

  // The chains whose death streak a run moves: loaded, the vantage healthy, some core job measured.
  lemma JudgedInRun(disk: StateMap, inp: Input, out: Outcome, disk': StateMap, c: string)
    requires ValidInput(inp) && RunsTo(disk, inp, out, disk')
    ensures DeathHistory.Judged(inp, out, c) <==>
      && (exists ch :: ch in inp.chains && ch.name == c)
      && !SuspectInJobs(AllJobs(inp.chains), inp.probe)
      && exists j :: j in AllJobs(inp.chains) && MeasuredOf(j, c, inp.probe) && IsCore(j.kind)
  {
    VantageInJobs(AllJobs(inp.chains), inp.probe, out.results);
    MovesInJobs(AllJobs(inp.chains), inp.probe, out.results, EnvOf(inp), c);
    assert Loaded(inp, c) <==> exists ch :: ch in inp.chains && ch.name == c;
  }

  lemma MovesInJobs(jobs: seq<Job>, probe: Probe, rs: seq<Result>, env: Env, c: string)
    requires DeliveredBy(rs, jobs, probe)
    ensures Moves(FactsOf(rs, env), c) <==> exists j :: j in jobs && MeasuredOf(j, c, probe) && IsCore(j.kind)
  {
    CounterIsPositive(jobs, probe, rs, env, c, Counters.CoreTotal);
    assert Moves(FactsOf(rs, env), c) <==> FactsFor(FactsOf(rs, env), c).coreTotal > 0;
  }

  lemma LivenessKey(j: Job)
    ensures JobKey(j) == j.kind.LivenessCheck() + "|" + j.endpoint.address
  {
  }

  // The streak column of a liveness record is the number of failing runs the run has to count.
  lemma StreakColumn(tr: Trace, i: nat, j: Job)
    requires Happened(tr) && i < |tr.inputs| && j in AllJobs(tr.inputs[i].chains)
    ensures var r := Stamp(j, j.kind.LivenessCheck(), tr.inputs[i].probe(j).0);
      RecordRows.SavedStreak(AfterDetect(tr.disks[i], tr.inputs[i], tr.outs[i]), r) == |Pending(tr, i, j.chain.name, JobKey(j))|
  {
    var inp := tr.inputs[i];
    JobsChain(inp.chains, j);
    assert Loaded(inp, j.chain.name) && Probed(inp, j.chain.name, JobKey(j));
    PendingIsCounted(tr, i, j.chain.name, JobKey(j));
    EndpointsSurviveDetection(AfterUpdate(tr.disks[i], inp, tr.outs[i]), tr.outs[i].results, EnvOf(inp), []);
    assert AfterDetect(tr.disks[i], inp, tr.outs[i])[j.chain.name].endpoints == AfterUpdate(tr.disks[i], inp, tr.outs[i])[j.chain.name].endpoints;
  }
}
