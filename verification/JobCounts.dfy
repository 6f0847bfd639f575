// One run's counters and verdicts in terms of its jobs: which endpoint kinds decide what.
module JobCounts {
  import opened Seqs
  import opened Clock
  import opened Checks
  import opened Probing
  import opened WorkerPool
  import opened Schedule
  import opened ChainDeath
  import opened DeathMeaning

  // ---------------------------------------------------------------- counting results by job

  lemma ResultOfJob(j: Job, probe: Probe, q: Result -> bool)
    ensures Count(ProbeJob(j, probe), q)
         == (if q(Stamp(j, j.kind.LivenessCheck(), probe(j).0)) then 1 else 0)
          + (if q(Stamp(j, j.kind.ChainIdCheck(), probe(j).1)) then 1 else 0)
  {
    var rs := ProbeJob(j, probe);
    assert rs == [rs[0]] + [rs[1]];
    CountAppend([rs[0]], [rs[1]], q);
    CountSnoc([], rs[0], q);
    CountSnoc([], rs[1], q);
  }

  lemma {:induction false} CountByJob(jobs: seq<Job>, probe: Probe, q: Result -> bool, live: Job -> bool, id: Job -> bool)
    requires forall j :: j in jobs ==>
      && (q(Stamp(j, j.kind.LivenessCheck(), probe(j).0)) <==> live(j))
      && (q(Stamp(j, j.kind.ChainIdCheck(), probe(j).1)) <==> id(j))
    ensures Count(ResultsOf(jobs, Prober(probe)), q) == Count(jobs, live) + Count(jobs, id)
  {
    if jobs != [] {
      assert jobs[0] in jobs;
      CountByJob(jobs[1..], probe, q, live, id);
      ResultOfJob(jobs[0], probe, q);
      CountAppend(ProbeJob(jobs[0], probe), ResultsOf(jobs[1..], Prober(probe)), q);
    }
  }

  function Never(): Job -> bool {
    (j: Job) => false
  }

  lemma {:induction false} CountNever(jobs: seq<Job>)
    ensures Count(jobs, Never()) == 0
  {
    if jobs != [] {
      CountNever(jobs[1..]);
    }
  }

  // A predicate that no chain-ID result satisfies counts jobs by their liveness verdict.
  lemma CountDelivered(jobs: seq<Job>, probe: Probe, rs: seq<Result>, q: Result -> bool, live: Job -> bool)
    requires DeliveredBy(rs, jobs, probe)
    requires forall j :: j in jobs ==> (q(Stamp(j, j.kind.LivenessCheck(), probe(j).0)) <==> live(j))
    requires forall j :: j in jobs ==> !q(Stamp(j, j.kind.ChainIdCheck(), probe(j).1))
    ensures Count(rs, q) == Count(jobs, live)
  {
    CountPermutation(rs, ResultsOf(jobs, Prober(probe)), q);
    CountByJob(jobs, probe, q, live, Never());
    CountNever(jobs);
  }

  // ---------------------------------------------------------------- which kinds are which

  lemma KindsOfChecks(t: EndpointType)
    ensures t.LivenessCheck() == "rpc_liveness" <==> t == RPC
    ensures t.LivenessCheck() == "rest_liveness" <==> t == REST
    ensures t.LivenessCheck() == "evm_liveness" <==> t == EVM
  {
    NamesAreInjective(t, RPC);
    NamesAreInjective(t, REST);
    NamesAreInjective(t, EVM);
  }

  // RPC, REST and EVM decide reachability; gRPC, gRPC-web and WSS do not.
  lemma CoreKinds(t: EndpointType)
    ensures Core(t.LivenessCheck()) <==> t == RPC || t == REST || t == EVM
  {
    KindsOfChecks(t);
  }

  predicate IsCore(t: EndpointType) {
    t == RPC || t == REST || t == EVM
  }

  // The chain's synced node reported a block older than the limit.
  predicate Stale(env: Env, t: Time) {
    t != 0 && env.now - t > env.staleAfter && env.staleAfter < MAX_DURATION
  }

  lemma StaleMeansTooOld(env: Env, t: Time)
    ensures Stale(env, t) <==> TooOld(env, t)
  {
  }

  predicate Adding(k: Counter, c: string, env: Env, probe: Probe, j: Job) {
    j.chain.name == c && !probe(j).0.skipped &&
    match k
    case EndpointsProbed => true
    case CoreTotal => IsCore(j.kind)
    case CoreLive => IsCore(j.kind) && probe(j).0.passed
    case AnsweringRPC => j.kind == RPC && probe(j).0.passed && !probe(j).0.catchingUp
    case StaleRPC => j.kind == RPC && probe(j).0.passed && !probe(j).0.catchingUp && Stale(env, probe(j).0.latestBlockTime)
    case DeadHere(d) => !probe(j).0.passed && env.domain(j.endpoint.address) == d
  }

  function JobAdds(k: Counter, c: string, env: Env, probe: Probe): Job -> bool {
    (j: Job) => Adding(k, c, env, probe, j)
  }

  lemma AddsByJob(k: Counter, c: string, env: Env, probe: Probe, j: Job)
    ensures Adds(k, c, env)(Stamp(j, j.kind.LivenessCheck(), probe(j).0)) <==> Adding(k, c, env, probe, j)
    ensures !Adds(k, c, env)(Stamp(j, j.kind.ChainIdCheck(), probe(j).1))
  {
    CheckKinds(j.kind);
    KindsOfChecks(j.kind);
    CoreKinds(j.kind);
    StaleMeansTooOld(env, probe(j).0.latestBlockTime);
  }

  // Every counter of a chain is the number of its jobs of the right kind with the right verdict.
  lemma CountersInJobs(jobs: seq<Job>, probe: Probe, rs: seq<Result>, env: Env, c: string, k: Counter)
    requires DeliveredBy(rs, jobs, probe)
    ensures Get(FactsFor(FactsOf(rs, env), c), k) == Count(jobs, JobAdds(k, c, env, probe))
  {
    CounterMeans(rs, env, c, k);
    forall j: Job
      ensures Adds(k, c, env)(Stamp(j, j.kind.LivenessCheck(), probe(j).0)) <==> JobAdds(k, c, env, probe)(j)
      ensures !Adds(k, c, env)(Stamp(j, j.kind.ChainIdCheck(), probe(j).1))
    {
      AddsByJob(k, c, env, probe, j);
    }
    CountDelivered(jobs, probe, rs, Adds(k, c, env), JobAdds(k, c, env, probe));
  }

  function JobLiveWith(d: string, env: Env, probe: Probe): Job -> bool {
    (j: Job) => !probe(j).0.skipped && probe(j).0.passed && env.domain(j.endpoint.address) == d
  }

  lemma DomainLiveInJobs(jobs: seq<Job>, probe: Probe, rs: seq<Result>, env: Env, d: string)
    requires DeliveredBy(rs, jobs, probe)
    ensures Tally(DomainLive(rs, env), d) == Count(jobs, JobLiveWith(d, env, probe))
  {
    DomainLiveMeans(rs, env, d);
    forall j: Job
      ensures LiveWith(d, env)(Stamp(j, j.kind.LivenessCheck(), probe(j).0)) <==> JobLiveWith(d, env, probe)(j)
      ensures !LiveWith(d, env)(Stamp(j, j.kind.ChainIdCheck(), probe(j).1))
    {
      CheckKinds(j.kind);
    }
    CountDelivered(jobs, probe, rs, LiveWith(d, env), JobLiveWith(d, env, probe));
  }

  // ---------------------------------------------------------------- the verdicts in jobs

  function JobFailed(probe: Probe): Job -> bool {
    (j: Job) => !probe(j).0.skipped && !probe(j).0.passed
  }

  function JobTainted(probe: Probe): Job -> bool {
    (j: Job) => !probe(j).0.skipped && !probe(j).0.passed
      && (probe(j).0.failureClass == "dns_failure" || probe(j).0.failureClass == "vantage_no_route")
  }

  // At least one in twenty failures is a resolver failure or a missing route.
  predicate SuspectInJobs(jobs: seq<Job>, probe: Probe) {
    Count(jobs, JobFailed(probe)) > 0 && 20 * Count(jobs, JobTainted(probe)) >= Count(jobs, JobFailed(probe))
  }

  lemma VantageInJobs(jobs: seq<Job>, probe: Probe, rs: seq<Result>)
    requires DeliveredBy(rs, jobs, probe)
    ensures VantageSuspect(rs) <==> SuspectInJobs(jobs, probe)
  {
    forall j: Job
      ensures Failed()(Stamp(j, j.kind.LivenessCheck(), probe(j).0)) <==> JobFailed(probe)(j)
      ensures Suspicious()(Stamp(j, j.kind.LivenessCheck(), probe(j).0)) <==> JobTainted(probe)(j)
      ensures !Failed()(Stamp(j, j.kind.ChainIdCheck(), probe(j).1)) && !Suspicious()(Stamp(j, j.kind.ChainIdCheck(), probe(j).1))
    {
      CheckKinds(j.kind);
    }
    CountDelivered(jobs, probe, rs, Failed(), JobFailed(probe));
    CountDelivered(jobs, probe, rs, Suspicious(), JobTainted(probe));
  }

  predicate MeasuredOf(j: Job, c: string, probe: Probe) {
    j.chain.name == c && !probe(j).0.skipped
  }

  function DeadDomains(jobs: seq<Job>, probe: Probe, env: Env, c: string): set<string> {
    set j | j in jobs && MeasuredOf(j, c, probe) && !probe(j).0.passed :: env.domain(j.endpoint.address)
  }

  // The domains dead on this chain that answer anywhere in the run.
  function DomainWitnesses(jobs: seq<Job>, probe: Probe, env: Env, c: string): set<string> {
    set j | j in jobs && !probe(j).0.skipped && probe(j).0.passed && env.domain(j.endpoint.address) in DeadDomains(jobs, probe, env, c)
      :: env.domain(j.endpoint.address)
  }

  ghost predicate AbandonedInJobs(jobs: seq<Job>, probe: Probe, env: Env, c: string) {
    var dead, witnesses := DeadDomains(jobs, probe, env, c), DomainWitnesses(jobs, probe, env, c);
    && (exists j :: j in jobs && MeasuredOf(j, c, probe) && IsCore(j.kind))
    && (forall j :: j in jobs && MeasuredOf(j, c, probe) && IsCore(j.kind) ==> !probe(j).0.passed)
    && |witnesses| >= 2 && (|witnesses| >= 3 || witnesses == dead)
  }

  predicate SyncedRpc(j: Job, c: string, probe: Probe) {
    MeasuredOf(j, c, probe) && j.kind == RPC && probe(j).0.passed && !probe(j).0.catchingUp
  }

  ghost predicate HaltedInJobs(jobs: seq<Job>, probe: Probe, env: Env, c: string) {
    && (exists j :: j in jobs && SyncedRpc(j, c, probe))
    && (forall j :: j in jobs && SyncedRpc(j, c, probe) ==> Stale(env, probe(j).0.latestBlockTime))
  }

  // Some delivered counted result satisfies q exactly when some job's liveness result does.
  lemma SomeByJob(jobs: seq<Job>, probe: Probe, rs: seq<Result>, q: Result -> bool, live: Job -> bool)
    requires DeliveredBy(rs, jobs, probe)
    requires forall j :: j in jobs ==> (q(Stamp(j, j.kind.LivenessCheck(), probe(j).0)) <==> live(j))
    requires forall j :: j in jobs ==> !q(Stamp(j, j.kind.ChainIdCheck(), probe(j).1))
    ensures (exists r :: r in rs && q(r)) <==> (exists j :: j in jobs && live(j))
  {
    CountDelivered(jobs, probe, rs, q, live);
    CountPositive(rs, q);
    CountPositive(jobs, live);
  }

  lemma CounterIsPositive(jobs: seq<Job>, probe: Probe, rs: seq<Result>, env: Env, c: string, k: Counter)
    requires DeliveredBy(rs, jobs, probe)
    ensures Get(FactsFor(FactsOf(rs, env), c), k) > 0 <==> exists j :: j in jobs && Adding(k, c, env, probe, j)
  {
    CountersInJobs(jobs, probe, rs, env, c, k);
    CountPositive(jobs, JobAdds(k, c, env, probe));
  }

  lemma WitnessesInJobs(jobs: seq<Job>, probe: Probe, rs: seq<Result>, env: Env, c: string)
    requires DeliveredBy(rs, jobs, probe)
    ensures FactsFor(FactsOf(rs, env), c).deadDomains.Keys == DeadDomains(jobs, probe, env, c)
    ensures Withdrawn(FactsFor(FactsOf(rs, env), c), DomainLive(rs, env)) == DomainWitnesses(jobs, probe, env, c)
  {
    var f := FactsFor(FactsOf(rs, env), c);
    forall d ensures d in f.deadDomains <==> d in DeadDomains(jobs, probe, env, c) {
      CounterIsPositive(jobs, probe, rs, env, c, DeadHere(d));
      PositiveTallies(rs, env, c, d);
    }
    forall d ensures Tally(DomainLive(rs, env), d) > 0 <==>
      exists j :: j in jobs && !probe(j).0.skipped && probe(j).0.passed && env.domain(j.endpoint.address) == d
    {
      DomainLiveInJobs(jobs, probe, rs, env, d);
      CountPositive(jobs, JobLiveWith(d, env, probe));
    }
  }

  lemma AbandonedByJobs(jobs: seq<Job>, probe: Probe, rs: seq<Result>, env: Env, c: string)
    requires DeliveredBy(rs, jobs, probe)
    ensures Abandoned(FactsFor(FactsOf(rs, env), c), DomainLive(rs, env)) <==> AbandonedInJobs(jobs, probe, env, c)
  {
    CounterIsPositive(jobs, probe, rs, env, c, CoreTotal);
    CounterIsPositive(jobs, probe, rs, env, c, CoreLive);
    WitnessesInJobs(jobs, probe, rs, env, c);
    var dead, witnesses := DeadDomains(jobs, probe, env, c), DomainWitnesses(jobs, probe, env, c);
    MapSize(FactsFor(FactsOf(rs, env), c).deadDomains);
    SubsetSizes(witnesses, dead);
  }

  lemma HaltedByJobs(jobs: seq<Job>, probe: Probe, rs: seq<Result>, env: Env, c: string)
    requires DeliveredBy(rs, jobs, probe)
    ensures Halted(FactsFor(FactsOf(rs, env), c)) <==> HaltedInJobs(jobs, probe, env, c)
  {
    CountersInJobs(jobs, probe, rs, env, c, AnsweringRPC);
    CountersInJobs(jobs, probe, rs, env, c, StaleRPC);
    CountPositive(jobs, JobAdds(AnsweringRPC, c, env, probe));
    CountSubset(jobs, JobAdds(AnsweringRPC, c, env, probe), JobAdds(StaleRPC, c, env, probe));
    assert forall j :: JobAdds(AnsweringRPC, c, env, probe)(j) <==> SyncedRpc(j, c, probe);
  }

  lemma DeadIsCounted(rs: seq<Result>, env: Env, c: string)
    ensures c in DetectDead(rs, env) <==>
      !VantageSuspect(rs) && (Abandoned(FactsFor(FactsOf(rs, env), c), DomainLive(rs, env)) || Halted(FactsFor(FactsOf(rs, env), c)))
  {
    CounterMeans(rs, env, c, CoreTotal);
    CounterMeans(rs, env, c, AnsweringRPC);
    forall r | r in rs && Adds(AnsweringRPC, c, env)(r) ensures Adds(CoreTotal, c, env)(r) {
      assert r.check == RPC_LIVENESS;
    }
    CountSubset(rs, Adds(CoreTotal, c, env), Adds(AnsweringRPC, c, env));
  }

  // The chains a run judges dead, from its jobs and their verdicts alone.
  lemma DetectionInJobs(jobs: seq<Job>, probe: Probe, rs: seq<Result>, env: Env, c: string)
    requires DeliveredBy(rs, jobs, probe)
    ensures c in DetectDead(rs, env) <==>
      !SuspectInJobs(jobs, probe) && (AbandonedInJobs(jobs, probe, env, c) || HaltedInJobs(jobs, probe, env, c))
  {
    VantageInJobs(jobs, probe, rs);
    AbandonedByJobs(jobs, probe, rs, env, c);
    HaltedByJobs(jobs, probe, rs, env, c);
    DeadIsCounted(rs, env, c);
  }
}
