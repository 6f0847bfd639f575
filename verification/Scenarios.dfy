// Small registries and probes, for the statements that exhibit a run.
module Scenarios {
  import opened Seqs
  import opened Clock
  import opened Registry
  import opened Checks
  import opened Probing
  import opened Dedup
  import opened WorkerPool
  import opened Schedule

  const LIVE := Verdict(true, false, "", CLASS_NONE, 200, false, "", false, NEVER)
  const TIMED_OUT := Verdict(false, false, "timeout", "timeout", 0, false, "", false, NEVER)
  const NOT_MEASURED := Verdict(false, true, "", CLASS_NONE, 0, false, "", false, NEVER)

  lemma SoleChainJobs(ch: Chain, j: Job)
    ensures j in AllJobs([ch]) <==> j in ChainJobs(ch)
  {
    AllJobsMembers([ch]);
    assert forall other :: other in [ch] <==> other == ch;
  }

  lemma JobIsDeclared(ch: Chain, j: Job)
    requires j in ChainJobs(ch)
    ensures j.chain == ch && j.order >= 1 && DeclaredAt(ch, PairOf(j), j.order - 1)
  {
    ExactDedup(ch);
  }

  lemma DeclaredHasJob(ch: Chain, p: Pair, i: nat) returns (j: Job)
    requires DeclaredAt(ch, p, i)
    ensures j in ChainJobs(ch) && PairOf(j) == p
  {
    ExactDedup(ch);
    assert p in PairsOf(ChainJobs(ch));
    j :| j in ChainJobs(ch) && PairOf(j) == p;
  }

  // Every counted result of a run over one chain is the liveness verdict of one of its jobs.
  lemma SoleChainResult(ch: Chain, probe: Probe, rs: seq<Result>, r: Result) returns (j: Job)
    requires DeliveredBy(rs, AllJobs([ch]), probe) && r in rs && Counts(r)
    ensures j.chain == ch && r == Stamp(j, j.kind.LivenessCheck(), probe(j).0)
    ensures j.order >= 1 && DeclaredAt(ch, PairOf(j), j.order - 1)
  {
    j := CountedResultHasJob(rs, AllJobs([ch]), probe, r);
    SoleChainJobs(ch, j);
    JobIsDeclared(ch, j);
  }

  lemma JobIsObserved(jobs: seq<Job>, probe: Probe, rs: seq<Result>, j: Job) returns (r: Result)
    requires DeliveredBy(rs, jobs, probe) && j in jobs
    ensures r in rs && r == Stamp(j, j.kind.LivenessCheck(), probe(j).0) && IsLiveness(r.check)
  {
    JobHasResult(jobs, probe, j);
    PermutationMembers(rs, ResultsOf(jobs, Prober(probe)));
    CheckKinds(j.kind);
    r := ProbeJob(j, probe)[0];
    assert r in ProbeJob(j, probe);
  }

  // And every declared pair has such a result.
  lemma SoleChainObserved(ch: Chain, probe: Probe, rs: seq<Result>, t: EndpointType, i: nat) returns (r: Result, j: Job)
    requires DeliveredBy(rs, AllJobs([ch]), probe)
    requires t in ProbedTypes(ch) && i < |Listed(ch, t)|
    ensures j.kind == t && j.endpoint.address == Listed(ch, t)[i].address && j.chain == ch
    ensures r in rs && r == Stamp(j, t.LivenessCheck(), probe(j).0) && IsLiveness(r.check)
  {
    j := DeclaredHasJob(ch, Pair(t, Listed(ch, t)[i].address), i);
    JobIsDeclared(ch, j);
    SoleChainJobs(ch, j);
    r := JobIsObserved(AllJobs([ch]), probe, rs, j);
  }

  // ---------------------------------------------------------------- one RPC that reports a time

  function RpcChain(c: string, address: string): Chain {
    Chain(c, "", "cosmos", [Endpoint(address, "")], [], [], [], [], [])
  }

  function Reporting(t: Time): Probe {
    (j: Job) => (LIVE.(latestBlockTime := t), LIVE)
  }

  predicate IsReport(r: Result, c: string, t: Time) {
    Counts(r) && r.chain == c && r.check == RPC_LIVENESS && r.verdict == LIVE.(latestBlockTime := t)
  }

  lemma RpcChainReports(c: string, address: string, t: Time, rs: seq<Result>)
    requires DeliveredBy(rs, AllJobs([RpcChain(c, address)]), Reporting(t))
    ensures forall r :: r in rs && Counts(r) ==> IsReport(r, c, t)
    ensures exists r :: r in rs && IsReport(r, c, t)
  {
    forall r | r in rs && Counts(r) ensures IsReport(r, c, t) {
      RpcChainReport(c, address, t, rs, r);
    }
    assert ProbedTypes(RpcChain(c, address))[0] == RPC;
    var r, j := SoleChainObserved(RpcChain(c, address), Reporting(t), rs, RPC, 0);
    assert IsReport(r, c, t);
  }

  lemma RpcChainReport(c: string, address: string, t: Time, rs: seq<Result>, r: Result)
    requires DeliveredBy(rs, AllJobs([RpcChain(c, address)]), Reporting(t)) && r in rs && Counts(r)
    ensures IsReport(r, c, t)
  {
    var j := SoleChainResult(RpcChain(c, address), Reporting(t), rs, r);
    RpcChainSlots(c, address, j.kind, j.endpoint.address, j.order - 1);
  }

  lemma RpcChainSlots(c: string, address: string, t: EndpointType, a: string, i: nat)
    requires DeclaredAt(RpcChain(c, address), Pair(t, a), i)
    ensures t == RPC
  {
  }

  // ---------------------------------------------------------------- dead RPC and REST, live gRPC

  function GrpcSurvives(c: string, a: string, b: string): Chain {
    Chain(c, "", "cosmos", [Endpoint(a, "")], [Endpoint(b, "")], [], [Endpoint(a, ""), Endpoint(b, "")], [], [])
  }

  function OnlyGrpcAnswers(): Probe {
    (j: Job) => if j.kind.GRPC? then (LIVE, LIVE) else (TIMED_OUT, NOT_MEASURED)
  }

  predicate FromSurvivor(r: Result, c: string, a: string, b: string) {
    && r.chain == c
    && ((r.check == RPC_LIVENESS && r.endpoint == a && r.verdict == TIMED_OUT)
        || (r.check == REST_LIVENESS && r.endpoint == b && r.verdict == TIMED_OUT)
        || (r.check == GRPC.LivenessCheck() && r.verdict == LIVE))
  }

  ghost predicate Has(rs: seq<Result>, check: string, address: string, v: Verdict) {
    exists r :: r in rs && Counts(r) && r.check == check && r.endpoint == address && r.verdict == v
  }

  ghost predicate Survived(rs: seq<Result>, c: string, a: string, b: string) {
    && (forall r :: r in rs && Counts(r) ==> FromSurvivor(r, c, a, b))
    && Has(rs, RPC_LIVENESS, a, TIMED_OUT) && Has(rs, REST_LIVENESS, b, TIMED_OUT)
    && Has(rs, GRPC.LivenessCheck(), a, LIVE) && Has(rs, GRPC.LivenessCheck(), b, LIVE)
  }

  lemma SurvivorResults(c: string, a: string, b: string, rs: seq<Result>)
    requires DeliveredBy(rs, AllJobs([GrpcSurvives(c, a, b)]), OnlyGrpcAnswers())
    ensures Survived(rs, c, a, b)
  {
    forall r | r in rs && Counts(r) ensures FromSurvivor(r, c, a, b) {
      SurvivorResult(c, a, b, rs, r);
    }
    SurvivorSees(c, a, b, rs, RPC, 0);
    SurvivorSees(c, a, b, rs, REST, 0);
    SurvivorSees(c, a, b, rs, GRPC, 0);
    SurvivorSees(c, a, b, rs, GRPC, 1);
  }

  lemma SurvivorResult(c: string, a: string, b: string, rs: seq<Result>, r: Result)
    requires DeliveredBy(rs, AllJobs([GrpcSurvives(c, a, b)]), OnlyGrpcAnswers()) && r in rs && Counts(r)
    ensures FromSurvivor(r, c, a, b)
  {
    var j := SoleChainResult(GrpcSurvives(c, a, b), OnlyGrpcAnswers(), rs, r);
    SurvivorSlots(c, a, b, j.kind, j.endpoint.address, j.order - 1);
  }

  lemma SurvivorSlots(c: string, a: string, b: string, t: EndpointType, address: string, i: nat)
    requires DeclaredAt(GrpcSurvives(c, a, b), Pair(t, address), i)
    ensures (t == RPC && address == a) || (t == REST && address == b) || t == GRPC
  {
  }

  lemma SurvivorSees(c: string, a: string, b: string, rs: seq<Result>, t: EndpointType, i: nat)
    requires DeliveredBy(rs, AllJobs([GrpcSurvives(c, a, b)]), OnlyGrpcAnswers())
    requires t in ProbedTypes(GrpcSurvives(c, a, b)) && i < |Listed(GrpcSurvives(c, a, b), t)|
    ensures Has(rs, t.LivenessCheck(), Listed(GrpcSurvives(c, a, b), t)[i].address, if t == GRPC then LIVE else TIMED_OUT)
  {
    var r, j := SoleChainObserved(GrpcSurvives(c, a, b), OnlyGrpcAnswers(), rs, t, i);
  }
}
