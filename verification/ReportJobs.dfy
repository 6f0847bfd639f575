// The report of one run in terms of its jobs: every figure, and the reasons given for dying chains.
module ReportJobs {
  import opened Seqs
  import opened Clock
  import opened Checks
  import opened Probing
  import opened WorkerPool
  import opened Schedule
  import opened State
  import opened ChainDeath
  import opened Records
  import opened Aggregation
  import opened Agreement
  import opened JobCounts
  import Meaning = ReportMeaning
  import Counters = DeathMeaning

  // ---------------------------------------------------------------- figures

  // Too old for the report: seven days before the run, in whole seconds.
  predicate OldForReport(now: Time, t: Time) {
    && t != 0 && -366 * 86_400 * 1_000_000_000 <= t < 3_652_059 * 86_400 * 1_000_000_000
    && now - (t - t % 1_000_000_000) > 7 * 86_400 * 1_000_000_000
  }

  lemma OldIsOldToReport(now: Time, t: Time)
    ensures OldForReport(now, t) <==> OldToReport(now, t)
  {
  }

  // Which jobs a figure of the report counts, by their liveness verdict.
  predicate Figures(k: Meaning.Figure, env: Env, probe: Probe, j: Job) {
    var v, domain := probe(j).0, env.domain(j.endpoint.address);
    match k
    case Endpoints => !v.skipped
    case Live => !v.skipped && v.passed
    case RateLimited => v.skipped && v.failureClass != ""
    case ChainIdMismatch => false
    case WithProvider => !v.skipped && j.endpoint.provider != ""
    case CatchingUp => !v.skipped && v.passed && v.catchingUp
    case TxIndexOff => !v.skipped && v.passed && v.txIndex == "off"
    case MethodRestricted => !v.skipped && v.passed && v.methodRestricted
    case Class(c) => !v.skipped && !v.passed && v.failureClass == c
    case DomainTotal(d) => !v.skipped && domain == d
    case DomainLive(d) => !v.skipped && domain == d && v.passed
    case DomainClass(d, c) => !v.skipped && domain == d && !v.passed && v.failureClass == c
    case OnDomain(c, d) => !v.skipped && j.chain.name == c && domain == d
    case CoreTotal(c) => !v.skipped && j.chain.name == c && IsCore(j.kind)
    case CoreLive(c) => !v.skipped && j.chain.name == c && IsCore(j.kind) && v.passed
    case AnsweringRPC(c) => !v.skipped && j.chain.name == c && j.kind == RPC && v.passed && !v.catchingUp
    case StaleRPC(c) =>
      !v.skipped && j.chain.name == c && j.kind == RPC && v.passed && !v.catchingUp && OldForReport(env.now, v.latestBlockTime)
  }

  // The one figure that counts chain-ID verdicts.
  predicate Mismatches(k: Meaning.Figure, probe: Probe, j: Job) {
    k.ChainIdMismatch? && !probe(j).1.passed && !probe(j).1.skipped
  }

  function FiguresOf(k: Meaning.Figure, env: Env, probe: Probe): Job -> bool {
    (j: Job) => Figures(k, env, probe, j)
  }

  function MismatchesOf(k: Meaning.Figure, probe: Probe): Job -> bool {
    (j: Job) => Mismatches(k, probe, j)
  }

  function Reported(k: Meaning.Figure, sm: StateMap, env: Env): Result -> bool {
    (r: Result) => Recorded(r) && Meaning.Contributes(k, RecordOf(r, sm, env))
  }

  // The record of a job's liveness result, as far as the figures look at it.
  lemma LivenessRecord(j: Job, sm: StateMap, env: Env, v: Verdict)
    ensures var r := Stamp(j, j.kind.LivenessCheck(), v); var rec := RecordOf(r, sm, env);
      && IsLiveness(rec.check) && rec.chain == j.chain.name && rec.domain == env.domain(j.endpoint.address)
      && rec.provider == j.endpoint.provider && rec.passed == v.passed && rec.skipped == v.skipped
      && (Core(rec.check) <==> IsCore(j.kind)) && (rec.check == RPC_LIVENESS <==> j.kind == RPC)
      && (Recorded(r) <==> !(v.skipped && v.failureClass == ""))
  {
    CheckKinds(j.kind);
    KindsOfChecks(j.kind);
    CoreKinds(j.kind);
  }

  lemma StaleRecord(j: Job, sm: StateMap, env: Env, v: Verdict)
    ensures ReportsOldBlock(RecordOf(Stamp(j, j.kind.LivenessCheck(), v), sm, env)) <==> OldForReport(env.now, v.latestBlockTime)
  {
    BlockAgeMeans(Stamp(j, j.kind.LivenessCheck(), v), sm, env);
    OldIsOldToReport(env.now, v.latestBlockTime);
  }

  lemma LivenessChainFigure(k: Meaning.Figure, sm: StateMap, env: Env, probe: Probe, j: Job)
    requires Meaning.AboutChain(k)
    ensures Reported(k, sm, env)(Stamp(j, j.kind.LivenessCheck(), probe(j).0)) <==> Figures(k, env, probe, j)
  {
    LivenessRecord(j, sm, env, probe(j).0);
    StaleRecord(j, sm, env, probe(j).0);
  }

  lemma LivenessOtherFigure(k: Meaning.Figure, sm: StateMap, env: Env, probe: Probe, j: Job)
    requires !Meaning.AboutChain(k)
    ensures Reported(k, sm, env)(Stamp(j, j.kind.LivenessCheck(), probe(j).0)) <==> Figures(k, env, probe, j)
  {
    LivenessRecord(j, sm, env, probe(j).0);
  }

  lemma LivenessFigure(k: Meaning.Figure, sm: StateMap, env: Env, probe: Probe, j: Job)
    ensures Reported(k, sm, env)(Stamp(j, j.kind.LivenessCheck(), probe(j).0)) <==> Figures(k, env, probe, j)
  {
    if Meaning.AboutChain(k) {
      LivenessChainFigure(k, sm, env, probe, j);
    } else {
      LivenessOtherFigure(k, sm, env, probe, j);
    }
  }

  lemma ChainIdFigure(k: Meaning.Figure, sm: StateMap, env: Env, probe: Probe, j: Job)
    ensures Reported(k, sm, env)(Stamp(j, j.kind.ChainIdCheck(), probe(j).1)) <==> Mismatches(k, probe, j)
  {
    CheckKinds(j.kind);
  }

  // Every figure of the report is the number of the run's jobs it is about.
  lemma FiguresInJobs(
    jobs: seq<Job>, probe: Probe, rs: seq<Result>, sm: StateMap, env: Env, records: seq<Record>, k: Meaning.Figure)
    requires DeliveredBy(rs, jobs, probe) && RecordsOfRun(records, rs, sm, env)
    ensures Meaning.Read(AggregateOf(records), k) == Count(jobs, FiguresOf(k, env, probe)) + Count(jobs, MismatchesOf(k, probe))
  {
    FigureOverResults(rs, sm, env, records, k, Reported(k, sm, env));
    CountPermutation(rs, ResultsOf(jobs, Prober(probe)), Reported(k, sm, env));
    forall j: Job
      ensures Reported(k, sm, env)(Stamp(j, j.kind.LivenessCheck(), probe(j).0)) <==> FiguresOf(k, env, probe)(j)
      ensures Reported(k, sm, env)(Stamp(j, j.kind.ChainIdCheck(), probe(j).1)) <==> MismatchesOf(k, probe)(j)
    {
      LivenessFigure(k, sm, env, probe, j);
      ChainIdFigure(k, sm, env, probe, j);
    }
    CountByJob(jobs, probe, Reported(k, sm, env), FiguresOf(k, env, probe), MismatchesOf(k, probe));
  }

  // ---------------------------------------------------------------- sets

  // Which jobs put an element into a set of the report, or a key into one of its maps.
  predicate Puts(m: Meaning.Mark, env: Env, probe: Probe, j: Job) {
    var v, domain := probe(j).0, env.domain(j.endpoint.address);
    !v.skipped &&
    match m
    case DomainSeen(d) => domain == d
    case ChainSeen(c) => j.chain.name == c
    case Provider(p) => p != "" && j.endpoint.provider == p
    case ChainOfDomain(d, c) => domain == d && j.chain.name == c
    case DeadDomain(c, d) => j.chain.name == c && !v.passed && domain == d
    case HasFirst(c) => j.chain.name == c && j.order == 1 && (j.kind == RPC || j.kind == EVM)
    case ClassSeen(c) => !v.passed && v.failureClass == c
    case ClassOfDomain(d, c) => domain == d && !v.passed && v.failureClass == c
    case DomainOfChain(c, d) => j.chain.name == c && domain == d
  }

  function PutsOf(m: Meaning.Mark, env: Env, probe: Probe): Job -> bool {
    (j: Job) => Puts(m, env, probe, j)
  }

  function MarkedBy(m: Meaning.Mark, sm: StateMap, env: Env): Result -> bool {
    (r: Result) => Recorded(r) && Meaning.Marks(m, RecordOf(r, sm, env))
  }

  lemma LivenessMark(m: Meaning.Mark, sm: StateMap, env: Env, probe: Probe, j: Job)
    ensures MarkedBy(m, sm, env)(Stamp(j, j.kind.LivenessCheck(), probe(j).0)) <==> Puts(m, env, probe, j)
  {
    LivenessRecord(j, sm, env, probe(j).0);
    KindsOfChecks(j.kind);
  }

  lemma ChainIdMark(m: Meaning.Mark, sm: StateMap, env: Env, probe: Probe, j: Job)
    ensures !MarkedBy(m, sm, env)(Stamp(j, j.kind.ChainIdCheck(), probe(j).1))
  {
    CheckKinds(j.kind);
  }

  // Every set and map of the report holds exactly what some measured job puts there; among them, a
  // chain has a first-listed endpoint when its first RPC or EVM entry was measured.
  lemma MarksInJobs(
    jobs: seq<Job>, probe: Probe, rs: seq<Result>, sm: StateMap, env: Env, records: seq<Record>, m: Meaning.Mark)
    requires DeliveredBy(rs, jobs, probe) && RecordsOfRun(records, rs, sm, env)
    ensures Meaning.Marked(AggregateOf(records), m) <==> exists j :: j in jobs && Puts(m, env, probe, j)
  {
    MarkOverResults(rs, sm, env, records, m);
    forall j: Job
      ensures MarkedBy(m, sm, env)(Stamp(j, j.kind.LivenessCheck(), probe(j).0)) <==> PutsOf(m, env, probe)(j)
      ensures !MarkedBy(m, sm, env)(Stamp(j, j.kind.ChainIdCheck(), probe(j).1))
    {
      LivenessMark(m, sm, env, probe, j);
      ChainIdMark(m, sm, env, probe, j);
    }
    SomeByJob(jobs, probe, rs, MarkedBy(m, sm, env), PutsOf(m, env, probe));
    assert forall r :: MarkedBy(m, sm, env)(r) <==> Recorded(r) && Meaning.Marks(m, RecordOf(r, sm, env));
  }

  // ---------------------------------------------------------------- reasons

  lemma {:induction false} NoMismatches(jobs: seq<Job>, k: Meaning.Figure, probe: Probe)
    requires !k.ChainIdMismatch?
    ensures Count(jobs, MismatchesOf(k, probe)) == 0
  {
    if jobs != [] {
      NoMismatches(jobs[1..], k, probe);
    }
  }

  lemma AnsweringInJobs(
    jobs: seq<Job>, probe: Probe, rs: seq<Result>, sm: StateMap, env: Env, records: seq<Record>, c: string)
    requires DeliveredBy(rs, jobs, probe) && RecordsOfRun(records, rs, sm, env)
    ensures ChainFor(AggregateOf(records), c).answeringRPC == Count(jobs, FiguresOf(Meaning.AnsweringRPC(c), env, probe))
  {
    AnsweringFigure(AggregateOf(records), c);
    FigureInJobs(jobs, probe, rs, sm, env, records, Meaning.AnsweringRPC(c));
  }

  lemma AnsweringFigure(t: Totals, c: string)
    ensures Meaning.Read(t, Meaning.AnsweringRPC(c)) == ChainFor(t, c).answeringRPC
  {
  }

  lemma FigureInJobs(
    jobs: seq<Job>, probe: Probe, rs: seq<Result>, sm: StateMap, env: Env, records: seq<Record>, k: Meaning.Figure)
    requires DeliveredBy(rs, jobs, probe) && RecordsOfRun(records, rs, sm, env) && !k.ChainIdMismatch?
    ensures Meaning.Read(AggregateOf(records), k) == Count(jobs, FiguresOf(k, env, probe))
  {
    FiguresInJobs(jobs, probe, rs, sm, env, records, k);
    NoMismatches(jobs, k, probe);
  }

  lemma UnreachableMeans(rs: seq<Result>, sm: StateMap, env: Env, records: seq<Record>, c: string)
    requires RecordsOfRun(records, rs, sm, env)
    ensures var t := AggregateOf(records);
      Unreachable(t, ChainFor(t, c)) <==> Abandoned(FactsFor(FactsOf(rs, env), c), DomainLive(rs, env))
  {
    NumbersAgree(rs, sm, env, records, c);
    DomainsAgree(rs, sm, env, records, c);
    Counters.MapSize(FactsFor(FactsOf(rs, env), c).deadDomains);
  }

  // Why a dying chain is listed: how many of its operators answer somewhere, if it is abandoned, or
  // else how many of its RPCs answered.
  lemma ReasonInJobs(
    jobs: seq<Job>, probe: Probe, rs: seq<Result>, sm: StateMap, env: Env, records: seq<Record>, c: string)
    requires DeliveredBy(rs, jobs, probe) && RecordsOfRun(records, rs, sm, env)
    ensures WhyDying(AggregateOf(records), ChainFor(AggregateOf(records), c)) ==
      if AbandonedInJobs(jobs, probe, env, c) then OperatorsServeOthers(|DomainWitnesses(jobs, probe, env, c)|)
      else EveryRpcIsOld(Count(jobs, FiguresOf(Meaning.AnsweringRPC(c), env, probe)))
  {
    UnreachableMeans(rs, sm, env, records, c);
    AbandonedByJobs(jobs, probe, rs, env, c);
    DomainsAgree(rs, sm, env, records, c);
    WitnessesInJobs(jobs, probe, rs, env, c);
    AnsweringInJobs(jobs, probe, rs, sm, env, records, c);
  }
}
