// The report and the detection each judge chains and the vantage, from different data structures.
// Here: they reach the same verdicts.
module Agreement {
  import opened Seqs
  import opened Clock
  import opened Checks
  import opened State
  import opened Probing
  import opened Schedule
  import opened ChainDeath
  import opened Scenarios
  import opened Records
  import opened Aggregation
  import Meaning = ReportMeaning
  import Counters = DeathMeaning

  // The records of a run, in the order Build or any other writer left them.
  ghost predicate RecordsOfRun(records: seq<Record>, rs: seq<Result>, sm: StateMap, env: Env) {
    multiset(records) == multiset(RecordsOf(rs, sm, env))
  }

  lemma FigureOverResults(
    rs: seq<Result>, sm: StateMap, env: Env, records: seq<Record>, k: Meaning.Figure, q: Result -> bool)
    requires RecordsOfRun(records, rs, sm, env)
    requires forall r :: r in rs ==> (q(r) <==> Recorded(r) && Meaning.Contributes(k, RecordOf(r, sm, env)))
    ensures Meaning.Read(AggregateOf(records), k) == Count(rs, q)
  {
    Meaning.FigureMeans(records, k);
    CountPermutation(records, RecordsOf(rs, sm, env), Meaning.CountedBy(k));
    CountRecords(rs, sm, env, Meaning.CountedBy(k), q);
  }

  lemma MarkOverResults(rs: seq<Result>, sm: StateMap, env: Env, records: seq<Record>, m: Meaning.Mark)
    requires RecordsOfRun(records, rs, sm, env)
    ensures Meaning.Marked(AggregateOf(records), m) <==> exists r :: r in rs && Recorded(r) && Meaning.Marks(m, RecordOf(r, sm, env))
  {
    Meaning.MarkMeans(records, m);
    PermutationMembers(records, RecordsOf(rs, sm, env));
    RecordsMembers(rs, sm, env);
    if r :| r in rs && Recorded(r) && Meaning.Marks(m, RecordOf(r, sm, env)) {
      assert RecordOf(r, sm, env) in records;
    }
  }

  // ---------------------------------------------------------------- the vantage guard

  function ClassIs(c: string): Result -> bool {
    (r: Result) => Counts(r) && !r.verdict.passed && r.verdict.failureClass == c
  }

  function Passing(): Result -> bool {
    (r: Result) => Counts(r) && r.verdict.passed
  }

  function Counted(): Result -> bool {
    (r: Result) => Counts(r)
  }

  // The report warns about its vantage in exactly the runs whose death streaks are frozen.
  lemma VantageVerdictsAgree(rs: seq<Result>, sm: StateMap, env: Env, records: seq<Record>)
    requires RecordsOfRun(records, rs, sm, env)
    ensures Warns(AggregateOf(records)) <==> VantageSuspect(rs)
  {
    FigureOverResults(rs, sm, env, records, Meaning.Endpoints, Counted());
    FigureOverResults(rs, sm, env, records, Meaning.Live, Passing());
    CountSplit(rs, Counted(), Passing(), Failed());
    FigureOverResults(rs, sm, env, records, Meaning.Class(CLASS_DNS_FAILURE), ClassIs(CLASS_DNS_FAILURE));
    FigureOverResults(rs, sm, env, records, Meaning.Class(CLASS_VANTAGE_NO_ROUTE), ClassIs(CLASS_VANTAGE_NO_ROUTE));
    ClassesDiffer();
    CountSplit(rs, Suspicious(), ClassIs(CLASS_DNS_FAILURE), ClassIs(CLASS_VANTAGE_NO_ROUTE));
    Counters.CountSubset(rs, Failed(), Suspicious());
  }

  lemma ClassesDiffer()
    ensures CLASS_DNS_FAILURE != CLASS_VANTAGE_NO_ROUTE
  {
    assert CLASS_DNS_FAILURE[0] == 'd' && CLASS_VANTAGE_NO_ROUTE[0] == 'v';
  }

  // ---------------------------------------------------------------- the death signatures

  lemma Adding(env: Env, c: string, r: Result)
    ensures Counters.Adds(Counters.CoreTotal, c, env)(r) <==> Counts(r) && r.chain == c && Core(r.check)
    ensures Counters.Adds(Counters.CoreLive, c, env)(r) <==> Counts(r) && r.chain == c && Core(r.check) && r.verdict.passed
    ensures Counters.Adds(Counters.AnsweringRPC, c, env)(r) <==> Counts(r) && r.chain == c && AnswersSynced(r)
    ensures Counters.Adds(Counters.StaleRPC, c, env)(r) <==>
      Counts(r) && r.chain == c && AnswersSynced(r) && TooOld(env, r.verdict.latestBlockTime)
  {
  }

  lemma NumberAgrees(
    rs: seq<Result>, sm: StateMap, env: Env, records: seq<Record>, c: string, k: Meaning.Figure, j: Counters.Counter)
    requires RecordsOfRun(records, rs, sm, env)
    requires
      || (k == Meaning.CoreTotal(c) && j == Counters.CoreTotal)
      || (k == Meaning.CoreLive(c) && j == Counters.CoreLive)
      || (k == Meaning.AnsweringRPC(c) && j == Counters.AnsweringRPC)
    ensures Meaning.Read(AggregateOf(records), k) == Counters.Get(FactsFor(FactsOf(rs, env), c), j)
  {
    var q := Counters.Adds(j, c, env);
    forall r | r in rs ensures q(r) <==> Recorded(r) && Meaning.Contributes(k, RecordOf(r, sm, env)) {
      Adding(env, c, r);
    }
    FigureOverResults(rs, sm, env, records, k, q);
    Counters.CounterMeans(rs, env, c, j);
  }

  lemma {:induction false} NumbersAgree(rs: seq<Result>, sm: StateMap, env: Env, records: seq<Record>, c: string)
    requires RecordsOfRun(records, rs, sm, env)
    ensures
      var x, f := ChainFor(AggregateOf(records), c), FactsFor(FactsOf(rs, env), c);
      x.coreTotal == f.coreTotal && x.coreLive == f.coreLive && x.answeringRPC == f.answeringRPC
  {
    NumberAgrees(rs, sm, env, records, c, Meaning.CoreTotal(c), Counters.CoreTotal);
    NumberAgrees(rs, sm, env, records, c, Meaning.CoreLive(c), Counters.CoreLive);
    NumberAgrees(rs, sm, env, records, c, Meaning.AnsweringRPC(c), Counters.AnsweringRPC);
  }

  lemma {:induction false} DomainsAgree(rs: seq<Result>, sm: StateMap, env: Env, records: seq<Record>, c: string)
    requires RecordsOfRun(records, rs, sm, env)
    ensures
      var t, f := AggregateOf(records), FactsFor(FactsOf(rs, env), c);
      ChainFor(t, c).deadDomains == f.deadDomains.Keys && WithdrawnFrom(t, ChainFor(t, c)) == Withdrawn(f, DomainLive(rs, env))
  {
    var t, f := AggregateOf(records), FactsFor(FactsOf(rs, env), c);
    Counters.WithdrawnMeans(rs, env, c);
    forall d ensures d in ChainFor(t, c).deadDomains <==> d in Counters.DomainsDeadOn(rs, env, c) {
      MarkOverResults(rs, sm, env, records, Meaning.DeadDomain(c, d));
    }
    forall d ensures DomainFor(t, d).live == Tally(DomainLive(rs, env), d) {
      FigureOverResults(rs, sm, env, records, Meaning.DomainLive(d), Counters.LiveWith(d, env));
      Counters.DomainLiveMeans(rs, env, d);
    }
  }

  function ReportedStale(c: string, sm: StateMap, env: Env): Result -> bool {
    (r: Result) => Counts(r) && r.chain == c && AnswersSynced(r) && ReportsOldBlock(RecordOf(r, sm, env))
  }

  // The record's timestamp reads back at all / as the very time the node reported.
  predicate Readable(t: Time) {
    t == NEVER || FIRST_SECOND * SECOND <= t < (LAST_SECOND + 1) * SECOND
  }

  predicate Whole(t: Time) {
    Readable(t) && t % SECOND == 0
  }

  // What the report makes of a block time: written down to the second, against its own seven days.
  predicate OldToReport(now: Time, t: Time) {
    t != NEVER && Readable(t) && Sub(now, t - t % SECOND) > BLOCK_STALE_AFTER
  }

  lemma BlockAgeMeans(r: Result, sm: StateMap, env: Env)
    ensures ReportsOldBlock(RecordOf(r, sm, env)) <==> OldToReport(env.now, r.verdict.latestBlockTime)
  {
    var t := r.verdict.latestBlockTime;
    assert t == (t / SECOND) * SECOND + t % SECOND;
  }

  // A synced RPC of the chain, and what the two sides say of all of them.
  predicate Synced(r: Result, c: string) {
    Counts(r) && r.chain == c && AnswersSynced(r)
  }

  ghost predicate SomeSynced(rs: seq<Result>, c: string) {
    exists r :: r in rs && Synced(r, c)
  }

  ghost predicate AllTooOld(rs: seq<Result>, env: Env, c: string) {
    forall r :: r in rs && Synced(r, c) ==> TooOld(env, r.verdict.latestBlockTime)
  }

  ghost predicate AllOldToReport(rs: seq<Result>, env: Env, c: string) {
    forall r :: r in rs && Synced(r, c) ==> OldToReport(env.now, r.verdict.latestBlockTime)
  }

  lemma StaleAsReported(rs: seq<Result>, sm: StateMap, env: Env, records: seq<Record>, c: string)
    requires RecordsOfRun(records, rs, sm, env)
    ensures ChainFor(AggregateOf(records), c).staleRPC == Count(rs, ReportedStale(c, sm, env))
  {
    FigureOverResults(rs, sm, env, records, Meaning.StaleRPC(c), ReportedStale(c, sm, env));
  }

  lemma AnsweringAsReported(rs: seq<Result>, sm: StateMap, env: Env, records: seq<Record>, c: string)
    requires RecordsOfRun(records, rs, sm, env)
    ensures ChainFor(AggregateOf(records), c).answeringRPC == Count(rs, Counters.Adds(Counters.AnsweringRPC, c, env))
    ensures ChainFor(AggregateOf(records), c).answeringRPC > 0 <==> SomeSynced(rs, c)
  {
    var answering := Counters.Adds(Counters.AnsweringRPC, c, env);
    NumberAgrees(rs, sm, env, records, c, Meaning.AnsweringRPC(c), Counters.AnsweringRPC);
    Counters.CounterMeans(rs, env, c, Counters.AnsweringRPC);
    CountPositive(rs, answering);
    forall r ensures answering(r) <==> Synced(r, c) {
      Adding(env, c, r);
    }
  }

  // The report calls a chain halted exactly when some synced RPC answered and each is old to it.
  lemma FrozenMeans(rs: seq<Result>, sm: StateMap, env: Env, records: seq<Record>, c: string)
    requires RecordsOfRun(records, rs, sm, env)
    ensures Frozen(ChainFor(AggregateOf(records), c)) <==> SomeSynced(rs, c) && AllOldToReport(rs, env, c)
  {
    var stale, answering := ReportedStale(c, sm, env), Counters.Adds(Counters.AnsweringRPC, c, env);
    StaleAsReported(rs, sm, env, records, c);
    AnsweringAsReported(rs, sm, env, records, c);
    forall r ensures (answering(r) <==> Synced(r, c)) && (stale(r) <==> Synced(r, c) && OldToReport(env.now, r.verdict.latestBlockTime)) {
      Adding(env, c, r);
      BlockAgeMeans(r, sm, env);
    }
    Counters.CountSubset(rs, answering, stale);
  }

  lemma AnsweringIsCore(rs: seq<Result>, env: Env, c: string)
    ensures FactsFor(FactsOf(rs, env), c).answeringRPC <= FactsFor(FactsOf(rs, env), c).coreTotal
  {
    Counters.CounterMeans(rs, env, c, Counters.CoreTotal);
    Counters.CounterMeans(rs, env, c, Counters.AnsweringRPC);
    var total, answering := Counters.Adds(Counters.CoreTotal, c, env), Counters.Adds(Counters.AnsweringRPC, c, env);
    forall r | r in rs && answering(r) ensures total(r) {
      Adding(env, c, r);
    }
    Counters.CountSubset(rs, total, answering);
  }

  lemma ReportMeans(rs: seq<Result>, sm: StateMap, env: Env, records: seq<Record>, c: string)
    requires RecordsOfRun(records, rs, sm, env)
    ensures c in Dying(AggregateOf(records)) <==>
      Abandoned(FactsFor(FactsOf(rs, env), c), DomainLive(rs, env)) || (SomeSynced(rs, c) && AllOldToReport(rs, env, c))
  {
    var t, f := AggregateOf(records), FactsFor(FactsOf(rs, env), c);
    NumbersAgree(rs, sm, env, records, c);
    DomainsAgree(rs, sm, env, records, c);
    FrozenMeans(rs, sm, env, records, c);
    Counters.MapSize(f.deadDomains);
    assert Unreachable(t, ChainFor(t, c)) <==> Abandoned(f, DomainLive(rs, env));
    assert c in Dying(t) <==> Unreachable(t, ChainFor(t, c)) || Frozen(ChainFor(t, c));
  }

  lemma DetectionMeans(rs: seq<Result>, env: Env, c: string)
    ensures c in DeadSet(FactsOf(rs, env), DomainLive(rs, env)) <==>
      Abandoned(FactsFor(FactsOf(rs, env), c), DomainLive(rs, env)) || (SomeSynced(rs, c) && AllTooOld(rs, env, c))
  {
    Counters.HaltedMeans(rs, env, c);
    AnsweringIsCore(rs, env, c);
    assert SomeSynced(rs, c) <==> exists r :: r in rs && Counts(r) && r.chain == c && AnswersSynced(r);
    assert c in DeadSet(FactsOf(rs, env), DomainLive(rs, env)) <==> LooksDead(FactsFor(FactsOf(rs, env), c), DomainLive(rs, env));
  }

  // Exactly when the two sides differ on a chain, for every age limit and every block time: it is
  // not abandoned, some synced RPC answered, and all of them are old to one side but not to the other.
  lemma DisagreementIsExact(rs: seq<Result>, sm: StateMap, env: Env, records: seq<Record>, c: string)
    requires RecordsOfRun(records, rs, sm, env)
    ensures
      var listed, detected := c in Dying(AggregateOf(records)), c in DeadSet(FactsOf(rs, env), DomainLive(rs, env));
      var abandoned := Abandoned(FactsFor(FactsOf(rs, env), c), DomainLive(rs, env));
      && (listed && !detected <==> !abandoned && SomeSynced(rs, c) && AllOldToReport(rs, env, c) && !AllTooOld(rs, env, c))
      && (detected && !listed <==> !abandoned && SomeSynced(rs, c) && AllTooOld(rs, env, c) && !AllOldToReport(rs, env, c))
  {
    ReportMeans(rs, sm, env, records, c);
    DetectionMeans(rs, env, c);
  }

  ghost predicate ReadableTimes(rs: seq<Result>) {
    forall r :: r in rs && Counts(r) && AnswersSynced(r) ==> Readable(r.verdict.latestBlockTime)
  }

  ghost predicate WholeTimes(rs: seq<Result>) {
    forall r :: r in rs && Counts(r) && AnswersSynced(r) ==> Whole(r.verdict.latestBlockTime)
  }

  // Young enough for the detection, but past seven days once rounded down to the second.
  predicate Straddles(env: Env, t: Time) {
    t != NEVER && Sub(env.now, t) <= env.staleAfter && BLOCK_STALE_AFTER < Sub(env.now, t - t % SECOND)
  }

  ghost predicate SomeStraddles(rs: seq<Result>, env: Env, c: string) {
    exists r :: r in rs && Synced(r, c) && Straddles(env, r.verdict.latestBlockTime)
  }

  ghost predicate AllOldOrStraddling(rs: seq<Result>, env: Env, c: string) {
    forall r :: r in rs && Synced(r, c) ==> TooOld(env, r.verdict.latestBlockTime) || Straddles(env, r.verdict.latestBlockTime)
  }

  lemma OldIsTooOldOrStraddles(env: Env, t: Time)
    requires env.staleAfter >= BLOCK_STALE_AFTER && Readable(t)
    ensures OldToReport(env.now, t) <==> TooOld(env, t) || Straddles(env, t)
    ensures !(TooOld(env, t) && Straddles(env, t))
  {
  }

  // With readable times and a limit of at least seven days they agree on a chain except exactly when
  // it is not abandoned, some synced RPC straddles the two limits, and every other one is too old.
  lemma AgreementIsExact(rs: seq<Result>, sm: StateMap, env: Env, records: seq<Record>, c: string)
    requires RecordsOfRun(records, rs, sm, env) && env.staleAfter >= BLOCK_STALE_AFTER && ReadableTimes(rs)
    ensures
      var listed, detected := c in Dying(AggregateOf(records)), c in DeadSet(FactsOf(rs, env), DomainLive(rs, env));
      var abandoned := Abandoned(FactsFor(FactsOf(rs, env), c), DomainLive(rs, env));
      && (detected ==> listed)
      && ((listed <==> detected) <==> !(!abandoned && SomeStraddles(rs, env, c) && AllOldOrStraddling(rs, env, c)))
  {
    DisagreementIsExact(rs, sm, env, records, c);
    forall r | r in rs && Synced(r, c)
      ensures OldToReport(env.now, r.verdict.latestBlockTime) <==> TooOld(env, r.verdict.latestBlockTime) || Straddles(env, r.verdict.latestBlockTime)
      ensures !(TooOld(env, r.verdict.latestBlockTime) && Straddles(env, r.verdict.latestBlockTime))
    {
      OldIsTooOldOrStraddles(env, r.verdict.latestBlockTime);
    }
  }

  // In particular, with the limit at the report's seven days and block times in whole seconds, the
  // report lists exactly the chains the detection judges dead.
  lemma DetectorsAgree(rs: seq<Result>, sm: StateMap, env: Env, records: seq<Record>)
    requires RecordsOfRun(records, rs, sm, env) && env.staleAfter == BLOCK_STALE_AFTER && WholeTimes(rs)
    ensures Dying(AggregateOf(records)) == DeadSet(FactsOf(rs, env), DomainLive(rs, env))
  {
    forall c ensures c in Dying(AggregateOf(records)) <==> c in DeadSet(FactsOf(rs, env), DomainLive(rs, env)) {
      AgreementIsExact(rs, sm, env, records, c);
      assert !SomeStraddles(rs, env, c);
    }
  }

  // A limit of seven days or more keeps the detection within the report.
  lemma DetectionIsReported(rs: seq<Result>, sm: StateMap, env: Env, records: seq<Record>)
    requires RecordsOfRun(records, rs, sm, env) && env.staleAfter >= BLOCK_STALE_AFTER && ReadableTimes(rs)
    ensures DeadSet(FactsOf(rs, env), DomainLive(rs, env)) <= Dying(AggregateOf(records))
  {
    forall c | c in DeadSet(FactsOf(rs, env), DomainLive(rs, env)) ensures c in Dying(AggregateOf(records)) {
      AgreementIsExact(rs, sm, env, records, c);
    }
  }

  // ---------------------------------------------------------------- runs on which they differ

  lemma OneReport(c: string, t: Time, env: Env, rs: seq<Result>)
    requires forall r :: r in rs && Counts(r) ==> IsReport(r, c, t)
    requires exists r :: r in rs && IsReport(r, c, t)
    ensures !Abandoned(FactsFor(FactsOf(rs, env), c), DomainLive(rs, env)) && !VantageSuspect(rs) && SomeSynced(rs, c)
    ensures AllTooOld(rs, env, c) <==> TooOld(env, t)
    ensures AllOldToReport(rs, env, c) <==> OldToReport(env.now, t)
  {
    var r :| r in rs && IsReport(r, c, t);
    assert Core(r.check) && Synced(r, c);
    Counters.AbandonedMeans(rs, env, c);
    CountPositive(rs, Failed());
  }

  // At every moment that is not a full second, a block exactly seven days old is not yet stale to the
  // detection but already is to the report.
  lemma FractionsMatter(
    c: string, address: string, env: Env, rs: seq<Result>, sm: StateMap, records: seq<Record>)
    requires env.staleAfter == BLOCK_STALE_AFTER
    requires env.now % SECOND != 0 && Readable(env.now - BLOCK_STALE_AFTER)
    requires DeliveredBy(rs, AllJobs([RpcChain(c, address)]), Reporting(env.now - BLOCK_STALE_AFTER))
    requires RecordsOfRun(records, rs, sm, env)
    ensures c in Dying(AggregateOf(records)) && c !in DetectDead(rs, env)
  {
    var t := env.now - BLOCK_STALE_AFTER;
    JustOver(env);
    RpcChainReports(c, address, t, rs);
    OneReport(c, t, env, rs);
    DisagreementIsExact(rs, sm, env, records, c);
    assert DetectDead(rs, env) <= DeadSet(FactsOf(rs, env), DomainLive(rs, env));
  }

  lemma JustOver(env: Env)
    requires env.staleAfter == BLOCK_STALE_AFTER
    requires env.now % SECOND != 0 && Readable(env.now - BLOCK_STALE_AFTER)
    ensures OldToReport(env.now, env.now - BLOCK_STALE_AFTER) && !TooOld(env, env.now - BLOCK_STALE_AFTER)
  {
    assert BLOCK_STALE_AFTER == 604_800 * SECOND;
    assert (env.now - BLOCK_STALE_AFTER) % SECOND == env.now % SECOND;
  }

  // The first full second that is at most seven days back.
  function LastFresh(now: Time): Time {
    now - BLOCK_STALE_AFTER + (BLOCK_STALE_AFTER - now) % SECOND
  }

  // With a limit at least a second short of seven days, at any time there are blocks that make a chain
  // look dead to the detection while the report does not list it.
  lemma ShortLimitIsUnreported(
    c: string, address: string, env: Env, rs: seq<Result>, sm: StateMap, records: seq<Record>)
    requires env.staleAfter + SECOND <= BLOCK_STALE_AFTER < env.now
    requires DeliveredBy(rs, AllJobs([RpcChain(c, address)]), Reporting(LastFresh(env.now)))
    requires RecordsOfRun(records, rs, sm, env)
    ensures c in DetectDead(rs, env) && c !in Dying(AggregateOf(records))
  {
    var t := LastFresh(env.now);
    WholeSecond(env.now);
    RpcChainReports(c, address, t, rs);
    OneReport(c, t, env, rs);
    DisagreementIsExact(rs, sm, env, records, c);
  }

  lemma WholeSecond(now: Time)
    ensures LastFresh(now) % SECOND == 0
    ensures now - BLOCK_STALE_AFTER <= LastFresh(now) < now - BLOCK_STALE_AFTER + SECOND
  {
    var x := BLOCK_STALE_AFTER - now;
    assert x == (x / SECOND) * SECOND + x % SECOND;
    assert LastFresh(now) == -(x / SECOND) * SECOND;
  }
}
