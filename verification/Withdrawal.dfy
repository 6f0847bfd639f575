// The withdrawal signature is described as operators "alive on other chains". The code also counts
// live results of the dying chain itself; here is exactly what difference that makes.
module Withdrawal {
  import opened Seqs
  import opened Checks
  import opened Probing
  import opened Schedule
  import opened ChainDeath
  import opened DeathMeaning
  import opened Scenarios

  function LiveOn(c: string, d: string, env: Env): Result -> bool {
    (r: Result) => Counts(r) && r.chain == c && r.verdict.passed && env.domain(r.endpoint) == d
  }

  function LiveOff(c: string, d: string, env: Env): Result -> bool {
    (r: Result) => Counts(r) && r.chain != c && r.verdict.passed && env.domain(r.endpoint) == d
  }

  // The domain answers on the chain itself / on another chain.
  ghost predicate AnswersHere(rs: seq<Result>, env: Env, c: string, d: string) {
    exists r :: r in rs && LiveOn(c, d, env)(r)
  }

  ghost predicate AnswersElsewhere(rs: seq<Result>, env: Env, c: string, d: string) {
    exists r :: r in rs && LiveOff(c, d, env)(r)
  }

  // Dead on this chain, alive on another: the witnesses the description speaks of.
  ghost function Elsewhere(rs: seq<Result>, env: Env, c: string): set<string> {
    set d | d in DomainsDeadOn(rs, env, c) && AnswersElsewhere(rs, env, c, d)
  }

  // Both dead and alive on this chain, and on no other: the code counts these too.
  ghost function OwnOnly(rs: seq<Result>, env: Env, c: string): set<string> {
    set d | d in DomainsDeadOn(rs, env, c) && AnswersHere(rs, env, c, d) && !AnswersElsewhere(rs, env, c, d)
  }

  lemma AnswersHereOrElsewhere(rs: seq<Result>, env: Env, c: string, d: string)
    ensures AnswersSomewhere(rs, env, d) <==> AnswersHere(rs, env, c, d) || AnswersElsewhere(rs, env, c, d)
  {
    if AnswersSomewhere(rs, env, d) {
      var r :| r in rs && Counts(r) && r.verdict.passed && env.domain(r.endpoint) == d;
      assert LiveOn(c, d, env)(r) || LiveOff(c, d, env)(r);
    }
  }

  // The code's witnesses fall apart into those two kinds.
  lemma WitnessesSplit(rs: seq<Result>, env: Env, c: string)
    ensures Witnesses(rs, env, c) == Elsewhere(rs, env, c) + OwnOnly(rs, env, c)
    ensures Elsewhere(rs, env, c) !! OwnOnly(rs, env, c)
    ensures |Witnesses(rs, env, c)| == |Elsewhere(rs, env, c)| + |OwnOnly(rs, env, c)|
  {
    forall d ensures d in Witnesses(rs, env, c) <==> d in Elsewhere(rs, env, c) + OwnOnly(rs, env, c) {
      AnswersHereOrElsewhere(rs, env, c, d);
    }
  }

  // Every witness is another chain's exactly when no domain that is both dead and alive on this
  // chain is silent on all others.
  lemma WitnessesAreElsewhere(rs: seq<Result>, env: Env, c: string)
    ensures (forall d :: d in Witnesses(rs, env, c) ==> AnswersElsewhere(rs, env, c, d)) <==> OwnOnly(rs, env, c) == {}
  {
    WitnessesSplit(rs, env, c);
    if OwnOnly(rs, env, c) != {} {
      var d :| d in OwnOnly(rs, env, c);
      assert d in Witnesses(rs, env, c);
    }
  }

  // The signature as described: only other chains testify.
  ghost predicate AbandonedByOthers(rs: seq<Result>, env: Env, c: string) {
    var f := FactsFor(FactsOf(rs, env), c);
    f.coreTotal > 0 && f.coreLive == 0 && |Elsewhere(rs, env, c)| >= Needed(|DomainsDeadOn(rs, env, c)|)
  }

  // The code judges otherwise than described exactly when all core endpoints are down, too few
  // domains answer on other chains, and the chain's own survivors make up the difference.
  lemma VerdictIsAsDescribed(rs: seq<Result>, env: Env, c: string)
    ensures
      var f, others, own := FactsFor(FactsOf(rs, env), c), |Elsewhere(rs, env, c)|, |OwnOnly(rs, env, c)|;
      (Abandoned(f, DomainLive(rs, env)) <==> AbandonedByOthers(rs, env, c)) <==>
        !(f.coreTotal > 0 && f.coreLive == 0 && others < Needed(|DomainsDeadOn(rs, env, c)|) <= others + own)
  {
    WitnessesSplit(rs, env, c);
    WithdrawnMeans(rs, env, c);
    MapSize(FactsFor(FactsOf(rs, env), c).deadDomains);
  }

  // The evidence column "live on other chains" is the number of live results on other chains exactly
  // when this chain has none on that domain; otherwise it is too large by those.
  lemma LiveElsewhereCountsOwn(rs: seq<Result>, env: Env, c: string, o: Operator)
    requires o in EvidenceFor(rs, env, c)
    ensures o.liveElsewhere == Count(rs, LiveOff(c, o.domain, env)) + Count(rs, LiveOn(c, o.domain, env))
    ensures o.liveElsewhere == Count(rs, LiveOff(c, o.domain, env)) <==> !AnswersHere(rs, env, c, o.domain)
  {
    CountSplit(rs, LiveWith(o.domain, env), LiveOff(c, o.domain, env), LiveOn(c, o.domain, env));
    CountPositive(rs, LiveOn(c, o.domain, env));
  }

  // ---------------------------------------------------------------- a run where it matters

  lemma GrpcIsNotCore()
    ensures !Core(GRPC.LivenessCheck()) && GRPC.LivenessCheck() != RPC_LIVENESS
  {
    assert GRPC.LivenessCheck()[0] == 'g' && RPC_LIVENESS[0] == 'r' && REST_LIVENESS[0] == 'r' && EVM_LIVENESS[0] == 'e';
  }

  lemma NothingSuspicious(rs: seq<Result>)
    requires forall r :: r in rs && Counts(r) && !r.verdict.passed ==> r.verdict == TIMED_OUT
    ensures !VantageSuspect(rs)
  {
    assert TIMED_OUT.failureClass[0] == 't' && CLASS_DNS_FAILURE[0] == 'd' && CLASS_VANTAGE_NO_ROUTE[0] == 'v';
    CountPositive(rs, Suspicious());
  }

  lemma SurvivorDead(c: string, a: string, b: string, env: Env, rs: seq<Result>)
    requires Survived(rs, c, a, b)
    ensures DomainsDeadOn(rs, env, c) == {env.domain(a), env.domain(b)}
  {
    DeadAddress(c, a, b, env, rs, RPC_LIVENESS, a);
    DeadAddress(c, a, b, env, rs, REST_LIVENESS, b);
    forall d | d in DomainsDeadOn(rs, env, c) ensures d == env.domain(a) || d == env.domain(b) {
      var r :| r in rs && Counts(r) && r.chain == c && !r.verdict.passed && env.domain(r.endpoint) == d;
      DeadIsListed(r, c, a, b);
    }
  }

  lemma DeadIsListed(r: Result, c: string, a: string, b: string)
    requires FromSurvivor(r, c, a, b) && !r.verdict.passed
    ensures r.endpoint == a || r.endpoint == b
    ensures r.verdict == TIMED_OUT
  {
  }

  lemma DeadAddress(c: string, a: string, b: string, env: Env, rs: seq<Result>, check: string, address: string)
    requires Survived(rs, c, a, b) && Has(rs, check, address, TIMED_OUT)
    ensures env.domain(address) in DomainsDeadOn(rs, env, c)
  {
    var r :| r in rs && Counts(r) && r.check == check && r.endpoint == address && r.verdict == TIMED_OUT;
    assert FromSurvivor(r, c, a, b);
  }

  lemma SurvivorAnswers(c: string, a: string, b: string, env: Env, rs: seq<Result>, address: string)
    requires Survived(rs, c, a, b) && (address == a || address == b)
    ensures AnswersSomewhere(rs, env, env.domain(address))
  {
    var r :| r in rs && Counts(r) && r.check == GRPC.LivenessCheck() && r.endpoint == address && r.verdict == LIVE;
  }

  lemma OwnWitnesses(rs: seq<Result>, env: Env, c: string)
    requires forall r :: r in rs && Counts(r) ==> r.chain == c
    requires forall d :: d in DomainsDeadOn(rs, env, c) ==> AnswersSomewhere(rs, env, d)
    ensures Elsewhere(rs, env, c) == {} && OwnOnly(rs, env, c) == DomainsDeadOn(rs, env, c) == Witnesses(rs, env, c)
  {
    forall d ensures !AnswersElsewhere(rs, env, c, d) {}
    forall d | d in DomainsDeadOn(rs, env, c) ensures AnswersHere(rs, env, c, d) {
      AnswersHereOrElsewhere(rs, env, c, d);
    }
  }

  lemma SurvivorWitnesses(c: string, a: string, b: string, env: Env, rs: seq<Result>)
    requires Survived(rs, c, a, b)
    ensures OwnOnly(rs, env, c) == DomainsDeadOn(rs, env, c) == Witnesses(rs, env, c) == {env.domain(a), env.domain(b)}
    ensures Elsewhere(rs, env, c) == {}
  {
    SurvivorDead(c, a, b, env, rs);
    SurvivorAnswers(c, a, b, env, rs, a);
    SurvivorAnswers(c, a, b, env, rs, b);
    OwnWitnesses(rs, env, c);
  }

  lemma SurvivorCore(c: string, a: string, b: string, rs: seq<Result>)
    requires Survived(rs, c, a, b)
    ensures exists r :: r in rs && Counts(r) && r.chain == c && Core(r.check)
    ensures forall r :: r in rs && Counts(r) && r.chain == c && Core(r.check) ==> !r.verdict.passed
    ensures forall r :: r in rs && Counts(r) && !r.verdict.passed ==> r.verdict == TIMED_OUT
  {
    GrpcIsNotCore();
    var r :| r in rs && Counts(r) && r.check == RPC_LIVENESS && r.endpoint == a && r.verdict == TIMED_OUT;
    assert Core(r.check) && FromSurvivor(r, c, a, b);
  }

  lemma SurvivorIsAbandoned(c: string, a: string, b: string, env: Env, rs: seq<Result>)
    requires env.domain(a) != env.domain(b) && Survived(rs, c, a, b)
    ensures Abandoned(FactsFor(FactsOf(rs, env), c), DomainLive(rs, env))
  {
    SurvivorWitnesses(c, a, b, env, rs);
    SurvivorCore(c, a, b, rs);
    AbandonedMeans(rs, env, c);
    assert |{env.domain(a), env.domain(b)}| == 2;
  }

  // A live endpoint of the chain itself can be the witness: in every run over one chain whose RPC
  // and REST are dead while gRPC answers on the same two domains, the chain looks dead, although
  // no other chain was probed and the described signature does not hold.
  lemma OwnGrpcCanTestify(c: string, a: string, b: string, env: Env, rs: seq<Result>)
    requires env.domain(a) != env.domain(b)
    requires DeliveredBy(rs, AllJobs([GrpcSurvives(c, a, b)]), OnlyGrpcAnswers())
    ensures c in DetectDead(rs, env)
    ensures !AbandonedByOthers(rs, env, c) && OwnOnly(rs, env, c) == {env.domain(a), env.domain(b)}
  {
    SurvivorResults(c, a, b, rs);
    SurvivorWitnesses(c, a, b, env, rs);
    SurvivorIsAbandoned(c, a, b, env, rs);
    SurvivorCore(c, a, b, rs);
    NothingSuspicious(rs);
    AbandonedIsDead(rs, env, c);
    assert Needed(|DomainsDeadOn(rs, env, c)|) >= 2;
  }

  lemma AbandonedIsDead(rs: seq<Result>, env: Env, c: string)
    requires Abandoned(FactsFor(FactsOf(rs, env), c), DomainLive(rs, env)) && !VantageSuspect(rs)
    ensures c in DetectDead(rs, env)
  {
    assert FactsFor(FactsOf(rs, env), c).coreTotal > 0;
  }
}
