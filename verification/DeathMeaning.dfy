// What the chain-death counters and signatures say about the result list they were built from.
module DeathMeaning {
  import opened GoStrings
  import opened Seqs
  import opened Sorting
  import opened Clock
  import opened Checks
  import opened State
  import opened ChainDeath

  // The counters kept per chain, and which results each one counts.
  datatype Counter = EndpointsProbed | CoreTotal | CoreLive | AnsweringRPC | StaleRPC | DeadHere(domain: string)

  function Get(f: Facts, k: Counter): nat {
    match k
    case EndpointsProbed => f.endpointsProbed
    case CoreTotal => f.coreTotal
    case CoreLive => f.coreLive
    case AnsweringRPC => f.answeringRPC
    case StaleRPC => f.staleRPC
    case DeadHere(d) => Tally(f.deadDomains, d)
  }

  predicate AddsTo(k: Counter, c: string, env: Env, r: Result) {
    Counts(r) && r.chain == c &&
      match k
      case EndpointsProbed => true
      case CoreTotal => Core(r.check)
      case CoreLive => Core(r.check) && r.verdict.passed
      case AnsweringRPC => AnswersSynced(r)
      case StaleRPC => AnswersSynced(r) && TooOld(env, r.verdict.latestBlockTime)
      case DeadHere(d) => !r.verdict.passed && env.domain(r.endpoint) == d
  }

  function Adds(k: Counter, c: string, env: Env): Result -> bool {
    (r: Result) => AddsTo(k, c, env, r)
  }

  function LiveWith(d: string, env: Env): Result -> bool {
    (r: Result) => Counts(r) && r.verdict.passed && env.domain(r.endpoint) == d
  }

  lemma {:induction false} CounterMeans(rs: seq<Result>, env: Env, c: string, k: Counter)
    ensures Get(FactsFor(FactsOf(rs, env), c), k) == Count(rs, Adds(k, c, env))
  {
    if rs != [] {
      var init, r := rs[..|rs| - 1], rs[|rs| - 1];
      assert rs == init + [r];
      CounterMeans(init, env, c, k);
      CountSnoc(init, r, Adds(k, c, env));
    }
  }

  lemma {:induction false} DomainLiveMeans(rs: seq<Result>, env: Env, d: string)
    ensures Tally(DomainLive(rs, env), d) == Count(rs, LiveWith(d, env))
  {
    if rs != [] {
      var init, r := rs[..|rs| - 1], rs[|rs| - 1];
      assert rs == init + [r];
      DomainLiveMeans(init, env, d);
      CountSnoc(init, r, LiveWith(d, env));
    }
  }

  lemma {:induction false} RecordedDomains(rs: seq<Result>, env: Env, c: string, d: string)
    ensures d in FactsFor(FactsOf(rs, env), c).deadDomains <==> exists r :: r in rs && Adds(DeadHere(d), c, env)(r)
  {
    CounterMeans(rs, env, c, DeadHere(d));
    CountPositive(rs, Adds(DeadHere(d), c, env));
    PositiveTallies(rs, env, c, d);
  }

  lemma {:induction false} PositiveTallies(rs: seq<Result>, env: Env, c: string, d: string)
    ensures d in FactsFor(FactsOf(rs, env), c).deadDomains ==> FactsFor(FactsOf(rs, env), c).deadDomains[d] > 0
  {
    if rs != [] {
      PositiveTallies(rs[..|rs| - 1], env, c, d);
    }
  }

  lemma {:induction false} CountSubset<T(!new)>(s: seq<T>, p: T -> bool, q: T -> bool)
    requires forall x :: x in s && q(x) ==> p(x)
    ensures Count(s, q) <= Count(s, p)
    ensures Count(s, q) == Count(s, p) <==> forall x :: x in s && p(x) ==> q(x)
  {
    if s != [] {
      CountSubset(s[1..], p, q);
    }
  }

  // The domain answers somewhere in this run.
  ghost predicate AnswersSomewhere(rs: seq<Result>, env: Env, d: string) {
    exists r :: r in rs && Counts(r) && r.verdict.passed && env.domain(r.endpoint) == d
  }

  function DomainsDeadOn(rs: seq<Result>, env: Env, c: string): set<string> {
    set r | r in rs && Counts(r) && r.chain == c && !r.verdict.passed :: env.domain(r.endpoint)
  }

  // The operators that testify to abandonment: dead on this chain, alive somewhere in this run.
  ghost function Witnesses(rs: seq<Result>, env: Env, c: string): set<string> {
    set d | d in DomainsDeadOn(rs, env, c) && AnswersSomewhere(rs, env, d)
  }

  lemma WithdrawnMeans(rs: seq<Result>, env: Env, c: string)
    ensures FactsFor(FactsOf(rs, env), c).deadDomains.Keys == DomainsDeadOn(rs, env, c)
    ensures Withdrawn(FactsFor(FactsOf(rs, env), c), DomainLive(rs, env)) == Witnesses(rs, env, c)
  {
    var f := FactsFor(FactsOf(rs, env), c);
    forall d ensures d in f.deadDomains.Keys <==> d in DomainsDeadOn(rs, env, c) {
      RecordedDomains(rs, env, c, d);
    }
    forall d ensures Tally(DomainLive(rs, env), d) > 0 <==> AnswersSomewhere(rs, env, d) {
      DomainLiveMeans(rs, env, d);
      CountPositive(rs, LiveWith(d, env));
    }
  }

  // abandoned: core checks ran, none passed, and enough distinct operators testify -- three, or
  // all of a smaller number, but never fewer than two.
  lemma AbandonedMeans(rs: seq<Result>, env: Env, c: string)
    ensures Abandoned(FactsFor(FactsOf(rs, env), c), DomainLive(rs, env)) <==>
      && (exists r :: r in rs && Counts(r) && r.chain == c && Core(r.check))
      && (forall r :: r in rs && Counts(r) && r.chain == c && Core(r.check) ==> !r.verdict.passed)
      && |Witnesses(rs, env, c)| >= 2
      && (|Witnesses(rs, env, c)| >= 3 || Witnesses(rs, env, c) == DomainsDeadOn(rs, env, c))
  {
    CounterMeans(rs, env, c, CoreTotal);
    CounterMeans(rs, env, c, CoreLive);
    CountPositive(rs, Adds(CoreTotal, c, env));
    CountPositive(rs, Adds(CoreLive, c, env));
    WithdrawnMeans(rs, env, c);
    SubsetSizes(Witnesses(rs, env, c), DomainsDeadOn(rs, env, c));
    MapSize(FactsFor(FactsOf(rs, env), c).deadDomains);
    assert forall r :: Adds(CoreTotal, c, env)(r) <==> Counts(r) && r.chain == c && Core(r.check);
    assert forall r :: Adds(CoreLive, c, env)(r) <==> Counts(r) && r.chain == c && Core(r.check) && r.verdict.passed;
  }

  lemma MapSize(m: map<string, nat>)
    ensures |m| == |m.Keys|
  {
  }

  lemma SubsetSizes<T(!new)>(a: set<T>, b: set<T>)
    requires a <= b
    ensures |a| <= |b|
    ensures |a| == |b| <==> a == b
  {
    assert b == a + (b - a);
    if a != b {
      var x :| x in b - a;
      assert |b - a| > 0;
    }
  }

  // halted: some synced RPC answered, and every one that did reports a block older than staleAfter.
  lemma HaltedMeans(rs: seq<Result>, env: Env, c: string)
    ensures Halted(FactsFor(FactsOf(rs, env), c)) <==>
      && (exists r :: r in rs && Counts(r) && r.chain == c && AnswersSynced(r))
      && (forall r :: r in rs && Counts(r) && r.chain == c && AnswersSynced(r) ==> TooOld(env, r.verdict.latestBlockTime))
  {
    var p, q := Adds(AnsweringRPC, c, env), Adds(StaleRPC, c, env);
    CounterMeans(rs, env, c, AnsweringRPC);
    CounterMeans(rs, env, c, StaleRPC);
    CountPositive(rs, p);
    CountSubset(rs, p, q);
    assert forall r :: p(r) <==> Counts(r) && r.chain == c && AnswersSynced(r);
    assert forall r :: q(r) <==> p(r) && TooOld(env, r.verdict.latestBlockTime);
  }

  // newestBlock is the maximum of the times its RPCs reported.
  lemma {:induction false} NewestMeans(rs: seq<Result>, env: Env, c: string)
    ensures FactsFor(FactsOf(rs, env), c).newestBlock >= NEVER
    ensures forall r :: r in rs && Counts(r) && r.chain == c && AnswersSynced(r) ==>
      r.verdict.latestBlockTime <= FactsFor(FactsOf(rs, env), c).newestBlock
    ensures FactsFor(FactsOf(rs, env), c).newestBlock != NEVER ==>
      exists r :: (r in rs && Counts(r) && r.chain == c && AnswersSynced(r)
        && r.verdict.latestBlockTime == FactsFor(FactsOf(rs, env), c).newestBlock)
  {
    if rs != [] {
      var init, r := rs[..|rs| - 1], rs[|rs| - 1];
      NewestMeans(init, env, c);
      assert forall x :: x in rs <==> x in init || x == r;
      var f := FactsFor(FactsOf(init, env), c);
      if f.newestBlock != NEVER && FactsFor(FactsOf(rs, env), c).newestBlock == f.newestBlock {
        var w :| w in init && Counts(w) && w.chain == c && AnswersSynced(w) && w.verdict.latestBlockTime == f.newestBlock;
        assert w in rs;
      }
    }
  }

  // In terms of the newest block: some RPC answered, all of them report a time, and even the newest
  // is too old. That is the same thing, up to chains whose every reported time is before year 1: those
  // count as halted although no newest block is recorded.
  lemma HaltedMeansNewestIsOld(rs: seq<Result>, env: Env, c: string)
    ensures
      && (exists r :: r in rs && Counts(r) && r.chain == c && AnswersSynced(r))
      && (forall r :: r in rs && Counts(r) && r.chain == c && AnswersSynced(r) ==> r.verdict.latestBlockTime != NEVER)
      && TooOld(env, FactsFor(FactsOf(rs, env), c).newestBlock)
      <==>
      && Halted(FactsFor(FactsOf(rs, env), c))
      && (exists r :: r in rs && Counts(r) && r.chain == c && AnswersSynced(r) && r.verdict.latestBlockTime > NEVER)
  {
    HaltedMeans(rs, env, c);
    NewestMeans(rs, env, c);
  }

  // ---------------------------------------------------------------- the PR's evidence

  datatype Operator = Operator(domain: string, liveElsewhere: nat, deadHere: nat)

  predicate OperatorBefore(a: Operator, b: Operator) {
    a.deadHere > b.deadHere || (a.deadHere == b.deadHere && Less(a.domain, b.domain))
  }

  lemma OperatorOrder()
    ensures WeakOrder(OperatorBefore)
  {
    StringOrder();
  }

  function OperatorFor(f: Facts, domainLive: map<string, nat>, d: string): Operator {
    Operator(d, Tally(domainLive, d), Tally(f.deadDomains, d))
  }

  function OperatorsFor(f: Facts, domainLive: map<string, nat>, domains: set<string>): set<Operator> {
    set d | d in domains :: OperatorFor(f, domainLive, d)
  }

  lemma OneMoreOperator(f: Facts, domainLive: map<string, nat>, domains: set<string>, d: string)
    requires d !in domains
    ensures multiset(OperatorsFor(f, domainLive, domains + {d}))
         == multiset(OperatorsFor(f, domainLive, domains)) + multiset{OperatorFor(f, domainLive, d)}
  {
    var o := OperatorFor(f, domainLive, d);
    assert OperatorsFor(f, domainLive, domains + {d}) == OperatorsFor(f, domainLive, domains) + {o};
    assert o !in OperatorsFor(f, domainLive, domains);
  }

  lemma {:induction false} ListOne(ops: seq<Operator>, f: Facts, domainLive: map<string, nat>, goal: set<string>, todo: set<string>, d: string)
    requires d in todo && multiset(ops) == multiset(OperatorsFor(f, domainLive, goal - todo))
    ensures multiset(if d in goal then ops + [OperatorFor(f, domainLive, d)] else ops)
         == multiset(OperatorsFor(f, domainLive, goal - (todo - {d})))
  {
    MinusStep(goal, todo, d);
    OneMoreOperator(f, domainLive, goal - todo, d);
  }

  method ListWithdrawn(f: Facts, domainLive: map<string, nat>) returns (ops: seq<Operator>)
    ensures multiset(ops) == multiset(OperatorsFor(f, domainLive, Withdrawn(f, domainLive)))
  {
    ops := [];
    var todo := f.deadDomains.Keys;
    ghost var goal := Withdrawn(f, domainLive);
    assert goal - todo == {};
    while todo != {}
      invariant todo <= f.deadDomains.Keys
      invariant multiset(ops) == multiset(OperatorsFor(f, domainLive, goal - todo))
      decreases todo
    {
      var d :| d in todo;
      ListOne(ops, f, domainLive, goal, todo, d);
      todo := todo - {d};
      var live := Tally(domainLive, d);
      if live > 0 {
        ops := ops + [Operator(d, live, f.deadDomains[d])];
      }
    }
    assert goal - todo == goal;
  }

  datatype StatusEvidence = StatusEvidence(
    streak: nat,
    firstSeen: Time,
    endpointsProbed: nat,
    newestBlock: Time,
    withdrawn: seq<Operator>
  )

  method SortOperators(ops: seq<Operator>) returns (r: seq<Operator>)
    ensures multiset(r) == multiset(ops) && NoInversion(r, OperatorBefore)
  {
    OperatorOrder();
    SortSorts(ops, OperatorBefore);
    return Sort(ops, OperatorBefore);
  }

  lemma EvidenceMeans(rs: seq<Result>, env: Env, c: string)
    ensures OperatorsFor(FactsFor(FactsOf(rs, env), c), DomainLive(rs, env), Witnesses(rs, env, c)) == EvidenceFor(rs, env, c)
  {
    var f, live := FactsFor(FactsOf(rs, env), c), DomainLive(rs, env);
    forall d ensures OperatorFor(f, live, d) == Operator(d, Count(rs, LiveWith(d, env)), Count(rs, Adds(DeadHere(d), c, env))) {
      DomainLiveMeans(rs, env, d);
      CounterMeans(rs, env, c, DeadHere(d));
    }
  }

  // buildStatusEvidence: the streak, how many endpoints were probed, the newest block, and exactly
  // the witnesses with their counts, most dead endpoints first, then by name.
  method BuildStatusEvidence(
    rs: seq<Result>, env: Env, c: string, facts: FactMap, domainLive: map<string, nat>, cs: ChainRecord)
    returns (ev: StatusEvidence)
    requires facts == FactsOf(rs, env) && domainLive == DomainLive(rs, env) && c in facts
    ensures ev.streak == cs.chainDeadStreak && ev.firstSeen == cs.chainDeadFirstTime
    ensures ev.endpointsProbed == Count(rs, Adds(EndpointsProbed, c, env))
    ensures forall r :: r in rs && Counts(r) && r.chain == c && AnswersSynced(r) ==> r.verdict.latestBlockTime <= ev.newestBlock
    ensures ev.newestBlock != NEVER ==>
      exists r :: r in rs && Counts(r) && r.chain == c && AnswersSynced(r) && r.verdict.latestBlockTime == ev.newestBlock
    ensures multiset(ev.withdrawn) == multiset(EvidenceFor(rs, env, c))
    ensures forall i, j :: 0 <= i < j < |ev.withdrawn| ==>
      var a, b := ev.withdrawn[i], ev.withdrawn[j];
      a.deadHere > b.deadHere || (a.deadHere == b.deadHere && !Less(b.domain, a.domain))
  {
    var ops := ListWithdrawn(facts[c], domainLive);
    ops := SortOperators(ops);
    CounterMeans(rs, env, c, EndpointsProbed);
    NewestMeans(rs, env, c);
    WithdrawnMeans(rs, env, c);
    EvidenceMeans(rs, env, c);
    return StatusEvidence(cs.chainDeadStreak, cs.chainDeadFirstTime, facts[c].endpointsProbed, facts[c].newestBlock, ops);
  }

  ghost function EvidenceFor(rs: seq<Result>, env: Env, c: string): set<Operator> {
    set d | d in Witnesses(rs, env, c) :: Operator(d, Count(rs, LiveWith(d, env)), Count(rs, Adds(DeadHere(d), c, env)))
  }
}
