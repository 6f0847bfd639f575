// cmd/sentinel/chaindeath.go: one run's counters, the two death signatures, the vantage guard and
// the persistent streak.
module ChainDeath {
  import opened GoStrings
  import opened Seqs
  import opened Sorting
  import opened Clock
  import opened Percentages
  import opened Checks
  import opened State

  const MIN_WITHDRAWN_OPERATORS: nat := 3

  // ---------------------------------------------------------------- vantage guard

  function Failed(): Result -> bool {
    (r: Result) => Counts(r) && !r.verdict.passed
  }

  function Suspicious(): Result -> bool {
    (r: Result) => Counts(r) && !r.verdict.passed
      && (r.verdict.failureClass == CLASS_DNS_FAILURE || r.verdict.failureClass == CLASS_VANTAGE_NO_ROUTE)
  }

  // At least 5% of the failures point at the prober's own environment.
  predicate VantageSuspect(rs: seq<Result>) {
    Count(rs, Failed()) > 0 && 20 * Count(rs, Suspicious()) >= Count(rs, Failed())
  }

  method CheckVantage(rs: seq<Result>) returns (suspect: bool)
    ensures suspect <==> VantageSuspect(rs)
  {
    var failed, tainted := 0, 0;
    for i := 0 to |rs|
      invariant failed == Count(rs[..i], Failed())
      invariant tainted == Count(rs[..i], Suspicious())
    {
      var r := rs[i];
      assert rs[..i + 1] == rs[..i] + [r];
      CountSnoc(rs[..i], r, Failed());
      CountSnoc(rs[..i], r, Suspicious());
      if !IsLiveness(r.check) || r.verdict.skipped || r.verdict.passed {
        continue;
      }
      failed := failed + 1;
      if r.verdict.failureClass == CLASS_DNS_FAILURE || r.verdict.failureClass == CLASS_VANTAGE_NO_ROUTE {
        tainted := tainted + 1;
      }
    }
    assert rs[..|rs|] == rs;
    if failed > 0 {
      BelowWarning(tainted, failed);
    }
    return failed > 0 && Percent(tainted, failed) >= VANTAGE_WARN_PCT;
  }

  // ---------------------------------------------------------------- one run's facts

  datatype Facts = Facts(
    endpointsProbed: nat,
    coreTotal: nat,
    coreLive: nat,
    deadDomains: map<string, nat>,
    answeringRPC: nat,
    staleRPC: nat,
    newestBlock: Time
  )

  const NO_FACTS := Facts(0, 0, 0, map[], 0, 0, NEVER)

  // The run-wide inputs of the counters; domain maps an address to its registrable domain.
  datatype Env = Env(now: Time, staleAfter: Duration, domain: string -> string)

  function Tally(m: map<string, nat>, d: string): nat {
    if d in m then m[d] else 0
  }

  function Bump(m: map<string, nat>, d: string): map<string, nat> {
    m[d := Tally(m, d) + 1]
  }

  predicate TooOld(env: Env, t: Time) {
    t != NEVER && Sub(env.now, t) > env.staleAfter
  }

  predicate AnswersSynced(r: Result) {
    r.verdict.passed && r.check == RPC_LIVENESS && !r.verdict.catchingUp
  }

  // What one counted result adds to its chain's facts.
  function Absorb(f: Facts, r: Result, env: Env): Facts {
    Facts(
      f.endpointsProbed + 1,
      f.coreTotal + (if Core(r.check) then 1 else 0),
      f.coreLive + (if Core(r.check) && r.verdict.passed then 1 else 0),
      if r.verdict.passed then f.deadDomains else Bump(f.deadDomains, env.domain(r.endpoint)),
      f.answeringRPC + (if AnswersSynced(r) then 1 else 0),
      f.staleRPC + (if AnswersSynced(r) && TooOld(env, r.verdict.latestBlockTime) then 1 else 0),
      if AnswersSynced(r) && r.verdict.latestBlockTime != NEVER && r.verdict.latestBlockTime > f.newestBlock
        then r.verdict.latestBlockTime else f.newestBlock)
  }

  type FactMap = map<string, Facts>

  function FactsFor(facts: FactMap, c: string): Facts {
    if c in facts then facts[c] else NO_FACTS
  }

  function FactsOf(rs: seq<Result>, env: Env): FactMap {
    if rs == [] then map[]
    else
      var before, r := FactsOf(rs[..|rs| - 1], env), rs[|rs| - 1];
      if Counts(r) then before[r.chain := Absorb(FactsFor(before, r.chain), r, env)] else before
  }

  // How many live results each domain has, over all chains.
  function DomainLive(rs: seq<Result>, env: Env): map<string, nat> {
    if rs == [] then map[]
    else
      var before, r := DomainLive(rs[..|rs| - 1], env), rs[|rs| - 1];
      if Counts(r) && r.verdict.passed then Bump(before, env.domain(r.endpoint)) else before
  }

  // The body of the loop for one counted result, field by field as the source updates them.
  method AbsorbResult(f: Facts, live: map<string, nat>, r: Result, env: Env) returns (f': Facts, live': map<string, nat>)
    ensures f' == Absorb(f, r, env)
    ensures live' == if r.verdict.passed then Bump(live, env.domain(r.endpoint)) else live
  {
    f', live' := f, live;
    f' := f'.(endpointsProbed := f'.endpointsProbed + 1);
    var core := r.check == RPC_LIVENESS || r.check == REST_LIVENESS || r.check == EVM_LIVENESS;
    if core {
      f' := f'.(coreTotal := f'.coreTotal + 1);
    }
    var dom := env.domain(r.endpoint);
    if r.verdict.passed {
      live' := Bump(live', dom);
      if core {
        f' := f'.(coreLive := f'.coreLive + 1);
      }
      if r.check == RPC_LIVENESS && !r.verdict.catchingUp {
        f' := f'.(answeringRPC := f'.answeringRPC + 1);
        if r.verdict.latestBlockTime != NEVER {
          if Sub(env.now, r.verdict.latestBlockTime) > env.staleAfter {
            f' := f'.(staleRPC := f'.staleRPC + 1);
          }
          if r.verdict.latestBlockTime > f'.newestBlock {
            f' := f'.(newestBlock := r.verdict.latestBlockTime);
          }
        }
      }
      return;
    }
    f' := f'.(deadDomains := Bump(f'.deadDomains, dom));
  }

  method BuildChainDeathFacts(rs: seq<Result>, env: Env) returns (facts: FactMap, domainLive: map<string, nat>)
    ensures facts == FactsOf(rs, env) && domainLive == DomainLive(rs, env)
  {
    facts, domainLive := map[], map[];
    for i := 0 to |rs|
      invariant facts == FactsOf(rs[..i], env) && domainLive == DomainLive(rs[..i], env)
    {
      var r := rs[i];
      assert rs[..i + 1][..i] == rs[..i];
      if !IsLiveness(r.check) || r.verdict.skipped {
        continue;
      }
      var f := FactsFor(facts, r.chain);
      f, domainLive := AbsorbResult(f, domainLive, r, env);
      facts := facts[r.chain := f];
    }
    assert rs[..|rs|] == rs;
  }

  // ---------------------------------------------------------------- the two signatures

  // Domains dead on this chain that answer somewhere in this run.
  function Withdrawn(f: Facts, domainLive: map<string, nat>): set<string> {
    set d | d in f.deadDomains && Tally(domainLive, d) > 0
  }

  function Needed(deadDomains: nat): nat {
    if deadDomains < 2 then 2 else if deadDomains < MIN_WITHDRAWN_OPERATORS then deadDomains else MIN_WITHDRAWN_OPERATORS
  }

  predicate Abandoned(f: Facts, domainLive: map<string, nat>) {
    f.coreTotal > 0 && f.coreLive == 0 && |Withdrawn(f, domainLive)| >= Needed(|f.deadDomains|)
  }

  predicate Halted(f: Facts) {
    f.answeringRPC > 0 && f.staleRPC == f.answeringRPC
  }

  predicate LooksDead(f: Facts, domainLive: map<string, nat>) {
    Abandoned(f, domainLive) || Halted(f)
  }

  method CountWithdrawn(f: Facts, domainLive: map<string, nat>) returns (withdrawn: nat)
    ensures withdrawn == |Withdrawn(f, domainLive)|
  {
    withdrawn := 0;
    var todo := f.deadDomains.Keys;
    ghost var goal := Withdrawn(f, domainLive);
    assert goal - todo == {};
    while todo != {}
      invariant todo <= f.deadDomains.Keys
      invariant withdrawn == |goal - todo|
      decreases todo
    {
      var d :| d in todo;
      MinusStep(goal, todo, d);
      todo := todo - {d};
      if Tally(domainLive, d) > 0 {
        withdrawn := withdrawn + 1;
      }
    }
    assert goal - todo == goal;
  }

  method ChainLooksDead(f: Facts, domainLive: map<string, nat>) returns (dead: bool)
    ensures dead <==> LooksDead(f, domainLive)
  {
    var withdrawn := CountWithdrawn(f, domainLive);
    var needed := MIN_WITHDRAWN_OPERATORS;
    if |f.deadDomains| < needed {
      needed := |f.deadDomains|;
    }
    if needed < 2 {
      needed := 2;
    }
    var unreachable := f.coreTotal > 0 && f.coreLive == 0 && withdrawn >= needed;
    var halted := f.answeringRPC > 0 && f.staleRPC == f.answeringRPC;
    return unreachable || halted;
  }

  // ---------------------------------------------------------------- streaks

  // Chains whose streak this run moves at all.
  predicate Moves(facts: FactMap, c: string) {
    c in facts && facts[c].coreTotal > 0
  }

  predicate DeadNow(facts: FactMap, domainLive: map<string, nat>, c: string) {
    Moves(facts, c) && LooksDead(facts[c], domainLive)
  }

  function DeadSet(facts: FactMap, domainLive: map<string, nat>): set<string> {
    set c | c in facts && DeadNow(facts, domainLive, c)
  }

  function MoveStreak(rec: ChainRecord, dead: bool, now: Time): ChainRecord {
    if dead then
      rec.(chainDeadFirstTime := if rec.chainDeadStreak == 0 then now else rec.chainDeadFirstTime,
           chainDeadStreak := rec.chainDeadStreak + 1)
    else rec.(chainDeadStreak := 0, chainDeadFirstTime := NEVER)
  }

  // The record of chain c after the run.
  function StreakAfter(rec: ChainRecord, facts: FactMap, domainLive: map<string, nat>, now: Time, c: string): ChainRecord {
    if Moves(facts, c) then MoveStreak(rec, DeadNow(facts, domainLive, c), now) else rec
  }

  function DeathStep(sm: StateMap, facts: FactMap, domainLive: map<string, nat>, now: Time): StateMap {
    map c | c in sm :: StreakAfter(sm[c], facts, domainLive, now, c)
  }

  // Chains that moved this run and whose streak has reached minRuns.
  function Candidates(sm: StateMap, facts: FactMap, minRuns: int): set<string> {
    set c | c in sm && Moves(facts, c) && sm[c].chainDeadStreak >= minRuns
  }

  // names lists exactly the given set, ascending, without repetition.
  ghost predicate SortedListing(names: seq<string>, s: set<string>) {
    && multiset(names) == multiset(s)
    && NoInversion(names, Less)
  }

  lemma StringOrder()
    ensures WeakOrder(Less) && Total(Less)
  {
    forall a, b ensures Less(a, b) ==> !Less(b, a) {
      LessTotal(a, b);
    }
    forall a, b, c ensures !Less(b, a) && !Less(c, b) ==> !Less(c, a) {
      LessTotal(a, b);
      LessTotal(b, c);
      LessTotal(a, c);
      if Less(c, a) && Less(a, b) {
        LessTransitive(c, a, b);
      }
    }
    forall a, b ensures Less(a, b) || a == b || Less(b, a) {
      LessTotal(a, b);
    }
  }

  method SortStrings(names: seq<string>) returns (r: seq<string>)
    ensures multiset(r) == multiset(names) && NoInversion(r, Less)
  {
    StringOrder();
    SortSorts(names, Less);
    return Sort(names, Less);
  }

  // One iteration over the facts: judge the chain, and move its streak if its state is loaded.
  method DetectChain(store: StateStore, name: string, facts: FactMap, domainLive: map<string, nat>, minRuns: int, now: Time)
    returns (dead: bool, ripe: bool)
    requires name in facts
    modifies store
    ensures dead <==> DeadNow(facts, domainLive, name)
    ensures name !in old(store.chains) ==> store.chains == old(store.chains) && !ripe
    ensures name in old(store.chains) ==>
      store.chains == old(store.chains)[name := StreakAfter(old(store.chains)[name], facts, domainLive, now, name)]
      && (ripe <==> Moves(facts, name) && store.chains[name].chainDeadStreak >= minRuns)
  {
    dead, ripe := false, false;
    if facts[name].coreTotal == 0 {
      return;
    }
    dead := ChainLooksDead(facts[name], domainLive);
    if name !in store.chains {
      return;
    }
    var cs := store.chains[name];
    if dead {
      if cs.chainDeadStreak == 0 {
        cs := cs.(chainDeadFirstTime := now);
      }
      cs := cs.(chainDeadStreak := cs.chainDeadStreak + 1);
    } else {
      cs := cs.(chainDeadStreak := 0);
      cs := cs.(chainDeadFirstTime := NEVER);
    }
    store.chains := store.chains[name := cs];
    ripe := cs.chainDeadStreak >= minRuns;
  }

  ghost predicate PartlyMoved(sm: StateMap, start: StateMap, target: StateMap, facts: FactMap, todo: set<string>) {
    && sm.Keys == start.Keys == target.Keys
    && forall c :: c in start ==> sm[c] == if c in facts && c !in todo then target[c] else start[c]
  }

  // What has been gathered from the facts outside todo.
  ghost predicate Gathered(candidates: seq<string>, looksDead: set<string>, ripe: set<string>, dead: set<string>, todo: set<string>) {
    looksDead == dead - todo && multiset(candidates) == multiset(ripe - todo)
  }

  lemma GatherOne(
    candidates: seq<string>, looksDead: set<string>, ripe: set<string>, dead: set<string>, todo: set<string>, name: string)
    requires Gathered(candidates, looksDead, ripe, dead, todo) && name in todo
    ensures Gathered(
      if name in ripe then candidates + [name] else candidates,
      if name in dead then looksDead + {name} else looksDead,
      ripe, dead, todo - {name})
  {
    MinusStep(ripe, todo, name);
    MinusStep(dead, todo, name);
  }

  // What the loop must arrive at: the moved records, the ripe chains and the dead ones.
  datatype Goal = Goal(target: StateMap, ripe: set<string>, dead: set<string>)

  ghost predicate Aims(goal: Goal, start: StateMap, facts: FactMap, domainLive: map<string, nat>, minRuns: int, now: Time, name: string) {
    && (name in goal.dead <==> DeadNow(facts, domainLive, name))
    && (name in start <==> name in goal.target)
    && (name in start ==>
          && goal.target[name] == StreakAfter(start[name], facts, domainLive, now, name)
          && (name in goal.ripe <==> Moves(facts, name) && goal.target[name].chainDeadStreak >= minRuns))
    && (name !in start ==> name !in goal.ripe)
  }

  method VisitChain(
    store: StateStore, name: string, facts: FactMap, domainLive: map<string, nat>, minRuns: int, now: Time,
    candidates: seq<string>, looksDead: set<string>, ghost start: StateMap, ghost goal: Goal, ghost todo: set<string>)
    returns (candidates': seq<string>, looksDead': set<string>)
    requires name in facts && name in todo && Aims(goal, start, facts, domainLive, minRuns, now, name)
    requires PartlyMoved(store.chains, start, goal.target, facts, todo)
    requires Gathered(candidates, looksDead, goal.ripe, goal.dead, todo)
    modifies store
    ensures PartlyMoved(store.chains, start, goal.target, facts, todo - {name})
    ensures Gathered(candidates', looksDead', goal.ripe, goal.dead, todo - {name})
  {
    GatherOne(candidates, looksDead, goal.ripe, goal.dead, todo, name);
    var dead, ripe := DetectChain(store, name, facts, domainLive, minRuns, now);
    looksDead' := if dead then looksDead + {name} else looksDead;
    candidates' := if ripe then candidates + [name] else candidates;
  }

  function GoalOf(start: StateMap, facts: FactMap, domainLive: map<string, nat>, minRuns: int, now: Time): Goal {
    var target := DeathStep(start, facts, domainLive, now);
    Goal(target, Candidates(target, facts, minRuns), DeadSet(facts, domainLive))
  }

  lemma GoalAims(start: StateMap, facts: FactMap, domainLive: map<string, nat>, minRuns: int, now: Time, name: string)
    ensures Aims(GoalOf(start, facts, domainLive, minRuns, now), start, facts, domainLive, minRuns, now, name)
  {
  }

  lemma Untouched(start: StateMap, facts: FactMap, domainLive: map<string, nat>, minRuns: int, now: Time)
    ensures var goal := GoalOf(start, facts, domainLive, minRuns, now);
      PartlyMoved(start, start, goal.target, facts, facts.Keys) && Gathered([], {}, goal.ripe, goal.dead, facts.Keys)
  {
    var goal := GoalOf(start, facts, domainLive, minRuns, now);
    assert goal.ripe - facts.Keys == {} && goal.dead - facts.Keys == {};
  }

  lemma AllMoved(
    sm: StateMap, candidates: seq<string>, looksDead: set<string>,
    start: StateMap, facts: FactMap, domainLive: map<string, nat>, minRuns: int, now: Time)
    requires var goal := GoalOf(start, facts, domainLive, minRuns, now);
      PartlyMoved(sm, start, goal.target, facts, {}) && Gathered(candidates, looksDead, goal.ripe, goal.dead, {})
    ensures sm == DeathStep(start, facts, domainLive, now)
    ensures looksDead == DeadSet(facts, domainLive)
    ensures multiset(candidates) == multiset(Candidates(sm, facts, minRuns))
  {
    var goal := GoalOf(start, facts, domainLive, minRuns, now);
    assert sm == goal.target;
    assert goal.ripe - {} == goal.ripe && goal.dead - {} == goal.dead;
  }

  // The loop of runChainDeathDetection over the facts, in any iteration order.
  method MoveStreaks(store: StateStore, facts: FactMap, domainLive: map<string, nat>, minRuns: int, now: Time)
    returns (candidates: seq<string>, looksDead: set<string>)
    modifies store
    ensures store.chains == DeathStep(old(store.chains), facts, domainLive, now)
    ensures looksDead == DeadSet(facts, domainLive)
    ensures multiset(candidates) == multiset(Candidates(store.chains, facts, minRuns))
  {
    candidates, looksDead := [], {};
    ghost var start := store.chains;
    ghost var goal := GoalOf(start, facts, domainLive, minRuns, now);
    Untouched(start, facts, domainLive, minRuns, now);
    var todo := facts.Keys;
    while todo != {}
      invariant todo <= facts.Keys
      invariant PartlyMoved(store.chains, start, goal.target, facts, todo)
      invariant Gathered(candidates, looksDead, goal.ripe, goal.dead, todo)
      decreases todo
    {
      var name :| name in todo;
      GoalAims(start, facts, domainLive, minRuns, now, name);
      candidates, looksDead := VisitChain(store, name, facts, domainLive, minRuns, now, candidates, looksDead, start, goal, todo);
      todo := todo - {name};
    }
    AllMoved(store.chains, candidates, looksDead, start, facts, domainLive, minRuns, now);
  }

  datatype Detection = Detection(candidates: seq<string>, looksDead: set<string>, facts: FactMap, domainLive: map<string, nat>)

  const NOTHING_DETECTED := Detection([], {}, map[], map[])

  // The streaks after a run: frozen when the vantage is suspect.
  function DetectState(sm: StateMap, rs: seq<Result>, env: Env): StateMap {
    if VantageSuspect(rs) then sm else DeathStep(sm, FactsOf(rs, env), DomainLive(rs, env), env.now)
  }

  function DetectDead(rs: seq<Result>, env: Env): set<string> {
    if VantageSuspect(rs) then {} else DeadSet(FactsOf(rs, env), DomainLive(rs, env))
  }

  // The chains that moved in this run and have reached minRuns.
  function DetectCandidates(sm: StateMap, rs: seq<Result>, env: Env, minRuns: int): set<string> {
    if VantageSuspect(rs) then {} else Candidates(DetectState(sm, rs, env), FactsOf(rs, env), minRuns)
  }

  method RunChainDeathDetection(store: StateStore, rs: seq<Result>, minRuns: int, env: Env) returns (d: Detection)
    modifies store
    ensures store.chains == DetectState(old(store.chains), rs, env)
    ensures d.looksDead == DetectDead(rs, env)
    ensures SortedListing(d.candidates, DetectCandidates(old(store.chains), rs, env, minRuns))
    ensures !VantageSuspect(rs) ==> d.facts == FactsOf(rs, env) && d.domainLive == DomainLive(rs, env)
  {
    var suspect := CheckVantage(rs);
    if suspect {
      return NOTHING_DETECTED;
    }
    var facts, domainLive := BuildChainDeathFacts(rs, env);
    var candidates, looksDead := MoveStreaks(store, facts, domainLive, minRuns, env.now);
    candidates := SortStrings(candidates);
    return Detection(candidates, looksDead, facts, domainLive);
  }
}
