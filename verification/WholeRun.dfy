// Schedule independence of a whole run: whatever the workers, the map iterations and the order of
// the flagged lists do, the run saves the same state and opens the same pull requests.
module WholeRun {
  import opened GoStrings
  import opened Seqs
  import opened Sorting
  import opened Clock
  import opened Checks
  import opened Probing
  import opened State
  import opened Schedule
  import opened PrFlow
  import opened Openings
  import opened ChainDeath
  import opened DeathMeaning
  import opened Sentinel

  // ---------------------------------------------------------------- detection

  lemma SameVantage(a: seq<Result>, b: seq<Result>)
    requires multiset(a) == multiset(b)
    ensures VantageSuspect(a) <==> VantageSuspect(b)
  {
    CountPermutation(a, b, Failed());
    CountPermutation(a, b, Suspicious());
  }

  lemma SameMoves(a: seq<Result>, b: seq<Result>, env: Env, c: string)
    requires multiset(a) == multiset(b)
    ensures Moves(FactsOf(a, env), c) <==> Moves(FactsOf(b, env), c)
  {
    CounterMeans(a, env, c, CoreTotal);
    CounterMeans(b, env, c, CoreTotal);
    CountPermutation(a, b, Adds(CoreTotal, c, env));
    assert Moves(FactsOf(a, env), c) <==> FactsFor(FactsOf(a, env), c).coreTotal > 0;
    assert Moves(FactsOf(b, env), c) <==> FactsFor(FactsOf(b, env), c).coreTotal > 0;
  }

  lemma SameWitnesses(a: seq<Result>, b: seq<Result>, env: Env, c: string)
    requires multiset(a) == multiset(b)
    ensures DomainsDeadOn(a, env, c) == DomainsDeadOn(b, env, c) && Witnesses(a, env, c) == Witnesses(b, env, c)
  {
    PermutationMembers(a, b);
    forall d ensures AnswersSomewhere(a, env, d) <==> AnswersSomewhere(b, env, d) {}
  }

  lemma SameSignatures(a: seq<Result>, b: seq<Result>, env: Env, c: string)
    requires multiset(a) == multiset(b)
    ensures Abandoned(FactsFor(FactsOf(a, env), c), DomainLive(a, env)) <==> Abandoned(FactsFor(FactsOf(b, env), c), DomainLive(b, env))
    ensures Halted(FactsFor(FactsOf(a, env), c)) <==> Halted(FactsFor(FactsOf(b, env), c))
  {
    PermutationMembers(a, b);
    SameWitnesses(a, b, env, c);
    AbandonedMeans(a, env, c);
    AbandonedMeans(b, env, c);
    HaltedMeans(a, env, c);
    HaltedMeans(b, env, c);
  }

  lemma SameVerdict(a: seq<Result>, b: seq<Result>, env: Env, c: string)
    requires multiset(a) == multiset(b)
    ensures Moves(FactsOf(a, env), c) <==> Moves(FactsOf(b, env), c)
    ensures DeadNow(FactsOf(a, env), DomainLive(a, env), c) <==> DeadNow(FactsOf(b, env), DomainLive(b, env), c)
  {
    SameMoves(a, b, env, c);
    SameSignatures(a, b, env, c);
  }

  lemma SameDetection(sm: StateMap, a: seq<Result>, b: seq<Result>, env: Env, minRuns: int)
    requires multiset(a) == multiset(b)
    ensures DetectState(sm, a, env) == DetectState(sm, b, env)
    ensures DetectDead(a, env) == DetectDead(b, env)
    ensures DetectCandidates(sm, a, env, minRuns) == DetectCandidates(sm, b, env, minRuns)
  {
    SameVantage(a, b);
    forall c
      ensures Moves(FactsOf(a, env), c) <==> Moves(FactsOf(b, env), c)
      ensures DeadNow(FactsOf(a, env), DomainLive(a, env), c) <==> DeadNow(FactsOf(b, env), DomainLive(b, env), c)
    {
      SameVerdict(a, b, env, c);
    }
    SameDeathStep(sm, FactsOf(a, env), FactsOf(b, env), DomainLive(a, env), DomainLive(b, env), env.now, minRuns);
  }

  lemma SameDeathStep(sm: StateMap, f: FactMap, g: FactMap, live: map<string, nat>, live': map<string, nat>, now: Time, minRuns: int)
    requires forall c :: Moves(f, c) <==> Moves(g, c)
    requires forall c :: DeadNow(f, live, c) <==> DeadNow(g, live', c)
    ensures DeathStep(sm, f, live, now) == DeathStep(sm, g, live', now)
    ensures DeadSet(f, live) == DeadSet(g, live')
    ensures Candidates(DeathStep(sm, f, live, now), f, minRuns) == Candidates(DeathStep(sm, g, live', now), g, minRuns)
  {
    assert forall c :: c in DeadSet(f, live) <==> DeadNow(f, live, c);
    assert forall c :: c in DeadSet(g, live') <==> DeadNow(g, live', c);
  }

  lemma SameListing(x: seq<string>, y: seq<string>, names: set<string>)
    requires SortedListing(x, names) && SortedListing(y, names)
    ensures x == y
  {
    StringOrder();
    SortedIsUnique(x, y, Less);
  }

  // ---------------------------------------------------------------- flagged lists

  lemma {:induction false} SameMembersSameBag<T(!new)>(s: seq<T>, t: seq<T>)
    requires NoDuplicates(s) && NoDuplicates(t) && forall x :: x in s <==> x in t
    ensures multiset(s) == multiset(t)
  {
    forall x ensures multiset(s)[x] == multiset(t)[x] {
      OnceOrNever(s, x);
      OnceOrNever(t, x);
    }
  }

  lemma {:induction false} OnceOrNever<T(!new)>(s: seq<T>, x: T)
    requires NoDuplicates(s)
    ensures multiset(s)[x] == if x in s then 1 else 0
  {
    if s != [] {
      assert s == [s[0]] + s[1..];
      OnceOrNever(s[1..], x);
    }
  }

  lemma SameListed(s: seq<Flagged>, t: seq<Flagged>, rec: ChainRecord, keys: set<string>)
    requires keys <= rec.endpoints.Keys && Lists(s, rec, keys) && Lists(t, rec, keys)
    ensures multiset(s) == multiset(t)
  {
    ListedIn(s, t, rec, keys);
    ListedIn(t, s, rec, keys);
    SameMembersSameBag(s, t);
  }

  lemma ListedIn(s: seq<Flagged>, t: seq<Flagged>, rec: ChainRecord, keys: set<string>)
    requires keys <= rec.endpoints.Keys && Lists(s, rec, keys) && Lists(t, rec, keys)
    ensures NoDuplicates(s) && forall f :: f in s ==> f in t
  {
    forall f | f in s ensures f in t {
      assert KeyOfFlag(f) in KeysOf(t);
      var g :| g in t && KeyOfFlag(g) == KeyOfFlag(f);
      assert f == g;
    }
  }

  // The two collections list the same streaks, in possibly different orders.
  ghost predicate SameFlags(f: FlaggedMap, g: FlaggedMap) {
    forall c :: multiset(FlagsFor(f, c)) == multiset(FlagsFor(g, c))
  }

  lemma CollectedAlike(f: FlaggedMap, g: FlaggedMap, sm: StateMap, threshold: nat, names: set<string>)
    requires names <= sm.Keys && CollectsExactly(f, sm, threshold, names) && CollectsExactly(g, sm, threshold, names)
    ensures SameFlags(f, g)
  {
    forall c ensures multiset(FlagsFor(f, c)) == multiset(FlagsFor(g, c)) {
      if c in names {
        SameListed(FlagsFor(f, c), FlagsFor(g, c), sm[c], FlaggableKeys(sm[c], threshold));
      }
    }
  }

  lemma SameKeys(s: seq<Flagged>, t: seq<Flagged>)
    requires multiset(s) == multiset(t)
    ensures KeysOf(s) == KeysOf(t)
  {
    PermutationMembers(s, t);
  }

  lemma SameRescue(f: FlaggedMap, g: FlaggedMap, p: map<string, set<string>>, q: map<string, set<string>>, inp: Input, sm: StateMap)
    requires SameFlags(f, g)
    requires forall c :: RescueKeys(p, c) == Recovered(AllJobs(inp.chains), f, inp.recheck, c)
    requires forall c :: RescueKeys(q, c) == Recovered(AllJobs(inp.chains), g, inp.recheck, c)
    ensures forall c :: RescueKeys(p, c) == RescueKeys(q, c)
    ensures Rescue(sm, f, p, inp.now) == Rescue(sm, g, q, inp.now)
  {
    forall c ensures RescueKeys(p, c) == RescueKeys(q, c) && KeysOf(FlagsFor(f, c)) == KeysOf(FlagsFor(g, c)) {
      SameKeys(FlagsFor(f, c), FlagsFor(g, c));
    }
  }

  // ---------------------------------------------------------------- the opening loops

  lemma {:induction false} FilterBag<T(!new)>(s: seq<T>, keep: T -> bool, x: T)
    ensures multiset(Filter(s, keep))[x] == if keep(x) then multiset(s)[x] else 0
  {
    if s != [] {
      assert s == [s[0]] + s[1..];
      FilterBag(s[1..], keep, x);
    }
  }

  lemma FilterPermutes<T(!new)>(s: seq<T>, t: seq<T>, keep: T -> bool)
    requires multiset(s) == multiset(t)
    ensures multiset(Filter(s, keep)) == multiset(Filter(t, keep))
  {
    forall x ensures multiset(Filter(s, keep))[x] == multiset(Filter(t, keep))[x] {
      FilterBag(s, keep, x);
      FilterBag(t, keep, x);
    }
  }

  lemma SameStillDead(f: FlaggedMap, g: FlaggedMap, p: map<string, set<string>>, q: map<string, set<string>>, c: string)
    requires SameFlags(f, g) && RescueKeys(p, c) == RescueKeys(q, c)
    ensures multiset(StillDead(f, p, c)) == multiset(StillDead(g, q, c))
    ensures StillDead(f, p, c) == [] <==> StillDead(g, q, c) == []
  {
    FilterPermutes(FlagsFor(f, c), FlagsFor(g, c), NotIn(RescueKeys(p, c)));
    PermutationMembers(StillDead(f, p, c), StillDead(g, q, c));
  }

  // GitHub's answer does not depend on the order of the entries in a proposal.
  ghost predicate OrderInsensitive(accepts: Oracle) {
    forall c, xs, ys :: multiset(xs) == multiset(ys) ==> accepts(c, xs) == accepts(c, ys)
  }

  lemma {:induction false} OpenedCongruent(names: seq<string>, v: string -> bool, w: string -> bool, cap: int)
    requires forall n :: v(n) == w(n)
    ensures Opened(names, v, cap) == Opened(names, w, cap)
  {
    if names != [] {
      OpenedCongruent(names[..|names| - 1], v, w, cap);
    }
  }

  lemma SameWilling(
    f: FlaggedMap, g: FlaggedMap, p: map<string, set<string>>, q: map<string, set<string>>, sm: StateMap, inp: Input, c: string)
    requires SameFlags(f, g) && RescueKeys(p, c) == RescueKeys(q, c) && OrderInsensitive(inp.acceptsRemoval)
    ensures WillRemove(f, p, sm, inp.cfg.cooldown, inp.now, inp.acceptsRemoval)(c)
        <==> WillRemove(g, q, sm, inp.cfg.cooldown, inp.now, inp.acceptsRemoval)(c)
  {
    SameStillDead(f, g, p, q, c);
    assert inp.acceptsRemoval(c, StillDead(f, p, c)) == inp.acceptsRemoval(c, StillDead(g, q, c));
  }

  // The same chains are proposed, each with the same entries in some order.
  ghost predicate SameProposals(ps: seq<Proposal>, qs: seq<Proposal>) {
    && ChainsOf(ps) == ChainsOf(qs)
    && forall i :: 0 <= i < |ps| && i < |qs| ==> multiset(ps[i].dead) == multiset(qs[i].dead)
  }

  lemma SameRemovals(
    sm: StateMap, inp: Input, f: FlaggedMap, g: FlaggedMap, p: map<string, set<string>>, q: map<string, set<string>>,
    ps: seq<Proposal>, qs: seq<Proposal>, dead: set<string>)
    requires Removes(sm, inp, f, p, ps, dead) && Removes(sm, inp, g, q, qs, dead) && OrderInsensitive(inp.acceptsRemoval)
    ensures SameProposals(ps, qs)
    ensures Rescue(sm, f, p, inp.now) == Rescue(sm, g, q, inp.now)
  {
    CollectedAlike(f, g, sm, inp.cfg.minFailures, sm.Keys - dead);
    SameRescue(f, g, p, q, inp, sm);
    SameOpenings(Rescue(sm, f, p, inp.now), inp, f, g, p, q, ps, qs);
  }

  ghost predicate OpenedFor(sm: StateMap, inp: Input, f: FlaggedMap, p: map<string, set<string>>, ps: seq<Proposal>) {
    && ChainsOf(ps) == Opened(NamesOf(inp.chains), WillRemove(f, p, sm, inp.cfg.cooldown, inp.now, inp.acceptsRemoval), inp.cfg.maxEndpointPRs)
    && forall i :: 0 <= i < |ps| ==> ps[i].dead == StillDead(f, p, ps[i].chain)
  }

  lemma SameOpenings(
    sm: StateMap, inp: Input, f: FlaggedMap, g: FlaggedMap, p: map<string, set<string>>, q: map<string, set<string>>,
    ps: seq<Proposal>, qs: seq<Proposal>)
    requires SameFlags(f, g) && (forall c :: RescueKeys(p, c) == RescueKeys(q, c)) && OrderInsensitive(inp.acceptsRemoval)
    requires OpenedFor(sm, inp, f, p, ps) && OpenedFor(sm, inp, g, q, qs)
    ensures SameProposals(ps, qs)
  {
    var v := WillRemove(f, p, sm, inp.cfg.cooldown, inp.now, inp.acceptsRemoval);
    var w := WillRemove(g, q, sm, inp.cfg.cooldown, inp.now, inp.acceptsRemoval);
    forall c ensures v(c) == w(c) {
      SameWilling(f, g, p, q, sm, inp, c);
    }
    OpenedCongruent(NamesOf(inp.chains), v, w, inp.cfg.maxEndpointPRs);
    forall i | 0 <= i < |ps| && i < |qs| ensures multiset(ps[i].dead) == multiset(qs[i].dead) {
      assert ChainsOf(ps)[i] == ChainsOf(qs)[i];
      SameStillDead(f, g, p, q, ps[i].chain);
    }
  }

  // ---------------------------------------------------------------- the whole run

  lemma SameUpTo(disk: StateMap, inp: Input, a: Outcome, b: Outcome)
    requires ValidInput(inp) && DetectsAndFlips(disk, inp, a) && DetectsAndFlips(disk, inp, b)
    ensures DetectDead(a.results, EnvOf(inp)) == DetectDead(b.results, EnvOf(inp))
    ensures a.candidates == b.candidates && a.flips == b.flips
    ensures AfterFlips(disk, inp, a) == AfterFlips(disk, inp, b)
  {
    ArrivalOrderIsIrrelevant(Load(disk, inp.chains), inp.chains, inp.probe, inp.now, a.results, b.results);
    assert AfterUpdate(disk, inp, a) == AfterUpdate(disk, inp, b);
    SameDetection(AfterUpdate(disk, inp, a), a.results, b.results, EnvOf(inp), inp.cfg.chainDeathMinRuns);
    SameListing(a.candidates, b.candidates,
      DetectCandidates(AfterUpdate(disk, inp, a), a.results, EnvOf(inp), inp.cfg.chainDeathMinRuns));
  }

  // Two outcomes of one run on one state, under any two schedules and iteration orders, agree on the
  // saved state, the status and hash PRs, and the endpoint PRs up to the order of their entries.
  lemma RunIsDeterministic(disk: StateMap, inp: Input, a: Outcome, diskA: StateMap, b: Outcome, diskB: StateMap)
    requires ValidInput(inp) && RunsTo(disk, inp, a, diskA) && RunsTo(disk, inp, b, diskB)
    requires OrderInsensitive(inp.acceptsRemoval)
    ensures diskA == diskB
    ensures a.candidates == b.candidates && a.flips == b.flips && a.fixes == b.fixes
    ensures SameProposals(a.removals, b.removals)
  {
    SameUpTo(disk, inp, a, b);
    SameRemovals(AfterFlips(disk, inp, a), inp, a.flagged, b.flagged, a.passed, b.passed, a.removals, b.removals,
      DetectDead(a.results, EnvOf(inp)));
    assert AfterRescue(disk, inp, a) == AfterRescue(disk, inp, b);
    assert AfterRemovals(disk, inp, a) == AfterRemovals(disk, inp, b);
  }
}
