// Across components: what one run detects, prints and edits, and what the next run then sees.
module EndToEnd {
  import opened Clock
  import opened Registry
  import opened Probing
  import opened Dedup
  import opened State
  import opened Schedule
  import opened PrFlow
  import opened Openings
  import opened ChainDeath
  import opened Sentinel
  import opened History
  import opened Aggregation
  import opened Agreement
  import opened EditChain
  import opened Reload
  import opened Scenarios
  import Records
  import DeathHistory
  import RateLimits

  // ---------------------------------------------------------------- detection and report

  // A status PR is never opened under a vantage warning; and its chain is in the same run's report,
  // except exactly when the chain is not abandoned and every synced RPC is too old for the detection
  // but not all of them for the report -- which a limit of seven days or more rules out.
  lemma FlippedIsReported(disk: StateMap, inp: Input, out: Outcome, disk': StateMap, sm: StateMap, records: seq<Records.Record>, c: string)
    requires ValidInput(inp) && RunsTo(disk, inp, out, disk') && c in out.flips
    requires RecordsOfRun(records, out.results, sm, EnvOf(inp))
    ensures !Warns(AggregateOf(records))
    ensures c !in Dying(AggregateOf(records)) <==>
      && !Abandoned(FactsFor(FactsOf(out.results, EnvOf(inp)), c), DomainLive(out.results, EnvOf(inp)))
      && SomeSynced(out.results, c) && AllTooOld(out.results, EnvOf(inp), c) && !AllOldToReport(out.results, EnvOf(inp), c)
    ensures inp.cfg.staleAfter >= BLOCK_STALE_AFTER && ReadableTimes(out.results) ==> c in Dying(AggregateOf(records))
  {
    DeathHistory.FlipIsCandidate(disk, inp, out, disk', c);
    VantageVerdictsAgree(out.results, sm, EnvOf(inp), records);
    DisagreementIsExact(out.results, sm, EnvOf(inp), records, c);
    if inp.cfg.staleAfter >= BLOCK_STALE_AFTER && ReadableTimes(out.results) {
      DetectionIsReported(out.results, sm, EnvOf(inp), records);
    }
  }

  // A shorter limit does hide one: with chain-death-min-runs at 1, a first run over one chain whose
  // only RPC is seven days behind, to the second, flips a chain that its own report does not list.
  lemma ShortLimitHidesAFlip(
    inp: Input, out: Outcome, disk': StateMap, sm: StateMap, records: seq<Records.Record>, c: string, address: string)
    requires ValidInput(inp) && RunsTo(map[], inp, out, disk')
    requires inp.chains == [RpcChain(c, address)] && inp.probe == Reporting(LastFresh(inp.now))
    requires inp.cfg.staleAfter + SECOND <= BLOCK_STALE_AFTER < inp.now
    requires inp.cfg.chainDeathMinRuns == 1 && inp.cfg.maxStatusPRs >= 1 && inp.acceptsFlip(c)
    requires RecordsOfRun(records, out.results, sm, EnvOf(inp))
    ensures c in out.flips && c !in Dying(AggregateOf(records)) && !Warns(AggregateOf(records))
  {
    ShortLimitIsUnreported(c, address, EnvOf(inp), out.results, sm, records);
    SoleName(RpcChain(c, address));
    DeadAtOnce(inp, out, disk', c);
    SoleCandidateIsFlipped(inp, out, disk', c);
    FlippedIsReported(map[], inp, out, disk', sm, records, c);
  }

  lemma SoleName(ch: Chain)
    ensures NameSet([ch]) == {ch.name}
  {
    assert [ch][0] in [ch];
  }

  lemma DeadAtOnce(inp: Input, out: Outcome, disk': StateMap, c: string)
    requires ValidInput(inp) && RunsTo(map[], inp, out, disk') && inp.cfg.chainDeathMinRuns == 1
    requires Loaded(inp, c) && c in DetectDead(out.results, EnvOf(inp))
    ensures c in out.candidates
  {
    DeathHistory.CandidateMeans(map[], inp, out, disk', c);
    DeathHistory.RunMovesDeath(map[], inp, out, disk', c);
    assert DeathHistory.LookedDead(inp, out, c);
  }

  lemma FreshChainIsWilling(inp: Input, out: Outcome, c: string)
    requires ValidInput(inp) && DetectsAndFlips(map[], inp, out) && Loaded(inp, c) && inp.acceptsFlip(c)
    ensures WillFlip(AfterDetect(map[], inp, out), inp.cfg.cooldown, inp.now, inp.acceptsFlip)(c)
  {
    DeathHistory.UpdateKeepsBare(map[], inp, out, c);
    RateLimits.DetectKeepsStamps(AfterUpdate(map[], inp, out), inp, out, c, RateLimits.StatusFlip);
  }

  lemma SoleCandidateIsFlipped(inp: Input, out: Outcome, disk': StateMap, c: string)
    requires ValidInput(inp) && RunsTo(map[], inp, out, disk') && c in out.candidates
    requires NameSet(inp.chains) == {c} && inp.cfg.maxStatusPRs >= 1 && inp.acceptsFlip(c)
    ensures c in out.flips
  {
    FreshChainIsWilling(inp, out, c);
    OpenedShape(out.candidates, WillFlip(AfterDetect(map[], inp, out), inp.cfg.cooldown, inp.now, inp.acceptsFlip), inp.cfg.maxStatusPRs);
    if |out.flips| > 0 {
      DeathHistory.CandidateMeans(map[], inp, out, disk', out.flips[0]);
    }
  }

  // ---------------------------------------------------------------- proposals and edits

  lemma {:induction false} EndpointAtIndex(entries: seq<Entry>, k: nat)
    ensures |EndpointsOf(entries)| == |entries|
    ensures k < |entries| ==> EndpointsOf(entries)[k] == entries[k].endpoint
  {
    if entries != [] {
      EndpointAtIndex(entries[1..], if k > 0 then k - 1 else 0);
    }
  }

  // A job of a loaded chain stands for an entry of its apis.
  lemma JobHasEntry(chains: seq<Chain>, i: nat, name: string, chainId: string, chainType: string, apis: Apis, j: Job) returns (e: Entry)
    requires DistinctNames(chains) && i < |chains| && chains[i] == LoadChain(name, chainId, chainType, apis)
    requires j in AllJobs(chains) && j.chain.name == name
    ensures Category(j.kind) in apis && e in apis[Category(j.kind)] && e.endpoint.address == j.endpoint.address
  {
    JobsChain(chains, j);
    var k :| 0 <= k < |chains| && chains[k] == j.chain;
    assert k == i;
    ExactDedup(chains[i]);
    ListedIsListUnder(name, chainId, chainType, apis, j.kind);
    assert DeclaredAt(chains[i], PairOf(j), j.order - 1);
    EndpointAtIndex(apis[Category(j.kind)], j.order - 1);
    e := apis[Category(j.kind)][j.order - 1];
  }

  lemma EntryIsHit(apis: Apis, dead: seq<Flagged>, f: Flagged, t: EndpointType, e: Entry)
    requires f in dead && f.check == t.LivenessCheck() && f.address == e.endpoint.address
    requires Category(t) in apis && e in apis[Category(t)]
    ensures Category(t) in HitCategories(apis, DeadKeys(dead))
  {
    CategoryOfCheck(t, f.check);
    assert ApiKey(Category(t), f.address) in DeadKeys(dead);
    var k :| 0 <= k < |apis[Category(t)]| && apis[Category(t)][k] == e;
    assert k in HitsIn(apis[Category(t)], Category(t), DeadKeys(dead));
  }

  // Every proposal edits its file: the no-op case of the editor cannot arise from it.
  lemma ProposalTakesEffect(
    disk: StateMap, inp: Input, out: Outcome, disk': StateMap, p: Proposal, i: nat, chainId: string, chainType: string, apis: Apis)
    requires ValidInput(inp) && RunsTo(disk, inp, out, disk') && p in out.removals
    requires i < |inp.chains| && inp.chains[i] == LoadChain(p.chain, chainId, chainType, apis)
    ensures HitCategories(apis, DeadKeys(p.dead)) != {}
  {
    var f := ProposalIsNotEmpty(disk, inp, out, disk', p);
    var job := ProposalJob(disk, inp, out, disk', p, f);
    var e := JobHasEntry(inp.chains, i, p.chain, chainId, chainType, apis, job);
    EntryIsHit(apis, p.dead, f, job.kind, e);
  }

  // The editor knows every check a proposal names, so it removes every pair the proposal lists.
  lemma ProposalIsUnderstood(disk: StateMap, inp: Input, out: Outcome, disk': StateMap, p: Proposal, f: Flagged)
    requires ValidInput(inp) && RunsTo(disk, inp, out, disk') && p in out.removals && f in p.dead
    ensures CheckCategory(f.check).Some? && KeyOfFlag(f) in RemovedKeys(p.dead)
    ensures KeyOfFlag(f) in JobKeysOf(AllJobs(inp.chains), p.chain)
  {
    var job := ProposalJob(disk, inp, out, disk', p, f);
    CategoryOfCheck(job.kind, f.check);
    assert KeyOfFlag(f) == JobKey(job);
  }

  lemma ProposalIsNotEmpty(disk: StateMap, inp: Input, out: Outcome, disk': StateMap, p: Proposal) returns (f: Flagged)
    requires RunsTo(disk, inp, out, disk') && p in out.removals
    ensures f in p.dead
  {
    var i :| 0 <= i < |out.removals| && out.removals[i] == p;
    assert ChainsOf(out.removals)[i] == p.chain && p.chain in ChainsOf(out.removals);
    var willing := WillRemove(out.flagged, out.passed, AfterRescue(disk, inp, out), inp.cfg.cooldown, inp.now, inp.acceptsRemoval);
    OpenedShape(NamesOf(inp.chains), willing, inp.cfg.maxEndpointPRs);
    f := p.dead[0];
  }

  // Once the proposal is merged, no later run over that registry proposes any of its pairs again.
  lemma MergedIsNotProposedAgain(
    disk: StateMap, inp: Input, out: Outcome, disk': StateMap, p: Proposal,
    i: nat, chainId: string, chainType: string, apis: Apis, chains: seq<Chain>, dead: seq<Flagged>)
    requires ValidInput(inp) && RunsTo(disk, inp, out, disk') && p in out.removals
    requires DistinctNames(chains) && i < |chains| && chains[i] == LoadChain(p.chain, chainId, chainType, apis)
    requires inp.chains == chains[i := LoadChain(p.chain, chainId, chainType, Edited(apis, DeadKeys(dead)))]
    ensures forall f, g :: f in p.dead && g in dead && CheckCategory(g.check).Some? ==> KeyOfFlag(f) != KeyOfFlag(g)
  {
    KeysAfterEdit(chains, i, p.chain, chainId, chainType, apis, dead);
    forall f | f in p.dead ensures KeyOfFlag(f) !in RemovedKeys(dead) {
      ProposalFacts(disk, inp, out, disk', p, f);
    }
  }
}
