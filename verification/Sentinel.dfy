// One sentinel run from loaded state to saved state: main in cmd/sentinel/main.go, openPRFlows and
// maybeOpenPRs in prflow.go. Non-dry runs with a state path, a token and successful saves.
module Sentinel {
  import opened Seqs
  import opened Clock
  import opened Registry
  import opened Checks
  import opened Probing
  import opened WorkerPool
  import opened State
  import opened Update
  import opened Schedule
  import opened PrFlow
  import opened Openings
  import opened ChainDeath

  datatype Config = Config(
    minFailures: nat,
    chainDeathMinRuns: int,
    staleAfter: Duration,
    cooldown: Duration,
    maxEndpointPRs: int,
    maxHashPRs: int,
    maxStatusPRs: int,
    concurrency: nat
  )

  // Everything one run takes from outside: the registry, the clock, the network and GitHub.
  datatype Input = Input(
    chains: seq<Chain>,
    now: Time,
    cfg: Config,
    domain: string -> string,
    probe: Probe,
    recheck: Probe,
    mismatched: set<string>,
    acceptsFlip: string -> bool,
    acceptsRemoval: Oracle,
    acceptsFix: string -> bool
  )

  // What one run observed and did.
  datatype Outcome = Outcome(
    results: seq<Result>,
    candidates: seq<string>,
    flips: seq<string>,
    flagged: FlaggedMap,
    passed: map<string, set<string>>,
    removals: seq<Proposal>,
    fixes: seq<string>
  )

  ghost predicate ValidInput(inp: Input) {
    && DistinctNames(inp.chains)
    && inp.now != NEVER
    && inp.cfg.concurrency >= 1 && inp.cfg.minFailures >= 1 && inp.cfg.chainDeathMinRuns >= 1
  }

  function EnvOf(inp: Input): Env {
    Env(inp.now, inp.cfg.staleAfter, inp.domain)
  }

  function NameSet(chains: seq<Chain>): set<string> {
    set ch | ch in chains :: ch.name
  }

  function Load(disk: StateMap, chains: seq<Chain>): StateMap {
    map c | c in NameSet(chains) :: if c in disk then disk[c] else NO_RECORD
  }

  function PruneTo(sm: StateMap, jobs: seq<Job>): StateMap {
    map c | c in sm :: Pruned(sm[c], JobKeysOf(jobs, c))
  }

  // ---------------------------------------------------------------- the states a run goes through

  function AfterUpdate(disk: StateMap, inp: Input, out: Outcome): StateMap {
    PruneTo(ApplyAll(Load(disk, inp.chains), out.results, inp.now), AllJobs(inp.chains))
  }

  function AfterDetect(disk: StateMap, inp: Input, out: Outcome): StateMap {
    DetectState(AfterUpdate(disk, inp, out), out.results, EnvOf(inp))
  }

  function AfterFlips(disk: StateMap, inp: Input, out: Outcome): StateMap {
    StampFlips(AfterDetect(disk, inp, out), out.flips, inp.now)
  }

  function AfterRescue(disk: StateMap, inp: Input, out: Outcome): StateMap {
    Rescue(AfterFlips(disk, inp, out), out.flagged, out.passed, inp.now)
  }

  function AfterRemovals(disk: StateMap, inp: Input, out: Outcome): StateMap {
    StampRemovals(AfterRescue(disk, inp, out), ChainsOf(out.removals), inp.now)
  }

  function AfterFixes(disk: StateMap, inp: Input, out: Outcome): StateMap {
    StampFixes(AfterRemovals(disk, inp, out), out.fixes, inp.now)
  }

  // ---------------------------------------------------------------- what each flow may do

  ghost predicate DetectsAndFlips(disk: StateMap, inp: Input, out: Outcome) {
    && DeliveredBy(out.results, AllJobs(inp.chains), inp.probe)
    && SortedListing(out.candidates, DetectCandidates(AfterUpdate(disk, inp, out), out.results, EnvOf(inp), inp.cfg.chainDeathMinRuns))
    && out.flips == Opened(out.candidates, WillFlip(AfterDetect(disk, inp, out), inp.cfg.cooldown, inp.now, inp.acceptsFlip), inp.cfg.maxStatusPRs)
  }

  ghost predicate Removes(sm: StateMap, inp: Input, flagged: FlaggedMap, passed: map<string, set<string>>, ps: seq<Proposal>, dead: set<string>) {
    && CollectsExactly(flagged, sm, inp.cfg.minFailures, sm.Keys - dead)
    && (forall c :: RescueKeys(passed, c) == Recovered(AllJobs(inp.chains), flagged, inp.recheck, c))
    && RemovalsDone(NamesOf(inp.chains), ps, Rescue(sm, flagged, passed, inp.now),
         StampRemovals(Rescue(sm, flagged, passed, inp.now), ChainsOf(ps), inp.now),
         flagged, passed, inp.cfg.cooldown, inp.cfg.maxEndpointPRs, inp.now, inp.acceptsRemoval)
  }

  ghost predicate Fixes(disk: StateMap, inp: Input, out: Outcome) {
    out.fixes == Opened(NamesOf(inp.chains),
      WillFix(AfterRemovals(disk, inp, out), inp.mismatched, DetectDead(out.results, EnvOf(inp)), inp.cfg.cooldown, inp.now, inp.acceptsFix),
      inp.cfg.maxHashPRs)
  }

  // One whole run: whatever the schedule, the iteration orders and GitHub's answers.
  ghost predicate RunsTo(disk: StateMap, inp: Input, out: Outcome, disk': StateMap) {
    && DetectsAndFlips(disk, inp, out)
    && Removes(AfterFlips(disk, inp, out), inp, out.flagged, out.passed, out.removals, DetectDead(out.results, EnvOf(inp)))
    && Fixes(disk, inp, out)
    && disk' == disk + AfterFixes(disk, inp, out)
  }

  // ---------------------------------------------------------------- the run itself

  // loadStateMap: one record per loaded chain, fresh where there is no file.
  method LoadStateMap(chains: seq<Chain>, disk: StateMap) returns (sm: StateMap)
    ensures sm == Load(disk, chains)
  {
    sm := map[];
    for i := 0 to |chains|
      invariant sm == Load(disk, chains[..i])
    {
      assert chains[..i + 1] == chains[..i] + [chains[i]];
      sm := sm[chains[i].name := if chains[i].name in disk then disk[chains[i].name] else NO_RECORD];
    }
    assert chains[..|chains|] == chains;
  }

  // Give each chain's flagged list its own backing array.
  method AllocateLists(flagged: FlaggedMap) returns (arrays: map<string, array<Flagged>>)
    ensures arrays.Keys == flagged.Keys && Separate(arrays)
    ensures forall c :: c in arrays ==> fresh(arrays[c]) && arrays[c][..] == flagged[c]
  {
    arrays := map[];
    var todo := flagged.Keys;
    while todo != {}
      invariant todo <= flagged.Keys && arrays.Keys == flagged.Keys - todo
      invariant Separate(arrays)
      invariant forall c :: c in arrays ==> fresh(arrays[c]) && arrays[c][..] == flagged[c]
      decreases todo
    {
      var name :| name in todo;
      todo := todo - {name};
      var fs := flagged[name];
      var a := new Flagged[|fs|](i requires 0 <= i < |fs| => fs[i]);
      assert a[..] == fs;
      arrays := arrays[name := a];
    }
  }

  lemma NothingToRemove(sm: StateMap, inp: Input, dead: set<string>)
    requires FlaggedPairs(sm, inp.cfg.minFailures) == {}
    ensures Removes(sm, inp, map[], map[], [], dead)
    ensures StampRemovals(Rescue(sm, map[], map[], inp.now), [], inp.now) == sm
  {
    forall c | c in sm ensures FlaggableKeys(sm[c], inp.cfg.minFailures) == {} {
      forall k | k in FlaggableKeys(sm[c], inp.cfg.minFailures) ensures (c, k) in FlaggedPairs(sm, inp.cfg.minFailures) {}
    }
    NoFlagsNoRemovals(sm, inp, dead);
  }

  lemma {:induction false} NobodyWilling(names: seq<string>, willing: string -> bool, cap: int)
    requires forall n :: n in names ==> !willing(n)
    ensures Opened(names, willing, cap) == []
  {
    if names != [] {
      NobodyWilling(names[..|names| - 1], willing, cap);
    }
  }

  lemma NoFlagsNoRemovals(sm: StateMap, inp: Input, dead: set<string>)
    requires CollectsExactly(map[], sm, inp.cfg.minFailures, sm.Keys - dead)
    ensures Removes(sm, inp, map[], map[], [], dead)
    ensures StampRemovals(Rescue(sm, map[], map[], inp.now), [], inp.now) == sm
  {
    var flagged: FlaggedMap := map[];
    var passed: map<string, set<string>> := map[];
    RescueStart(sm, flagged, passed, inp.now);
    assert Rescue(sm, flagged, passed, inp.now) == sm;
    assert StampRemovals(sm, ChainsOf([]), inp.now) == sm;
    assert ChainsOf([]) == [];
    var willing := WillRemove(flagged, passed, sm, inp.cfg.cooldown, inp.now, inp.acceptsRemoval);
    forall n ensures !willing(n) {
      assert StillDead(flagged, passed, n) == [];
    }
    NobodyWilling(NamesOf(inp.chains), willing, inp.cfg.maxEndpointPRs);
  }

  // maybeOpenPRs: collect, drop the chains that look dead, re-probe, reset, open.
  method MaybeOpenPRs(store: StateStore, inp: Input, jobs: seq<Job>, exclude: set<string>, schedule: (Pool<Job, Result>, nat) -> Action)
    returns (flagged: FlaggedMap, passed: map<string, set<string>>, ps: seq<Proposal>)
    requires ValidInput(inp) && jobs == AllJobs(inp.chains)
    requires forall ch :: ch in inp.chains ==> ch.name in store.chains
    requires Schedules(schedule)
    modifies store
    ensures Removes(old(store.chains), inp, flagged, passed, ps, exclude)
    ensures store.chains == StampRemovals(Rescue(old(store.chains), flagged, passed, inp.now), ChainsOf(ps), inp.now)
  {
    ghost var sm := store.chains;
    flagged := CollectFlagged(store.chains, inp.cfg.minFailures);
    flagged := flagged - exclude;
    assert CollectsExactly(flagged, sm, inp.cfg.minFailures, sm.Keys - exclude);
    if flagged == map[] {
      NoFlagsNoRemovals(sm, inp, exclude);
      return map[], map[], [];
    }
    passed := Preflight(jobs, flagged, inp.cfg.concurrency, inp.recheck, schedule);
    ApplyPreflightResults(store, flagged, passed, inp.now);
    var arrays := AllocateLists(flagged);
    ps := OpenPRs(store, inp.chains, arrays, flagged, passed, inp.cfg.cooldown, inp.cfg.maxEndpointPRs, inp.now, inp.acceptsRemoval);
  }

  lemma {:induction false} UpdateIsAfterUpdate(disk: StateMap, inp: Input, results: seq<Result>, active: ActiveKeys, sm: StateMap)
    requires forall c :: KeysFor(active, c) == JobKeysOf(AllJobs(inp.chains), c)
    requires sm == PruneAll(ApplyAll(Load(disk, inp.chains), results, inp.now), active)
    ensures sm == PruneTo(ApplyAll(Load(disk, inp.chains), results, inp.now), AllJobs(inp.chains))
    ensures sm.Keys == NameSet(inp.chains)
  {
    ApplyAllKeys(Load(disk, inp.chains), results, inp.now);
  }

  // Every counted result belongs to a loaded chain.
  lemma ResultsAreLoaded(chains: seq<Chain>, results: seq<Result>, probe: Probe, disk: StateMap)
    requires DeliveredBy(results, AllJobs(chains), probe)
    ensures ChainsLoaded(Load(disk, chains), results)
  {
    forall r | r in results && Counts(r) ensures r.chain in NameSet(chains) {
      var j := CountedResultHasJob(results, AllJobs(chains), probe, r);
      JobsChain(chains, j);
    }
  }

  lemma JobsChain(chains: seq<Chain>, j: Job)
    requires j in AllJobs(chains)
    ensures j.chain in chains && j in ChainJobs(j.chain)
  {
    Dedup.AllJobsMembers(chains);
    var ch :| ch in chains && j in ChainJobs(ch);
    Dedup.ExactDedup(ch);
  }

  // The part of main up to and including the death detection.
  method ProbeAndDetect(store: StateStore, inp: Input, jobs: seq<Job>, schedule: (Pool<Job, Result>, nat) -> Action, ghost disk: StateMap)
    returns (results: seq<Result>, flagged: nat, d: Detection)
    requires ValidInput(inp) && jobs == AllJobs(inp.chains) && store.chains == Load(disk, inp.chains)
    requires Schedules(schedule)
    modifies store
    ensures DeliveredBy(results, jobs, inp.probe)
    ensures var updated := PruneTo(ApplyAll(Load(disk, inp.chains), results, inp.now), jobs);
      && updated.Keys == NameSet(inp.chains)
      && flagged == |FlaggedPairs(updated, inp.cfg.minFailures)|
      && store.chains == DetectState(updated, results, EnvOf(inp))
      && d.looksDead == DetectDead(results, EnvOf(inp))
      && SortedListing(d.candidates, DetectCandidates(updated, results, EnvOf(inp), inp.cfg.chainDeathMinRuns))
  {
    results := RunWorkers(jobs, inp.cfg.concurrency, Prober(inp.probe), schedule);
    var active := BuildActiveLivenessKeys(jobs);
    ResultsAreLoaded(inp.chains, results, inp.probe, disk);
    flagged := UpdateState(store, results, active, inp.cfg.minFailures, inp.now);
    UpdateIsAfterUpdate(disk, inp, results, active, store.chains);
    d := RunChainDeathDetection(store, results, inp.cfg.chainDeathMinRuns, EnvOf(inp));
  }

  // Neither the death streaks nor the status-PR stamps touch the endpoint streaks.
  lemma EndpointsSurviveDetection(sm: StateMap, results: seq<Result>, env: Env, flips: seq<string>)
    ensures StampFlips(DetectState(sm, results, env), flips, env.now).Keys == sm.Keys
    ensures forall c :: c in sm ==> StampFlips(DetectState(sm, results, env), flips, env.now)[c].endpoints == sm[c].endpoints
  {
  }

  lemma SameEndpointsSameFlags(a: StateMap, b: StateMap, threshold: nat)
    requires a.Keys == b.Keys && forall c :: c in a ==> a[c].endpoints == b[c].endpoints
    ensures FlaggedPairs(a, threshold) == FlaggedPairs(b, threshold)
  {
  }

  function Removed(sm: StateMap, flagged: FlaggedMap, passed: map<string, set<string>>, ps: seq<Proposal>, now: Time): StateMap {
    StampRemovals(Rescue(sm, flagged, passed, now), ChainsOf(ps), now)
  }

  // openPRFlows after the status PRs: endpoint PRs if anything was flagged, then hash PRs.
  method OpenRepairPRs(store: StateStore, inp: Input, jobs: seq<Job>, count: nat, dead: set<string>, schedule: (Pool<Job, Result>, nat) -> Action)
    returns (flagged: FlaggedMap, passed: map<string, set<string>>, ps: seq<Proposal>, fixes: seq<string>)
    requires ValidInput(inp) && jobs == AllJobs(inp.chains)
    requires store.chains.Keys == NameSet(inp.chains) && count == |FlaggedPairs(store.chains, inp.cfg.minFailures)|
    requires Schedules(schedule)
    modifies store
    ensures Removes(old(store.chains), inp, flagged, passed, ps, dead)
    ensures var removed := Removed(old(store.chains), flagged, passed, ps, inp.now);
      && fixes == FixesFrom(removed, inp, dead)
      && store.chains == StampFixes(removed, fixes, inp.now)
  {
    if count > 0 {
      flagged, passed, ps := MaybeOpenPRs(store, inp, jobs, dead, schedule);
    } else {
      flagged, passed, ps := map[], map[], [];
      NothingToRemove(store.chains, inp, dead);
    }
    fixes := OpenHashPRs(store, inp.chains, inp.mismatched, dead, inp.cfg.cooldown, inp.cfg.maxHashPRs, inp.now, inp.acceptsFix);
  }

  // The states a run goes through are the stages of the specification.
  lemma StagesMatch(disk: StateMap, inp: Input, out: Outcome, flipped: StateMap, removed: StateMap, saved: StateMap)
    requires flipped == StampFlips(DetectState(AfterUpdate(disk, inp, out), out.results, EnvOf(inp)), out.flips, inp.now)
    requires removed == Removed(flipped, out.flagged, out.passed, out.removals, inp.now)
    requires saved == StampFixes(removed, out.fixes, inp.now)
    ensures flipped == AfterFlips(disk, inp, out)
    ensures removed == AfterRemovals(disk, inp, out)
    ensures saved == AfterFixes(disk, inp, out)
  {
  }

  function FixesFrom(removed: StateMap, inp: Input, dead: set<string>): seq<string> {
    Opened(NamesOf(inp.chains), WillFix(removed, inp.mismatched, dead, inp.cfg.cooldown, inp.now, inp.acceptsFix), inp.cfg.maxHashPRs)
  }

  lemma RunComposes(disk: StateMap, inp: Input, out: Outcome, disk': StateMap)
    requires DetectsAndFlips(disk, inp, out)
    requires Removes(AfterFlips(disk, inp, out), inp, out.flagged, out.passed, out.removals, DetectDead(out.results, EnvOf(inp)))
    requires out.fixes == FixesFrom(AfterRemovals(disk, inp, out), inp, DetectDead(out.results, EnvOf(inp)))
    requires disk' == disk + AfterFixes(disk, inp, out)
    ensures RunsTo(disk, inp, out, disk')
  {
  }

  // Everything up to the status PRs: what was probed, detected and flipped.
  method DetectAndFlip(store: StateStore, inp: Input, jobs: seq<Job>, schedule: (Pool<Job, Result>, nat) -> Action, ghost disk: StateMap)
    returns (results: seq<Result>, count: nat, candidates: seq<string>, dead: set<string>, flips: seq<string>)
    requires ValidInput(inp) && jobs == AllJobs(inp.chains) && store.chains == Load(disk, inp.chains)
    requires Schedules(schedule)
    modifies store
    ensures dead == DetectDead(results, EnvOf(inp))
    ensures DeliveredBy(results, jobs, inp.probe)
    ensures var updated := PruneTo(ApplyAll(Load(disk, inp.chains), results, inp.now), jobs);
      && SortedListing(candidates, DetectCandidates(updated, results, EnvOf(inp), inp.cfg.chainDeathMinRuns))
      && flips == Opened(candidates, WillFlip(DetectState(updated, results, EnvOf(inp)), inp.cfg.cooldown, inp.now, inp.acceptsFlip), inp.cfg.maxStatusPRs)
      && store.chains == StampFlips(DetectState(updated, results, EnvOf(inp)), flips, inp.now)
      && store.chains.Keys == NameSet(inp.chains)
    ensures count == |FlaggedPairs(store.chains, inp.cfg.minFailures)|
  {
    var d: Detection;
    results, count, d := ProbeAndDetect(store, inp, jobs, schedule, disk);
    ghost var updated := PruneTo(ApplyAll(Load(disk, inp.chains), results, inp.now), jobs);
    candidates, dead := d.candidates, d.looksDead;
    CandidatesAreLoaded(candidates, updated, results, EnvOf(inp), inp.cfg.chainDeathMinRuns);
    flips := OpenStatusPRs(store, candidates, inp.cfg.cooldown, inp.cfg.maxStatusPRs, inp.now, inp.acceptsFlip);
    EndpointsSurviveDetection(updated, results, EnvOf(inp), flips);
    SameEndpointsSameFlags(updated, store.chains, inp.cfg.minFailures);
  }

  method Run(disk: StateMap, inp: Input, schedule: (Pool<Job, Result>, nat) -> Action) returns (out: Outcome, disk': StateMap)
    requires ValidInput(inp)
    requires Schedules(schedule)
    ensures RunsTo(disk, inp, out, disk')
  {
    var jobs := BuildJobs(inp.chains);
    var loaded := LoadStateMap(inp.chains, disk);
    var store := new StateStore(loaded);
    var results, count, candidates, dead, flips := DetectAndFlip(store, inp, jobs, schedule, disk);
    ghost var flipped := store.chains;
    var flagged, passed, removals, fixes := OpenRepairPRs(store, inp, jobs, count, dead, schedule);
    out := Outcome(results, candidates, flips, flagged, passed, removals, fixes);
    disk' := disk + store.chains;
    StagesMatch(disk, inp, out, flipped, Removed(flipped, flagged, passed, removals, inp.now), store.chains);
    RunComposes(disk, inp, out, disk');
  }

  lemma CandidatesAreLoaded(names: seq<string>, sm: StateMap, results: seq<Result>, env: Env, minRuns: int)
    requires SortedListing(names, DetectCandidates(sm, results, env, minRuns))
    ensures NoDuplicates(names)
    ensures forall c :: c in names ==> c in sm
  {
    ListingMembers(names, DetectCandidates(sm, results, env, minRuns));
  }
}
