// The other half of the safety results: what is due is done. Flags, openings and cooldowns, stated
// without the predicates the flows themselves are written in.
module Completeness {
  import opened GoStrings
  import opened Clock
  import opened Probing
  import opened State
  import opened Update
  import opened Schedule
  import opened PrFlow
  import opened Openings
  import opened ChainDeath
  import opened Sentinel
  import opened History
  import opened RateLimits
  import Scenarios
  import Registry
  import Dedup
  import DeathHistory

  // ---------------------------------------------------------------- flags

  // collectFlagged lists a pair exactly when its streak has reached the threshold.
  lemma FlaggedExactly(flagged: FlaggedMap, sm: StateMap, threshold: nat, names: set<string>, c: string, check: string, address: string)
    requires names <= sm.Keys && CollectsExactly(flagged, sm, threshold, names) && c in names
    requires '|' !in check && !(exists front: string :: check == front + "_chain_id")
    requires check + "|" + address in sm[c].endpoints
    ensures check + "|" + address in KeysOf(FlagsFor(flagged, c)) <==>
      sm[c].endpoints[check + "|" + address].consecutiveFailures >= threshold
  {
    var key := EndpointKey(check, address);
    assert Lists(FlagsFor(flagged, c), sm[c], FlaggableKeys(sm[c], threshold));
    CutInvertsKey(check, address);
    SuffixMeans(check, "_chain_id");
  }

  // The failing runs of a pair that run i has to count: those since the last break before it, and run
  // i itself; none when run i saw the pair pass.
  function Pending(tr: Trace, i: nat, c: string, k: string): seq<nat>
    requires i < |tr.inputs| && i < |tr.outs|
  {
    if SeenAs(tr.outs[i], c, k, true) then []
    else StreakRuns(tr, i, c, k) + (if SeenAs(tr.outs[i], c, k, false) then [i] else [])
  }

  // One run's update of a probed pair's streak, before any rescue.
  lemma UpdatedStreak(disk: StateMap, inp: Input, out: Outcome, c: string, k: string)
    requires ValidInput(inp) && DeliveredBy(out.results, AllJobs(inp.chains), inp.probe) && Loaded(inp, c) && Probed(inp, c, k)
    ensures c in AfterUpdate(disk, inp, out)
    ensures Lookup(AfterUpdate(disk, inp, out)[c].endpoints, k).consecutiveFailures ==
      if SeenAs(out, c, k, true) then 0
      else Streak(disk, c, k).consecutiveFailures + (if SeenAs(out, c, k, false) then 1 else 0)
  {
    UpdateLookup(disk, inp, out, c, k);
    MergedStreak(disk, inp, out, c, k);
    NotBothWays(inp, out, c, k);
    MergeCases(inp, out, c, k, Streak(disk, c, k), EndpointAt(ApplyAll(Load(disk, inp.chains), out.results, inp.now), c, k));
  }

  lemma PendingIsCounted(tr: Trace, i: nat, c: string, k: string)
    requires Happened(tr) && i < |tr.inputs| && Loaded(tr.inputs[i], c) && Probed(tr.inputs[i], c, k)
    ensures c in AfterUpdate(tr.disks[i], tr.inputs[i], tr.outs[i])
    ensures Lookup(AfterUpdate(tr.disks[i], tr.inputs[i], tr.outs[i])[c].endpoints, k).consecutiveFailures == |Pending(tr, i, c, k)|
  {
    HappenedDelivers(tr, i);
    UpdatedStreak(tr.disks[i], tr.inputs[i], tr.outs[i], c, k);
    StreakLength(tr, i, c, k);
    PendingLength(tr, i, c, k);
  }

  lemma HappenedDelivers(tr: Trace, i: nat)
    requires Happened(tr) && i < |tr.inputs|
    ensures i < |tr.outs| && i < |tr.disks|
    ensures ValidInput(tr.inputs[i]) && DeliveredBy(tr.outs[i].results, AllJobs(tr.inputs[i].chains), tr.inputs[i].probe)
  {
    assert RunsTo(tr.disks[i], tr.inputs[i], tr.outs[i], tr.disks[i + 1]);
  }

  lemma StreakLength(tr: Trace, i: nat, c: string, k: string)
    requires Happened(tr) && i < |tr.inputs|
    ensures i < |tr.disks| && Streak(tr.disks[i], c, k).consecutiveFailures == |StreakRuns(tr, i, c, k)|
  {
    StreakRefinesHistory(tr, i, c, k);
  }

  lemma PendingLength(tr: Trace, i: nat, c: string, k: string)
    requires i < |tr.inputs| && i < |tr.outs|
    ensures |Pending(tr, i, c, k)| ==
      if SeenAs(tr.outs[i], c, k, true) then 0
      else |StreakRuns(tr, i, c, k)| + (if SeenAs(tr.outs[i], c, k, false) then 1 else 0)
  {
  }

  lemma CheckOfKind(t: EndpointType)
    ensures '|' !in t.LivenessCheck() && !(exists front: string :: t.LivenessCheck() == front + "_chain_id")
  {
    NamesAreInjective(t, t);
    CheckKinds(t);
    SuffixMeans(t.LivenessCheck(), "_chain_id");
  }

  // Whether a job's pair is flagged, by the streak after the update.
  lemma JobFlagByStreak(disk: StateMap, inp: Input, out: Outcome, disk': StateMap, j: Job)
    requires ValidInput(inp) && RunsTo(disk, inp, out, disk') && j in AllJobs(inp.chains)
    requires j.chain.name !in DetectDead(out.results, EnvOf(inp))
    ensures j.chain.name in AfterUpdate(disk, inp, out)
    ensures JobKey(j) in KeysOf(FlagsFor(out.flagged, j.chain.name)) <==>
      Lookup(AfterUpdate(disk, inp, out)[j.chain.name].endpoints, JobKey(j)).consecutiveFailures >= inp.cfg.minFailures
  {
    var c, sm := j.chain.name, AfterFlips(disk, inp, out);
    JobsChain(inp.chains, j);
    assert Loaded(inp, c);
    FlippedKeepsEndpoints(disk, inp, out);
    CheckOfKind(j.kind);
    var names := sm.Keys - DetectDead(out.results, EnvOf(inp));
    if JobKey(j) in sm[c].endpoints {
      FlaggedExactly(out.flagged, sm, inp.cfg.minFailures, names, c, j.kind.LivenessCheck(), j.endpoint.address);
    } else {
      assert Lists(FlagsFor(out.flagged, c), sm[c], FlaggableKeys(sm[c], inp.cfg.minFailures));
    }
  }

  // Over any history: a job of a chain that does not look dead is flagged exactly when it failed in at
  // least min-failures runs since the last break.
  lemma JobIsFlagged(tr: Trace, i: nat, j: Job)
    requires Happened(tr) && i < |tr.inputs| && j in AllJobs(tr.inputs[i].chains)
    requires j.chain.name !in DetectDead(tr.outs[i].results, EnvOf(tr.inputs[i]))
    ensures JobKey(j) in KeysOf(FlagsFor(tr.outs[i].flagged, j.chain.name)) <==>
      |Pending(tr, i, j.chain.name, JobKey(j))| >= tr.inputs[i].cfg.minFailures
  {
    JobsChain(tr.inputs[i].chains, j);
    assert Loaded(tr.inputs[i], j.chain.name);
    JobFlagByStreak(tr.disks[i], tr.inputs[i], tr.outs[i], tr.disks[i + 1], j);
    PendingIsCounted(tr, i, j.chain.name, JobKey(j));
  }

  // What a run saw of a job is its liveness verdict, if that was not skipped.
  lemma SeenByProbe(inp: Input, out: Outcome, j: Job, pass: bool)
    requires ValidInput(inp) && DeliveredBy(out.results, AllJobs(inp.chains), inp.probe) && j in AllJobs(inp.chains)
    ensures SeenAs(out, j.chain.name, JobKey(j), pass) <==> !inp.probe(j).0.skipped && inp.probe(j).0.passed == pass
  {
    var c, k := j.chain.name, JobKey(j);
    if SeenAs(out, c, k, pass) {
      var r :| r in out.results && Observes(c, k)(r) && r.verdict.passed == pass;
      var other := CountedResultHasJob(out.results, AllJobs(inp.chains), inp.probe, r);
      JobKeyInjective(j, other);
      SameJob(inp.chains, j, other);
    }
    if !inp.probe(j).0.skipped && inp.probe(j).0.passed == pass {
      var r := Scenarios.JobIsObserved(AllJobs(inp.chains), inp.probe, out.results, j);
      assert Observes(c, k)(r);
    }
  }

  // ---------------------------------------------------------------- cooldowns

  // Never stamped, no cooldown configured, or the cooldown is over.
  predicate Ready(stamp: Time, cooldown: int, now: Time) {
    stamp == 0 || cooldown <= 0 || now - stamp >= cooldown
  }

  lemma CoolingEnds(stamp: Time, cooldown: Duration, now: Time)
    ensures !Cooling(stamp, cooldown, now) <==> Ready(stamp, cooldown, now)
  {
  }

  // What each flow finds as the stamp of its own bucket is what was saved.
  lemma StatusStampWhenAsked(disk: StateMap, inp: Input, out: Outcome, c: string)
    requires ValidInput(inp) && DeliveredBy(out.results, AllJobs(inp.chains), inp.probe) && Loaded(inp, c)
    ensures c in AfterDetect(disk, inp, out)
    ensures AfterDetect(disk, inp, out)[c].lastStatusPROpenedAt == Record(disk, c).lastStatusPROpenedAt
  {
    DetectedStamp(disk, inp, out, c, StatusFlip);
  }

  lemma RemovalStampWhenAsked(disk: StateMap, inp: Input, out: Outcome, c: string)
    requires ValidInput(inp) && DeliveredBy(out.results, AllJobs(inp.chains), inp.probe) && Loaded(inp, c)
    ensures c in AfterRescue(disk, inp, out)
    ensures AfterRescue(disk, inp, out)[c].lastPROpenedAt == Record(disk, c).lastPROpenedAt
  {
    DetectedStamp(disk, inp, out, c, Removal);
    EarlierFlowsKeepStamp(AfterDetect(disk, inp, out), out, inp.now, c);
  }

  lemma HashStampWhenAsked(disk: StateMap, inp: Input, out: Outcome, c: string)
    requires ValidInput(inp) && DeliveredBy(out.results, AllJobs(inp.chains), inp.probe) && Loaded(inp, c)
    ensures c in AfterRemovals(disk, inp, out)
    ensures AfterRemovals(disk, inp, out)[c].lastHashPROpenedAt == Record(disk, c).lastHashPROpenedAt
  {
    DetectedStamp(disk, inp, out, c, HashFix);
    EarlierFlowsKeepStamp(AfterDetect(disk, inp, out), out, inp.now, c);
  }

  // Who is due in each bucket: for a status PR a candidate; for a hash PR a loaded chain with mismatches
  // that does not look dead; for an endpoint PR one with flagged endpoints left over after the re-probe.
  // GitHub must accept, and the chain must not be cooling down in that bucket.
  predicate StatusDue(disk: StateMap, inp: Input, out: Outcome, c: string) {
    && c in out.candidates && inp.acceptsFlip(c)
    && Ready(Record(disk, c).lastStatusPROpenedAt, inp.cfg.cooldown, inp.now)
  }

  predicate FixDue(disk: StateMap, inp: Input, out: Outcome, c: string) {
    && c in NamesOf(inp.chains) && c in inp.mismatched && c !in DetectDead(out.results, EnvOf(inp)) && inp.acceptsFix(c)
    && Ready(Record(disk, c).lastHashPROpenedAt, inp.cfg.cooldown, inp.now)
  }

  predicate RemovalDue(disk: StateMap, inp: Input, out: Outcome, c: string) {
    && c in NamesOf(inp.chains) && LeftOver(out, c) != [] && inp.acceptsRemoval(c, LeftOver(out, c))
    && Ready(Record(disk, c).lastPROpenedAt, inp.cfg.cooldown, inp.now)
  }

  // The flagged endpoints of a chain that did not pass their re-probe.
  function LeftOver(out: Outcome, c: string): seq<Flagged> {
    StillDead(out.flagged, out.passed, c)
  }

  // Only chains that are due get a PR, and each that is gets one, unless the cap is reached.
  lemma StatusIsOpened(disk: StateMap, inp: Input, out: Outcome, disk': StateMap, c: string)
    requires ValidInput(inp) && RunsTo(disk, inp, out, disk')
    ensures c in out.flips ==> StatusDue(disk, inp, out, c)
    ensures StatusDue(disk, inp, out, c) ==> c in out.flips || |out.flips| >= inp.cfg.maxStatusPRs
  {
    OpenedShape(out.candidates, WillFlip(AfterDetect(disk, inp, out), inp.cfg.cooldown, inp.now, inp.acceptsFlip), inp.cfg.maxStatusPRs);
    if c in out.candidates {
      DeathHistory.CandidateMeans(disk, inp, out, disk', c);
      StatusStampWhenAsked(disk, inp, out, c);
      CoolingEnds(Record(disk, c).lastStatusPROpenedAt, inp.cfg.cooldown, inp.now);
    }
  }

  lemma FixIsOpened(disk: StateMap, inp: Input, out: Outcome, disk': StateMap, c: string)
    requires ValidInput(inp) && RunsTo(disk, inp, out, disk')
    ensures c in out.fixes ==> FixDue(disk, inp, out, c)
    ensures FixDue(disk, inp, out, c) ==> c in out.fixes || |out.fixes| >= inp.cfg.maxHashPRs
  {
    OpenedShape(NamesOf(inp.chains),
      WillFix(AfterRemovals(disk, inp, out), inp.mismatched, DetectDead(out.results, EnvOf(inp)), inp.cfg.cooldown, inp.now, inp.acceptsFix),
      inp.cfg.maxHashPRs);
    if c in NamesOf(inp.chains) {
      NamesAreLoaded(inp, c);
      HashStampWhenAsked(disk, inp, out, c);
      CoolingEnds(Record(disk, c).lastHashPROpenedAt, inp.cfg.cooldown, inp.now);
    }
  }

  lemma RemovalIsOpened(disk: StateMap, inp: Input, out: Outcome, disk': StateMap, c: string)
    requires ValidInput(inp) && RunsTo(disk, inp, out, disk')
    ensures c in ChainsOf(out.removals) ==> RemovalDue(disk, inp, out, c)
    ensures RemovalDue(disk, inp, out, c) ==> c in ChainsOf(out.removals) || |out.removals| >= inp.cfg.maxEndpointPRs
  {
    OpenedShape(NamesOf(inp.chains),
      WillRemove(out.flagged, out.passed, AfterRescue(disk, inp, out), inp.cfg.cooldown, inp.now, inp.acceptsRemoval),
      inp.cfg.maxEndpointPRs);
    if c in NamesOf(inp.chains) {
      NamesAreLoaded(inp, c);
      RemovalStampWhenAsked(disk, inp, out, c);
      CoolingEnds(Record(disk, c).lastPROpenedAt, inp.cfg.cooldown, inp.now);
    }
  }

  // ---------------------------------------------------------------- end to end

  ghost predicate Proposes(out: Outcome, j: Job) {
    exists p, f :: p in out.removals && f in p.dead
      && p.chain == j.chain.name && f.check == j.kind.LivenessCheck() && f.address == j.endpoint.address
  }

  lemma FlagOfJob(flagged: FlaggedMap, j: Job) returns (f: Flagged)
    requires JobKey(j) in KeysOf(FlagsFor(flagged, j.chain.name))
    requires forall g :: g in FlagsFor(flagged, j.chain.name) ==> '|' !in g.check
    ensures f in FlagsFor(flagged, j.chain.name) && f.check == j.kind.LivenessCheck() && f.address == j.endpoint.address
  {
    f :| f in FlagsFor(flagged, j.chain.name) && KeyOfFlag(f) == JobKey(j);
    CheckOfKind(j.kind);
    EndpointKeyInjective(f.check, f.address, j.kind.LivenessCheck(), j.endpoint.address);
  }

  lemma FlagsHaveNoBar(flagged: FlaggedMap, sm: StateMap, threshold: nat, names: set<string>, c: string, g: Flagged)
    requires names <= sm.Keys && CollectsExactly(flagged, sm, threshold, names) && g in FlagsFor(flagged, c)
    ensures '|' !in g.check
  {
    assert c in names;
    assert Lists(FlagsFor(flagged, c), sm[c], FlaggableKeys(sm[c], threshold));
    assert KeyOfFlag(g) in FlaggableKeys(sm[c], threshold);
  }

  lemma RunCollects(disk: StateMap, inp: Input, out: Outcome, disk': StateMap) returns (sm: StateMap, names: set<string>)
    requires RunsTo(disk, inp, out, disk')
    ensures names <= sm.Keys && CollectsExactly(out.flagged, sm, inp.cfg.minFailures, names)
  {
    sm := AfterFlips(disk, inp, out);
    names := sm.Keys - DetectDead(out.results, EnvOf(inp));
  }

  lemma NotRescued(disk: StateMap, inp: Input, out: Outcome, disk': StateMap, j: Job)
    requires ValidInput(inp) && RunsTo(disk, inp, out, disk') && j in AllJobs(inp.chains)
    requires !(inp.recheck(j).0.passed && !inp.recheck(j).0.skipped)
    ensures JobKey(j) !in RescueKeys(out.passed, j.chain.name)
  {
    var jobs := AllJobs(inp.chains);
    assert RescueKeys(out.passed, j.chain.name) == Recovered(jobs, out.flagged, inp.recheck, j.chain.name);
    if JobKey(j) in Recovered(jobs, out.flagged, inp.recheck, j.chain.name) {
      var k :| k in jobs && k.chain.name == j.chain.name && RecheckPasses(k, inp.recheck) && JobKey(k) == JobKey(j);
      JobKeyInjective(j, k);
      SameJob(inp.chains, j, k);
    }
  }

  lemma SameJob(chains: seq<Registry.Chain>, j: Job, k: Job)
    requires Registry.DistinctNames(chains) && j in AllJobs(chains) && k in AllJobs(chains)
    requires j.chain.name == k.chain.name && PairOf(j) == PairOf(k)
    ensures j == k
  {
    Dedup.AllJobsDistinct(chains);
    var jobs := AllJobs(chains);
    var a :| 0 <= a < |jobs| && jobs[a] == j;
    var b :| 0 <= b < |jobs| && jobs[b] == k;
    assert a == b;
  }

  lemma ProposalListsLeftOver(disk: StateMap, inp: Input, out: Outcome, disk': StateMap, c: string) returns (p: Proposal)
    requires RunsTo(disk, inp, out, disk') && c in ChainsOf(out.removals)
    ensures p in out.removals && p.chain == c && p.dead == LeftOver(out, c)
  {
    var i :| 0 <= i < |ChainsOf(out.removals)| && ChainsOf(out.removals)[i] == c;
    p := out.removals[i];
  }

  // The converse of removal safety: a pair that failed in at least min-failures runs since the last
  // break, in a chain that does not look dead, and that does not pass its own re-probe, is proposed for
  // removal -- unless the chain is cooling down, GitHub declines the proposal, or the cap is reached.
  lemma DueIsProposed(tr: Trace, i: nat, j: Job)
    requires Happened(tr) && i < |tr.inputs| && j in AllJobs(tr.inputs[i].chains)
    requires j.chain.name !in DetectDead(tr.outs[i].results, EnvOf(tr.inputs[i]))
    requires |Pending(tr, i, j.chain.name, JobKey(j))| >= tr.inputs[i].cfg.minFailures
    requires !(tr.inputs[i].recheck(j).0.passed && !tr.inputs[i].recheck(j).0.skipped)
    requires Ready(Record(tr.disks[i], j.chain.name).lastPROpenedAt, tr.inputs[i].cfg.cooldown, tr.inputs[i].now)
    requires tr.inputs[i].acceptsRemoval(j.chain.name, LeftOver(tr.outs[i], j.chain.name))
    ensures Proposes(tr.outs[i], j) || |tr.outs[i].removals| >= tr.inputs[i].cfg.maxEndpointPRs
  {
    var disk, inp, out, disk' := tr.disks[i], tr.inputs[i], tr.outs[i], tr.disks[i + 1];
    var c := j.chain.name;
    JobIsFlagged(tr, i, j);
    var sm, names := RunCollects(disk, inp, out, disk');
    forall g | g in FlagsFor(out.flagged, c) ensures '|' !in g.check {
      FlagsHaveNoBar(out.flagged, sm, inp.cfg.minFailures, names, c, g);
    }
    var f := FlagOfJob(out.flagged, j);
    NotRescued(disk, inp, out, disk', j);
    assert f in LeftOver(out, c);
    JobsName(inp, j);
    RemovalIsOpened(disk, inp, out, disk', c);
    if c in ChainsOf(out.removals) {
      var p := ProposalListsLeftOver(disk, inp, out, disk', c);
      assert f in p.dead;
    }
  }

  lemma JobsName(inp: Input, j: Job)
    requires j in AllJobs(inp.chains)
    ensures j.chain.name in NamesOf(inp.chains)
  {
    JobsChain(inp.chains, j);
    var k :| 0 <= k < |inp.chains| && inp.chains[k] == j.chain;
    assert NamesOf(inp.chains)[k] == j.chain.name;
  }
}
