// What every reachable state of the sentinel owes to the runs that led to it.
module History {
  import opened GoStrings
  import opened Seqs
  import opened Clock
  import opened Probing
  import opened State
  import opened Update
  import opened Schedule
  import opened PrFlow
  import opened Openings
  import opened ChainDeath
  import opened Sentinel
  import opened Trails

  // A history of complete runs, starting with an empty state directory.
  datatype Trace = Trace(inputs: seq<Input>, outs: seq<Outcome>, disks: seq<StateMap>)

  ghost predicate Happened(tr: Trace) {
    && |tr.outs| == |tr.inputs| && |tr.disks| == |tr.inputs| + 1
    && tr.disks[0] == map[]
    && forall i :: 0 <= i < |tr.inputs| ==> ValidInput(tr.inputs[i]) && RunsTo(tr.disks[i], tr.inputs[i], tr.outs[i], tr.disks[i + 1])
  }

  function Record(disk: StateMap, c: string): ChainRecord {
    if c in disk then disk[c] else NO_RECORD
  }

  function Streak(disk: StateMap, c: string, k: string): EndpointState {
    Lookup(Record(disk, c).endpoints, k)
  }

  // ---------------------------------------------------------------- one run, seen by one pair

  predicate Loaded(inp: Input, c: string) {
    c in NameSet(inp.chains)
  }

  // The pair is one of this run's jobs.
  predicate Probed(inp: Input, c: string, k: string) {
    k in JobKeysOf(AllJobs(inp.chains), c)
  }

  // It was flagged, probed again before the PR, and passed.
  predicate RescuedIn(out: Outcome, c: string, k: string) {
    k in RescueKeys(out.passed, c)
  }

  // The non-skipped liveness results of the pair in this run.
  predicate SeenAs(out: Outcome, c: string, k: string, pass: bool) {
    exists r :: r in out.results && Observes(c, k)(r) && r.verdict.passed == pass
  }

  predicate EvidenceIn(out: Outcome, c: string, k: string, evidence: string) {
    exists r :: r in out.results && Observes(c, k)(r) && !r.verdict.passed && r.verdict.evidence == evidence
  }

  // The run ends a streak: it loaded the chain and the pair was gone, passed, or was rescued.
  predicate Breaks(inp: Input, out: Outcome, c: string, k: string) {
    Loaded(inp, c) && (!Probed(inp, c, k) || SeenAs(out, c, k, true) || RescuedIn(out, c, k))
  }

  // The run extends a streak.
  predicate Extends(inp: Input, out: Outcome, c: string, k: string) {
    Loaded(inp, c) && !Breaks(inp, out, c, k) && SeenAs(out, c, k, false)
  }

  // What one run does to one pair's streak data.
  ghost predicate StreakStep(inp: Input, out: Outcome, c: string, k: string, es: EndpointState, es': EndpointState) {
    && (Breaks(inp, out, c, k) ==>
          es'.consecutiveFailures == 0 && es'.firstFailureTime == NEVER && es'.firstEvidence == es'.lastEvidence == "")
    && (Extends(inp, out, c, k) ==>
          && es'.consecutiveFailures == es.consecutiveFailures + 1
          && EvidenceIn(out, c, k, es'.lastEvidence)
          && (es.consecutiveFailures == 0 ==> es'.firstFailureTime == inp.now && es'.firstEvidence == es'.lastEvidence)
          && (es.consecutiveFailures > 0 ==> es'.firstFailureTime == es.firstFailureTime && es'.firstEvidence == es.firstEvidence))
    && (!Breaks(inp, out, c, k) && !Extends(inp, out, c, k) ==>
          es' == es)
  }

  // ---------------------------------------------------------------- stage by stage

  lemma StampsKeepEndpoints(sm: StateMap, removed: seq<string>, fixed: seq<string>, now: Time)
    ensures StampFixes(StampRemovals(sm, removed, now), fixed, now).Keys == sm.Keys
    ensures forall c :: c in sm ==> StampFixes(StampRemovals(sm, removed, now), fixed, now)[c].endpoints == sm[c].endpoints
  {
  }

  lemma UpdatedKeys(disk: StateMap, inp: Input, out: Outcome)
    ensures ApplyAll(Load(disk, inp.chains), out.results, inp.now).Keys == NameSet(inp.chains)
    ensures AfterUpdate(disk, inp, out).Keys == NameSet(inp.chains)
  {
    ApplyAllKeys(Load(disk, inp.chains), out.results, inp.now);
  }

  lemma FlippedKeepsEndpoints(disk: StateMap, inp: Input, out: Outcome)
    ensures AfterFlips(disk, inp, out).Keys == NameSet(inp.chains) == AfterUpdate(disk, inp, out).Keys
    ensures forall c :: Loaded(inp, c) ==> AfterFlips(disk, inp, out)[c].endpoints == AfterUpdate(disk, inp, out)[c].endpoints
  {
    UpdatedKeys(disk, inp, out);
    EndpointsSurviveDetection(AfterUpdate(disk, inp, out), out.results, EnvOf(inp), out.flips);
  }

  lemma SavedKeepsEndpoints(disk: StateMap, inp: Input, out: Outcome)
    ensures AfterFixes(disk, inp, out).Keys == NameSet(inp.chains) == AfterRescue(disk, inp, out).Keys
    ensures forall c :: Loaded(inp, c) ==> AfterFixes(disk, inp, out)[c].endpoints == AfterRescue(disk, inp, out)[c].endpoints
  {
    FlippedKeepsEndpoints(disk, inp, out);
    StampsKeepEndpoints(AfterRescue(disk, inp, out), ChainsOf(out.removals), out.fixes, inp.now);
  }

  lemma UpdateLookup(disk: StateMap, inp: Input, out: Outcome, c: string, k: string)
    requires Loaded(inp, c)
    ensures c in AfterUpdate(disk, inp, out) && c in ApplyAll(Load(disk, inp.chains), out.results, inp.now)
    ensures Lookup(AfterUpdate(disk, inp, out)[c].endpoints, k) ==
      if Probed(inp, c, k) then EndpointAt(ApplyAll(Load(disk, inp.chains), out.results, inp.now), c, k) else ZERO_STATE
  {
    UpdatedKeys(disk, inp, out);
  }

  lemma RescueLookup(sm: StateMap, out: Outcome, c: string, k: string, now: Time)
    requires c in sm && RescueKeys(out.passed, c) <= KeysOf(FlagsFor(out.flagged, c))
    ensures Lookup(Rescue(sm, out.flagged, out.passed, now)[c].endpoints, k) ==
      if RescuedIn(out, c, k) then Reset(Lookup(sm[c].endpoints, k), now) else Lookup(sm[c].endpoints, k)
  {
  }

  lemma RescuedAreFlagged(jobs: seq<Job>, flagged: FlaggedMap, recheck: Probe, c: string)
    ensures Recovered(jobs, flagged, recheck, c) <= KeysOf(FlagsFor(flagged, c))
  {
  }

  // The saved streak of a pair after a run that loaded its chain.
  lemma SavedStreak(disk: StateMap, inp: Input, out: Outcome, disk': StateMap, c: string, k: string)
    requires RunsTo(disk, inp, out, disk') && Loaded(inp, c)
    ensures c in ApplyAll(Load(disk, inp.chains), out.results, inp.now)
    ensures var merged := EndpointAt(ApplyAll(Load(disk, inp.chains), out.results, inp.now), c, k);
      var kept := if Probed(inp, c, k) then merged else ZERO_STATE;
      Streak(disk', c, k) == if RescuedIn(out, c, k) then Reset(kept, inp.now) else kept
  {
    UpdateLookup(disk, inp, out, c, k);
    FlippedKeepsEndpoints(disk, inp, out);
    RescuedAreFlagged(AllJobs(inp.chains), out.flagged, inp.recheck, c);
    assert RescueKeys(out.passed, c) == Recovered(AllJobs(inp.chains), out.flagged, inp.recheck, c);
    RescueLookup(AfterFlips(disk, inp, out), out, c, k, inp.now);
    SavedKeepsEndpoints(disk, inp, out);
  }

  lemma UnloadedUntouched(disk: StateMap, inp: Input, out: Outcome, disk': StateMap, c: string)
    requires disk' == disk + AfterFixes(disk, inp, out) && !Loaded(inp, c)
    ensures Record(disk', c) == Record(disk, c)
  {
    SavedKeepsEndpoints(disk, inp, out);
  }

  // The results of one run hold at most one observation of a pair, and it decides the streak.
  lemma MergedStreak(disk: StateMap, inp: Input, out: Outcome, c: string, k: string)
    requires ValidInput(inp) && DeliveredBy(out.results, AllJobs(inp.chains), inp.probe) && Loaded(inp, c)
    ensures c in ApplyAll(Load(disk, inp.chains), out.results, inp.now)
    ensures !SeenAs(out, c, k, true) && !SeenAs(out, c, k, false) ==>
      EndpointAt(ApplyAll(Load(disk, inp.chains), out.results, inp.now), c, k) == Streak(disk, c, k)
    ensures SeenAs(out, c, k, true) || SeenAs(out, c, k, false) ==>
      MergesOne(Streak(disk, c, k), EndpointAt(ApplyAll(Load(disk, inp.chains), out.results, inp.now), c, k), out.results, inp.now, c, k)
  {
    RunObservesOnce(out.results, inp.chains, inp.probe);
    UpdatedKeys(disk, inp, out);
    ApplyAllAt(Load(disk, inp.chains), out.results, inp.now, c, k);
    CountPositive(out.results, Observes(c, k));
    if Count(out.results, Observes(c, k)) == 1 {
      var r :| r in out.results && Observes(c, k)(r);
      assert SeenAs(out, c, k, r.verdict.passed);
    }
  }

  lemma NotBothWays(inp: Input, out: Outcome, c: string, k: string)
    requires ValidInput(inp) && DeliveredBy(out.results, AllJobs(inp.chains), inp.probe)
    ensures !(SeenAs(out, c, k, true) && SeenAs(out, c, k, false))
  {
    RunObservesOnce(out.results, inp.chains, inp.probe);
    if SeenAs(out, c, k, true) && SeenAs(out, c, k, false) {
      var r1 :| r1 in out.results && Observes(c, k)(r1) && r1.verdict.passed;
      var r2 :| r2 in out.results && Observes(c, k)(r2) && !r2.verdict.passed;
      SoleObservation(out.results, c, k, r1, r2);
    }
  }

  lemma {:induction false} RunStreakStep(disk: StateMap, inp: Input, out: Outcome, disk': StateMap, c: string, k: string)
    requires ValidInput(inp) && RunsTo(disk, inp, out, disk')
    ensures StreakStep(inp, out, c, k, Streak(disk, c, k), Streak(disk', c, k))
  {
    if Loaded(inp, c) {
      SavedStreak(disk, inp, out, disk', c, k);
      MergedStreak(disk, inp, out, c, k);
      NotBothWays(inp, out, c, k);
      MergeCases(inp, out, c, k, Streak(disk, c, k), EndpointAt(ApplyAll(Load(disk, inp.chains), out.results, inp.now), c, k));
    } else {
      UnloadedUntouched(disk, inp, out, disk', c);
    }
  }

  lemma MergeCases(inp: Input, out: Outcome, c: string, k: string, es: EndpointState, es': EndpointState)
    requires !(SeenAs(out, c, k, true) && SeenAs(out, c, k, false))
    requires SeenAs(out, c, k, true) || SeenAs(out, c, k, false) ==> MergesOne(es, es', out.results, inp.now, c, k)
    ensures SeenAs(out, c, k, true) ==>
      es'.consecutiveFailures == 0 && es'.firstFailureTime == NEVER && es'.firstEvidence == es'.lastEvidence == ""
    ensures SeenAs(out, c, k, false) ==>
      && es'.consecutiveFailures == es.consecutiveFailures + 1
      && EvidenceIn(out, c, k, es'.lastEvidence)
      && (es.consecutiveFailures == 0 ==> es'.firstFailureTime == inp.now && es'.firstEvidence == es'.lastEvidence)
      && (es.consecutiveFailures > 0 ==> es'.firstFailureTime == es.firstFailureTime && es'.firstEvidence == es.firstEvidence)
  {
    if MergesOne(es, es', out.results, inp.now, c, k) {
      var r :| r in out.results && Observes(c, k)(r) && es' == Observe(es, r, inp.now);
      assert SeenAs(out, c, k, r.verdict.passed);
    }
  }

  // ---------------------------------------------------------------- streaks over any history

  predicate BrokenAt(tr: Trace, i: nat, c: string, k: string)
    requires i < |tr.inputs| && i < |tr.outs|
  {
    Breaks(tr.inputs[i], tr.outs[i], c, k)
  }

  predicate FailedAt(tr: Trace, i: nat, c: string, k: string)
    requires i < |tr.inputs| && i < |tr.outs|
  {
    Extends(tr.inputs[i], tr.outs[i], c, k)
  }

  function Breaking(tr: Trace, c: string, k: string): nat -> bool {
    (i: nat) => i < |tr.inputs| && i < |tr.outs| && BrokenAt(tr, i, c, k)
  }

  function Failing(tr: Trace, c: string, k: string): nat -> bool {
    (i: nat) => i < |tr.inputs| && i < |tr.outs| && FailedAt(tr, i, c, k)
  }

  // The runs before run n in which the pair was probed and failed, since the latest break.
  function StreakRuns(tr: Trace, n: nat, c: string, k: string): seq<nat> {
    Trail(Breaking(tr, c, k), Failing(tr, c, k), n)
  }

  ghost predicate RunsOf(tr: Trace, runs: seq<nat>) {
    forall a :: 0 <= a < |runs| ==> runs[a] < |tr.inputs| && runs[a] < |tr.outs|
  }

  // The streak data of a pair, as its history says it must be.
  ghost predicate StreakIs(tr: Trace, runs: seq<nat>, c: string, k: string, es: EndpointState)
    requires RunsOf(tr, runs)
  {
    && es.consecutiveFailures == |runs|
    && (runs == [] ==> es.firstFailureTime == NEVER && es.firstEvidence == es.lastEvidence == "")
    && (|runs| > 0 ==>
          && es.firstFailureTime == tr.inputs[runs[0]].now
          && EvidenceIn(tr.outs[runs[0]], c, k, es.firstEvidence)
          && EvidenceIn(tr.outs[runs[|runs| - 1]], c, k, es.lastEvidence))
  }

  // One more run after a history whose streak is accounted for.
  lemma StreakExtends(tr: Trace, runs: seq<nat>, i: nat, c: string, k: string, es: EndpointState, es': EndpointState)
    requires i < |tr.inputs| && i < |tr.outs| && RunsOf(tr, runs) && StreakIs(tr, runs, c, k, es)
    requires StreakStep(tr.inputs[i], tr.outs[i], c, k, es, es')
    ensures RunsOf(tr, runs + [i])
    ensures BrokenAt(tr, i, c, k) ==> StreakIs(tr, [], c, k, es')
    ensures FailedAt(tr, i, c, k) ==> StreakIs(tr, runs + [i], c, k, es')
    ensures !BrokenAt(tr, i, c, k) && !FailedAt(tr, i, c, k) ==> StreakIs(tr, runs, c, k, es')
  {
    if FailedAt(tr, i, c, k) {
      var more := runs + [i];
      assert more[|more| - 1] == i && more[0] == if runs == [] then i else runs[0];
    }
  }

  ghost predicate StreaksMove(tr: Trace, c: string, k: string) {
    && |tr.outs| == |tr.inputs| && |tr.disks| == |tr.inputs| + 1
    && Streak(tr.disks[0], c, k) == ZERO_STATE
    && forall i :: 0 <= i < |tr.inputs| ==>
         StreakStep(tr.inputs[i], tr.outs[i], c, k, Streak(tr.disks[i], c, k), Streak(tr.disks[i + 1], c, k))
  }

  lemma HistoryMovesStreaks(tr: Trace, c: string, k: string)
    requires Happened(tr)
    ensures StreaksMove(tr, c, k)
  {
    forall i | 0 <= i < |tr.inputs|
      ensures StreakStep(tr.inputs[i], tr.outs[i], c, k, Streak(tr.disks[i], c, k), Streak(tr.disks[i + 1], c, k))
    {
      RunStreakStep(tr.disks[i], tr.inputs[i], tr.outs[i], tr.disks[i + 1], c, k);
    }
  }

  lemma {:induction false} StreakFollows(tr: Trace, n: nat, c: string, k: string)
    requires StreaksMove(tr, c, k) && n <= |tr.inputs|
    ensures RunsOf(tr, StreakRuns(tr, n, c, k))
    ensures StreakIs(tr, StreakRuns(tr, n, c, k), c, k, Streak(tr.disks[n], c, k))
  {
    if n > 0 {
      var i := n - 1;
      StreakFollows(tr, i, c, k);
      TrailStep(Breaking(tr, c, k), Failing(tr, c, k), i);
      StreakExtends(tr, StreakRuns(tr, i, c, k), i, c, k, Streak(tr.disks[i], c, k), Streak(tr.disks[n], c, k));
    }
  }

  // After any sequence of runs the persisted streak counts exactly the failing runs since the
  // latest pass, rescue or disappearance, and remembers its oldest and newest failure. Skipped
  // results and runs that did not load the chain change nothing.
  lemma StreakRefinesHistory(tr: Trace, n: nat, c: string, k: string)
    requires Happened(tr) && n <= |tr.inputs|
    ensures RunsOf(tr, StreakRuns(tr, n, c, k))
    ensures StreakIs(tr, StreakRuns(tr, n, c, k), c, k, Streak(tr.disks[n], c, k))
  {
    HistoryMovesStreaks(tr, c, k);
    StreakFollows(tr, n, c, k);
  }

  // ---------------------------------------------------------------- removal safety

  // The job that a flagged endpoint came from, in the same run.
  lemma JobBehindKey(jobs: seq<Job>, c: string, k: string) returns (j: Job)
    requires k in JobKeysOf(jobs, c)
    ensures j in jobs && j.chain.name == c && JobKey(j) == k
    ensures Cut(k, '|') == CutResult(j.kind.LivenessCheck(), j.endpoint.address, true)
  {
    j :| j in jobs && j.chain.name == c && JobKey(j) == k;
    NamesAreInjective(j.kind, j.kind);
    CutInvertsKey(j.kind.LivenessCheck(), j.endpoint.address);
  }

  // What a proposal of one run says about the state it was made from.
  lemma {:induction false} ProposalFacts(disk: StateMap, inp: Input, out: Outcome, disk': StateMap, p: Proposal, f: Flagged)
    requires ValidInput(inp) && RunsTo(disk, inp, out, disk') && p in out.removals && f in p.dead
    ensures Loaded(inp, p.chain) && p.chain !in DetectDead(out.results, EnvOf(inp))
    ensures Probed(inp, p.chain, KeyOfFlag(f)) && !RescuedIn(out, p.chain, KeyOfFlag(f))
    ensures KeyOfFlag(f) in KeysOf(FlagsFor(out.flagged, p.chain))
    ensures f == FlagOf(KeyOfFlag(f), Streak(disk', p.chain, KeyOfFlag(f)))
    ensures f.consecutiveFailures >= inp.cfg.minFailures
  {
    var c, k := p.chain, KeyOfFlag(f);
    var sm := AfterFlips(disk, inp, out);
    var names := ChainsOf(out.removals);
    var i :| 0 <= i < |out.removals| && out.removals[i] == p;
    assert names[i] == c && c in names;
    var willing := WillRemove(out.flagged, out.passed, AfterRescue(disk, inp, out), inp.cfg.cooldown, inp.now, inp.acceptsRemoval);
    OpenedShape(NamesOf(inp.chains), willing, inp.cfg.maxEndpointPRs);
    NamesAreLoaded(inp, c);
    FlippedKeepsEndpoints(disk, inp, out);
    StillDeadMeans(out.flagged, out.passed, c, f);
    FlagsAreProbed(disk, inp, out, c, f);
    SavedStreak(disk, inp, out, disk', c, k);
    UpdateLookup(disk, inp, out, c, k);
  }

  lemma NamesAreLoaded(inp: Input, c: string)
    requires c in NamesOf(inp.chains)
    ensures Loaded(inp, c)
  {
    var i :| 0 <= i < |NamesOf(inp.chains)| && NamesOf(inp.chains)[i] == c;
    assert inp.chains[i] in inp.chains;
  }

  lemma StillDeadMeans(flagged: FlaggedMap, passed: map<string, set<string>>, c: string, f: Flagged)
    requires f in StillDead(flagged, passed, c)
    ensures c in flagged && f in flagged[c] && KeyOfFlag(f) !in RescueKeys(passed, c)
  {
  }

  lemma FlagsAreProbed(disk: StateMap, inp: Input, out: Outcome, c: string, f: Flagged)
    requires Loaded(inp, c) && c in out.flagged && f in out.flagged[c]
    requires var sm := AfterFlips(disk, inp, out);
      CollectsExactly(out.flagged, sm, inp.cfg.minFailures, sm.Keys - DetectDead(out.results, EnvOf(inp)))
    ensures c !in DetectDead(out.results, EnvOf(inp)) && Probed(inp, c, KeyOfFlag(f))
    ensures c in AfterUpdate(disk, inp, out) && KeyOfFlag(f) in AfterUpdate(disk, inp, out)[c].endpoints
    ensures f == FlagOf(KeyOfFlag(f), AfterUpdate(disk, inp, out)[c].endpoints[KeyOfFlag(f)])
    ensures f.consecutiveFailures >= inp.cfg.minFailures
  {
    FlippedKeepsEndpoints(disk, inp, out);
    var sm := AfterFlips(disk, inp, out);
    assert Lists(FlagsFor(out.flagged, c), sm[c], FlaggableKeys(sm[c], inp.cfg.minFailures));
    assert KeyOfFlag(f) in FlaggableKeys(sm[c], inp.cfg.minFailures);
  }

  // The runs behind a proposal.
  ghost predicate FailedThroughout(tr: Trace, runs: seq<nat>, i: nat, c: string, k: string)
    requires i < |tr.inputs| && i < |tr.outs|
  {
    && Ascending(runs)
    && (forall a :: 0 <= a < |runs| ==> runs[a] <= i && SeenAs(tr.outs[runs[a]], c, k, false))
    && |runs| > 0
    && (forall j :: runs[0] <= j <= i && Loaded(tr.inputs[j], c) ==>
          !SeenAs(tr.outs[j], c, k, true) && Probed(tr.inputs[j], c, k) && !RescuedIn(tr.outs[j], c, k))
  }

  lemma StreakFailedThroughout(tr: Trace, i: nat, c: string, k: string)
    requires i < |tr.inputs| && i < |tr.outs|
    requires |StreakRuns(tr, i + 1, c, k)| > 0
    ensures FailedThroughout(tr, StreakRuns(tr, i + 1, c, k), i, c, k)
  {
    TrailMeans(Breaking(tr, c, k), Failing(tr, c, k), i + 1);
    var runs := StreakRuns(tr, i + 1, c, k);
    forall a | 0 <= a < |runs| ensures runs[a] <= i && FailedAt(tr, runs[a], c, k) {
      assert runs[a] in runs;
    }
    forall j | runs[0] <= j <= i && Loaded(tr.inputs[j], c)
      ensures !SeenAs(tr.outs[j], c, k, true) && Probed(tr.inputs[j], c, k) && !RescuedIn(tr.outs[j], c, k)
    {
      assert runs[0] in runs;
      assert !Breaking(tr, c, k)(j);
    }
  }

  // End-to-end safety. If run i proposes to remove (check, address) from chain c, then there are at
  // least min-failures distinct runs, the last no later than i, in each of which that very pair was
  // probed and failed; since the first of them no run saw it pass or rescued it; it is one of this run's jobs,
  // its own re-probe did not pass, and c does not look dead.
  lemma RemovalSafety(tr: Trace, i: nat, p: Proposal, f: Flagged) returns (runs: seq<nat>, job: Job)
    requires Happened(tr) && i < |tr.inputs| && p in tr.outs[i].removals && f in p.dead
    ensures |runs| == f.consecutiveFailures >= tr.inputs[i].cfg.minFailures
    ensures FailedThroughout(tr, runs, i, p.chain, KeyOfFlag(f))
    ensures f.firstFailureTime == tr.inputs[runs[0]].now
    ensures EvidenceIn(tr.outs[runs[0]], p.chain, KeyOfFlag(f), f.firstEvidence)
    ensures EvidenceIn(tr.outs[runs[|runs| - 1]], p.chain, KeyOfFlag(f), f.lastEvidence)
    ensures job in AllJobs(tr.inputs[i].chains) && job.chain.name == p.chain
    ensures job.kind.LivenessCheck() == f.check && job.endpoint.address == f.address
    ensures !RecheckPasses(job, tr.inputs[i].recheck)
    ensures p.chain !in DetectDead(tr.outs[i].results, EnvOf(tr.inputs[i]))
  {
    var c, k := p.chain, KeyOfFlag(f);
    ProposalFacts(tr.disks[i], tr.inputs[i], tr.outs[i], tr.disks[i + 1], p, f);
    StreakRefinesHistory(tr, i + 1, c, k);
    runs := StreakRuns(tr, i + 1, c, k);
    StreakFailedThroughout(tr, i, c, k);
    job := ProposalJob(tr.disks[i], tr.inputs[i], tr.outs[i], tr.disks[i + 1], p, f);
  }

  lemma ProposalJob(disk: StateMap, inp: Input, out: Outcome, disk': StateMap, p: Proposal, f: Flagged) returns (job: Job)
    requires ValidInput(inp) && RunsTo(disk, inp, out, disk') && p in out.removals && f in p.dead
    ensures job in AllJobs(inp.chains) && job.chain.name == p.chain
    ensures job.kind.LivenessCheck() == f.check && job.endpoint.address == f.address
    ensures !RecheckPasses(job, inp.recheck)
  {
    ProposalFacts(disk, inp, out, disk', p, f);
    job := JobBehindKey(AllJobs(inp.chains), p.chain, KeyOfFlag(f));
    assert RescueKeys(out.passed, p.chain) == Recovered(AllJobs(inp.chains), out.flagged, inp.recheck, p.chain);
  }
}
