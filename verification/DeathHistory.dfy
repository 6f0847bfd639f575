// The chain-death streak against the history of runs, and what one run may do to one chain.
module DeathHistory {
  import opened GoStrings
  import opened Seqs
  import opened Sorting
  import opened Clock
  import opened State
  import opened Schedule
  import opened PrFlow
  import opened Openings
  import opened ChainDeath
  import opened Sentinel
  import opened Trails
  import opened History

  // The run could tell: healthy vantage, and at least one core check of the chain was measured.
  predicate Judged(inp: Input, out: Outcome, c: string) {
    Loaded(inp, c) && !VantageSuspect(out.results) && Moves(FactsOf(out.results, EnvOf(inp)), c)
  }

  predicate LookedDead(inp: Input, out: Outcome, c: string) {
    Judged(inp, out, c) && c in DetectDead(out.results, EnvOf(inp))
  }

  // What one run does to a chain's death streak.
  ghost predicate DeathMoves(inp: Input, out: Outcome, c: string, rec: ChainRecord, rec': ChainRecord) {
    if LookedDead(inp, out, c) then
      && rec'.chainDeadStreak == rec.chainDeadStreak + 1
      && rec'.chainDeadFirstTime == if rec.chainDeadStreak == 0 then inp.now else rec.chainDeadFirstTime
    else if Judged(inp, out, c) then rec'.chainDeadStreak == 0 && rec'.chainDeadFirstTime == NEVER
    else rec'.chainDeadStreak == rec.chainDeadStreak && rec'.chainDeadFirstTime == rec.chainDeadFirstTime
  }

  ghost predicate SameDeath(rec: ChainRecord, rec': ChainRecord) {
    rec'.chainDeadStreak == rec.chainDeadStreak && rec'.chainDeadFirstTime == rec.chainDeadFirstTime
  }

  // The other flows of a run leave the death streak alone.
  lemma FlowsKeepDeath(sm: StateMap, flips: seq<string>, flagged: FlaggedMap, passed: map<string, set<string>>, removed: seq<string>, fixed: seq<string>, now: Time)
    ensures var last := StampFixes(StampRemovals(Rescue(StampFlips(sm, flips, now), flagged, passed, now), removed, now), fixed, now);
      && last.Keys == sm.Keys
      && forall c :: c in sm ==> SameDeath(sm[c], last[c])
  {
  }

  lemma UpdateKeepsBare(disk: StateMap, inp: Input, out: Outcome, c: string)
    requires ValidInput(inp) && DeliveredBy(out.results, AllJobsOf(inp), inp.probe) && Loaded(inp, c)
    ensures c in AfterUpdate(disk, inp, out) && Bare(AfterUpdate(disk, inp, out)[c]) == Bare(Record(disk, c))
  {
    RunObservesOnce(out.results, inp.chains, inp.probe);
    UpdatedKeys(disk, inp, out);
    ApplyAllAt(Load(disk, inp.chains), out.results, inp.now, c, "");
  }

  function AllJobsOf(inp: Input): seq<Probing.Job> {
    Probing.AllJobs(inp.chains)
  }

  lemma RunMovesDeath(disk: StateMap, inp: Input, out: Outcome, disk': StateMap, c: string)
    requires ValidInput(inp) && RunsTo(disk, inp, out, disk')
    ensures DeathMoves(inp, out, c, Record(disk, c), Record(disk', c))
  {
    if Loaded(inp, c) {
      UpdateKeepsBare(disk, inp, out, c);
      DetectMovesDeath(AfterUpdate(disk, inp, out), inp, out, c);
      FlowsKeepDeath(AfterDetect(disk, inp, out), out.flips, out.flagged, out.passed, ChainsOf(out.removals), out.fixes, inp.now);
      assert SameDeath(AfterDetect(disk, inp, out)[c], AfterFixes(disk, inp, out)[c]);
    } else {
      UnloadedUntouched(disk, inp, out, disk', c);
    }
  }

  lemma DetectMovesDeath(sm: StateMap, inp: Input, out: Outcome, c: string)
    requires c in sm && Loaded(inp, c)
    ensures c in DetectState(sm, out.results, EnvOf(inp))
    ensures DeathMoves(inp, out, c, sm[c], DetectState(sm, out.results, EnvOf(inp))[c])
  {
  }

  // ---------------------------------------------------------------- over any history

  predicate AliveAt(tr: Trace, i: nat, c: string)
    requires i < |tr.inputs| && i < |tr.outs|
  {
    Judged(tr.inputs[i], tr.outs[i], c) && !LookedDead(tr.inputs[i], tr.outs[i], c)
  }

  predicate DeadAt(tr: Trace, i: nat, c: string)
    requires i < |tr.inputs| && i < |tr.outs|
  {
    LookedDead(tr.inputs[i], tr.outs[i], c)
  }

  function JudgedAlive(tr: Trace, c: string): nat -> bool {
    (i: nat) => i < |tr.inputs| && i < |tr.outs| && AliveAt(tr, i, c)
  }

  function JudgedDead(tr: Trace, c: string): nat -> bool {
    (i: nat) => i < |tr.inputs| && i < |tr.outs| && DeadAt(tr, i, c)
  }

  // The runs before run n in which c looked dead, after the last one in which it was judged alive.
  function DeadRuns(tr: Trace, n: nat, c: string): seq<nat> {
    Trail(JudgedAlive(tr, c), JudgedDead(tr, c), n)
  }

  // Exactly the trailing block: strictly increasing, all dead-looking, none judged alive since its
  // first run, and no dead-looking run left out.
  lemma DeadRunsMeans(tr: Trace, n: nat, c: string)
    requires n <= |tr.inputs| && n <= |tr.outs|
    ensures Ascending(DeadRuns(tr, n, c))
    ensures forall j: nat :: j in DeadRuns(tr, n, c) <==> j < n && DeadAt(tr, j, c) && forall m: nat :: j <= m < n ==> !AliveAt(tr, m, c)
  {
    TrailMeans(JudgedAlive(tr, c), JudgedDead(tr, c), n);
    forall j: nat | j < n ensures Quiet(JudgedAlive(tr, c), j, n) <==> forall m: nat :: j <= m < n ==> !AliveAt(tr, m, c) {
      QuietMeans(tr, n, c, j);
    }
  }

  lemma QuietMeans(tr: Trace, n: nat, c: string, j: nat)
    requires n <= |tr.inputs| && n <= |tr.outs|
    ensures Quiet(JudgedAlive(tr, c), j, n) <==> forall m: nat :: j <= m < n ==> !AliveAt(tr, m, c)
  {
    assert forall m: nat :: j <= m < n ==> JudgedAlive(tr, c)(m) == AliveAt(tr, m, c);
  }

  ghost predicate DeathIs(tr: Trace, runs: seq<nat>, rec: ChainRecord)
    requires RunsOf(tr, runs)
  {
    && rec.chainDeadStreak == |runs|
    && rec.chainDeadFirstTime == if |runs| == 0 then NEVER else tr.inputs[runs[0]].now
  }

  ghost predicate DeathStreaksMove(tr: Trace, c: string) {
    && |tr.outs| == |tr.inputs| && |tr.disks| == |tr.inputs| + 1
    && Record(tr.disks[0], c) == NO_RECORD
    && forall i :: 0 <= i < |tr.inputs| ==>
         DeathMoves(tr.inputs[i], tr.outs[i], c, Record(tr.disks[i], c), Record(tr.disks[i + 1], c))
  }

  lemma HistoryMovesDeath(tr: Trace, c: string)
    requires Happened(tr)
    ensures DeathStreaksMove(tr, c)
  {
    forall i | 0 <= i < |tr.inputs|
      ensures DeathMoves(tr.inputs[i], tr.outs[i], c, Record(tr.disks[i], c), Record(tr.disks[i + 1], c))
    {
      RunMovesDeath(tr.disks[i], tr.inputs[i], tr.outs[i], tr.disks[i + 1], c);
    }
  }

  lemma DeadOrAlive(tr: Trace, i: nat, c: string)
    requires i < |tr.inputs| && i < |tr.outs|
    ensures !(DeadAt(tr, i, c) && AliveAt(tr, i, c))
    ensures !DeadAt(tr, i, c) && !AliveAt(tr, i, c) <==> !Judged(tr.inputs[i], tr.outs[i], c)
  {
  }

  lemma {:induction false} DeathFollows(tr: Trace, n: nat, c: string)
    requires DeathStreaksMove(tr, c) && n <= |tr.inputs|
    ensures RunsOf(tr, DeadRuns(tr, n, c))
    ensures DeathIs(tr, DeadRuns(tr, n, c), Record(tr.disks[n], c))
  {
    if n > 0 {
      DeathFollows(tr, n - 1, c);
      TrailStep(JudgedAlive(tr, c), JudgedDead(tr, c), n - 1);
      DeadOrAlive(tr, n - 1, c);
    }
  }

  // The persisted streak is the length of the trailing block of dead-looking runs, once suspect
  // runs, runs without a core check and runs that did not load the chain are deleted; its first
  // time is that of the block's first run, and is zero exactly when the streak is.
  lemma DeathStreakRefinesHistory(tr: Trace, n: nat, c: string)
    requires Happened(tr) && n <= |tr.inputs|
    ensures RunsOf(tr, DeadRuns(tr, n, c))
    ensures DeathIs(tr, DeadRuns(tr, n, c), Record(tr.disks[n], c))
    ensures Record(tr.disks[n], c).chainDeadFirstTime == NEVER <==> Record(tr.disks[n], c).chainDeadStreak == 0
  {
    HistoryMovesDeath(tr, c);
    DeathFollows(tr, n, c);
    var runs := DeadRuns(tr, n, c);
    if |runs| > 0 {
      assert ValidInput(tr.inputs[runs[0]]);
    }
  }

  // The candidates of a run, sorted and without repetition, are exactly the chains it judged whose
  // trailing block of dead-looking runs has reached the threshold.
  lemma CandidatesAreExact(tr: Trace, i: nat, c: string)
    requires Happened(tr) && i < |tr.inputs|
    ensures NoDuplicates(tr.outs[i].candidates) && NoInversion(tr.outs[i].candidates, Less)
    ensures c in tr.outs[i].candidates <==>
      Judged(tr.inputs[i], tr.outs[i], c) && |DeadRuns(tr, i + 1, c)| >= tr.inputs[i].cfg.chainDeathMinRuns
  {
    DeathStreakRefinesHistory(tr, i + 1, c);
    CandidateMeans(tr.disks[i], tr.inputs[i], tr.outs[i], tr.disks[i + 1], c);
  }

  lemma CandidateMeans(disk: StateMap, inp: Input, out: Outcome, disk': StateMap, c: string)
    requires ValidInput(inp) && RunsTo(disk, inp, out, disk')
    ensures NoDuplicates(out.candidates) && NoInversion(out.candidates, Less)
    ensures c in out.candidates <==> Judged(inp, out, c) && Record(disk', c).chainDeadStreak >= inp.cfg.chainDeathMinRuns
    ensures c in out.candidates ==> LookedDead(inp, out, c)
  {
    ListingMembers(out.candidates, DetectCandidates(AfterUpdate(disk, inp, out), out.results, EnvOf(inp), inp.cfg.chainDeathMinRuns));
    UpdatedKeys(disk, inp, out);
    if Loaded(inp, c) {
      SavedDeath(disk, inp, out, disk', c);
    }
    RunMovesDeath(disk, inp, out, disk', c);
  }

  lemma SavedDeath(disk: StateMap, inp: Input, out: Outcome, disk': StateMap, c: string)
    requires disk' == disk + AfterFixes(disk, inp, out) && Loaded(inp, c)
    ensures c in AfterDetect(disk, inp, out) && SameDeath(AfterDetect(disk, inp, out)[c], Record(disk', c))
  {
    UpdatedKeys(disk, inp, out);
    FlowsKeepDeath(AfterDetect(disk, inp, out), out.flips, out.flagged, out.passed, ChainsOf(out.removals), out.fixes, inp.now);
    assert SameDeath(AfterDetect(disk, inp, out)[c], AfterFixes(disk, inp, out)[c]);
  }

  // ---------------------------------------------------------------- one run, one chain, one PR flow

  lemma FlipIsCandidate(disk: StateMap, inp: Input, out: Outcome, disk': StateMap, c: string)
    requires ValidInput(inp) && RunsTo(disk, inp, out, disk') && c in out.flips
    ensures c in out.candidates && LookedDead(inp, out, c)
  {
    OpenedShape(out.candidates, WillFlip(AfterDetect(disk, inp, out), inp.cfg.cooldown, inp.now, inp.acceptsFlip), inp.cfg.maxStatusPRs);
    CandidateMeans(disk, inp, out, disk', c);
  }

  // A chain that gets a status PR gets neither an endpoint PR nor a hash PR in the same run.
  lemma FlowsExcludeEachOther(disk: StateMap, inp: Input, out: Outcome, disk': StateMap, c: string)
    requires ValidInput(inp) && RunsTo(disk, inp, out, disk') && c in out.flips
    ensures LookedDead(inp, out, c)
    ensures c !in ChainsOf(out.removals)
    ensures c !in out.fixes
  {
    FlipIsCandidate(disk, inp, out, disk', c);
    OpenedShape(NamesOf(inp.chains),
      WillFix(AfterRemovals(disk, inp, out), inp.mismatched, DetectDead(out.results, EnvOf(inp)), inp.cfg.cooldown, inp.now, inp.acceptsFix),
      inp.cfg.maxHashPRs);
    if c in ChainsOf(out.removals) {
      RemovedIsNotDead(disk, inp, out, disk', c);
    }
  }

  lemma RemovedIsNotDead(disk: StateMap, inp: Input, out: Outcome, disk': StateMap, c: string)
    requires ValidInput(inp) && RunsTo(disk, inp, out, disk') && c in ChainsOf(out.removals)
    ensures c !in DetectDead(out.results, EnvOf(inp))
  {
    var p := OpenedProposal(disk, inp, out, disk', c);
    assert p.dead[0] in p.dead;
    ProposalFacts(disk, inp, out, disk', p, p.dead[0]);
  }

  lemma OpenedProposal(disk: StateMap, inp: Input, out: Outcome, disk': StateMap, c: string) returns (p: Proposal)
    requires RunsTo(disk, inp, out, disk') && c in ChainsOf(out.removals)
    ensures p in out.removals && p.chain == c && p.dead != []
  {
    var i :| 0 <= i < |ChainsOf(out.removals)| && ChainsOf(out.removals)[i] == c;
    p := out.removals[i];
    var willing := WillRemove(out.flagged, out.passed, AfterRescue(disk, inp, out), inp.cfg.cooldown, inp.now, inp.acceptsRemoval);
    OpenedShape(NamesOf(inp.chains), willing, inp.cfg.maxEndpointPRs);
  }

  // A status PR rests on at least chain-death-min-runs dead-looking runs, ending with this one, with
  // no run in between that judged the chain alive.
  lemma {:induction false} FlipSafety(tr: Trace, i: nat, c: string)
    requires Happened(tr) && i < |tr.inputs| && c in tr.outs[i].flips
    ensures |DeadRuns(tr, i + 1, c)| >= tr.inputs[i].cfg.chainDeathMinRuns
    ensures DeadAt(tr, i, c) && |DeadRuns(tr, i + 1, c)| > 0
    ensures forall j :: DeadRuns(tr, i + 1, c)[0] <= j <= i ==> !AliveAt(tr, j, c)
  {
    FlipIsCandidate(tr.disks[i], tr.inputs[i], tr.outs[i], tr.disks[i + 1], c);
    CandidatesAreExact(tr, i, c);
    NeverAliveSince(tr, i + 1, c);
  }

  lemma NeverAliveSince(tr: Trace, n: nat, c: string)
    requires n <= |tr.inputs| && n <= |tr.outs| && |DeadRuns(tr, n, c)| > 0
    ensures forall j :: DeadRuns(tr, n, c)[0] <= j < n ==> !AliveAt(tr, j, c)
  {
    DeadRunsMeans(tr, n, c);
    assert DeadRuns(tr, n, c)[0] in DeadRuns(tr, n, c);
  }
}
