// Per-run caps and per-chain cooldowns, over any history, in three independent buckets.
module RateLimits {
  import opened Clock
  import opened State
  import opened Schedule
  import opened PrFlow
  import opened Openings
  import opened ChainDeath
  import opened Sentinel
  import opened History
  import DeathHistory

  datatype Bucket = Removal | HashFix | StatusFlip

  function OpenedIn(out: Outcome, b: Bucket): seq<string> {
    match b
    case Removal => ChainsOf(out.removals)
    case HashFix => out.fixes
    case StatusFlip => out.flips
  }

  function CapOf(cfg: Config, b: Bucket): int {
    match b
    case Removal => cfg.maxEndpointPRs
    case HashFix => cfg.maxHashPRs
    case StatusFlip => cfg.maxStatusPRs
  }

  function StampOf(rec: ChainRecord, b: Bucket): Time {
    match b
    case Removal => rec.lastPROpenedAt
    case HashFix => rec.lastHashPROpenedAt
    case StatusFlip => rec.lastStatusPROpenedAt
  }

  // Who is asked, and on what condition, in each bucket.
  function Asked(inp: Input, out: Outcome, b: Bucket): seq<string> {
    if b.StatusFlip? then out.candidates else NamesOf(inp.chains)
  }

  function Willing(disk: StateMap, inp: Input, out: Outcome, b: Bucket): string -> bool {
    match b
    case Removal =>
      WillRemove(out.flagged, out.passed, AfterRescue(disk, inp, out), inp.cfg.cooldown, inp.now, inp.acceptsRemoval)
    case HashFix =>
      WillFix(AfterRemovals(disk, inp, out), inp.mismatched, DetectDead(out.results, EnvOf(inp)), inp.cfg.cooldown, inp.now, inp.acceptsFix)
    case StatusFlip =>
      WillFlip(AfterDetect(disk, inp, out), inp.cfg.cooldown, inp.now, inp.acceptsFlip)
  }

  lemma OpenedInEach(disk: StateMap, inp: Input, out: Outcome, disk': StateMap, b: Bucket)
    requires RunsTo(disk, inp, out, disk')
    ensures OpenedIn(out, b) == Opened(Asked(inp, out, b), Willing(disk, inp, out, b), CapOf(inp.cfg, b))
  {
  }

  // Each flow opens at most its own cap, and stops short only when everyone willing was served.
  lemma CapsHold(disk: StateMap, inp: Input, out: Outcome, disk': StateMap, b: Bucket)
    requires RunsTo(disk, inp, out, disk')
    ensures |OpenedIn(out, b)| <= if CapOf(inp.cfg, b) < 0 then 0 else CapOf(inp.cfg, b)
    ensures forall c :: c in Asked(inp, out, b) && Willing(disk, inp, out, b)(c) && c !in OpenedIn(out, b) ==>
      |OpenedIn(out, b)| >= CapOf(inp.cfg, b)
  {
    OpenedInEach(disk, inp, out, disk', b);
    OpenedShape(Asked(inp, out, b), Willing(disk, inp, out, b), CapOf(inp.cfg, b));
  }

  // ---------------------------------------------------------------- stamps

  lemma DetectKeepsStamps(sm: StateMap, inp: Input, out: Outcome, c: string, b: Bucket)
    requires c in sm
    ensures c in DetectState(sm, out.results, EnvOf(inp))
    ensures StampOf(DetectState(sm, out.results, EnvOf(inp))[c], b) == StampOf(sm[c], b)
  {
  }

  lemma FlowsStamp(sm: StateMap, out: Outcome, now: Time, c: string, b: Bucket)
    requires c in sm
    ensures var last := StampFixes(StampRemovals(Rescue(StampFlips(sm, out.flips, now), out.flagged, out.passed, now), ChainsOf(out.removals), now), out.fixes, now);
      c in last && StampOf(last[c], b) == if c in OpenedIn(out, b) then now else StampOf(sm[c], b)
  {
  }

  lemma OpenedAreLoaded(disk: StateMap, inp: Input, out: Outcome, disk': StateMap, c: string, b: Bucket)
    requires ValidInput(inp) && RunsTo(disk, inp, out, disk') && c in OpenedIn(out, b)
    ensures Loaded(inp, c)
  {
    OpenedInEach(disk, inp, out, disk', b);
    OpenedShape(Asked(inp, out, b), Willing(disk, inp, out, b), CapOf(inp.cfg, b));
    match b
    case Removal => NamesAreLoaded(inp, c);
    case HashFix => NamesAreLoaded(inp, c);
    case StatusFlip => DeathHistory.FlipIsCandidate(disk, inp, out, disk', c);
  }

  lemma BareStamps(rec: ChainRecord, rec': ChainRecord, b: Bucket)
    requires Bare(rec) == Bare(rec')
    ensures StampOf(rec, b) == StampOf(rec', b)
  {
    assert StampOf(Bare(rec), b) == StampOf(rec, b) && StampOf(Bare(rec'), b) == StampOf(rec', b);
  }

  lemma DetectedStamp(disk: StateMap, inp: Input, out: Outcome, c: string, b: Bucket)
    requires ValidInput(inp) && DeliveredBy(out.results, DeathHistory.AllJobsOf(inp), inp.probe) && Loaded(inp, c)
    ensures c in AfterDetect(disk, inp, out) && StampOf(AfterDetect(disk, inp, out)[c], b) == StampOf(Record(disk, c), b)
  {
    DeathHistory.UpdateKeepsBare(disk, inp, out, c);
    BareStamps(AfterUpdate(disk, inp, out)[c], Record(disk, c), b);
    DetectKeepsStamps(AfterUpdate(disk, inp, out), inp, out, c, b);
  }

  lemma LoadedStamps(disk: StateMap, inp: Input, out: Outcome, c: string, b: Bucket)
    requires ValidInput(inp) && DeliveredBy(out.results, DeathHistory.AllJobsOf(inp), inp.probe) && Loaded(inp, c)
    ensures c in AfterFixes(disk, inp, out)
    ensures StampOf(AfterFixes(disk, inp, out)[c], b) == if c in OpenedIn(out, b) then inp.now else StampOf(Record(disk, c), b)
  {
    DetectedStamp(disk, inp, out, c, b);
    FlowsStamp(AfterDetect(disk, inp, out), out, inp.now, c, b);
  }

  // A run moves a chain's stamp in a bucket exactly when it opens a PR for it in that bucket.
  lemma RunStamps(disk: StateMap, inp: Input, out: Outcome, disk': StateMap, c: string, b: Bucket)
    requires ValidInput(inp) && RunsTo(disk, inp, out, disk')
    ensures StampOf(Record(disk', c), b) == if c in OpenedIn(out, b) then inp.now else StampOf(Record(disk, c), b)
  {
    if Loaded(inp, c) {
      LoadedStamps(disk, inp, out, c, b);
    } else {
      UnloadedUntouched(disk, inp, out, disk', c);
      if c in OpenedIn(out, b) {
        OpenedAreLoaded(disk, inp, out, disk', c, b);
      }
    }
  }

  // When a flow looks at its stamp, nothing earlier in the run has moved it.
  lemma OpenedWereReady(disk: StateMap, inp: Input, out: Outcome, disk': StateMap, c: string, b: Bucket)
    requires ValidInput(inp) && RunsTo(disk, inp, out, disk') && c in OpenedIn(out, b)
    ensures !Cooling(StampOf(Record(disk, c), b), inp.cfg.cooldown, inp.now)
  {
    OpenedInEach(disk, inp, out, disk', b);
    OpenedShape(Asked(inp, out, b), Willing(disk, inp, out, b), CapOf(inp.cfg, b));
    OpenedAreLoaded(disk, inp, out, disk', c, b);
    DeathHistory.UpdateKeepsBare(disk, inp, out, c);
    DetectKeepsStamps(AfterUpdate(disk, inp, out), inp, out, c, b);
    EarlierFlowsKeepStamp(AfterDetect(disk, inp, out), out, inp.now, c);
  }

  lemma EarlierFlowsKeepStamp(sm: StateMap, out: Outcome, now: Time, c: string)
    requires c in sm
    ensures var rescued := Rescue(StampFlips(sm, out.flips, now), out.flagged, out.passed, now);
      && c in rescued && rescued[c].lastPROpenedAt == sm[c].lastPROpenedAt
      && StampRemovals(rescued, ChainsOf(out.removals), now)[c].lastHashPROpenedAt == sm[c].lastHashPROpenedAt
  {
  }

  // ---------------------------------------------------------------- over any history

  predicate OpensAt(tr: Trace, i: nat, c: string, b: Bucket)
    requires i < |tr.outs|
  {
    c in OpenedIn(tr.outs[i], b)
  }

  ghost predicate StampsMove(tr: Trace, c: string, b: Bucket) {
    && |tr.outs| == |tr.inputs| && |tr.disks| == |tr.inputs| + 1
    && forall i :: 0 <= i < |tr.inputs| ==>
         StampOf(Record(tr.disks[i + 1], c), b) ==
           if OpensAt(tr, i, c, b) then tr.inputs[i].now else StampOf(Record(tr.disks[i], c), b)
  }

  lemma HistoryMovesStamps(tr: Trace, c: string, b: Bucket)
    requires Happened(tr)
    ensures StampsMove(tr, c, b)
  {
    forall i | 0 <= i < |tr.inputs|
      ensures StampOf(Record(tr.disks[i + 1], c), b) ==
        if OpensAt(tr, i, c, b) then tr.inputs[i].now else StampOf(Record(tr.disks[i], c), b)
    {
      RunStamps(tr.disks[i], tr.inputs[i], tr.outs[i], tr.disks[i + 1], c, b);
    }
  }

  lemma {:induction false} StampRemembers(tr: Trace, i: nat, n: nat, c: string, b: Bucket)
    requires StampsMove(tr, c, b) && i < n <= |tr.inputs|
    requires OpensAt(tr, i, c, b) && forall j :: i < j < n ==> !OpensAt(tr, j, c, b)
    ensures StampOf(Record(tr.disks[n], c), b) == tr.inputs[i].now
  {
    if i < n - 1 {
      StampRemembers(tr, i, n - 1, c, b);
    }
  }

  // Two successive openings for one chain in one bucket are at least the cooldown apart, whatever
  // happened in the other buckets and however many runs lie between.
  lemma CooldownHolds(tr: Trace, i: nat, j: nat, c: string, b: Bucket)
    requires Happened(tr) && i < j < |tr.inputs|
    requires OpensAt(tr, i, c, b) && OpensAt(tr, j, c, b) && forall m :: i < m < j ==> !OpensAt(tr, m, c, b)
    ensures tr.inputs[j].cfg.cooldown > 0 ==> tr.inputs[j].now - tr.inputs[i].now >= tr.inputs[j].cfg.cooldown
  {
    HistoryMovesStamps(tr, c, b);
    StampRemembers(tr, i, j, c, b);
    OpenedWereReady(tr.disks[j], tr.inputs[j], tr.outs[j], tr.disks[j + 1], c, b);
    assert ValidInput(tr.inputs[i]);
  }
}
