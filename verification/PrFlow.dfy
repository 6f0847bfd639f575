// cmd/sentinel/prflow.go: from streaks to endpoint-removal proposals.
module PrFlow {
  import opened GoStrings
  import opened Seqs
  import opened Clock
  import opened Checks
  import opened Probing
  import opened WorkerPool
  import opened State
  import opened Update
  import opened Schedule

  datatype Flagged = Flagged(
    check: string,
    address: string,
    consecutiveFailures: nat,
    firstFailureTime: Time,
    firstEvidence: string,
    lastEvidence: string
  )

  datatype Proposal = Proposal(chain: string, dead: seq<Flagged>)

  function KeyOfFlag(f: Flagged): string {
    EndpointKey(f.check, f.address)
  }

  function KeysOf(fs: seq<Flagged>): (r: set<string>)
    ensures forall k :: k in r <==> exists f :: f in fs && KeyOfFlag(f) == k
  {
    set f | f in fs :: KeyOfFlag(f)
  }

  // ---------------------------------------------------------------- collectFlagged

  predicate Flaggable(key: string, es: EndpointState, threshold: nat) {
    && es.consecutiveFailures >= threshold
    && Cut(key, '|').found
    && !HasSuffix(Cut(key, '|').before, "_chain_id")
  }

  function FlagOf(key: string, es: EndpointState): (f: Flagged)
    ensures Cut(key, '|').found ==> KeyOfFlag(f) == key
  {
    var parts := Cut(key, '|');
    Flagged(parts.before, parts.after, es.consecutiveFailures, es.firstFailureTime, es.firstEvidence, es.lastEvidence)
  }

  function FlaggableKeys(rec: ChainRecord, threshold: nat): set<string> {
    set k | k in rec.endpoints && Flaggable(k, rec.endpoints[k], threshold)
  }

  // fs lists the given keys of rec, each once, in any order, with its streak data.
  ghost predicate Lists(fs: seq<Flagged>, rec: ChainRecord, keys: set<string>)
    requires keys <= rec.endpoints.Keys
  {
    && KeysOf(fs) == keys
    && (forall f :: f in fs ==> f == FlagOf(KeyOfFlag(f), rec.endpoints[KeyOfFlag(f)]))
    && (forall i, j :: 0 <= i < j < |fs| ==> KeyOfFlag(fs[i]) != KeyOfFlag(fs[j]))
  }

  lemma {:induction false} ListsOneMore(fs: seq<Flagged>, rec: ChainRecord, keys: set<string>, key: string)
    requires keys <= rec.endpoints.Keys && Lists(fs, rec, keys)
    requires key in rec.endpoints && key !in keys && Cut(key, '|').found
    ensures Lists(fs + [FlagOf(key, rec.endpoints[key])], rec, keys + {key})
  {
    var f := FlagOf(key, rec.endpoints[key]);
    forall i | 0 <= i < |fs| ensures KeyOfFlag(fs[i]) != key {
      assert fs[i] in fs;
    }
    assert KeysOf(fs + [f]) == KeysOf(fs) + {key};
  }

  method CollectChain(rec: ChainRecord, threshold: nat) returns (fs: seq<Flagged>)
    ensures Lists(fs, rec, FlaggableKeys(rec, threshold))
  {
    fs := [];
    var todo := rec.endpoints.Keys;
    ghost var listed: set<string> := {};
    while todo != {}
      invariant todo <= rec.endpoints.Keys
      invariant listed == FlaggableKeys(rec, threshold) - todo
      invariant Lists(fs, rec, listed)
      decreases todo
    {
      var key :| key in todo;
      todo := todo - {key};
      var ep := rec.endpoints[key];
      if ep.consecutiveFailures >= threshold {
        var parts := Cut(key, '|');
        if parts.found && !HasSuffix(parts.before, "_chain_id") {
          ListsOneMore(fs, rec, listed, key);
          fs := fs + [Flagged(parts.before, parts.after, ep.consecutiveFailures, ep.firstFailureTime, ep.firstEvidence, ep.lastEvidence)];
          listed := listed + {key};
        }
      }
    }
  }

  type FlaggedMap = map<string, seq<Flagged>>

  function FlagsFor(flagged: FlaggedMap, c: string): seq<Flagged> {
    if c in flagged then flagged[c] else []
  }

  ghost predicate CollectsExactly(flagged: FlaggedMap, sm: StateMap, threshold: nat, names: set<string>)
    requires names <= sm.Keys
  {
    && flagged.Keys <= names
    && (forall c :: c in names ==> Lists(FlagsFor(flagged, c), sm[c], FlaggableKeys(sm[c], threshold)))
    && (forall c :: c in flagged ==> flagged[c] != [])
  }

  method CollectFlagged(sm: StateMap, threshold: nat) returns (flagged: FlaggedMap)
    ensures CollectsExactly(flagged, sm, threshold, sm.Keys)
  {
    flagged := map[];
    var todo := sm.Keys;
    while todo != {}
      invariant todo <= sm.Keys
      invariant CollectsExactly(flagged, sm, threshold, sm.Keys - todo)
      decreases todo
    {
      var name :| name in todo;
      var fs := CollectChain(sm[name], threshold);
      todo := todo - {name};
      if fs != [] {
        flagged := flagged[name := fs];
      }
    }
  }

  // The flow runs only when updateState counted something; whatever collectFlagged finds was counted.
  lemma CollectedWasCounted(sm: StateMap, threshold: nat, flagged: FlaggedMap)
    requires CollectsExactly(flagged, sm, threshold, sm.Keys)
    ensures flagged != map[] ==> FlaggedPairs(sm, threshold) != {}
  {
    if flagged != map[] {
      var c :| c in flagged;
      var f := flagged[c][0];
      assert f in FlagsFor(flagged, c);
      assert KeyOfFlag(f) in FlaggableKeys(sm[c], threshold);
      assert (c, KeyOfFlag(f)) in FlaggedPairs(sm, threshold);
    }
  }

  // ---------------------------------------------------------------- preflight

  function RescueKeys(passed: map<string, set<string>>, c: string): set<string> {
    if c in passed then passed[c] else {}
  }

  predicate RecheckPasses(j: Job, recheck: Probe) {
    recheck(j).0.passed && !recheck(j).0.skipped
  }

  // The flagged keys of a chain whose own job passed when probed again.
  function Recovered(jobs: seq<Job>, flagged: FlaggedMap, recheck: Probe, c: string): set<string> {
    set j | j in jobs && j.chain.name == c && JobKey(j) in KeysOf(FlagsFor(flagged, c)) && RecheckPasses(j, recheck) :: JobKey(j)
  }

  function IsFlagged(flagged: FlaggedMap): Job -> bool {
    (j: Job) => JobKey(j) in KeysOf(FlagsFor(flagged, j.chain.name))
  }

  function PassesFor(rs: seq<Result>, c: string): set<string> {
    set r | r in rs && Counts(r) && r.chain == c && r.verdict.passed :: KeyOf(r)
  }

  method FilterJobs(jobs: seq<Job>, flagged: FlaggedMap) returns (filtered: seq<Job>)
    ensures filtered == Filter(jobs, IsFlagged(flagged))
  {
    filtered := [];
    for i := 0 to |jobs|
      invariant filtered == Filter(jobs[..i], IsFlagged(flagged))
    {
      FilterNext(jobs, i, IsFlagged(flagged));
      if jobs[i].chain.name in flagged && JobKey(jobs[i]) in KeysOf(flagged[jobs[i].chain.name]) {
        filtered := filtered + [jobs[i]];
      }
    }
    assert jobs[..|jobs|] == jobs;
  }

  lemma PassesSnoc(rs: seq<Result>, r: Result, c: string)
    ensures PassesFor(rs + [r], c) ==
      PassesFor(rs, c) + (if Counts(r) && r.chain == c && r.verdict.passed then {KeyOf(r)} else {})
  {
  }

  method CollectPasses(rs: seq<Result>) returns (passed: map<string, set<string>>)
    ensures forall c :: RescueKeys(passed, c) == PassesFor(rs, c)
  {
    passed := map[];
    for i := 0 to |rs|
      invariant forall c :: RescueKeys(passed, c) == PassesFor(rs[..i], c)
    {
      var r := rs[i];
      assert rs[..i + 1] == rs[..i] + [r];
      ghost var before := passed;
      if IsLiveness(r.check) && !r.verdict.skipped {
        if r.chain !in passed {
          passed := passed[r.chain := {}];
        }
        if r.verdict.passed {
          passed := passed[r.chain := passed[r.chain] + {KeyOf(r)}];
        }
      }
      forall c ensures RescueKeys(passed, c) == PassesFor(rs[..i + 1], c) {
        PassesSnoc(rs[..i], r, c);
        assert RescueKeys(before, c) == PassesFor(rs[..i], c);
      }
    }
    assert rs[..|rs|] == rs;
  }

  lemma {:induction false} PassesAreRecoveries(jobs: seq<Job>, flagged: FlaggedMap, recheck: Probe, rs: seq<Result>, c: string)
    requires DeliveredBy(rs, Filter(jobs, IsFlagged(flagged)), recheck)
    ensures PassesFor(rs, c) == Recovered(jobs, flagged, recheck, c)
  {
    var filtered := Filter(jobs, IsFlagged(flagged));
    forall k | k in PassesFor(rs, c) ensures k in Recovered(jobs, flagged, recheck, c) {
      var r :| r in rs && Counts(r) && r.chain == c && r.verdict.passed && KeyOf(r) == k;
      var j := CountedResultHasJob(rs, filtered, recheck, r);
      assert j in jobs && IsFlagged(flagged)(j);
    }
    forall k | k in Recovered(jobs, flagged, recheck, c) ensures k in PassesFor(rs, c) {
      var j :| j in jobs && j.chain.name == c && JobKey(j) in KeysOf(FlagsFor(flagged, c)) && RecheckPasses(j, recheck) && JobKey(j) == k;
      assert IsFlagged(flagged)(j);
      JobHasResult(filtered, recheck, j);
      PermutationMembers(rs, ResultsOf(filtered, Prober(recheck)));
      CheckKinds(j.kind);
      var r := ProbeJob(j, recheck)[0];
      assert r in rs;
    }
  }

  method Preflight(jobs: seq<Job>, flagged: FlaggedMap, concurrency: nat, recheck: Probe, schedule: (Pool<Job, Result>, nat) -> Action)
    returns (passed: map<string, set<string>>)
    requires concurrency >= 1
    requires Schedules(schedule)
    ensures forall c :: RescueKeys(passed, c) == Recovered(jobs, flagged, recheck, c)
  {
    var filtered := FilterJobs(jobs, flagged);
    if filtered == [] {
      forall c ensures RescueKeys(map[], c) == Recovered(jobs, flagged, recheck, c) {
        forall j | j in jobs ensures !IsFlagged(flagged)(j) {}
      }
      return map[];
    }
    var n := if |filtered| < concurrency then |filtered| else concurrency;
    var rs := RunWorkers(filtered, n, Prober(recheck), schedule);
    passed := CollectPasses(rs);
    forall c ensures RescueKeys(passed, c) == Recovered(jobs, flagged, recheck, c) {
      PassesAreRecoveries(jobs, flagged, recheck, rs, c);
    }
  }

  // ---------------------------------------------------------------- applyPreflightResults

  function Reset(es: EndpointState, now: Time): EndpointState {
    es.(consecutiveFailures := 0, lastPassed := true, firstFailureTime := NEVER, firstEvidence := "", lastEvidence := "", lastChecked := now)
  }

  function ResetKeys(rec: ChainRecord, keys: set<string>, now: Time): ChainRecord {
    rec.(endpoints := rec.endpoints + map k | k in keys :: Reset(Lookup(rec.endpoints, k), now))
  }

  function Rescue(sm: StateMap, flagged: FlaggedMap, passed: map<string, set<string>>, now: Time): StateMap {
    map c | c in sm :: ResetKeys(sm[c], KeysOf(FlagsFor(flagged, c)) * RescueKeys(passed, c), now)
  }

  lemma ResetKeysStep(rec: ChainRecord, keys: set<string>, key: string, now: Time)
    ensures ResetKeys(rec, keys + {key}, now).endpoints
         == ResetKeys(rec, keys, now).endpoints[key := Reset(Lookup(ResetKeys(rec, keys, now).endpoints, key), now)]
  {
  }

  method ResetOne(cs: ChainRecord, key: string, now: Time) returns (cs': ChainRecord)
    ensures cs' == cs.(endpoints := cs.endpoints[key := Reset(Lookup(cs.endpoints, key), now)])
  {
    var es := Lookup(cs.endpoints, key);
    es := es.(consecutiveFailures := 0);
    es := es.(lastPassed := true);
    es := es.(firstFailureTime := NEVER);
    es := es.(firstEvidence := "");
    es := es.(lastEvidence := "");
    es := es.(lastChecked := now);
    cs' := cs.(endpoints := cs.endpoints[key := es]);
  }

  method ResetChain(rec: ChainRecord, fs: seq<Flagged>, passedMap: set<string>, now: Time) returns (cs: ChainRecord)
    ensures cs == ResetKeys(rec, KeysOf(fs) * passedMap, now)
  {
    cs := rec;
    assert ResetKeys(rec, {}, now).endpoints == rec.endpoints;
    assert KeysOf(fs[..0]) * passedMap == {};
    for i := 0 to |fs|
      invariant cs == ResetKeys(rec, KeysOf(fs[..i]) * passedMap, now)
    {
      var key := KeyOfFlag(fs[i]);
      KeysOfSnoc(fs, i, passedMap);
      if key in passedMap {
        ResetKeysStep(rec, KeysOf(fs[..i]) * passedMap, key, now);
        cs := ResetOne(cs, key, now);
      }
    }
    assert fs[..|fs|] == fs;
  }

  lemma KeysOfSnoc(fs: seq<Flagged>, i: nat, keep: set<string>)
    requires i < |fs|
    ensures KeysOf(fs[..i + 1]) * keep == KeysOf(fs[..i]) * keep + ({KeyOfFlag(fs[i])} * keep)
    ensures KeyOfFlag(fs[i]) in keep ==> {KeyOfFlag(fs[i])} * keep == {KeyOfFlag(fs[i])}
    ensures KeyOfFlag(fs[i]) !in keep ==> KeysOf(fs[..i + 1]) * keep == KeysOf(fs[..i]) * keep
  {
    assert fs[..i + 1] == fs[..i] + [fs[i]];
  }

  lemma RescueNothing(rec: ChainRecord, now: Time)
    ensures ResetKeys(rec, {}, now) == rec
  {
    assert ResetKeys(rec, {}, now).endpoints == rec.endpoints;
  }

  ghost predicate PartlyRescued(sm: StateMap, start: StateMap, target: StateMap, todo: set<string>) {
    && sm.Keys == start.Keys == target.Keys
    && forall c :: c in start ==> sm[c] == if c in todo then start[c] else target[c]
  }

  lemma RescueStart(sm: StateMap, flagged: FlaggedMap, passed: map<string, set<string>>, now: Time)
    ensures PartlyRescued(sm, sm, Rescue(sm, flagged, passed, now), flagged.Keys)
  {
    var target := Rescue(sm, flagged, passed, now);
    forall c | c in sm && c !in flagged ensures sm[c] == target[c] {
      assert KeysOf(FlagsFor(flagged, c)) * RescueKeys(passed, c) == {};
      RescueNothing(sm[c], now);
    }
  }

  // One chain of the flagged map handled.
  lemma {:induction false} RescueOne(
    sm: StateMap, start: StateMap, flagged: FlaggedMap, passed: map<string, set<string>>, now: Time, todo: set<string>, name: string)
    requires name in todo && name in flagged && name in start
    requires PartlyRescued(sm, start, Rescue(start, flagged, passed, now), todo)
    ensures sm[name] == start[name]
    ensures PartlyRescued(sm[name := ResetKeys(sm[name], KeysOf(flagged[name]) * RescueKeys(passed, name), now)],
      start, Rescue(start, flagged, passed, now), todo - {name})
    ensures RescueKeys(passed, name) == {} ==> PartlyRescued(sm, start, Rescue(start, flagged, passed, now), todo - {name})
  {
    if RescueKeys(passed, name) == {} {
      assert KeysOf(flagged[name]) * RescueKeys(passed, name) == {};
      RescueNothing(start[name], now);
    }
  }

  method ApplyPreflightResults(store: StateStore, flagged: FlaggedMap, passed: map<string, set<string>>, now: Time)
    requires flagged.Keys <= store.chains.Keys
    modifies store
    ensures store.chains == Rescue(old(store.chains), flagged, passed, now)
  {
    ghost var target := Rescue(store.chains, flagged, passed, now);
    ghost var start := store.chains;
    RescueStart(start, flagged, passed, now);
    var todo := flagged.Keys;
    while todo != {}
      invariant todo <= flagged.Keys
      invariant PartlyRescued(store.chains, start, target, todo)
      decreases todo
    {
      var name :| name in todo;
      RescueOne(store.chains, start, flagged, passed, now, todo, name);
      todo := todo - {name};
      var passedMap := RescueKeys(passed, name);
      if passedMap == {} {
        continue;
      }
      var cs := ResetChain(store.chains[name], flagged[name], passedMap, now);
      store.chains := store.chains[name := cs];
    }
    assert store.chains == target;
  }
}
