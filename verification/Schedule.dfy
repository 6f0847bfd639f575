// Why the order in which results arrive does not matter: dedup leaves at most one observation per
// state key, and updates to distinct keys do not interfere.
module Schedule {
  import opened Seqs
  import opened Clock
  import opened Registry
  import opened Checks
  import opened Probing
  import opened Dedup
  import opened WorkerPool
  import opened State
  import opened Update

  // A probe is an arbitrary verdict for the liveness check and one for the chain-ID check.
  type Probe = Job -> (Verdict, Verdict)

  function Stamp(j: Job, check: string, v: Verdict): Result {
    Result(j.chain.name, check, j.endpoint.address, j.endpoint.provider, j.order, v)
  }

  function ProbeJob(j: Job, probe: Probe): seq<Result> {
    [Stamp(j, j.kind.LivenessCheck(), probe(j).0), Stamp(j, j.kind.ChainIdCheck(), probe(j).1)]
  }

  function Prober(probe: Probe): Job -> seq<Result> {
    (j: Job) => ProbeJob(j, probe)
  }

  function JobKey(j: Job): string {
    EndpointKey(j.kind.LivenessCheck(), j.endpoint.address)
  }

  function Observes(chain: string, key: string): Result -> bool {
    (r: Result) => Counts(r) && r.chain == chain && KeyOf(r) == key
  }

  function Targets(chain: string, key: string): Job -> bool {
    (j: Job) => j.chain.name == chain && JobKey(j) == key
  }

  // ---------------------------------------------------------------- active keys

  function JobKeysOf(jobs: seq<Job>, chain: string): set<string> {
    set j | j in jobs && j.chain.name == chain :: JobKey(j)
  }

  lemma JobKeysSnoc(jobs: seq<Job>, j: Job, c: string)
    ensures JobKeysOf(jobs + [j], c) == JobKeysOf(jobs, c) + (if j.chain.name == c then {JobKey(j)} else {})
  {
  }

  method BuildActiveLivenessKeys(jobs: seq<Job>) returns (active: ActiveKeys)
    ensures forall c :: KeysFor(active, c) == JobKeysOf(jobs, c)
  {
    active := map[];
    for i := 0 to |jobs|
      invariant forall c :: KeysFor(active, c) == JobKeysOf(jobs[..i], c)
    {
      var j := jobs[i];
      assert jobs[..i + 1] == jobs[..i] + [j];
      ghost var before := active;
      active := active[j.chain.name := KeysFor(active, j.chain.name) + {JobKey(j)}];
      forall c ensures KeysFor(active, c) == JobKeysOf(jobs[..i + 1], c) {
        JobKeysSnoc(jobs[..i], j, c);
        assert KeysFor(before, c) == JobKeysOf(jobs[..i], c);
      }
    }
    assert jobs[..|jobs|] == jobs;
  }

  // ---------------------------------------------------------------- at most one observation

  lemma JobKeyInjective(j: Job, k: Job)
    requires JobKey(j) == JobKey(k)
    ensures PairOf(j) == PairOf(k)
  {
    NamesAreInjective(j.kind, k.kind);
    NamesAreInjective(k.kind, j.kind);
    EndpointKeyInjective(j.kind.LivenessCheck(), j.endpoint.address, k.kind.LivenessCheck(), k.endpoint.address);
  }

  lemma {:induction false} CountAtMostOne<T(!new)>(s: seq<T>, p: T -> bool)
    requires forall i, k :: 0 <= i < k < |s| ==> !(p(s[i]) && p(s[k]))
    ensures Count(s, p) <= 1
  {
    if s != [] {
      CountAtMostOne(s[1..], p);
      if p(s[0]) {
        forall x | x in s[1..] ensures !p(x) {
          var i :| 0 <= i < |s[1..]| && s[1..][i] == x;
          assert s[i + 1] == x;
        }
        CountPositive(s[1..], p);
      }
    }
  }

  lemma OneJobPerKey(chains: seq<Chain>, chain: string, key: string)
    requires DistinctNames(chains)
    ensures Count(AllJobs(chains), Targets(chain, key)) <= 1
  {
    var jobs := AllJobs(chains);
    AllJobsDistinct(chains);
    forall i, k | 0 <= i < k < |jobs| ensures !(Targets(chain, key)(jobs[i]) && Targets(chain, key)(jobs[k])) {
      if JobKey(jobs[i]) == JobKey(jobs[k]) {
        JobKeyInjective(jobs[i], jobs[k]);
      }
    }
    CountAtMostOne(jobs, Targets(chain, key));
  }

  lemma ProbeJobObserves(j: Job, probe: Probe, chain: string, key: string)
    ensures Count(ProbeJob(j, probe), Observes(chain, key)) == if Targets(chain, key)(j) && !probe(j).0.skipped then 1 else 0
  {
    CheckKinds(j.kind);
    var rs := ProbeJob(j, probe);
    var p := Observes(chain, key);
    assert rs == [rs[0]] + [rs[1]];
    CountAppend([rs[0]], [rs[1]], p);
    CountSnoc([], rs[0], p);
    CountSnoc([], rs[1], p);
  }

  lemma {:induction false} ObservationsPerKey(jobs: seq<Job>, probe: Probe, chain: string, key: string)
    ensures Count(ResultsOf(jobs, Prober(probe)), Observes(chain, key)) <= Count(jobs, Targets(chain, key))
  {
    if jobs != [] {
      ObservationsPerKey(jobs[1..], probe, chain, key);
      ProbeJobObserves(jobs[0], probe, chain, key);
      CountAppend(ProbeJob(jobs[0], probe), ResultsOf(jobs[1..], Prober(probe)), Observes(chain, key));
    }
  }

  // The results of one run, in whatever order the channel delivered them.
  ghost predicate DeliveredBy(results: seq<Result>, jobs: seq<Job>, probe: Probe) {
    multiset(results) == multiset(ResultsOf(jobs, Prober(probe)))
  }

  ghost predicate OneObservationPerKey(rs: seq<Result>) {
    forall c, k :: Count(rs, Observes(c, k)) <= 1
  }

  lemma RunObservesOnce(results: seq<Result>, chains: seq<Chain>, probe: Probe)
    requires DistinctNames(chains) && DeliveredBy(results, AllJobs(chains), probe)
    ensures OneObservationPerKey(results)
  {
    forall c, k ensures Count(results, Observes(c, k)) <= 1 {
      OneJobPerKey(chains, c, k);
      ObservationsPerKey(AllJobs(chains), probe, c, k);
      CountPermutation(results, ResultsOf(AllJobs(chains), Prober(probe)), Observes(c, k));
    }
  }

  // ---------------------------------------------------------------- where results come from

  lemma {:induction false} ResultHasJob(jobs: seq<Job>, probe: Probe, r: Result) returns (j: Job)
    requires r in ResultsOf(jobs, Prober(probe))
    ensures j in jobs && r in ProbeJob(j, probe)
  {
    if r in ProbeJob(jobs[0], probe) {
      j := jobs[0];
    } else {
      j := ResultHasJob(jobs[1..], probe, r);
    }
  }

  lemma {:induction false} JobHasResult(jobs: seq<Job>, probe: Probe, j: Job)
    requires j in jobs
    ensures forall r :: r in ProbeJob(j, probe) ==> r in ResultsOf(jobs, Prober(probe))
  {
    if j != jobs[0] {
      JobHasResult(jobs[1..], probe, j);
    }
  }

  // A counted result is the liveness result of some job, and carries that job's state key.
  lemma CountedResultHasJob(results: seq<Result>, jobs: seq<Job>, probe: Probe, r: Result) returns (j: Job)
    requires DeliveredBy(results, jobs, probe) && r in results && Counts(r)
    ensures j in jobs && r == Stamp(j, j.kind.LivenessCheck(), probe(j).0)
    ensures KeyOf(r) == JobKey(j) && r.chain == j.chain.name
  {
    PermutationMembers(results, ResultsOf(jobs, Prober(probe)));
    j := ResultHasJob(jobs, probe, r);
    CheckKinds(j.kind);
  }

  // ---------------------------------------------------------------- pointwise effect of a run

  ghost function EndpointAt(sm: StateMap, c: string, k: string): EndpointState
    requires c in sm
  {
    Lookup(sm[c].endpoints, k)
  }

  function Bare(rec: ChainRecord): ChainRecord {
    rec.(endpoints := map[])
  }

  ghost predicate MergesOne(es: EndpointState, es': EndpointState, rs: seq<Result>, now: Time, c: string, k: string) {
    exists r :: r in rs && Observes(c, k)(r) && es' == Observe(es, r, now)
  }

  // What folding rs does to (c, k), when rs observes that key at most once.
  ghost predicate Folded(before: StateMap, after: StateMap, rs: seq<Result>, now: Time, c: string, k: string)
    requires c in before && c in after
  {
    && Bare(after[c]) == Bare(before[c])
    && (Count(rs, Observes(c, k)) == 0 ==>
          (k in after[c].endpoints <==> k in before[c].endpoints) && EndpointAt(after, c, k) == EndpointAt(before, c, k))
    && (Count(rs, Observes(c, k)) == 1 ==>
          k in after[c].endpoints && MergesOne(EndpointAt(before, c, k), EndpointAt(after, c, k), rs, now, c, k))
  }

  lemma {:induction false} ApplyAllAt(sm: StateMap, rs: seq<Result>, now: Time, c: string, k: string)
    requires c in sm && Count(rs, Observes(c, k)) <= 1
    ensures ApplyAll(sm, rs, now).Keys == sm.Keys
    ensures Folded(sm, ApplyAll(sm, rs, now), rs, now, c, k)
  {
    if rs != [] {
      var init, last := rs[..|rs| - 1], rs[|rs| - 1];
      assert rs == init + [last];
      CountSnoc(init, last, Observes(c, k));
      ApplyAllAt(sm, init, now, c, k);
      var mid := ApplyAll(sm, init, now);
      if Observes(c, k)(last) {
        assert last in rs;
      } else {
        ApplyOther(mid, last, now, c, k);
      }
    }
  }

  lemma ApplyOther(sm: StateMap, r: Result, now: Time, c: string, k: string)
    requires c in sm && !Observes(c, k)(r)
    ensures ApplyOne(sm, r, now).Keys == sm.Keys
    ensures Bare(ApplyOne(sm, r, now)[c]) == Bare(sm[c])
    ensures k in ApplyOne(sm, r, now)[c].endpoints <==> k in sm[c].endpoints
    ensures EndpointAt(ApplyOne(sm, r, now), c, k) == EndpointAt(sm, c, k)
  {
  }

  lemma {:induction false} SoleObservation(rs: seq<Result>, c: string, k: string, r1: Result, r2: Result)
    requires Count(rs, Observes(c, k)) <= 1
    requires r1 in rs && r2 in rs && Observes(c, k)(r1) && Observes(c, k)(r2)
    ensures r1 == r2
  {
    if r1 != r2 {
      if rs[0] == r1 || rs[0] == r2 {
        CountPositive(rs[1..], Observes(c, k));
        assert false;
      } else {
        SoleObservation(rs[1..], c, k, r1, r2);
      }
    }
  }

  // Schedule independence: however the workers interleave, updateState builds the same map.
  lemma ArrivalOrderIsIrrelevant(sm: StateMap, chains: seq<Chain>, probe: Probe, now: Time, a: seq<Result>, b: seq<Result>)
    requires DistinctNames(chains)
    requires DeliveredBy(a, AllJobs(chains), probe) && DeliveredBy(b, AllJobs(chains), probe)
    ensures ApplyAll(sm, a, now) == ApplyAll(sm, b, now)
  {
    RunObservesOnce(a, chains, probe);
    ApplyAllKeys(sm, a, now);
    ApplyAllKeys(sm, b, now);
    var x, y := ApplyAll(sm, a, now), ApplyAll(sm, b, now);
    forall c | c in sm ensures x[c] == y[c] {
      forall k ensures (k in x[c].endpoints <==> k in y[c].endpoints) && Lookup(x[c].endpoints, k) == Lookup(y[c].endpoints, k) {
        OrderIrrelevantAt(sm, a, b, now, c, k);
      }
      assert x[c].endpoints == y[c].endpoints;
      OrderIrrelevantAt(sm, a, b, now, c, "");
    }
  }

  lemma OrderIrrelevantAt(sm: StateMap, a: seq<Result>, b: seq<Result>, now: Time, c: string, k: string)
    requires c in sm && multiset(a) == multiset(b) && OneObservationPerKey(a)
    ensures ApplyAll(sm, a, now).Keys == ApplyAll(sm, b, now).Keys == sm.Keys
    ensures Bare(ApplyAll(sm, a, now)[c]) == Bare(ApplyAll(sm, b, now)[c])
    ensures k in ApplyAll(sm, a, now)[c].endpoints <==> k in ApplyAll(sm, b, now)[c].endpoints
    ensures EndpointAt(ApplyAll(sm, a, now), c, k) == EndpointAt(ApplyAll(sm, b, now), c, k)
  {
    CountPermutation(a, b, Observes(c, k));
    PermutationMembers(a, b);
    ApplyAllAt(sm, a, now, c, k);
    ApplyAllAt(sm, b, now, c, k);
    if Count(a, Observes(c, k)) == 1 {
      var r1 :| r1 in a && Observes(c, k)(r1) && EndpointAt(ApplyAll(sm, a, now), c, k) == Observe(EndpointAt(sm, c, k), r1, now);
      var r2 :| r2 in b && Observes(c, k)(r2) && EndpointAt(ApplyAll(sm, b, now), c, k) == Observe(EndpointAt(sm, c, k), r2, now);
      SoleObservation(a, c, k, r1, r2);
    }
  }
}
