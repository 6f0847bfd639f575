// internal/report/record.go: one run's results as the records a report is computed from.
module Records {
  import opened GoStrings
  import opened Seqs
  import opened Sorting
  import opened Clock
  import opened Registry
  import opened Checks
  import opened Probing
  import opened Dedup
  import opened State
  import opened WorkerPool
  import opened Schedule
  import opened ChainDeath

  // An RFC 3339 timestamp: whole seconds since year 1, fractions dropped. The empty string when
  // the node reported no time.
  datatype Timestamp = Unset | Seconds(since: int)

  datatype Parsed = Moment(time: Time) | Malformed

  // Years 0000 to 9999 are what the four-digit format can express.
  const FIRST_SECOND: int := -366 * 86_400
  const LAST_SECOND: int := 3_652_059 * 86_400 - 1

  function Format(t: Time): Timestamp {
    Seconds(t / SECOND)
  }

  function Parse(s: Timestamp): Parsed {
    match s
    case Unset => Malformed
    case Seconds(n) => if FIRST_SECOND <= n <= LAST_SECOND then Moment(n * SECOND) else Malformed
  }

  // A written time reads back rounded down to the second; it reads back exactly when it has no
  // fraction and its year has four digits.
  lemma FormatRounds(t: Time)
    ensures Parse(Format(t)) == Moment(t) <==> t % SECOND == 0 && FIRST_SECOND * SECOND <= t < (LAST_SECOND + 1) * SECOND
    ensures Parse(Format(t)) != Malformed ==> t - SECOND < Parse(Format(t)).time <= t
    ensures Parse(Format(t)) == Malformed <==> t < FIRST_SECOND * SECOND || t >= (LAST_SECOND + 1) * SECOND
  {
    assert t == (t / SECOND) * SECOND + t % SECOND;
  }

  datatype Record = Record(
    runTs: Time,
    chain: string,
    check: string,
    endpoint: string,
    domain: string,
    provider: string,
    order: nat,
    passed: bool,
    skipped: bool,
    failureClass: FailureClass,
    httpStatus: int,
    evidence: string,
    catchingUp: bool,
    txIndex: string,
    latestBlockTime: Timestamp,
    methodRestricted: bool,
    streak: nat
  )

  function StreakOf(sm: StateMap, r: Result): nat {
    if r.chain in sm then Lookup(sm[r.chain].endpoints, KeyOf(r)).consecutiveFailures else 0
  }

  function RecordOf(r: Result, sm: StateMap, env: Env): Record {
    var v := r.verdict;
    Record(
      env.now, r.chain, r.check, r.endpoint, env.domain(r.endpoint), r.provider, r.order,
      v.passed, v.skipped, v.failureClass, v.httpStatus, v.evidence, v.catchingUp, v.txIndex,
      if v.latestBlockTime == NEVER then Unset else Format(v.latestBlockTime),
      v.methodRestricted, StreakOf(sm, r))
  }

  // A skipped result without a class is an artefact of the pipeline, not an observation.
  predicate Recorded(r: Result) {
    !(r.verdict.skipped && r.verdict.failureClass == CLASS_NONE)
  }

  function RecordsOf(rs: seq<Result>, sm: StateMap, env: Env): seq<Record> {
    if rs == [] then []
    else
      var before, r := RecordsOf(rs[..|rs| - 1], sm, env), rs[|rs| - 1];
      if Recorded(r) then before + [RecordOf(r, sm, env)] else before
  }

  predicate RecordBefore(a: Record, b: Record) {
    if a.chain != b.chain then Less(a.chain, b.chain)
    else if a.check != b.check then Less(a.check, b.check)
    else Less(a.endpoint, b.endpoint)
  }

  lemma RecordOrder()
    ensures WeakOrder(RecordBefore)
  {
    forall a, b ensures RecordBefore(a, b) ==> !RecordBefore(b, a) {
      Trichotomy(a, b);
    }
    forall a, b, c ensures !RecordBefore(b, a) && !RecordBefore(c, b) ==> !RecordBefore(c, a) {
      if !RecordBefore(b, a) && !RecordBefore(c, b) {
        WeakOrderStep(a, b, c);
      }
    }
  }

  lemma Trichotomy(a: Record, b: Record)
    ensures !(RecordBefore(a, b) && RecordBefore(b, a))
    ensures RecordBefore(a, b) || RecordBefore(b, a) || (a.chain == b.chain && a.check == b.check && a.endpoint == b.endpoint)
  {
    LessTotal(a.chain, b.chain);
    LessTotal(a.check, b.check);
    LessTotal(a.endpoint, b.endpoint);
  }

  // One level of a lexicographic comparison, the lower levels summarised by ab, bc and ac.
  lemma Lexicographic(a: string, b: string, c: string, ab: bool, bc: bool, ac: bool)
    requires if b != a then !Less(b, a) else ab
    requires if c != b then !Less(c, b) else bc
    requires a == b == c && ab && bc ==> ac
    ensures if c != a then !Less(c, a) else ac
  {
    StringOrder();
  }

  lemma WeakOrderStep(a: Record, b: Record, c: Record)
    requires !RecordBefore(b, a) && !RecordBefore(c, b)
    ensures !RecordBefore(c, a)
  {
    var ab, bc, ac := !Less(b.endpoint, a.endpoint), !Less(c.endpoint, b.endpoint), !Less(c.endpoint, a.endpoint);
    assert ab && bc ==> ac by {
      StringOrder();
    }
    var ab', bc' := if b.check != a.check then !Less(b.check, a.check) else ab, if c.check != b.check then !Less(c.check, b.check) else bc;
    var ac' := if c.check != a.check then !Less(c.check, a.check) else ac;
    if ab' && bc' {
      Lexicographic(a.check, b.check, c.check, ab, bc, ac);
    }
    Lexicographic(a.chain, b.chain, c.chain, ab', bc', ac');
  }

  method Build(rs: seq<Result>, sm: StateMap, env: Env) returns (records: seq<Record>)
    ensures multiset(records) == multiset(RecordsOf(rs, sm, env))
    ensures NoInversion(records, RecordBefore)
    ensures forall i, j :: 0 <= i < j < |records| ==>
      var a, b := records[i], records[j];
      || Less(a.chain, b.chain)
      || (a.chain == b.chain && Less(a.check, b.check))
      || (a.chain == b.chain && a.check == b.check && !Less(b.endpoint, a.endpoint))
  {
    records := [];
    for i := 0 to |rs|
      invariant records == RecordsOf(rs[..i], sm, env)
    {
      var r := rs[i];
      assert rs[..i + 1][..i] == rs[..i];
      if r.verdict.skipped && r.verdict.failureClass == CLASS_NONE {
        continue;
      }
      var rec := RecordOf(r, sm, env);
      records := records + [rec];
    }
    assert rs[..|rs|] == rs;
    RecordOrder();
    SortSorts(records, RecordBefore);
    records := Sort(records, RecordBefore);
    forall i, j | 0 <= i < j < |records| ensures !RecordBefore(records[j], records[i]) {}
    StringOrder();
  }

  // ---------------------------------------------------------------- counting records

  lemma {:induction false} CountRecords(rs: seq<Result>, sm: StateMap, env: Env, p: Record -> bool, q: Result -> bool)
    requires forall r :: r in rs ==> (q(r) <==> Recorded(r) && p(RecordOf(r, sm, env)))
    ensures Count(RecordsOf(rs, sm, env), p) == Count(rs, q)
  {
    if rs != [] {
      var init, last := rs[..|rs| - 1], rs[|rs| - 1];
      assert rs == init + [last];
      CountRecords(init, sm, env, p, q);
      CountSnoc(init, last, q);
      assert last in rs;
      if Recorded(last) {
        CountSnoc(RecordsOf(init, sm, env), RecordOf(last, sm, env), p);
      }
    }
  }

  lemma {:induction false} RecordsMembers(rs: seq<Result>, sm: StateMap, env: Env)
    ensures forall rec :: rec in RecordsOf(rs, sm, env) <==> exists r :: r in rs && Recorded(r) && RecordOf(r, sm, env) == rec
  {
    if rs != [] {
      var init, last := rs[..|rs| - 1], rs[|rs| - 1];
      RecordsMembers(init, sm, env);
      assert forall r :: r in rs <==> r in init || r == last;
    }
  }

  lemma {:induction false} RecordsPermute(a: seq<Result>, b: seq<Result>, sm: StateMap, env: Env)
    requires multiset(a) == multiset(b)
    ensures multiset(RecordsOf(a, sm, env)) == multiset(RecordsOf(b, sm, env))
  {
    forall rec ensures multiset(RecordsOf(a, sm, env))[rec] == multiset(RecordsOf(b, sm, env))[rec] {
      RecordTimes(a, sm, env, rec);
      RecordTimes(b, sm, env, rec);
      CountPermutation(a, b, Becomes(rec, sm, env));
    }
  }

  function Becomes(rec: Record, sm: StateMap, env: Env): Result -> bool {
    (r: Result) => Recorded(r) && RecordOf(r, sm, env) == rec
  }

  lemma {:induction false} RecordTimes(rs: seq<Result>, sm: StateMap, env: Env, rec: Record)
    ensures multiset(RecordsOf(rs, sm, env))[rec] == Count(rs, Becomes(rec, sm, env))
  {
    if rs != [] {
      var init, last := rs[..|rs| - 1], rs[|rs| - 1];
      assert rs == init + [last];
      RecordTimes(init, sm, env, rec);
      CountSnoc(init, last, Becomes(rec, sm, env));
    }
  }

  // ---------------------------------------------------------------- a deterministic file

  predicate SameKey(r: Result, s: Result) {
    r.chain == s.chain && r.check == s.check && r.endpoint == s.endpoint
  }

  lemma ChainIdNamesAreInjective(s: EndpointType, t: EndpointType)
    ensures s.ChainIdCheck() == t.ChainIdCheck() ==> s == t
  {
    var c, d := s.ChainIdCheck(), t.ChainIdCheck();
    if c == d {
      assert c[0] == d[0] && c[1] == d[1] && c[|c| - 10] == d[|d| - 10] && |c| == |d|;
    }
  }

  lemma SameKeySameKind(j: Job, k: Job, probe: Probe, r: Result, s: Result)
    requires r in ProbeJob(j, probe) && s in ProbeJob(k, probe) && SameKey(r, s)
    ensures j.chain.name == k.chain.name && PairOf(j) == PairOf(k)
    ensures r.check == j.kind.LivenessCheck() <==> s.check == k.kind.LivenessCheck()
  {
    CheckKinds(j.kind);
    CheckKinds(k.kind);
    NamesAreInjective(j.kind, k.kind);
    ChainIdNamesAreInjective(j.kind, k.kind);
  }

  lemma {:induction false} JobOfKey(chains: seq<Chain>, probe: Probe, j: Job, k: Job, r: Result, s: Result)
    requires DistinctNames(chains) && j in AllJobs(chains) && k in AllJobs(chains)
    requires r in ProbeJob(j, probe) && s in ProbeJob(k, probe) && SameKey(r, s)
    ensures r == s
  {
    SameKeySameKind(j, k, probe, r, s);
    AllJobsDistinct(chains);
    var jobs := AllJobs(chains);
    var a :| 0 <= a < |jobs| && jobs[a] == j;
    var b :| 0 <= b < |jobs| && jobs[b] == k;
    assert a == b;
    CheckKinds(j.kind);
  }

  // Whatever order the workers delivered them in, one run's results make one and the same file.
  lemma RecordsAreDeterministic(
    chains: seq<Chain>, probe: Probe, a: seq<Result>, b: seq<Result>, sm: StateMap, env: Env, x: seq<Record>, y: seq<Record>)
    requires DistinctNames(chains)
    requires DeliveredBy(a, AllJobs(chains), probe) && DeliveredBy(b, AllJobs(chains), probe)
    requires multiset(x) == multiset(RecordsOf(a, sm, env)) && NoInversion(x, RecordBefore)
    requires multiset(y) == multiset(RecordsOf(b, sm, env)) && NoInversion(y, RecordBefore)
    ensures x == y
  {
    RecordsPermute(a, b, sm, env);
    RecordOrder();
    PermutationMembers(x, RecordsOf(a, sm, env));
    RecordsMembers(a, sm, env);
    PermutationMembers(a, ResultsOf(AllJobs(chains), Prober(probe)));
    forall u, v | u in x && v in x ensures RecordBefore(u, v) || u == v || RecordBefore(v, u) {
      Trichotomy(u, v);
      var r :| r in a && Recorded(r) && RecordOf(r, sm, env) == u;
      var s :| s in a && Recorded(s) && RecordOf(s, sm, env) == v;
      if SameKey(r, s) {
        var j := ResultHasJob(AllJobs(chains), probe, r);
        var k := ResultHasJob(AllJobs(chains), probe, s);
        JobOfKey(chains, probe, j, k, r, s);
      }
    }
    SortedIsUnique(x, y, RecordBefore);
  }
}
