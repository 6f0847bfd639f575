// Every column of every record, and the verdict on first-listed endpoints in a sorted file.
module RecordRows {
  import opened GoStrings
  import opened Seqs
  import opened Sorting
  import opened Clock
  import opened Registry
  import opened Checks
  import opened Probing
  import opened WorkerPool
  import opened Schedule
  import opened State
  import opened ChainDeath
  import opened Records
  import opened Aggregation
  import opened Agreement
  import Sentinel
  import Meaning = ReportMeaning
  import Dedup

  // ---------------------------------------------------------------- records

  // The record of a result, column by column.
  predicate Describes(rec: Record, r: Result, now: Time, domain: string, streak: nat) {
    && rec.runTs == now && rec.chain == r.chain && rec.check == r.check && rec.endpoint == r.endpoint
    && rec.domain == domain && rec.provider == r.provider && rec.order == r.order && rec.streak == streak
    && rec.passed == r.verdict.passed && rec.skipped == r.verdict.skipped && rec.failureClass == r.verdict.failureClass
    && rec.httpStatus == r.verdict.httpStatus && rec.evidence == r.verdict.evidence
    && rec.catchingUp == r.verdict.catchingUp && rec.txIndex == r.verdict.txIndex
    && rec.methodRestricted == r.verdict.methodRestricted
    && (rec.latestBlockTime.Unset? <==> r.verdict.latestBlockTime == 0)
  }

  // The saved streak of the result's pair, 0 when there is none.
  function SavedStreak(sm: StateMap, r: Result): nat {
    if r.chain in sm && r.check + "|" + r.endpoint in sm[r.chain].endpoints
      then sm[r.chain].endpoints[r.check + "|" + r.endpoint].consecutiveFailures
    else 0
  }

  // Each result that was measured or carries a class has its record, and every record is one's.
  lemma RecordsDescribeResults(rs: seq<Result>, sm: StateMap, env: Env, records: seq<Record>)
    requires RecordsOfRun(records, rs, sm, env)
    ensures forall r :: r in rs && (!r.verdict.skipped || r.verdict.failureClass != "") ==>
      exists rec :: rec in records && Describes(rec, r, env.now, env.domain(r.endpoint), SavedStreak(sm, r))
    ensures forall rec :: rec in records ==>
      exists r :: r in rs && (!r.verdict.skipped || r.verdict.failureClass != "")
        && Describes(rec, r, env.now, env.domain(r.endpoint), SavedStreak(sm, r))
  {
    PermutationMembers(records, RecordsOf(rs, sm, env));
    RecordsMembers(rs, sm, env);
    forall r ensures Describes(RecordOf(r, sm, env), r, env.now, env.domain(r.endpoint), SavedStreak(sm, r)) {}
    forall r | r in rs && (!r.verdict.skipped || r.verdict.failureClass != "")
      ensures exists rec :: rec in records && Describes(rec, r, env.now, env.domain(r.endpoint), SavedStreak(sm, r))
    {
      assert RecordOf(r, sm, env) in records;
    }
  }

  // Each result carries the declared entry of its job: address, provider and 1-based first position.
  ghost predicate FirstEntry(ch: Chain, t: EndpointType, r: Result) {
    && r.chain == ch.name && (r.check == t.LivenessCheck() || r.check == t.ChainIdCheck())
    && 1 <= r.order <= |Listed(ch, t)| && Listed(ch, t)[r.order - 1] == Endpoint(r.endpoint, r.provider)
    && forall i :: 0 <= i < r.order - 1 ==> Listed(ch, t)[i].address != r.endpoint
  }

  lemma ResultsAreDeclared(chains: seq<Chain>, probe: Probe, rs: seq<Result>, r: Result) returns (ch: Chain, t: EndpointType)
    requires DeliveredBy(rs, AllJobs(chains), probe) && r in rs
    ensures ch in chains && t in ProbedTypes(ch) && FirstEntry(ch, t, r)
  {
    PermutationMembers(rs, ResultsOf(AllJobs(chains), Prober(probe)));
    var j := ResultHasJob(AllJobs(chains), probe, r);
    Sentinel.JobsChain(chains, j);
    ch, t := j.chain, j.kind;
    JobResultIsFirst(j, probe, r);
  }

  lemma JobResultIsFirst(j: Job, probe: Probe, r: Result)
    requires j in ChainJobs(j.chain) && r in ProbeJob(j, probe)
    ensures j.kind in ProbedTypes(j.chain) && FirstEntry(j.chain, j.kind, r)
  {
    Dedup.KeptAreEntries(j.chain, j);
    forall i | 0 <= i < j.order - 1 ensures Listed(j.chain, j.kind)[i].address != j.endpoint.address {
      if Listed(j.chain, j.kind)[i].address == j.endpoint.address {
        Dedup.FirstPosition(j.chain, j, i);
      }
    }
  }

  // ---------------------------------------------------------------- the first-listed endpoint

  ghost predicate LastFirst(rs: seq<Record>, c: string, i: nat) {
    && i < |rs| && Meaning.FirstOf(c, rs[i])
    && forall k :: i < k < |rs| ==> !Meaning.FirstOf(c, rs[k])
  }

  lemma FirstDeadStep(rs: seq<Record>, c: string)
    requires rs != []
    ensures ChainFor(AggregateOf(rs), c).firstDead ==
      if Meaning.FirstOf(c, rs[|rs| - 1]) then !rs[|rs| - 1].passed else ChainFor(AggregateOf(rs[..|rs| - 1]), c).firstDead
  {
  }

  lemma {:induction false} LastFirstExists(rs: seq<Record>, c: string) returns (i: nat)
    requires exists r :: r in rs && Meaning.FirstOf(c, r)
    ensures LastFirst(rs, c, i)
  {
    var init, last := rs[..|rs| - 1], rs[|rs| - 1];
    if Meaning.FirstOf(c, last) {
      i := |rs| - 1;
    } else {
      assert forall x :: x in rs <==> x in init || x == last;
      i := LastFirstExists(init, c);
    }
  }

  lemma {:induction false} LastFirstDecides(rs: seq<Record>, c: string, i: nat)
    requires LastFirst(rs, c, i)
    ensures ChainFor(AggregateOf(rs), c).firstDead == !rs[i].passed
  {
    FirstDeadStep(rs, c);
    if i < |rs| - 1 {
      LastFirstDecides(rs[..|rs| - 1], c, i);
    }
  }

  lemma RpcAfterEvm()
    ensures Less(EVM_LIVENESS, RPC_LIVENESS) && !Less(RPC_LIVENESS, EVM_LIVENESS)
  {
    assert EVM_LIVENESS[0] == 'e' && RPC_LIVENESS[0] == 'r';
    LessTotal(EVM_LIVENESS, RPC_LIVENESS);
  }

  lemma LaterIsNotEvm(rs: seq<Record>, c: string, k: nat, i: nat)
    requires NoInversion(rs, RecordBefore) && k <= i < |rs|
    requires Meaning.FirstOf(c, rs[k]) && rs[k].check == RPC_LIVENESS && Meaning.FirstOf(c, rs[i])
    ensures rs[i].check == RPC_LIVENESS
  {
    RpcAfterEvm();
    if k < i {
      assert !RecordBefore(rs[i], rs[k]);
    }
  }

  // In a sorted file the verdict on the first-listed endpoint is an RPC record's, if there is one.
  lemma RpcDecides(rs: seq<Record>, c: string, r: Record) returns (s: Record)
    requires NoInversion(rs, RecordBefore) && r in rs && Meaning.FirstOf(c, r) && r.check == RPC_LIVENESS
    ensures s in rs && s.check == RPC_LIVENESS && s.chain == c && s.order == 1 && !s.skipped
    ensures ChainFor(AggregateOf(rs), c).hasFirst && ChainFor(AggregateOf(rs), c).firstDead == !s.passed
  {
    var i := LastFirstExists(rs, c);
    LastFirstDecides(rs, c, i);
    var k :| 0 <= k < |rs| && rs[k] == r;
    assert Meaning.FirstOf(c, rs[k]);
    LaterIsNotEvm(rs, c, k, i);
    s := rs[i];
    Meaning.MarkMeans(rs, Meaning.HasFirst(c));
    assert Meaning.Marks(Meaning.HasFirst(c), r);
    assert Meaning.Marked(AggregateOf(rs), Meaning.HasFirst(c));
  }
}
