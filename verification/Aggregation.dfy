// internal/report/render.go: the counters every table of the report is computed from.
module Aggregation {
  import opened GoStrings
  import opened Seqs
  import opened Sorting
  import opened Clock
  import opened Percentages
  import opened Checks
  import opened ChainDeath
  import opened Records

  const BLOCK_STALE_AFTER: Duration := 7 * DAY

  datatype DomainAgg = DomainAgg(total: nat, live: nat, chains: set<string>, classes: map<string, nat>)

  const NO_DOMAIN := DomainAgg(0, 0, {}, map[])

  datatype ChainAgg = ChainAgg(
    coreTotal: nat,
    coreLive: nat,
    hasFirst: bool,
    firstDead: bool,
    domains: map<string, nat>,
    deadDomains: set<string>,
    answeringRPC: nat,
    staleRPC: nat
  )

  const NO_CHAIN := ChainAgg(0, 0, false, false, map[], {}, 0, 0)

  datatype Totals = Totals(
    endpoints: nat,
    live: nat,
    rateLimited: nat,
    chainIdMismatch: nat,
    classes: map<string, nat>,
    domains: map<string, DomainAgg>,
    chains: map<string, ChainAgg>,
    withProvider: nat,
    providers: set<string>,
    catchingUp: nat,
    txIndexOff: nat,
    methodRestricted: nat
  )

  const NO_TOTALS := Totals(0, 0, 0, 0, map[], map[], map[], 0, {}, 0, 0, 0)

  function DomainIn(m: map<string, DomainAgg>, d: string): DomainAgg {
    if d in m then m[d] else NO_DOMAIN
  }

  function ChainIn(m: map<string, ChainAgg>, c: string): ChainAgg {
    if c in m then m[c] else NO_CHAIN
  }

  function DomainFor(t: Totals, d: string): DomainAgg {
    DomainIn(t.domains, d)
  }

  function ChainFor(t: Totals, c: string): ChainAgg {
    ChainIn(t.chains, c)
  }

  // ---------------------------------------------------------------- specification

  predicate Measured(r: Record) {
    IsLiveness(r.check) && !r.skipped
  }

  predicate Answers(r: Record) {
    r.check == RPC_LIVENESS && r.passed && !r.catchingUp
  }

  predicate ReportsOldBlock(r: Record) {
    Parse(r.latestBlockTime) != Malformed && Sub(r.runTs, Parse(r.latestBlockTime).time) > BLOCK_STALE_AFTER
  }

  // The entry a user's tooling takes by default.
  predicate First(r: Record) {
    r.order == 1 && (r.check == RPC_LIVENESS || r.check == EVM_LIVENESS)
  }

  function AddToDomain(d: DomainAgg, r: Record): DomainAgg {
    DomainAgg(
      d.total + 1,
      if r.passed then d.live + 1 else d.live,
      d.chains + {r.chain},
      if r.passed then d.classes else Bump(d.classes, r.failureClass))
  }

  function AddToChain(c: ChainAgg, r: Record): ChainAgg {
    ChainAgg(
      if Core(r.check) then c.coreTotal + 1 else c.coreTotal,
      if Core(r.check) && r.passed then c.coreLive + 1 else c.coreLive,
      c.hasFirst || First(r),
      if First(r) then !r.passed else c.firstDead,
      Bump(c.domains, r.domain),
      if r.passed then c.deadDomains else c.deadDomains + {r.domain},
      if Answers(r) then c.answeringRPC + 1 else c.answeringRPC,
      if Answers(r) && ReportsOldBlock(r) then c.staleRPC + 1 else c.staleRPC)
  }

  function AddNumbers(t: Totals, r: Record): Totals {
    t.(endpoints := t.endpoints + 1,
       live := if r.passed then t.live + 1 else t.live,
       classes := if r.passed then t.classes else Bump(t.classes, r.failureClass),
       withProvider := if r.provider != "" then t.withProvider + 1 else t.withProvider,
       providers := if r.provider != "" then t.providers + {r.provider} else t.providers,
       catchingUp := if r.passed && r.catchingUp then t.catchingUp + 1 else t.catchingUp,
       txIndexOff := if r.passed && r.txIndex == "off" then t.txIndexOff + 1 else t.txIndexOff,
       methodRestricted := if r.passed && r.methodRestricted then t.methodRestricted + 1 else t.methodRestricted)
  }

  function AddMeasured(t: Totals, r: Record): Totals {
    AddNumbers(t, r).(
      domains := t.domains[r.domain := AddToDomain(DomainFor(t, r.domain), r)],
      chains := t.chains[r.chain := AddToChain(ChainFor(t, r.chain), r)])
  }

  function AddRecord(t: Totals, r: Record): Totals {
    if Measured(r) then AddMeasured(t, r)
    else if IsLiveness(r.check) then t.(rateLimited := t.rateLimited + 1)
    else if !r.passed && !r.skipped then t.(chainIdMismatch := t.chainIdMismatch + 1)
    else t
  }

  function AggregateOf(records: seq<Record>): Totals {
    if records == [] then NO_TOTALS
    else AddRecord(AggregateOf(records[..|records| - 1]), records[|records| - 1])
  }

  // ---------------------------------------------------------------- aggregate itself

  class Aggregates {
    var endpoints: nat
    var live: nat
    var rateLimited: nat
    var chainIdMismatch: nat
    var classes: map<string, nat>
    var domains: map<string, DomainAgg>
    var chains: map<string, ChainAgg>
    var withProvider: nat
    var providers: set<string>
    var catchingUp: nat
    var txIndexOff: nat
    var methodRestricted: nat

    constructor ()
      ensures View() == NO_TOTALS
    {
      endpoints, live, rateLimited, chainIdMismatch := 0, 0, 0, 0;
      classes, domains, chains := map[], map[], map[];
      withProvider, providers := 0, {};
      catchingUp, txIndexOff, methodRestricted := 0, 0, 0;
    }

    function View(): Totals
      reads this
    {
      Totals(endpoints, live, rateLimited, chainIdMismatch, classes, domains, chains,
        withProvider, providers, catchingUp, txIndexOff, methodRestricted)
    }

    method NoteChain(r: Record)
      modifies this`chains
      ensures chains == old(chains)[r.chain := AddToChain(ChainIn(old(chains), r.chain), r)]
    {
      var c := if r.chain in chains then chains[r.chain] else NO_CHAIN;
      c := c.(domains := c.domains[r.domain := Tally(c.domains, r.domain) + 1]);
      if !r.passed {
        c := c.(deadDomains := c.deadDomains + {r.domain});
      }
      if r.check == RPC_LIVENESS && r.passed && !r.catchingUp {
        c := c.(answeringRPC := c.answeringRPC + 1);
        var t := Parse(r.latestBlockTime);
        if t.Moment? && Sub(r.runTs, t.time) > BLOCK_STALE_AFTER {
          c := c.(staleRPC := c.staleRPC + 1);
        }
      }
      if Core(r.check) {
        c := c.(coreTotal := c.coreTotal + 1);
        if r.passed {
          c := c.(coreLive := c.coreLive + 1);
        }
        if r.order == 1 && (r.check == RPC_LIVENESS || r.check == EVM_LIVENESS) {
          c := c.(hasFirst := true, firstDead := !r.passed);
        }
      }
      chains := chains[r.chain := c];
    }

    method NoteProvider(r: Record)
      modifies this`withProvider, this`providers
      ensures withProvider == if r.provider != "" then old(withProvider) + 1 else old(withProvider)
      ensures providers == if r.provider != "" then old(providers) + {r.provider} else old(providers)
    {
      if r.provider != "" {
        withProvider := withProvider + 1;
        providers := providers + {r.provider};
      }
    }

    method NoteOutcome(r: Record)
      modifies this`classes, this`live, this`catchingUp, this`txIndexOff, this`methodRestricted
      ensures classes == if r.passed then old(classes) else Bump(old(classes), r.failureClass)
      ensures live == if r.passed then old(live) + 1 else old(live)
      ensures catchingUp == if r.passed && r.catchingUp then old(catchingUp) + 1 else old(catchingUp)
      ensures txIndexOff == if r.passed && r.txIndex == "off" then old(txIndexOff) + 1 else old(txIndexOff)
      ensures methodRestricted == if r.passed && r.methodRestricted then old(methodRestricted) + 1 else old(methodRestricted)
    {
      if !r.passed {
        classes := Bump(classes, r.failureClass);
        return;
      }
      live := live + 1;
      if r.catchingUp {
        catchingUp := catchingUp + 1;
      }
      if r.txIndex == "off" {
        txIndexOff := txIndexOff + 1;
      }
      if r.methodRestricted {
        methodRestricted := methodRestricted + 1;
      }
    }

    method NoteDomain(r: Record)
      modifies this`domains
      ensures domains == old(domains)[r.domain := AddToDomain(DomainIn(old(domains), r.domain), r)]
    {
      var d := if r.domain in domains then domains[r.domain] else NO_DOMAIN;
      d := d.(total := d.total + 1, chains := d.chains + {r.chain});
      if r.passed {
        d := d.(live := d.live + 1);
      } else {
        d := d.(classes := d.classes[r.failureClass := Tally(d.classes, r.failureClass) + 1]);
      }
      domains := domains[r.domain := d];
    }

    method NoteMaps(r: Record)
      modifies this`domains, this`chains
      ensures domains == old(domains)[r.domain := AddToDomain(DomainIn(old(domains), r.domain), r)]
      ensures chains == old(chains)[r.chain := AddToChain(ChainIn(old(chains), r.chain), r)]
    {
      NoteDomain(r);
      NoteChain(r);
    }

    method NoteNumbers(r: Record)
      modifies this`endpoints, this`withProvider, this`providers
      modifies this`classes, this`live, this`catchingUp, this`txIndexOff, this`methodRestricted
      ensures View() == AddNumbers(old(View()), r)
    {
      endpoints := endpoints + 1;
      NoteProvider(r);
      NoteOutcome(r);
    }

    method NoteMeasured(r: Record)
      modifies this
      ensures View() == AddMeasured(old(View()), r)
    {
      NoteNumbers(r);
      NoteMaps(r);
    }

    method Note(r: Record)
      modifies this
      ensures View() == AddRecord(old(View()), r)
    {
      if !IsLiveness(r.check) {
        if !r.passed && !r.skipped {
          chainIdMismatch := chainIdMismatch + 1;
        }
        return;
      }
      if r.skipped {
        rateLimited := rateLimited + 1;
        return;
      }
      NoteMeasured(r);
    }
  }

  method Aggregate(records: seq<Record>) returns (a: Aggregates)
    ensures fresh(a) && a.View() == AggregateOf(records)
  {
    a := new Aggregates();
    for i := 0 to |records|
      invariant fresh(a) && a.View() == AggregateOf(records[..i])
    {
      assert records[..i + 1][..i] == records[..i];
      a.Note(records[i]);
    }
    assert records[..|records|] == records;
  }

  // ---------------------------------------------------------------- report sections

  // The run's own measurement looks unhealthy.
  predicate Warns(t: Totals) {
    var suspect := Tally(t.classes, CLASS_DNS_FAILURE) + Tally(t.classes, CLASS_VANTAGE_NO_ROUTE);
    suspect > 0 && 20 * suspect >= t.endpoints - t.live && t.endpoints != t.live
  }

  method VantageWarning(t: Totals) returns (warned: bool)
    requires t.live <= t.endpoints
    ensures warned <==> Warns(t)
  {
    var suspect := Tally(t.classes, CLASS_DNS_FAILURE) + Tally(t.classes, CLASS_VANTAGE_NO_ROUTE);
    var dead := t.endpoints - t.live;
    if dead > 0 {
      BelowWarning(suspect, dead);
    }
    if suspect == 0 || Percent(suspect, dead) < VANTAGE_WARN_PCT {
      return false;
    }
    return true;
  }

  function WithdrawnFrom(t: Totals, c: ChainAgg): set<string> {
    set d | d in c.deadDomains && DomainFor(t, d).live > 0
  }

  predicate Unreachable(t: Totals, c: ChainAgg) {
    c.coreTotal > 0 && c.coreLive == 0 && |WithdrawnFrom(t, c)| >= Needed(|c.deadDomains|)
  }

  predicate Frozen(c: ChainAgg) {
    c.answeringRPC > 0 && c.staleRPC == c.answeringRPC
  }

  datatype Reason = OperatorsServeOthers(withdrawn: nat) | EveryRpcIsOld(answering: nat)

  datatype Candidate = Candidate(name: string, why: Reason)

  function WhyDying(t: Totals, c: ChainAgg): Reason {
    if Unreachable(t, c) then OperatorsServeOthers(|WithdrawnFrom(t, c)|) else EveryRpcIsOld(c.answeringRPC)
  }

  function Dying(t: Totals): set<string> {
    set c | c in t.chains && (Unreachable(t, t.chains[c]) || Frozen(t.chains[c]))
  }

  function CandidatesAmong(t: Totals, names: set<string>): set<Candidate>
    requires names <= t.chains.Keys
  {
    set c | c in names :: Candidate(c, WhyDying(t, t.chains[c]))
  }

  method CountLiveElsewhere(t: Totals, c: ChainAgg) returns (withdrawn: nat)
    ensures withdrawn == |WithdrawnFrom(t, c)|
  {
    withdrawn := 0;
    var todo := c.deadDomains;
    ghost var goal := WithdrawnFrom(t, c);
    assert goal - todo == {};
    while todo != {}
      invariant todo <= c.deadDomains
      invariant withdrawn == |goal - todo|
      decreases todo
    {
      var d :| d in todo;
      MinusStep(goal, todo, d);
      todo := todo - {d};
      if d in t.domains && t.domains[d].live > 0 {
        withdrawn := withdrawn + 1;
      }
    }
    assert goal - todo == goal;
  }

  method JudgeChain(t: Totals, c: string) returns (dying: bool, why: Reason)
    requires c in t.chains
    ensures dying <==> c in Dying(t)
    ensures dying ==> why == WhyDying(t, t.chains[c])
  {
    var agg := t.chains[c];
    var withdrawn := CountLiveElsewhere(t, agg);
    var needed := MIN_WITHDRAWN_OPERATORS;
    if |agg.deadDomains| < needed {
      needed := |agg.deadDomains|;
    }
    if needed < 2 {
      needed := 2;
    }
    if agg.coreTotal > 0 && agg.coreLive == 0 && withdrawn >= needed {
      return true, OperatorsServeOthers(withdrawn);
    }
    return agg.answeringRPC > 0 && agg.staleRPC == agg.answeringRPC, EveryRpcIsOld(agg.answeringRPC);
  }

  predicate CandidateBefore(a: Candidate, b: Candidate) {
    Less(a.name, b.name)
  }

  lemma OneMoreCandidate(t: Totals, names: set<string>, c: string)
    requires names <= t.chains.Keys && c in t.chains && c !in names
    ensures multiset(CandidatesAmong(t, names + {c}))
         == multiset(CandidatesAmong(t, names)) + multiset{Candidate(c, WhyDying(t, t.chains[c]))}
  {
    assert CandidatesAmong(t, names + {c}) == CandidatesAmong(t, names) + {Candidate(c, WhyDying(t, t.chains[c]))};
    assert Candidate(c, WhyDying(t, t.chains[c])) !in CandidatesAmong(t, names);
  }

  lemma {:induction false} ListOneCandidate(cands: seq<Candidate>, t: Totals, goal: set<string>, todo: set<string>, c: string)
    requires goal <= t.chains.Keys && c in todo && c in t.chains
    requires multiset(cands) == multiset(CandidatesAmong(t, goal - todo))
    ensures multiset(if c in goal then cands + [Candidate(c, WhyDying(t, t.chains[c]))] else cands)
         == multiset(CandidatesAmong(t, goal - (todo - {c})))
  {
    MinusStep(goal, todo, c);
    OneMoreCandidate(t, goal - todo, c);
  }

  method SortCandidates(cands: seq<Candidate>) returns (r: seq<Candidate>)
    ensures multiset(r) == multiset(cands) && NoInversion(r, CandidateBefore)
  {
    StringOrder();
    SortSorts(cands, CandidateBefore);
    return Sort(cands, CandidateBefore);
  }

  // The chain-death section: every dying chain with its reason, by name, for any iteration order.
  method DeathCandidates(t: Totals) returns (cands: seq<Candidate>)
    ensures multiset(cands) == multiset(CandidatesAmong(t, Dying(t)))
    ensures forall i, j :: 0 <= i < j < |cands| ==> !Less(cands[j].name, cands[i].name)
  {
    cands := [];
    var todo := t.chains.Keys;
    ghost var goal := Dying(t);
    assert goal - todo == {};
    while todo != {}
      invariant todo <= t.chains.Keys
      invariant multiset(cands) == multiset(CandidatesAmong(t, goal - todo))
      decreases todo
    {
      var c :| c in todo;
      ListOneCandidate(cands, t, goal, todo, c);
      todo := todo - {c};
      var dying, why := JudgeChain(t, c);
      if dying {
        cands := cands + [Candidate(c, why)];
      }
    }
    assert goal - todo == goal;
    cands := SortCandidates(cands);
  }
}
