// What the report's aggregates say about the records, whatever order the records come in.
module ReportMeaning {
  import opened Seqs
  import opened Checks
  import opened ChainDeath
  import opened Records
  import opened Aggregation

  // Every number the aggregates hold, and which records each one counts.
  datatype Figure =
    | Endpoints
    | Live
    | RateLimited
    | ChainIdMismatch
    | WithProvider
    | CatchingUp
    | TxIndexOff
    | MethodRestricted
    | Class(class_: string)
    | DomainTotal(domain: string)
    | DomainLive(domain: string)
    | DomainClass(domain: string, class_: string)
    | OnDomain(chain: string, domain: string)
    | CoreTotal(chain: string)
    | CoreLive(chain: string)
    | AnsweringRPC(chain: string)
    | StaleRPC(chain: string)

  function Read(t: Totals, k: Figure): nat {
    match k
    case Endpoints => t.endpoints
    case Live => t.live
    case RateLimited => t.rateLimited
    case ChainIdMismatch => t.chainIdMismatch
    case WithProvider => t.withProvider
    case CatchingUp => t.catchingUp
    case TxIndexOff => t.txIndexOff
    case MethodRestricted => t.methodRestricted
    case Class(c) => Tally(t.classes, c)
    case DomainTotal(d) => DomainFor(t, d).total
    case DomainLive(d) => DomainFor(t, d).live
    case DomainClass(d, c) => Tally(DomainFor(t, d).classes, c)
    case OnDomain(c, d) => Tally(ChainFor(t, c).domains, d)
    case CoreTotal(c) => ChainFor(t, c).coreTotal
    case CoreLive(c) => ChainFor(t, c).coreLive
    case AnsweringRPC(c) => ChainFor(t, c).answeringRPC
    case StaleRPC(c) => ChainFor(t, c).staleRPC
  }

  predicate Contributes(k: Figure, r: Record) {
    match k
    case Endpoints => Measured(r)
    case Live => Measured(r) && r.passed
    case RateLimited => IsLiveness(r.check) && r.skipped
    case ChainIdMismatch => !IsLiveness(r.check) && !r.passed && !r.skipped
    case WithProvider => Measured(r) && r.provider != ""
    case CatchingUp => Measured(r) && r.passed && r.catchingUp
    case TxIndexOff => Measured(r) && r.passed && r.txIndex == "off"
    case MethodRestricted => Measured(r) && r.passed && r.methodRestricted
    case Class(c) => Measured(r) && !r.passed && r.failureClass == c
    case DomainTotal(d) => Measured(r) && r.domain == d
    case DomainLive(d) => Measured(r) && r.domain == d && r.passed
    case DomainClass(d, c) => Measured(r) && r.domain == d && !r.passed && r.failureClass == c
    case OnDomain(c, d) => Measured(r) && r.chain == c && r.domain == d
    case CoreTotal(c) => Measured(r) && r.chain == c && Core(r.check)
    case CoreLive(c) => Measured(r) && r.chain == c && Core(r.check) && r.passed
    case AnsweringRPC(c) => Measured(r) && r.chain == c && Answers(r)
    case StaleRPC(c) => Measured(r) && r.chain == c && Answers(r) && ReportsOldBlock(r)
  }

  function CountedBy(k: Figure): Record -> bool {
    (r: Record) => Contributes(k, r)
  }

  predicate AboutDomain(k: Figure) {
    k.DomainTotal? || k.DomainLive? || k.DomainClass?
  }

  predicate AboutChain(k: Figure) {
    k.OnDomain? || k.CoreTotal? || k.CoreLive? || k.AnsweringRPC? || k.StaleRPC?
  }

  lemma {:induction false} ReadNumberStep(t: Totals, r: Record, k: Figure)
    requires Measured(r) && !AboutDomain(k) && !AboutChain(k)
    ensures Read(AddNumbers(t, r), k) == Read(t, k) + (if Contributes(k, r) then 1 else 0)
  {
  }

  lemma {:induction false} ReadDomainStep(t: Totals, r: Record, k: Figure)
    requires Measured(r) && AboutDomain(k)
    ensures Read(AddMeasured(t, r), k) == Read(t, k) + (if Contributes(k, r) then 1 else 0)
  {
  }

  // One chain's numbers.
  function ReadChain(a: ChainAgg, k: Figure): nat
    requires AboutChain(k)
  {
    match k
    case OnDomain(_, d) => Tally(a.domains, d)
    case CoreTotal(_) => a.coreTotal
    case CoreLive(_) => a.coreLive
    case AnsweringRPC(_) => a.answeringRPC
    case StaleRPC(_) => a.staleRPC
  }

  lemma ReadChainAdds(a: ChainAgg, r: Record, k: Figure)
    requires Measured(r) && AboutChain(k) && r.chain == k.chain
    ensures ReadChain(AddToChain(a, r), k) == ReadChain(a, k) + (if Contributes(k, r) then 1 else 0)
  {
  }

  lemma ReadChainStep(t: Totals, r: Record, k: Figure)
    requires Measured(r) && AboutChain(k)
    ensures Read(AddMeasured(t, r), k) == Read(t, k) + (if Contributes(k, r) then 1 else 0)
  {
    assert Read(t, k) == ReadChain(ChainFor(t, k.chain), k);
    assert Read(AddMeasured(t, r), k) == ReadChain(ChainFor(AddMeasured(t, r), k.chain), k);
    if r.chain == k.chain {
      ReadChainAdds(ChainFor(t, r.chain), r, k);
    }
  }

  lemma ReadStep(t: Totals, r: Record, k: Figure)
    ensures Read(AddRecord(t, r), k) == Read(t, k) + (if Contributes(k, r) then 1 else 0)
  {
    if Measured(r) {
      if AboutDomain(k) {
        ReadDomainStep(t, r, k);
      } else if AboutChain(k) {
        ReadChainStep(t, r, k);
      } else {
        ReadNumberStep(t, r, k);
        assert Read(AddMeasured(t, r), k) == Read(AddNumbers(t, r), k);
      }
    }
  }

  lemma {:induction false} FigureMeans(rs: seq<Record>, k: Figure)
    ensures Read(AggregateOf(rs), k) == Count(rs, CountedBy(k))
  {
    if rs != [] {
      var init, r := rs[..|rs| - 1], rs[|rs| - 1];
      assert rs == init + [r];
      FigureMeans(init, k);
      ReadStep(AggregateOf(init), r, k);
      CountSnoc(init, r, CountedBy(k));
    }
  }

  // Every set and map domain, and which records put an element there.
  datatype Mark =
    | DomainSeen(domain: string)
    | ChainSeen(chain: string)
    | Provider(name: string)
    | ChainOfDomain(domain: string, chain: string)
    | DeadDomain(chain: string, domain: string)
    | HasFirst(chain: string)
    | ClassSeen(class_: string)
    | ClassOfDomain(domain: string, class_: string)
    | DomainOfChain(chain: string, domain: string)

  predicate Marked(t: Totals, m: Mark) {
    match m
    case DomainSeen(d) => d in t.domains
    case ChainSeen(c) => c in t.chains
    case Provider(p) => p in t.providers
    case ChainOfDomain(d, c) => c in DomainFor(t, d).chains
    case DeadDomain(c, d) => d in ChainFor(t, c).deadDomains
    case HasFirst(c) => ChainFor(t, c).hasFirst
    case ClassSeen(c) => c in t.classes
    case ClassOfDomain(d, c) => c in DomainFor(t, d).classes
    case DomainOfChain(c, d) => d in ChainFor(t, c).domains
  }

  predicate Marks(m: Mark, r: Record) {
    match m
    case DomainSeen(d) => Measured(r) && r.domain == d
    case ChainSeen(c) => Measured(r) && r.chain == c
    case Provider(p) => Measured(r) && r.provider != "" && r.provider == p
    case ChainOfDomain(d, c) => Measured(r) && r.domain == d && r.chain == c
    case DeadDomain(c, d) => Measured(r) && r.chain == c && !r.passed && r.domain == d
    case HasFirst(c) => Measured(r) && r.chain == c && First(r)
    case ClassSeen(c) => Measured(r) && !r.passed && r.failureClass == c
    case ClassOfDomain(d, c) => Measured(r) && r.domain == d && !r.passed && r.failureClass == c
    case DomainOfChain(c, d) => Measured(r) && r.chain == c && r.domain == d
  }

  predicate MarksDomain(m: Mark) {
    m.DomainSeen? || m.ChainOfDomain? || m.ClassOfDomain?
  }

  predicate MarksChain(m: Mark) {
    m.ChainSeen? || m.DeadDomain? || m.HasFirst? || m.DomainOfChain?
  }

  lemma MarkDomainStep(t: Totals, r: Record, m: Mark)
    requires Measured(r) && MarksDomain(m)
    ensures Marked(AddMeasured(t, r), m) <==> Marked(t, m) || Marks(m, r)
  {
  }

  lemma MarkChainStep(t: Totals, r: Record, m: Mark)
    requires Measured(r) && MarksChain(m)
    ensures Marked(AddMeasured(t, r), m) <==> Marked(t, m) || Marks(m, r)
  {
  }

  lemma MarkOtherStep(t: Totals, r: Record, m: Mark)
    requires Measured(r) && !MarksDomain(m) && !MarksChain(m)
    ensures Marked(AddNumbers(t, r), m) <==> Marked(t, m) || Marks(m, r)
  {
  }

  lemma MarkStep(t: Totals, r: Record, m: Mark)
    ensures Marked(AddRecord(t, r), m) <==> Marked(t, m) || Marks(m, r)
  {
    if Measured(r) {
      if MarksDomain(m) {
        MarkDomainStep(t, r, m);
      } else if MarksChain(m) {
        MarkChainStep(t, r, m);
      } else {
        MarkOtherStep(t, r, m);
        assert Marked(AddMeasured(t, r), m) == Marked(AddNumbers(t, r), m);
      }
    }
  }

  lemma {:induction false} MarkMeans(rs: seq<Record>, m: Mark)
    ensures Marked(AggregateOf(rs), m) <==> exists r :: r in rs && Marks(m, r)
  {
    if rs != [] {
      var init, r := rs[..|rs| - 1], rs[|rs| - 1];
      MarkMeans(init, m);
      MarkStep(AggregateOf(init), r, m);
      assert forall x :: x in rs <==> x in init || x == r;
    }
  }

  // ---------------------------------------------------------------- order independence

  ghost predicate SameFigures(t: Totals, u: Totals) {
    && (forall k :: Read(t, k) == Read(u, k))
    && (forall m :: Marked(t, m) == Marked(u, m))
  }

  // Everything but the verdict on the first-listed endpoint, which the last such record decides.
  function Unordered(c: ChainAgg): ChainAgg {
    c.(firstDead := false)
  }

  function UnorderedChains(t: Totals): map<string, ChainAgg> {
    map c | c in t.chains :: Unordered(t.chains[c])
  }

  lemma SameTallies(m: map<string, nat>, n: map<string, nat>)
    requires forall k :: k in m <==> k in n
    requires forall k :: Tally(m, k) == Tally(n, k)
    ensures m == n
  {
    forall k | k in m ensures m[k] == n[k] {
      assert Tally(m, k) == Tally(n, k);
    }
  }

  lemma SameDomain(t: Totals, u: Totals, d: string)
    requires SameFigures(t, u)
    ensures d in t.domains <==> d in u.domains
    ensures DomainFor(t, d) == DomainFor(u, d)
  {
    var x, y := DomainFor(t, d), DomainFor(u, d);
    assert Marked(t, DomainSeen(d)) == Marked(u, DomainSeen(d));
    assert Read(t, DomainTotal(d)) == Read(u, DomainTotal(d)) && Read(t, DomainLive(d)) == Read(u, DomainLive(d));
    forall c ensures c in x.chains <==> c in y.chains {
      assert Marked(t, ChainOfDomain(d, c)) == Marked(u, ChainOfDomain(d, c));
    }
    forall c ensures (c in x.classes <==> c in y.classes) && Tally(x.classes, c) == Tally(y.classes, c) {
      assert Marked(t, ClassOfDomain(d, c)) == Marked(u, ClassOfDomain(d, c));
      assert Read(t, DomainClass(d, c)) == Read(u, DomainClass(d, c));
    }
    SameTallies(x.classes, y.classes);
  }

  lemma {:induction false} SameChain(t: Totals, u: Totals, c: string)
    requires SameFigures(t, u)
    ensures c in t.chains <==> c in u.chains
    ensures Unordered(ChainFor(t, c)) == Unordered(ChainFor(u, c))
  {
    var x, y := ChainFor(t, c), ChainFor(u, c);
    assert Marked(t, ChainSeen(c)) == Marked(u, ChainSeen(c)) && Marked(t, HasFirst(c)) == Marked(u, HasFirst(c));
    assert Read(t, CoreTotal(c)) == Read(u, CoreTotal(c)) && Read(t, CoreLive(c)) == Read(u, CoreLive(c));
    assert Read(t, AnsweringRPC(c)) == Read(u, AnsweringRPC(c)) && Read(t, StaleRPC(c)) == Read(u, StaleRPC(c));
    forall d ensures d in x.deadDomains <==> d in y.deadDomains {
      assert Marked(t, DeadDomain(c, d)) == Marked(u, DeadDomain(c, d));
    }
    forall d ensures (d in x.domains <==> d in y.domains) && Tally(x.domains, d) == Tally(y.domains, d) {
      assert Marked(t, DomainOfChain(c, d)) == Marked(u, DomainOfChain(c, d));
      assert Read(t, OnDomain(c, d)) == Read(u, OnDomain(c, d));
    }
    SameTallies(x.domains, y.domains);
  }

  lemma SameNumbers(t: Totals, u: Totals)
    requires SameFigures(t, u)
    ensures t.(classes := u.classes, domains := u.domains, chains := u.chains, providers := u.providers) == u
    ensures t.classes == u.classes && t.providers == u.providers
  {
    assert Read(t, Endpoints) == Read(u, Endpoints) && Read(t, Live) == Read(u, Live);
    assert Read(t, RateLimited) == Read(u, RateLimited) && Read(t, ChainIdMismatch) == Read(u, ChainIdMismatch);
    assert Read(t, WithProvider) == Read(u, WithProvider) && Read(t, CatchingUp) == Read(u, CatchingUp);
    assert Read(t, TxIndexOff) == Read(u, TxIndexOff) && Read(t, MethodRestricted) == Read(u, MethodRestricted);
    forall p ensures p in t.providers <==> p in u.providers {
      assert Marked(t, Provider(p)) == Marked(u, Provider(p));
    }
    forall c ensures (c in t.classes <==> c in u.classes) && Tally(t.classes, c) == Tally(u.classes, c) {
      assert Marked(t, ClassSeen(c)) == Marked(u, ClassSeen(c)) && Read(t, Class(c)) == Read(u, Class(c));
    }
    SameTallies(t.classes, u.classes);
  }

  // Whatever the order of the records, all aggregates but firstDead come out the same.
  lemma AggregateIgnoresOrder(a: seq<Record>, b: seq<Record>)
    requires multiset(a) == multiset(b)
    ensures AggregateOf(a).(chains := UnorderedChains(AggregateOf(a))) == AggregateOf(b).(chains := UnorderedChains(AggregateOf(b)))
  {
    var t, u := AggregateOf(a), AggregateOf(b);
    PermutationMembers(a, b);
    forall k ensures Read(t, k) == Read(u, k) {
      FigureMeans(a, k);
      FigureMeans(b, k);
      CountPermutation(a, b, CountedBy(k));
    }
    forall m ensures Marked(t, m) == Marked(u, m) {
      MarkMeans(a, m);
      MarkMeans(b, m);
    }
    SameEverywhere(t, u);
  }

  lemma SameEverywhere(t: Totals, u: Totals)
    requires SameFigures(t, u)
    ensures t.(chains := UnorderedChains(t)) == u.(chains := UnorderedChains(u))
  {
    SameNumbers(t, u);
    assert t.domains == u.domains by {
      forall d ensures (d in t.domains <==> d in u.domains) && DomainFor(t, d) == DomainFor(u, d) {
        SameDomain(t, u, d);
      }
      assert forall d :: d in t.domains ==> t.domains[d] == DomainFor(t, d) == DomainFor(u, d) == u.domains[d];
    }
    assert UnorderedChains(t) == UnorderedChains(u) by {
      forall c ensures (c in t.chains <==> c in u.chains) && Unordered(ChainFor(t, c)) == Unordered(ChainFor(u, c)) {
        SameChain(t, u, c);
      }
      assert forall c :: c in t.chains ==> UnorderedChains(t)[c] == Unordered(ChainFor(t, c)) && UnorderedChains(u)[c] == Unordered(ChainFor(u, c));
    }
  }

  // ---------------------------------------------------------------- the first-listed endpoint

  predicate FirstOf(c: string, r: Record) {
    Measured(r) && r.chain == c && First(r)
  }

  ghost predicate FirstsAgree(rs: seq<Record>, c: string) {
    forall r, s :: r in rs && s in rs && FirstOf(c, r) && FirstOf(c, s) ==> r.passed == s.passed
  }

  lemma {:induction false} FirstDeadIsTheLast(rs: seq<Record>, c: string) returns (last: Record)
    requires exists r :: r in rs && FirstOf(c, r)
    ensures last in rs && FirstOf(c, last) && ChainFor(AggregateOf(rs), c).firstDead == !last.passed
  {
    var init, r := rs[..|rs| - 1], rs[|rs| - 1];
    if FirstOf(c, r) {
      last := r;
    } else {
      assert forall x :: x in rs <==> x in init || x == r;
      last := FirstDeadIsTheLast(init, c);
    }
  }

  // The figure behind "dead on k of n first-listed endpoints" is independent of record order
  // exactly when the chain's first-listed RPC and EVM endpoints fared alike.
  lemma FirstDeadIgnoresOrder(rs: seq<Record>, c: string)
    requires exists r :: r in rs && FirstOf(c, r)
    ensures FirstsAgree(rs, c) <==>
      forall b :: multiset(b) == multiset(rs) ==> ChainFor(AggregateOf(b), c).firstDead == ChainFor(AggregateOf(rs), c).firstDead
  {
    if FirstsAgree(rs, c) {
      var r := FirstDeadIsTheLast(rs, c);
      forall b | multiset(b) == multiset(rs) ensures ChainFor(AggregateOf(b), c).firstDead == ChainFor(AggregateOf(rs), c).firstDead {
        PermutationMembers(b, rs);
        assert r in b && FirstOf(c, r);
        var s := FirstDeadIsTheLast(b, c);
      }
    } else {
      var r, s :| r in rs && s in rs && FirstOf(c, r) && FirstOf(c, s) && r.passed != s.passed;
      var a := MoveLast(rs, r);
      var b := MoveLast(rs, s);
      assert AggregateOf(a) == AddRecord(AggregateOf(a[..|a| - 1]), r);
      assert AggregateOf(b) == AddRecord(AggregateOf(b[..|b| - 1]), s);
    }
  }

  lemma MoveLast(rs: seq<Record>, r: Record) returns (b: seq<Record>)
    requires r in rs
    ensures multiset(b) == multiset(rs) && b != [] && b[|b| - 1] == r
  {
    var i :| 0 <= i < |rs| && rs[i] == r;
    RemoveAtMultiset(rs, i);
    b := RemoveAt(rs, i) + [r];
  }

  // ---------------------------------------------------------------- conservation

  function TotalIn(domains: map<string, DomainAgg>): string -> nat {
    (d: string) => DomainIn(domains, d).total
  }

  function LiveIn(domains: map<string, DomainAgg>): string -> nat {
    (d: string) => DomainIn(domains, d).live
  }

  function TallyIn(classes: map<string, nat>): string -> nat {
    (c: string) => Tally(classes, c)
  }

  ghost function Dead(classes: map<string, nat>): nat {
    SumOver(classes.Keys, TallyIn(classes))
  }

  ghost predicate DomainConserved(d: DomainAgg) {
    d.total == d.live + Dead(d.classes)
  }

  ghost function Balanced(): DomainAgg -> bool {
    (d: DomainAgg) => DomainConserved(d)
  }

  ghost predicate Every<T(!new)>(m: map<string, T>, p: T -> bool) {
    forall k :: k in m ==> p(m[k])
  }

  // Nothing is counted twice or lost: domains split the endpoints, classes split the dead.
  ghost predicate Conserved(t: Totals) {
    && SplitByDomain(t.endpoints, t.live, t.domains)
    && t.endpoints == t.live + Dead(t.classes)
    && Every(t.domains, Balanced())
  }

  ghost predicate SplitByDomain(endpoints: nat, live: nat, domains: map<string, DomainAgg>) {
    && endpoints == SumOver(domains.Keys, TotalIn(domains))
    && live == SumOver(domains.Keys, LiveIn(domains))
  }

  lemma SumOverOneMore(keys: set<string>, k: string, f: string -> nat, g: string -> nat, extra: nat)
    requires forall j :: j != k ==> f(j) == g(j)
    requires g(k) == f(k) + extra
    requires k !in keys ==> f(k) == 0
    ensures SumOver(keys + {k}, g) == SumOver(keys, f) + extra
  {
    SumOverRemove(keys + {k}, k, g);
    SumOverCongruent(keys - {k}, f, g);
    assert keys + {k} - {k} == keys - {k};
    if k in keys {
      SumOverRemove(keys, k, f);
    } else {
      assert keys - {k} == keys;
    }
  }

  lemma BumpSum(m: map<string, nat>, k: string)
    ensures Dead(Bump(m, k)) == Dead(m) + 1
  {
    SumOverOneMore(m.Keys, k, TallyIn(m), TallyIn(Bump(m, k)), 1);
    assert Bump(m, k).Keys == m.Keys + {k};
  }

  lemma DomainStep(d: DomainAgg, r: Record)
    requires Balanced()(d)
    ensures Balanced()(AddToDomain(d, r))
  {
    if !r.passed {
      BumpSum(d.classes, r.failureClass);
    }
  }

  lemma EmptyConserved(d: DomainAgg)
    requires d.total == 0 && d.live == 0 && |d.classes.Keys| == 0
    ensures Balanced()(d)
  {
    SumOverEmpty(d.classes.Keys, TallyIn(d.classes));
  }

  lemma DomainAt(domains: map<string, DomainAgg>, d: string)
    requires Every(domains, Balanced())
    ensures Balanced()(DomainIn(domains, d))
  {
    if d !in domains {
      EmptyConserved(DomainIn(domains, d));
    }
  }

  lemma EveryUpdated<T(!new)>(m: map<string, T>, p: T -> bool, k: string, v: T)
    requires Every(m, p) && p(v)
    ensures Every(m[k := v], p)
  {
  }

  lemma EveryDomainStep(domains: map<string, DomainAgg>, r: Record)
    requires Every(domains, Balanced())
    ensures Every(domains[r.domain := AddToDomain(DomainIn(domains, r.domain), r)], Balanced())
  {
    DomainAt(domains, r.domain);
    DomainStep(DomainIn(domains, r.domain), r);
    EveryUpdated(domains, Balanced(), r.domain, AddToDomain(DomainIn(domains, r.domain), r));
  }

  lemma DomainsStep(endpoints: nat, live: nat, domains: map<string, DomainAgg>, r: Record)
    requires SplitByDomain(endpoints, live, domains)
    ensures SplitByDomain(
      endpoints + 1, if r.passed then live + 1 else live,
      domains[r.domain := AddToDomain(DomainIn(domains, r.domain), r)])
  {
    var m := domains[r.domain := AddToDomain(DomainIn(domains, r.domain), r)];
    SumOverOneMore(domains.Keys, r.domain, TotalIn(domains), TotalIn(m), 1);
    SumOverOneMore(domains.Keys, r.domain, LiveIn(domains), LiveIn(m), if r.passed then 1 else 0);
    assert m.Keys == domains.Keys + {r.domain};
  }

  lemma ClassesStep(classes: map<string, nat>, r: Record)
    ensures Dead(if r.passed then classes else Bump(classes, r.failureClass)) == Dead(classes) + (if r.passed then 0 else 1)
  {
    if !r.passed {
      BumpSum(classes, r.failureClass);
    }
  }

  lemma {:induction false} MeasuredConserves(t: Totals, r: Record)
    requires Conserved(t)
    ensures Conserved(AddMeasured(t, r))
  {
    DomainsStep(t.endpoints, t.live, t.domains, r);
    EveryDomainStep(t.domains, r);
    ClassesStep(t.classes, r);
  }

  lemma NothingConserved()
    ensures Conserved(NO_TOTALS)
  {
    var t := NO_TOTALS;
    SumOverEmpty(t.domains.Keys, TotalIn(t.domains));
    SumOverEmpty(t.domains.Keys, LiveIn(t.domains));
    SumOverEmpty(t.classes.Keys, TallyIn(t.classes));
  }

  lemma RecordConserves(t: Totals, r: Record)
    requires Conserved(t)
    ensures Conserved(AddRecord(t, r))
  {
    if Measured(r) {
      MeasuredConserves(t, r);
    }
  }

  lemma {:induction false} AggregateConserves(rs: seq<Record>)
    ensures Conserved(AggregateOf(rs))
  {
    if rs == [] {
      NothingConserved();
    } else {
      AggregateConserves(rs[..|rs| - 1]);
      RecordConserves(AggregateOf(rs[..|rs| - 1]), rs[|rs| - 1]);
    }
  }
}
