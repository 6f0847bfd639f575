// The shares of the worst domains, in terms of the records.
module Shares {
  import opened Seqs
  import opened Percentages
  import opened Checks
  import opened Records
  import opened Aggregation
  import Meaning = ReportMeaning
  import Concentration

  function DeadOn(domains: set<string>): Record -> bool {
    (r: Record) => IsLiveness(r.check) && !r.skipped && !r.passed && r.domain in domains
  }

  function DeadAtAll(): Record -> bool {
    (r: Record) => IsLiveness(r.check) && !r.skipped && !r.passed
  }

  lemma TotalSplits(rs: seq<Record>, d: string)
    ensures Count(rs, Meaning.CountedBy(Meaning.DomainTotal(d)))
         == Count(rs, Meaning.CountedBy(Meaning.DomainLive(d))) + Count(rs, DeadOn({d}))
  {
    CountSplit(rs, Meaning.CountedBy(Meaning.DomainTotal(d)), Meaning.CountedBy(Meaning.DomainLive(d)), DeadOn({d}));
  }

  lemma DeadOnDomain(rs: seq<Record>, d: string)
    ensures Concentration.DeadIn(AggregateOf(rs))(d) == Count(rs, DeadOn({d}))
  {
    TotalSplits(rs, d);
    DomainNumbers(rs, d);
  }

  lemma DomainNumbers(rs: seq<Record>, d: string)
    ensures DomainFor(AggregateOf(rs), d).total == Count(rs, Meaning.CountedBy(Meaning.DomainTotal(d)))
    ensures DomainFor(AggregateOf(rs), d).live == Count(rs, Meaning.CountedBy(Meaning.DomainLive(d)))
  {
    Meaning.FigureMeans(rs, Meaning.DomainTotal(d));
    Meaning.FigureMeans(rs, Meaning.DomainLive(d));
  }

  lemma {:induction false} DeadOnDomains(rs: seq<Record>, domains: set<string>)
    ensures SumOver(domains, Concentration.DeadIn(AggregateOf(rs))) == Count(rs, DeadOn(domains))
  {
    if |domains| == 0 {
      SumOverEmpty(domains, Concentration.DeadIn(AggregateOf(rs)));
      CountPositive(rs, DeadOn(domains));
    } else {
      var d :| d in domains;
      SumOverRemove(domains, d, Concentration.DeadIn(AggregateOf(rs)));
      DeadOnDomains(rs, domains - {d});
      DeadOnDomain(rs, d);
      CountSplit(rs, DeadOn(domains), DeadOn({d}), DeadOn(domains - {d}));
    }
  }

  lemma AllDead(rs: seq<Record>)
    ensures AggregateOf(rs).endpoints - AggregateOf(rs).live == Count(rs, DeadAtAll())
  {
    Meaning.FigureMeans(rs, Meaning.Endpoints);
    Meaning.FigureMeans(rs, Meaning.Live);
    CountSplit(rs, Meaning.CountedBy(Meaning.Endpoints), Meaning.CountedBy(Meaning.Live), DeadAtAll());
    assert Meaning.Read(AggregateOf(rs), Meaning.Endpoints) == AggregateOf(rs).endpoints;
    assert Meaning.Read(AggregateOf(rs), Meaning.Live) == AggregateOf(rs).live;
  }

  ghost predicate SomeDomains(rs: seq<Record>, s: set<string>, k: int) {
    s <= AggregateOf(rs).domains.Keys && |s| == k
  }

  // Some k domains have sum dead endpoints between them, and no k have more.
  ghost predicate IsMostDead(rs: seq<Record>, k: nat, sum: nat) {
    && (exists s :: SomeDomains(rs, s, k) && Count(rs, DeadOn(s)) == sum)
    && (forall s :: SomeDomains(rs, s, k) ==> Count(rs, DeadOn(s)) <= sum)
  }

  lemma MostDead(rs: seq<Record>, k: nat, sum: nat)
    requires Concentration.IsTopSum(AggregateOf(rs).domains.Keys, Concentration.DeadIn(AggregateOf(rs)), k, sum)
    ensures IsMostDead(rs, k, sum)
  {
    var all, key := AggregateOf(rs).domains.Keys, Concentration.DeadIn(AggregateOf(rs));
    var best :| best <= all && |best| == k && SumOver(best, key) == sum;
    DeadOnDomains(rs, best);
    assert SomeDomains(rs, best, k);
    forall s | SomeDomains(rs, s, k) ensures Count(rs, DeadOn(s)) <= sum {
      DeadOnDomains(rs, s);
    }
  }

  // A "top k" figure is the most dead endpoints any k domains have between them ...
  lemma ShareIsMost(rs: seq<Record>, share: Concentration.Share)
    requires Concentration.TopShare(AggregateOf(rs), share)
    ensures share.top >= 0 && IsMostDead(rs, share.top, share.dead)
  {
    MostDead(rs, share.top, share.dead);
  }

  // ... and its percentage is out of all dead endpoints.
  lemma ShareOfDead(rs: seq<Record>, share: Concentration.Share)
    requires Concentration.TopShare(AggregateOf(rs), share)
    ensures IsPercentage(share.percent, share.dead, Count(rs, DeadAtAll()))
  {
    AllDead(rs);
    PercentIsPercentage(share.dead, Count(rs, DeadAtAll()));
  }

  predicate IsPercentage(p: real, n: int, total: int) {
    total > 0 ==> p == 100.0 * (n as real) / (total as real)
  }

  lemma PercentIsPercentage(n: int, total: int)
    ensures IsPercentage(Percent(n, total), n, total)
  {
  }
}
