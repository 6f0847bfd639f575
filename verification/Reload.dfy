// Closing the loop: probing the registry after a removal has been merged.
module Reload {
  import opened Options
  import opened Seqs
  import opened Registry
  import opened Probing
  import opened Dedup
  import opened State
  import opened Update
  import opened Schedule
  import opened PrFlow
  import opened EditChain

  // ---------------------------------------------------------------- internal/registry/chain.go

  function EndpointsOf(entries: seq<Entry>): seq<Endpoint> {
    if entries == [] then [] else [entries[0].endpoint] + EndpointsOf(entries[1..])
  }

  function ListUnder(apis: Apis, category: string): seq<Endpoint> {
    if category in apis then EndpointsOf(apis[category]) else []
  }

  function Category(t: EndpointType): string {
    match t
    case RPC => "rpc"
    case REST => "rest"
    case GRPCWeb => "grpc-web"
    case GRPC => "grpc"
    case EVM => "evm-http-jsonrpc"
    case WSS => "wss"
  }

  function LoadChain(name: string, chainId: string, chainType: string, apis: Apis): Chain {
    Chain(name, chainId, chainType,
      ListUnder(apis, "rpc"), ListUnder(apis, "rest"), ListUnder(apis, "grpc-web"),
      ListUnder(apis, "grpc"), ListUnder(apis, "evm-http-jsonrpc"), ListUnder(apis, "wss"))
  }

  lemma ListedIsListUnder(name: string, chainId: string, chainType: string, apis: Apis, t: EndpointType)
    ensures Listed(LoadChain(name, chainId, chainType, apis), t) == ListUnder(apis, Category(t))
  {
  }

  // Check names and apis categories correspond one to one.
  lemma CategoryOfCheck(t: EndpointType, check: string)
    ensures CheckCategory(check) == Some(Category(t)) <==> check == t.LivenessCheck()
    ensures '|' !in Category(t)
  {
    var c := Category(t);
    match t
    case RPC =>
      assert c != "rest" by { assert c[1] == 'p'; }
      assert |c| == 3 && c[0] == 'r';
    case REST => assert |c| == 4 && c[0] == 'r';
    case GRPCWeb => assert |c| == 8;
    case GRPC => assert |c| == 4 && c[0] == 'g';
    case EVM => assert |c| == 16;
    case WSS => assert |c| == 3 && c[0] == 'w';
  }

  // ---------------------------------------------------------------- declared endpoints in order

  datatype Slot = Slot(kind: EndpointType, endpoint: Endpoint)

  function PairOfSlot(s: Slot): Pair {
    Pair(s.kind, s.endpoint.address)
  }

  function SlotsOf(js: seq<Job>): seq<Slot> {
    if js == [] then [] else SlotsOf(js[..|js| - 1]) + [Slot(js[|js| - 1].kind, js[|js| - 1].endpoint)]
  }

  function PairsIn(ss: seq<Slot>): set<Pair> {
    set s | s in ss :: PairOfSlot(s)
  }

  function FirstSlots(ss: seq<Slot>): seq<Slot> {
    if ss == [] then []
    else
      var before, last := ss[..|ss| - 1], ss[|ss| - 1];
      if PairOfSlot(last) in PairsIn(before) then FirstSlots(before) else FirstSlots(before) + [last]
  }

  lemma {:induction false} SlotsAppend(a: seq<Job>, b: seq<Job>)
    ensures SlotsOf(a + b) == SlotsOf(a) + SlotsOf(b)
  {
    if b == [] {
      assert a + b == a;
    } else {
      assert (a + b)[..|a + b| - 1] == a + b[..|b| - 1];
      SlotsAppend(a, b[..|b| - 1]);
    }
  }

  lemma {:induction false} SlotPairs(js: seq<Job>)
    ensures PairsIn(SlotsOf(js)) == PairsOf(js)
  {
    if js != [] {
      var before, last := js[..|js| - 1], js[|js| - 1];
      SlotPairs(before);
      assert js == before + [last];
      PairsOfSnoc(before, last);
      PairsInSnoc(SlotsOf(before), Slot(last.kind, last.endpoint));
    }
  }

  lemma PairsInSnoc(ss: seq<Slot>, s: Slot)
    ensures PairsIn(ss + [s]) == PairsIn(ss) + {PairOfSlot(s)}
  {
  }

  lemma SlotsSnoc(js: seq<Job>, j: Job)
    ensures SlotsOf(js + [j]) == SlotsOf(js) + [Slot(j.kind, j.endpoint)]
  {
    assert (js + [j])[..|js|] == js;
  }

  lemma FirstSlotsSnoc(ss: seq<Slot>, s: Slot)
    ensures FirstSlots(ss + [s]) == if PairOfSlot(s) in PairsIn(ss) then FirstSlots(ss) else FirstSlots(ss) + [s]
  {
    assert (ss + [s])[..|ss|] == ss;
  }

  // Deduplicating jobs is deduplicating the slots they stand for.
  lemma {:induction false} DedupOnSlots(js: seq<Job>)
    ensures SlotsOf(FirstOccurrences(js)) == FirstSlots(SlotsOf(js))
  {
    if js != [] {
      var before, last := js[..|js| - 1], js[|js| - 1];
      DedupOnSlots(before);
      SlotPairs(before);
      FirstSlotsSnoc(SlotsOf(before), Slot(last.kind, last.endpoint));
      SlotsSnoc(FirstOccurrences(before), last);
      assert FirstOccurrences(before) + [] == FirstOccurrences(before);
    }
  }

  // Dropping pairs and deduplicating commute: an address goes with all its occurrences.
  lemma {:induction false} DedupCommutes(ss: seq<Slot>, keep: Slot -> bool)
    requires forall s, s' :: PairOfSlot(s) == PairOfSlot(s') ==> keep(s) == keep(s')
    ensures FirstSlots(Filter(ss, keep)) == Filter(FirstSlots(ss), keep)
  {
    if ss != [] {
      var before, last := ss[..|ss| - 1], ss[|ss| - 1];
      assert ss == before + [last];
      DedupCommutes(before, keep);
      FilterSnoc(before, last, keep);
      FilterSnoc(FirstSlots(before), last, keep);
      if keep(last) {
        var f := Filter(before, keep);
        assert (f + [last])[..|f + [last]| - 1] == f;
        KeptPairs(before, keep, last);
      } else {
        assert Filter(ss, keep) == Filter(before, keep);
      }
    }
  }

  lemma KeptPairs(ss: seq<Slot>, keep: Slot -> bool, s: Slot)
    requires forall x, y :: PairOfSlot(x) == PairOfSlot(y) ==> keep(x) == keep(y)
    requires keep(s)
    ensures PairOfSlot(s) in PairsIn(Filter(ss, keep)) <==> PairOfSlot(s) in PairsIn(ss)
  {
    if PairOfSlot(s) in PairsIn(ss) {
      var x :| x in ss && PairOfSlot(x) == PairOfSlot(s);
      assert x in Filter(ss, keep);
    }
  }

  // ---------------------------------------------------------------- the edited chain

  ghost predicate Removes(dead: seq<Flagged>, p: Pair) {
    exists f :: f in dead && f.check == p.kind.LivenessCheck() && f.address == p.address
  }

  ghost function Remaining(dead: seq<Flagged>): Slot -> bool {
    (s: Slot) => !Removes(dead, PairOfSlot(s))
  }

  lemma SparedIsRemaining(dead: seq<Flagged>, t: EndpointType, e: Entry)
    ensures Spared(Category(t), DeadKeys(dead))(e) <==> Remaining(dead)(Slot(t, e.endpoint))
  {
    CategoryOfCheck(t, "");
    KeyMeansPair(dead, Category(t), e.endpoint.address);
    if IsDeadPair(dead, Category(t), e.endpoint.address) {
      var f :| f in dead && CheckCategory(f.check) == Some(Category(t)) && f.address == e.endpoint.address;
      CategoryOfCheck(t, f.check);
    }
    if Removes(dead, Pair(t, e.endpoint.address)) {
      CategoryOfCheck(t, t.LivenessCheck());
    }
  }

  function SlotList(eps: seq<Endpoint>, t: EndpointType): seq<Slot> {
    if eps == [] then [] else [Slot(t, eps[0])] + SlotList(eps[1..], t)
  }

  lemma {:induction false} SlotListSnoc(eps: seq<Endpoint>, e: Endpoint, t: EndpointType)
    ensures SlotList(eps + [e], t) == SlotList(eps, t) + [Slot(t, e)]
  {
    if eps == [] {
      assert [] + [e] == [e];
    } else {
      assert (eps + [e])[1..] == eps[1..] + [e];
      SlotListSnoc(eps[1..], e, t);
    }
  }

  lemma {:induction false} ListJobsSlots(ch: Chain, eps: seq<Endpoint>, t: EndpointType, n: nat)
    requires n <= |eps|
    ensures SlotsOf(ListJobs(ch, eps, t, n)) == SlotList(eps[..n], t)
  {
    if n > 0 {
      ListJobsSlots(ch, eps, t, n - 1);
      var before := ListJobs(ch, eps, t, n - 1);
      assert ListJobs(ch, eps, t, n)[..|ListJobs(ch, eps, t, n)| - 1] == before;
      assert eps[..n] == eps[..n - 1] + [eps[n - 1]];
      SlotListSnoc(eps[..n - 1], eps[n - 1], t);
    }
  }

  lemma {:induction false} EditedSlots(entries: seq<Entry>, t: EndpointType, dead: seq<Flagged>)
    ensures SlotList(EndpointsOf(Filter(entries, Spared(Category(t), DeadKeys(dead)))), t)
         == Filter(SlotList(EndpointsOf(entries), t), Remaining(dead))
  {
    if entries != [] {
      EditedSlots(entries[1..], t, dead);
      SparedIsRemaining(dead, t, entries[0]);
      assert EndpointsOf(entries)[1..] == EndpointsOf(entries[1..]);
      var kept := Filter(entries[1..], Spared(Category(t), DeadKeys(dead)));
      assert [] + kept == kept;
      assert EndpointsOf([entries[0]] + kept) == [entries[0].endpoint] + EndpointsOf(kept);
      assert ([entries[0].endpoint] + EndpointsOf(kept))[1..] == EndpointsOf(kept);
    }
  }

  lemma ListAfterEdit(before: Chain, after: Chain, apis: Apis, dead: seq<Flagged>, t: EndpointType)
    requires Listed(before, t) == ListUnder(apis, Category(t))
    requires Listed(after, t) == ListUnder(Edited(apis, DeadKeys(dead)), Category(t))
    ensures SlotsOf(WholeList(after, t)) == Filter(SlotsOf(WholeList(before, t)), Remaining(dead))
  {
    ListJobsSlots(before, Listed(before, t), t, |Listed(before, t)|);
    ListJobsSlots(after, Listed(after, t), t, |Listed(after, t)|);
    assert Listed(before, t)[..|Listed(before, t)|] == Listed(before, t);
    assert Listed(after, t)[..|Listed(after, t)|] == Listed(after, t);
    if Category(t) in apis {
      EditedSlots(apis[Category(t)], t, dead);
    }
  }

  lemma {:induction false} DeclaredAfterEdit(before: Chain, after: Chain, apis: Apis, dead: seq<Flagged>, types: seq<EndpointType>)
    requires forall t :: Listed(before, t) == ListUnder(apis, Category(t))
    requires forall t :: Listed(after, t) == ListUnder(Edited(apis, DeadKeys(dead)), Category(t))
    ensures SlotsOf(DeclaredIn(after, types)) == Filter(SlotsOf(DeclaredIn(before, types)), Remaining(dead))
  {
    if types != [] {
      var init, t := types[..|types| - 1], types[|types| - 1];
      DeclaredAfterEdit(before, after, apis, dead, init);
      ListAfterEdit(before, after, apis, dead, t);
      SlotsAppend(DeclaredIn(before, init), WholeList(before, t));
      SlotsAppend(DeclaredIn(after, init), WholeList(after, t));
      FilterAppend(SlotsOf(DeclaredIn(before, init)), SlotsOf(WholeList(before, t)), Remaining(dead));
    }
  }

  // What buildJobs probes after the edit: what it probed before, minus the removed pairs, in the
  // same order -- duplicates in one list and addresses shared between protocols included.
  lemma EditThenReload(name: string, chainId: string, chainType: string, apis: Apis, dead: seq<Flagged>)
    ensures
      var before := LoadChain(name, chainId, chainType, apis);
      var after := LoadChain(name, chainId, chainType, Edited(apis, DeadKeys(dead)));
      SlotsOf(ChainJobs(after)) == Filter(SlotsOf(ChainJobs(before)), Remaining(dead))
  {
    var before := LoadChain(name, chainId, chainType, apis);
    var after := LoadChain(name, chainId, chainType, Edited(apis, DeadKeys(dead)));
    forall t ensures Listed(before, t) == ListUnder(apis, Category(t)) && Listed(after, t) == ListUnder(Edited(apis, DeadKeys(dead)), Category(t)) {
      ListedIsListUnder(name, chainId, chainType, apis, t);
      ListedIsListUnder(name, chainId, chainType, Edited(apis, DeadKeys(dead)), t);
    }
    assert ProbedTypes(before) == ProbedTypes(after);
    DeclaredAfterEdit(before, after, apis, dead, ProbedTypes(before));
    DedupOnSlots(Declared(before));
    DedupOnSlots(Declared(after));
    DedupCommutes(SlotsOf(Declared(before)), Remaining(dead));
  }

  // ---------------------------------------------------------------- the next run's Prune

  function RemovedKeys(dead: seq<Flagged>): set<string> {
    set f | f in dead && CheckCategory(f.check).Some? :: KeyOfFlag(f)
  }

  function PairKey(p: Pair): string {
    EndpointKey(p.kind.LivenessCheck(), p.address)
  }

  lemma KnownChecks(check: string)
    ensures CheckCategory(check).Some? <==> exists t: EndpointType :: check == t.LivenessCheck()
  {
    if CheckCategory(check).Some? {
      assert check == RPC.LivenessCheck() || check == REST.LivenessCheck() || check == GRPC.LivenessCheck()
        || check == GRPCWeb.LivenessCheck() || check == EVM.LivenessCheck() || check == WSS.LivenessCheck();
    }
    if t: EndpointType :| check == t.LivenessCheck() {
      CategoryOfCheck(t, check);
    }
  }

  lemma RemovedKeyMeansPair(dead: seq<Flagged>, p: Pair)
    ensures PairKey(p) in RemovedKeys(dead) <==> Removes(dead, p)
  {
    if PairKey(p) in RemovedKeys(dead) {
      var f :| f in dead && CheckCategory(f.check).Some? && KeyOfFlag(f) == PairKey(p);
      KnownChecks(f.check);
      var t: EndpointType :| f.check == t.LivenessCheck();
      NamesAreInjective(t, p.kind);
      NamesAreInjective(p.kind, t);
      EndpointKeyInjective(f.check, f.address, p.kind.LivenessCheck(), p.address);
    }
    if Removes(dead, p) {
      var f :| f in dead && f.check == p.kind.LivenessCheck() && f.address == p.address;
      KnownChecks(f.check);
    }
  }

  function KeysOfPairs(ps: set<Pair>): set<string> {
    set p | p in ps :: PairKey(p)
  }

  lemma KeysAreChainJobs(chains: seq<Chain>, ch: Chain)
    requires DistinctNames(chains) && ch in chains
    ensures JobKeysOf(AllJobs(chains), ch.name) == KeysOfPairs(PairsIn(SlotsOf(ChainJobs(ch))))
  {
    AllJobsMembers(chains);
    SlotPairs(ChainJobs(ch));
    forall j | j in AllJobs(chains) && j.chain.name == ch.name ensures j in ChainJobs(ch) {
      var other :| other in chains && j in ChainJobs(other);
      ExactDedup(other);
    }
    ExactDedup(ch);
    assert forall j :: j in ChainJobs(ch) ==> JobKey(j) == PairKey(PairOf(j));
  }

  lemma FilteredPairs(ss: seq<Slot>, dead: seq<Flagged>)
    ensures forall p :: p in PairsIn(Filter(ss, Remaining(dead))) <==> p in PairsIn(ss) && !Removes(dead, p)
  {
    forall p | p in PairsIn(ss) && !Removes(dead, p) ensures p in PairsIn(Filter(ss, Remaining(dead))) {
      var s :| s in ss && PairOfSlot(s) == p;
      assert s in Filter(ss, Remaining(dead));
    }
  }

  lemma RemainingKeys(before: set<Pair>, after: set<Pair>, dead: seq<Flagged>)
    requires forall p :: p in after <==> p in before && !Removes(dead, p)
    ensures KeysOfPairs(after) == KeysOfPairs(before) - RemovedKeys(dead)
  {
    forall p ensures PairKey(p) in RemovedKeys(dead) <==> Removes(dead, p) {
      RemovedKeyMeansPair(dead, p);
    }
  }

  // The state keys of the edited chain's jobs: the old ones minus the removed.
  lemma KeysAfterEdit(chains: seq<Chain>, i: nat, name: string, chainId: string, chainType: string, apis: Apis, dead: seq<Flagged>)
    requires DistinctNames(chains) && i < |chains| && chains[i] == LoadChain(name, chainId, chainType, apis)
    ensures
      var after := chains[i := LoadChain(name, chainId, chainType, Edited(apis, DeadKeys(dead)))];
      JobKeysOf(AllJobs(after), name) == JobKeysOf(AllJobs(chains), name) - RemovedKeys(dead)
  {
    var edited := LoadChain(name, chainId, chainType, Edited(apis, DeadKeys(dead)));
    var after := chains[i := edited];
    assert chains[i] in chains && after[i] in after;
    EditThenReload(name, chainId, chainType, apis, dead);
    KeysAreChainJobs(chains, chains[i]);
    KeysAreChainJobs(after, edited);
    FilteredPairs(SlotsOf(ChainJobs(chains[i])), dead);
    RemainingKeys(PairsIn(SlotsOf(ChainJobs(chains[i]))), PairsIn(SlotsOf(ChainJobs(edited))), dead);
  }

  // With the merged edit, the next run's Prune forgets exactly the removed keys of that chain.
  lemma PruneDropsWhatWasRemoved(
    chains: seq<Chain>, i: nat, name: string, chainId: string, chainType: string, apis: Apis, dead: seq<Flagged>, rec: ChainRecord)
    requires DistinctNames(chains) && i < |chains| && chains[i] == LoadChain(name, chainId, chainType, apis)
    requires rec.endpoints.Keys <= JobKeysOf(AllJobs(chains), name)
    ensures
      var after := chains[i := LoadChain(name, chainId, chainType, Edited(apis, DeadKeys(dead)))];
      Pruned(rec, JobKeysOf(AllJobs(after), name)).endpoints == rec.endpoints - RemovedKeys(dead)
  {
    KeysAfterEdit(chains, i, name, chainId, chainType, apis, dead);
  }
}
