// What buildJobs promises: an exact first-occurrence deduplication of the declared endpoints.
module Dedup {
  import opened Registry
  import opened Probing

  ghost predicate DistinctPairs(js: seq<Job>) {
    forall i, k :: 0 <= i < k < |js| ==> PairOf(js[i]) != PairOf(js[k])
  }

  // List positions strictly increase within each endpoint type.
  ghost predicate Ordered(js: seq<Job>) {
    forall i, k :: 0 <= i < k < |js| && js[i].kind == js[k].kind ==> js[i].order < js[k].order
  }

  ghost predicate DeclaredAt(ch: Chain, p: Pair, i: nat) {
    p.kind in ProbedTypes(ch) && i < |Listed(ch, p.kind)| && Listed(ch, p.kind)[i].address == p.address
  }

  ghost predicate EntryOf(ch: Chain, types: seq<EndpointType>, j: Job) {
    && j.chain == ch && j.kind in types
    && 1 <= j.order <= |Listed(ch, j.kind)| && j.endpoint == Listed(ch, j.kind)[j.order - 1]
  }

  lemma PairsOfSnoc(js: seq<Job>, j: Job)
    ensures PairsOf(js + [j]) == PairsOf(js) + {PairOf(j)}
  {
  }

  lemma OneMoreDistinct(r: seq<Job>, last: Job)
    requires DistinctPairs(r) && PairOf(last) !in PairsOf(r)
    ensures DistinctPairs(r + [last])
  {
    forall i | 0 <= i < |r| ensures PairOf(r[i]) != PairOf(last) {
      assert r[i] in r;
    }
  }

  lemma {:induction false} FirstOccurrencesShape(js: seq<Job>)
    ensures DistinctPairs(FirstOccurrences(js))
    ensures PairsOf(FirstOccurrences(js)) == PairsOf(js)
  {
    if js != [] {
      var before, last := js[..|js| - 1], js[|js| - 1];
      FirstOccurrencesShape(before);
      DeclareOne(before, last);
      assert js == before + [last];
      if PairOf(last) !in PairsOf(before) {
        OneMoreDistinct(FirstOccurrences(before), last);
        PairsOfSnoc(FirstOccurrences(before), last);
      }
    }
  }

  lemma {:induction false} FirstOccurrencesOrdered(js: seq<Job>)
    ensures forall j :: j in FirstOccurrences(js) ==> j in js
    ensures Ordered(js) ==> Ordered(FirstOccurrences(js))
  {
    if js != [] {
      var before, last := js[..|js| - 1], js[|js| - 1];
      var r := FirstOccurrences(before);
      FirstOccurrencesOrdered(before);
      if Ordered(js) {
        forall i | 0 <= i < |r| && r[i].kind == last.kind ensures r[i].order < last.order {
          assert r[i] in before;
        }
      }
    }
  }

  lemma {:induction false} KeptIsFirst(js: seq<Job>, j: Job) returns (i: nat)
    requires j in FirstOccurrences(js)
    ensures i < |js| && js[i] == j
    ensures forall k :: 0 <= k < i ==> PairOf(js[k]) != PairOf(j)
  {
    var before, last := js[..|js| - 1], js[|js| - 1];
    if j in FirstOccurrences(before) {
      i := KeptIsFirst(before, j);
    } else {
      i := |js| - 1;
      forall k | 0 <= k < i ensures PairOf(js[k]) != PairOf(j) {
        assert before[k] in before;
      }
    }
  }

  lemma {:induction false} ListJobsAt(ch: Chain, eps: seq<Endpoint>, t: EndpointType, n: nat)
    requires n <= |eps|
    ensures |ListJobs(ch, eps, t, n)| == n
    ensures forall i :: 0 <= i < n ==> ListJobs(ch, eps, t, n)[i] == Job(ch, eps[i], t, i + 1)
  {
    if n > 0 {
      ListJobsAt(ch, eps, t, n - 1);
    }
  }

  lemma {:induction false} DeclaredInShape(ch: Chain, types: seq<EndpointType>)
    requires forall i, k :: 0 <= i < k < |types| ==> types[i] != types[k]
    ensures Ordered(DeclaredIn(ch, types))
    ensures forall j :: j in DeclaredIn(ch, types) <==> EntryOf(ch, types, j)
  {
    if types != [] {
      var n := |types| - 1;
      var t := types[n];
      DeclaredInShape(ch, types[..n]);
      ListJobsAt(ch, Listed(ch, t), t, |Listed(ch, t)|);
      assert t !in types[..n];
      var a, b := DeclaredIn(ch, types[..n]), WholeList(ch, t);
      forall j: Job ensures j in a + b <==> EntryOf(ch, types, j) {
        assert j in a + b <==> j in a || j in b;
        assert j.kind in types <==> j.kind in types[..n] || j.kind == t;
        if j.kind == t && 1 <= j.order <= |b| {
          assert b[j.order - 1].order == j.order;
        }
      }
      forall i | 0 <= i < |a| ensures a[i].kind != t {
        assert a[i] in a;
      }
      OrderedConcat(a, b, t);
    }
  }

  lemma OrderedConcat(a: seq<Job>, b: seq<Job>, t: EndpointType)
    requires Ordered(a) && Ordered(b)
    requires forall i :: 0 <= i < |a| ==> a[i].kind != t
    requires forall i :: 0 <= i < |b| ==> b[i].kind == t
    ensures Ordered(a + b)
  {
  }

  lemma TypesDistinct(ch: Chain)
    ensures forall i, k :: 0 <= i < k < |ProbedTypes(ch)| ==> ProbedTypes(ch)[i] != ProbedTypes(ch)[k]
  {
  }

  lemma DeclaredMeans(ch: Chain)
    ensures Ordered(Declared(ch))
    ensures forall j :: j in Declared(ch) <==> EntryOf(ch, ProbedTypes(ch), j)
  {
    TypesDistinct(ch);
    DeclaredInShape(ch, ProbedTypes(ch));
  }

  lemma KeptAreEntries(ch: Chain, j: Job)
    requires j in ChainJobs(ch)
    ensures EntryOf(ch, ProbedTypes(ch), j)
  {
    DeclaredMeans(ch);
    FirstOccurrencesOrdered(Declared(ch));
  }

  lemma DeclaredPairIsKept(ch: Chain, p: Pair, i: nat)
    requires DeclaredAt(ch, p, i)
    ensures p in PairsOf(ChainJobs(ch))
  {
    DeclaredMeans(ch);
    FirstOccurrencesShape(Declared(ch));
    var j := Job(ch, Listed(ch, p.kind)[i], p.kind, i + 1);
    assert j in Declared(ch) && PairOf(j) == p;
  }

  lemma KeptPairIsDeclared(ch: Chain, p: Pair) returns (i: nat)
    requires p in PairsOf(ChainJobs(ch))
    ensures DeclaredAt(ch, p, i)
  {
    var j :| j in ChainJobs(ch) && PairOf(j) == p;
    KeptAreEntries(ch, j);
    i := j.order - 1;
  }

  lemma PairsAreDeclared(ch: Chain, p: Pair)
    ensures p in PairsOf(ChainJobs(ch)) <==> exists i: nat :: DeclaredAt(ch, p, i)
  {
    if i: nat :| DeclaredAt(ch, p, i) {
      DeclaredPairIsKept(ch, p, i);
    }
    if p in PairsOf(ChainJobs(ch)) {
      var i := KeptPairIsDeclared(ch, p);
    }
  }

  // The jobs of one chain: distinct pairs, covering exactly the declared pairs of that chain's
  // type; each carries the 1-based position of the pair's first occurrence; positions increase.
  lemma ExactDedup(ch: Chain)
    ensures DistinctPairs(ChainJobs(ch))
    ensures Ordered(ChainJobs(ch))
    ensures forall p :: p in PairsOf(ChainJobs(ch)) <==> exists i: nat :: DeclaredAt(ch, p, i)
    ensures forall j :: j in ChainJobs(ch) ==> j.chain == ch
    ensures forall j :: j in ChainJobs(ch) ==>
      j.order >= 1 && DeclaredAt(ch, PairOf(j), j.order - 1) && Listed(ch, j.kind)[j.order - 1] == j.endpoint
    ensures forall j, i: nat :: j in ChainJobs(ch) && DeclaredAt(ch, PairOf(j), i) ==> j.order - 1 <= i
  {
    DeclaredMeans(ch);
    FirstOccurrencesShape(Declared(ch));
    FirstOccurrencesOrdered(Declared(ch));
    forall p ensures p in PairsOf(ChainJobs(ch)) <==> exists i: nat :: DeclaredAt(ch, p, i) {
      PairsAreDeclared(ch, p);
    }
    forall j | j in ChainJobs(ch) ensures EntryOf(ch, ProbedTypes(ch), j) {
      KeptAreEntries(ch, j);
    }
    forall j, i: nat | j in ChainJobs(ch) && DeclaredAt(ch, PairOf(j), i) ensures j.order - 1 <= i {
      FirstPosition(ch, j, i);
    }
  }

  ghost predicate Declares(eps: seq<Endpoint>, address: string) {
    exists i :: 0 <= i < |eps| && eps[i].address == address
  }

  lemma DeclaredIsListed(ch: Chain, t: EndpointType, address: string)
    ensures Pair(t, address) in PairsOf(ChainJobs(ch)) <==> t in ProbedTypes(ch) && Declares(Listed(ch, t), address)
  {
    PairsAreDeclared(ch, Pair(t, address));
    if t in ProbedTypes(ch) && Declares(Listed(ch, t), address) {
      var i: nat :| i < |Listed(ch, t)| && Listed(ch, t)[i].address == address;
      assert DeclaredAt(ch, Pair(t, address), i);
    }
  }

  // What is probed of a chain: all six lists of a cosmos chain, the EVM list of an eip155 chain.
  lemma ProbedByType(ch: Chain, address: string)
    ensures var cosmos, pairs := ch.chainType == "cosmos", PairsOf(ChainJobs(ch));
      && (Pair(RPC, address) in pairs <==> cosmos && Declares(ch.rpcs, address))
      && (Pair(REST, address) in pairs <==> cosmos && Declares(ch.rest, address))
      && (Pair(GRPCWeb, address) in pairs <==> cosmos && Declares(ch.grpcWeb, address))
      && (Pair(GRPC, address) in pairs <==> cosmos && Declares(ch.grpc, address))
      && (Pair(WSS, address) in pairs <==> cosmos && Declares(ch.wss, address))
      && (Pair(EVM, address) in pairs <==> (cosmos || ch.chainType == "eip155") && Declares(ch.evm, address))
  {
    forall t: EndpointType ensures Pair(t, address) in PairsOf(ChainJobs(ch)) <==> t in ProbedTypes(ch) && Declares(Listed(ch, t), address) {
      DeclaredIsListed(ch, t, address);
    }
    TypesByChain(ch);
  }

  lemma TypesByChain(ch: Chain)
    ensures forall t: EndpointType :: t in ProbedTypes(ch) <==>
      ch.chainType == "cosmos" || (ch.chainType == "eip155" && t == EVM)
  {
    var types := ProbedTypes(ch);
    if ch.chainType == "cosmos" {
      forall t: EndpointType ensures t in types {
        match t
        case RPC => assert types[0] == t;
        case REST => assert types[1] == t;
        case GRPCWeb => assert types[2] == t;
        case GRPC => assert types[3] == t;
        case WSS => assert types[4] == t;
        case EVM => assert types[5] == t;
      }
    }
  }

  lemma FirstPosition(ch: Chain, j: Job, i: nat)
    requires j in ChainJobs(ch) && DeclaredAt(ch, PairOf(j), i)
    ensures j.order - 1 <= i
  {
    DeclaredMeans(ch);
    var at := KeptIsFirst(Declared(ch), j);
    var k := Job(ch, Listed(ch, j.kind)[i], j.kind, i + 1);
    assert k in Declared(ch);
    var ka :| 0 <= ka < |Declared(ch)| && Declared(ch)[ka] == k;
  }

  // ------------------------------------------------------------ the whole job list

  lemma {:induction false} AllJobsMembers(chains: seq<Chain>)
    ensures forall j :: j in AllJobs(chains) <==> exists ch :: ch in chains && j in ChainJobs(ch)
  {
    if chains != [] {
      var n := |chains| - 1;
      AllJobsMembers(chains[..n]);
      assert forall ch :: ch in chains <==> ch in chains[..n] || ch == chains[n];
    }
  }

  // The state keys of a run's jobs are pairwise distinct: this is what keeps one run from adding
  // more than one observation to a streak.
  lemma {:induction false} AllJobsDistinct(chains: seq<Chain>)
    requires DistinctNames(chains)
    ensures forall i, k :: 0 <= i < k < |AllJobs(chains)| ==>
      AllJobs(chains)[i].chain.name != AllJobs(chains)[k].chain.name || PairOf(AllJobs(chains)[i]) != PairOf(AllJobs(chains)[k])
  {
    if chains != [] {
      var n := |chains| - 1;
      var a, b := AllJobs(chains[..n]), ChainJobs(chains[n]);
      AllJobsDistinct(chains[..n]);
      AllJobsMembers(chains[..n]);
      ExactDedup(chains[n]);
      forall j | j in a ensures j.chain.name != chains[n].name {
        var ch :| ch in chains[..n] && j in ChainJobs(ch);
        ExactDedup(ch);
      }
      forall i, k | 0 <= i < k < |a + b|
        ensures (a + b)[i].chain.name != (a + b)[k].chain.name || PairOf((a + b)[i]) != PairOf((a + b)[k])
      {
        if i < |a| <= k {
          assert (a + b)[i] in a && (a + b)[k] in b;
        }
      }
    }
  }
}
