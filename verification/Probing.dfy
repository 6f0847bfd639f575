// cmd/sentinel/probe.go: from registry entries to probe jobs.
module Probing {
  import opened GoStrings
  import opened Registry
  import opened Checks

  datatype EndpointType = RPC | REST | GRPCWeb | GRPC | EVM | WSS {

    function Name(): string {
      match this
      case RPC => "rpc"
      case REST => "rest"
      case GRPCWeb => "grpc-web"
      case GRPC => "grpc"
      case EVM => "evm"
      case WSS => "wss"
    }

    function LivenessCheck(): string {
      match this
      case RPC => RPC_LIVENESS
      case REST => REST_LIVENESS
      case GRPCWeb => "grpc_web_liveness"
      case GRPC => "grpc_liveness"
      case EVM => EVM_LIVENESS
      case WSS => "wss_liveness"
    }

    function ChainIdCheck(): string {
      match this
      case RPC => "rpc_chain_id"
      case REST => "rest_chain_id"
      case GRPCWeb => "grpc_web_chain_id"
      case GRPC => "grpc_chain_id"
      case EVM => "evm_chain_id"
      case WSS => "wss_chain_id"
    }
  }

  lemma NamesAreInjective(s: EndpointType, t: EndpointType)
    ensures s.Name() == t.Name() ==> s == t
    ensures s.LivenessCheck() == t.LivenessCheck() ==> s == t
    ensures '|' !in s.Name() && '|' !in s.LivenessCheck()
  {
    var a, b := s.Name(), t.Name();
    var c, d := s.LivenessCheck(), t.LivenessCheck();
    if a == b {
      assert a[0] == b[0] && a[|a| - 1] == b[|b| - 1];
    }
    if c == d {
      assert c[0] == d[0] && c[1] == d[1];
    }
  }

  lemma SuffixEnds(s: string, suffix: string)
    requires suffix != "" && HasSuffix(s, suffix)
    ensures s[|s| - 1] == suffix[|suffix| - 1]
  {
    assert s[|s| - |suffix|..][|suffix| - 1] == s[|s| - 1];
  }

  lemma CheckKinds(t: EndpointType)
    ensures IsLiveness(t.LivenessCheck()) && !IsLiveness(t.ChainIdCheck())
    ensures !HasSuffix(t.LivenessCheck(), "_chain_id")
  {
    var live, id := t.LivenessCheck(), t.ChainIdCheck();
    assert live[|live| - 9..] == "_liveness";
    assert live[|live| - 1] == 's' && id[|id| - 1] == 'd';
    assert "_liveness"[8] == 's' && "_chain_id"[8] == 'd';
    if HasSuffix(id, "_liveness") {
      SuffixEnds(id, "_liveness");
    }
    if HasSuffix(live, "_chain_id") {
      SuffixEnds(live, "_chain_id");
    }
  }

  datatype Job = Job(chain: Chain, endpoint: Endpoint, kind: EndpointType, order: nat)

  // What identifies an endpoint within one chain.
  datatype Pair = Pair(kind: EndpointType, address: string)

  function PairOf(j: Job): Pair {
    Pair(j.kind, j.endpoint.address)
  }

  function DedupKey(p: Pair): string {
    p.kind.Name() + "|" + p.address
  }

  lemma DedupKeyInjective(p: Pair, q: Pair)
    ensures DedupKey(p) == DedupKey(q) ==> p == q
  {
    NamesAreInjective(p.kind, q.kind);
    NamesAreInjective(q.kind, p.kind);
    if DedupKey(p) == DedupKey(q) {
      JoinInjective(p.kind.Name(), p.address, q.kind.Name(), q.address, '|');
    }
  }

  // ---------------------------------------------------------------- specification of buildJobs

  function Listed(ch: Chain, t: EndpointType): seq<Endpoint> {
    match t
    case RPC => ch.rpcs
    case REST => ch.rest
    case GRPCWeb => ch.grpcWeb
    case GRPC => ch.grpc
    case EVM => ch.evm
    case WSS => ch.wss
  }

  function ProbedTypes(ch: Chain): seq<EndpointType> {
    if ch.chainType == "cosmos" then [RPC, REST, GRPCWeb, GRPC, WSS, EVM]
    else if ch.chainType == "eip155" then [EVM]
    else []
  }

  // The first n entries of eps as jobs, each with its 1-based position.
  function ListJobs(ch: Chain, eps: seq<Endpoint>, t: EndpointType, n: nat): seq<Job>
    requires n <= |eps|
  {
    if n == 0 then [] else ListJobs(ch, eps, t, n - 1) + [Job(ch, eps[n - 1], t, n)]
  }

  function WholeList(ch: Chain, t: EndpointType): seq<Job> {
    ListJobs(ch, Listed(ch, t), t, |Listed(ch, t)|)
  }

  function DeclaredIn(ch: Chain, types: seq<EndpointType>): seq<Job> {
    if types == [] then []
    else DeclaredIn(ch, types[..|types| - 1]) + WholeList(ch, types[|types| - 1])
  }

  // Every declared entry of a chain, duplicates included, in probing order.
  function Declared(ch: Chain): seq<Job> {
    DeclaredIn(ch, ProbedTypes(ch))
  }

  function PairsOf(js: seq<Job>): (r: set<Pair>)
    ensures forall p :: p in r <==> exists j :: j in js && PairOf(j) == p
  {
    set j | j in js :: PairOf(j)
  }

  // Drop every job whose pair was already declared before it.
  function FirstOccurrences(js: seq<Job>): seq<Job> {
    if js == [] then []
    else
      var before, last := js[..|js| - 1], js[|js| - 1];
      FirstOccurrences(before) + (if PairOf(last) in PairsOf(before) then [] else [last])
  }

  function ChainJobs(ch: Chain): seq<Job> {
    FirstOccurrences(Declared(ch))
  }

  function AllJobs(chains: seq<Chain>): seq<Job> {
    if chains == [] then []
    else AllJobs(chains[..|chains| - 1]) + ChainJobs(chains[|chains| - 1])
  }

  // ---------------------------------------------------------------- buildJobs itself

  // The string set seen holds exactly the keys of the pairs declared so far.
  ghost predicate Represents(seen: set<string>, pairs: set<Pair>) {
    forall p: Pair :: DedupKey(p) in seen <==> p in pairs
  }

  lemma SeenGrows(seen: set<string>, pairs: set<Pair>, p: Pair)
    requires Represents(seen, pairs)
    ensures Represents(seen + {DedupKey(p)}, pairs + {p})
  {
    forall q: Pair ensures DedupKey(q) in seen + {DedupKey(p)} <==> q in pairs + {p} {
      DedupKeyInjective(p, q);
    }
  }

  lemma DeclareOne(before: seq<Job>, j: Job)
    ensures PairsOf(before + [j]) == PairsOf(before) + {PairOf(j)}
    ensures FirstOccurrences(before + [j]) ==
      if PairOf(j) in PairsOf(before) then FirstOccurrences(before) else FirstOccurrences(before) + [j]
  {
    assert (before + [j])[..|before|] == before;
  }

  // One iteration of the closure add, against one more declared entry.
  method AddOne(jobs: seq<Job>, seen: set<string>, j: Job, ghost before: seq<Job>, ghost base: seq<Job>)
    returns (jobs': seq<Job>, seen': set<string>)
    requires Represents(seen, PairsOf(before))
    requires jobs == base + FirstOccurrences(before)
    ensures Represents(seen', PairsOf(before + [j]))
    ensures jobs' == base + FirstOccurrences(before + [j])
  {
    DeclareOne(before, j);
    SeenGrows(seen, PairsOf(before), PairOf(j));
    var key := DedupKey(PairOf(j));
    if key in seen {
      assert seen + {key} == seen;
      return jobs, seen;
    }
    return jobs + [j], seen + {key};
  }

  // The closure add of buildJobs: append what one list contributes.
  method AddList(jobs: seq<Job>, seen: set<string>, ch: Chain, t: EndpointType, ghost before: seq<Job>, ghost base: seq<Job>)
    returns (jobs': seq<Job>, seen': set<string>)
    requires Represents(seen, PairsOf(before))
    requires jobs == base + FirstOccurrences(before)
    ensures Represents(seen', PairsOf(before + WholeList(ch, t)))
    ensures jobs' == base + FirstOccurrences(before + WholeList(ch, t))
  {
    jobs', seen' := jobs, seen;
    var eps := Listed(ch, t);
    ghost var declared := before;
    for i := 0 to |eps|
      invariant declared == before + ListJobs(ch, eps, t, i)
      invariant Represents(seen', PairsOf(declared))
      invariant jobs' == base + FirstOccurrences(declared)
    {
      var j := Job(ch, eps[i], t, i + 1);
      jobs', seen' := AddOne(jobs', seen', j, declared, base);
      declared := declared + [j];
    }
  }

  method AddChain(jobs: seq<Job>, ch: Chain) returns (jobs': seq<Job>)
    ensures jobs' == jobs + ChainJobs(ch)
  {
    jobs' := jobs;
    var seen: set<string> := {};
    var types := ProbedTypes(ch);
    ghost var declared: seq<Job> := [];
    for i := 0 to |types|
      invariant declared == DeclaredIn(ch, types[..i])
      invariant Represents(seen, PairsOf(declared))
      invariant jobs' == jobs + FirstOccurrences(declared)
    {
      assert types[..i + 1][..i] == types[..i];
      jobs', seen := AddList(jobs', seen, ch, types[i], declared, jobs);
      declared := declared + WholeList(ch, types[i]);
    }
    assert types[..|types|] == types;
  }

  method BuildJobs(chains: seq<Chain>) returns (jobs: seq<Job>)
    ensures jobs == AllJobs(chains)
  {
    jobs := [];
    for i := 0 to |chains|
      invariant jobs == AllJobs(chains[..i])
    {
      assert chains[..i + 1][..i] == chains[..i];
      jobs := AddChain(jobs, chains[i]);
    }
    assert chains[..|chains|] == chains;
  }
}
