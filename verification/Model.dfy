// The records that flow through the sentinel: registry entries, probe results and time.

module Options {
  datatype Option<+T> = None | Some(value: T)
}

module Registry {

  datatype Endpoint = Endpoint(address: string, provider: string)

  datatype Chain = Chain(
    name: string,
    chainId: string,
    chainType: string,
    rpcs: seq<Endpoint>,
    rest: seq<Endpoint>,
    grpcWeb: seq<Endpoint>,
    grpc: seq<Endpoint>,
    evm: seq<Endpoint>,
    wss: seq<Endpoint>
  )

  predicate DistinctNames(chains: seq<Chain>) {
    forall i, j :: 0 <= i < j < |chains| ==> chains[i].name != chains[j].name
  }
}

module Clock {

  // Nanoseconds since 0001-01-01T00:00:00Z, so that Go's zero time.Time is 0.
  type Time = int

  const NEVER: Time := 0
  const SECOND: int := 1_000_000_000
  const DAY: int := 86_400 * SECOND

  // A time.Duration is an int64 count of nanoseconds; Time.Sub saturates at its bounds.
  const MAX_DURATION: int := 0x7fff_ffff_ffff_ffff
  const MIN_DURATION: int := -0x8000_0000_0000_0000

  type Duration = d: int | MIN_DURATION <= d <= MAX_DURATION witness 0

  function Sub(a: Time, b: Time): Duration {
    if a - b > MAX_DURATION then MAX_DURATION
    else if a - b < MIN_DURATION then MIN_DURATION
    else a - b
  }
}

// The vantage warning's threshold, on exact rationals instead of floating-point numbers.
module Percentages {

  const VANTAGE_WARN_PCT: real := 5.0

  function Percent(n: int, total: int): real {
    if total == 0 then 0.0 else 100.0 * (n as real) / (total as real)
  }

  lemma DivideBelow(x: real, y: real, k: real)
    requires y > 0.0
    ensures x / y < k <==> x < k * y
  {
    var q := x / y;
    assert q * y == x;
    if q < k {
      assert (k - q) * y > 0.0;
    } else {
      assert (q - k) * y >= 0.0;
    }
  }

  lemma BelowWarning(n: int, total: int)
    requires total > 0
    ensures Percent(n, total) < VANTAGE_WARN_PCT <==> 20 * n < total
  {
    DivideBelow(100.0 * (n as real), total as real, VANTAGE_WARN_PCT);
  }
}

module Checks {
  import opened GoStrings
  import opened Clock

  // Failure classes are strings in the source; only these are branched on here.
  type FailureClass = string
  const CLASS_NONE: FailureClass := ""
  const CLASS_DNS_FAILURE: FailureClass := "dns_failure"
  const CLASS_VANTAGE_NO_ROUTE: FailureClass := "vantage_no_route"

  const RPC_LIVENESS: string := "rpc_liveness"
  const REST_LIVENESS: string := "rest_liveness"
  const EVM_LIVENESS: string := "evm_liveness"

  datatype Result = Result(
    chain: string,
    check: string,
    endpoint: string,
    provider: string,
    order: nat,
    verdict: Verdict
  )

  // The part of a result that the probe decides; everything else is copied from the registry.
  datatype Verdict = Verdict(
    passed: bool,
    skipped: bool,
    evidence: string,
    failureClass: FailureClass,
    httpStatus: int,
    catchingUp: bool,
    txIndex: string,
    methodRestricted: bool,
    latestBlockTime: Time
  )

  predicate IsLiveness(check: string) {
    HasSuffix(check, "_liveness")
  }

  // A result that is neither a chain-ID check nor a rate-limited endpoint.
  predicate Counts(r: Result) {
    IsLiveness(r.check) && !r.verdict.skipped
  }

  predicate Core(check: string) {
    check == RPC_LIVENESS || check == REST_LIVENESS || check == EVM_LIVENESS
  }
}
