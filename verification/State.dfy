// internal/state/state.go: persisted streaks, one record per chain.
module State {
  import opened GoStrings
  import opened Clock
  import opened Checks

  datatype EndpointState = EndpointState(
    consecutiveFailures: nat,
    lastPassed: bool,
    lastEvidence: string,
    firstEvidence: string,
    lastChecked: Time,
    firstFailureTime: Time,
    provider: string,
    failureClass: FailureClass,
    httpStatus: int
  )

  // Go's zero value, which a lookup of an absent key yields.
  const ZERO_STATE := EndpointState(0, false, "", "", NEVER, NEVER, "", CLASS_NONE, 0)

  datatype ChainRecord = ChainRecord(
    endpoints: map<string, EndpointState>,
    lastPROpenedAt: Time,
    lastHashPROpenedAt: Time,
    lastStatusPROpenedAt: Time,
    chainDeadStreak: nat,
    chainDeadFirstTime: Time
  )

  // What Load returns when a chain has no state file yet.
  const NO_RECORD := ChainRecord(map[], NEVER, NEVER, NEVER, 0, NEVER)

  type StateMap = map<string, ChainRecord>

  function EndpointKey(check: string, address: string): string {
    check + "|" + address
  }

  // Splitting a state key recovers (check, address) exactly when the check name has no '|'.
  lemma CutInvertsKey(check: string, address: string)
    ensures Cut(EndpointKey(check, address), '|') == CutResult(check, address, true) <==> '|' !in check
  {
    var key := EndpointKey(check, address);
    assert key[|check|] == '|';
    var r := Cut(key, '|');
    if '|' !in check {
      JoinInjective(check, address, r.before, r.after, '|');
    }
  }

  lemma EndpointKeyInjective(c1: string, a1: string, c2: string, a2: string)
    requires '|' !in c1 && '|' !in c2
    ensures EndpointKey(c1, a1) == EndpointKey(c2, a2) ==> c1 == c2 && a1 == a2
  {
    if EndpointKey(c1, a1) == EndpointKey(c2, a2) {
      JoinInjective(c1, a1, c2, a2, '|');
    }
  }

  function Lookup(m: map<string, EndpointState>, key: string): EndpointState {
    if key in m then m[key] else ZERO_STATE
  }

  function KeyOf(r: Result): string {
    EndpointKey(r.check, r.endpoint)
  }

  // One observation merged into a streak.
  function Observe(es: EndpointState, r: Result, now: Time): EndpointState {
    if r.verdict.passed then
      EndpointState(0, true, "", "", now, NEVER, r.provider, CLASS_NONE, 0)
    else
      EndpointState(
        es.consecutiveFailures + 1,
        false,
        r.verdict.evidence,
        if es.consecutiveFailures == 0 then r.verdict.evidence else es.firstEvidence,
        now,
        if es.consecutiveFailures == 0 then now else es.firstFailureTime,
        r.provider,
        r.verdict.failureClass,
        r.verdict.httpStatus)
  }

  function Restrict(m: map<string, EndpointState>, keys: set<string>): map<string, EndpointState> {
    map k | k in m && k in keys :: m[k]
  }

  class ChainState {
    var endpoints: map<string, EndpointState>
    var lastPROpenedAt: Time
    var lastHashPROpenedAt: Time
    var lastStatusPROpenedAt: Time
    var chainDeadStreak: nat
    var chainDeadFirstTime: Time

    constructor (rec: ChainRecord)
      ensures Record() == rec
    {
      endpoints := rec.endpoints;
      lastPROpenedAt := rec.lastPROpenedAt;
      lastHashPROpenedAt := rec.lastHashPROpenedAt;
      lastStatusPROpenedAt := rec.lastStatusPROpenedAt;
      chainDeadStreak := rec.chainDeadStreak;
      chainDeadFirstTime := rec.chainDeadFirstTime;
    }

    function Record(): ChainRecord
      reads this
    {
      ChainRecord(endpoints, lastPROpenedAt, lastHashPROpenedAt, lastStatusPROpenedAt, chainDeadStreak, chainDeadFirstTime)
    }

    method Update(r: Result, now: Time)
      modifies this`endpoints
      ensures endpoints == old(endpoints)[KeyOf(r) := Observe(Lookup(old(endpoints), KeyOf(r)), r, now)]
    {
      var key := EndpointKey(r.check, r.endpoint);
      var es := Lookup(endpoints, key);
      es := es.(lastChecked := now);
      es := es.(lastPassed := r.verdict.passed);
      es := es.(lastEvidence := r.verdict.evidence);
      es := es.(provider := r.provider);
      es := es.(failureClass := r.verdict.failureClass);
      es := es.(httpStatus := r.verdict.httpStatus);
      if r.verdict.passed {
        es := es.(consecutiveFailures := 0);
        es := es.(firstFailureTime := NEVER);
        es := es.(firstEvidence := "");
        es := es.(lastEvidence := "");
        es := es.(failureClass := CLASS_NONE);
        es := es.(httpStatus := 0);
      } else {
        if es.consecutiveFailures == 0 {
          es := es.(firstFailureTime := now);
          es := es.(firstEvidence := r.verdict.evidence);
        }
        es := es.(consecutiveFailures := es.consecutiveFailures + 1);
      }
      endpoints := endpoints[key := es];
    }

    method Prune(activeKeys: set<string>)
      modifies this`endpoints
      ensures endpoints == Restrict(old(endpoints), activeKeys)
    {
      var todo := endpoints.Keys;
      while todo != {}
        invariant todo <= endpoints.Keys <= old(endpoints).Keys
        invariant forall k :: k in endpoints ==> endpoints[k] == old(endpoints)[k]
        invariant forall k :: k in old(endpoints) && k !in todo ==> (k in endpoints <==> k in activeKeys)
        invariant forall k :: k in todo ==> k in endpoints
        decreases todo
      {
        var key :| key in todo;
        todo := todo - {key};
        if key !in activeKeys {
          endpoints := endpoints - {key};
        }
      }
    }
  }

  // The map of loaded chains that the flows share and update in place.
  class StateStore {
    var chains: StateMap

    constructor (loaded: StateMap)
      ensures chains == loaded
    {
      chains := loaded;
    }
  }
}
