// updateState in cmd/sentinel/main.go: fold one run's results into the streaks, prune, count.
module Update {
  import opened Seqs
  import opened Clock
  import opened Checks
  import opened State

  // ---------------------------------------------------------------- specification

  function ApplyOne(sm: StateMap, r: Result, now: Time): StateMap {
    if Counts(r) && r.chain in sm then
      var rec := sm[r.chain];
      sm[r.chain := rec.(endpoints := rec.endpoints[KeyOf(r) := Observe(Lookup(rec.endpoints, KeyOf(r)), r, now)])]
    else sm
  }

  function ApplyAll(sm: StateMap, rs: seq<Result>, now: Time): StateMap {
    if rs == [] then sm
    else ApplyOne(ApplyAll(sm, rs[..|rs| - 1], now), rs[|rs| - 1], now)
  }

  type ActiveKeys = map<string, set<string>>

  function KeysFor(active: ActiveKeys, chain: string): set<string> {
    if chain in active then active[chain] else {}
  }

  function Pruned(rec: ChainRecord, keys: set<string>): ChainRecord {
    rec.(endpoints := Restrict(rec.endpoints, keys))
  }

  function PruneAll(sm: StateMap, active: ActiveKeys): StateMap {
    map c | c in sm :: Pruned(sm[c], KeysFor(active, c))
  }

  function FlaggedPairs(sm: StateMap, threshold: nat): set<(string, string)> {
    set c, k | c in sm && k in sm[c].endpoints && sm[c].endpoints[k].consecutiveFailures >= threshold :: (c, k)
  }

  ghost predicate ChainsLoaded(sm: StateMap, rs: seq<Result>) {
    forall r :: r in rs && Counts(r) ==> r.chain in sm
  }

  // ---------------------------------------------------------------- updateState itself

  lemma {:induction false} ApplyAllKeys(sm: StateMap, rs: seq<Result>, now: Time)
    ensures ApplyAll(sm, rs, now).Keys == sm.Keys
  {
    if rs != [] {
      ApplyAllKeys(sm, rs[..|rs| - 1], now);
    }
  }

  method MergeResults(store: StateStore, results: seq<Result>, now: Time)
    requires ChainsLoaded(store.chains, results)
    modifies store
    ensures store.chains == ApplyAll(old(store.chains), results, now)
  {
    for i := 0 to |results|
      invariant store.chains == ApplyAll(old(store.chains), results[..i], now)
    {
      var r := results[i];
      assert results[..i + 1][..i] == results[..i];
      if !r.verdict.skipped && IsLiveness(r.check) {
        ApplyAllKeys(old(store.chains), results[..i], now);
        assert r in results;
        var cs := new ChainState(store.chains[r.chain]);
        cs.Update(r, now);
        store.chains := store.chains[r.chain := cs.Record()];
      }
    }
    assert results[..|results|] == results;
  }

  // The inner loop of the flag count: the keys of one chain at or above the threshold.
  method CountFlagged(rec: ChainRecord, threshold: nat) returns (n: nat)
    ensures n == |FlaggedKeys(rec, threshold)|
  {
    n := 0;
    var todo := rec.endpoints.Keys;
    ghost var goal := FlaggedKeys(rec, threshold);
    assert goal - todo == {};
    while todo != {}
      invariant todo <= rec.endpoints.Keys
      invariant n == |goal - todo|
      decreases todo
    {
      var key :| key in todo;
      MinusStep(goal, todo, key);
      todo := todo - {key};
      if rec.endpoints[key].consecutiveFailures >= threshold {
        n := n + 1;
      }
    }
    assert goal - todo == goal;
  }

  function FlaggedKeys(rec: ChainRecord, threshold: nat): set<string> {
    set k | k in rec.endpoints && rec.endpoints[k].consecutiveFailures >= threshold
  }

  // Adding one chain to the count adds exactly its own flagged keys.
  lemma FlaggedPairsGrow(sm: StateMap, c: string, threshold: nat)
    requires c in sm
    ensures |FlaggedPairs(sm, threshold)| == |FlaggedPairs(sm - {c}, threshold)| + |FlaggedKeys(sm[c], threshold)|
  {
    var mine := set p | p in FlaggedPairs(sm, threshold) && p.0 == c;
    assert FlaggedPairs(sm, threshold) == FlaggedPairs(sm - {c}, threshold) + mine;
    PairUp(c, FlaggedKeys(sm[c], threshold), mine);
  }

  lemma {:induction false} PairUp(c: string, keys: set<string>, pairs: set<(string, string)>)
    requires forall p :: p in pairs <==> p.0 == c && p.1 in keys
    ensures |pairs| == |keys|
  {
    if keys == {} {
      assert pairs == {};
    } else {
      var k :| k in keys;
      assert (c, k) in pairs;
      PairUp(c, keys - {k}, pairs - {(c, k)});
    }
  }

  // One iteration over the loaded chains: prune, write back, count.
  method PruneChain(store: StateStore, name: string, keys: set<string>, threshold: nat) returns (n: nat)
    requires name in store.chains
    modifies store
    ensures store.chains == old(store.chains)[name := Pruned(old(store.chains)[name], keys)]
    ensures n == |FlaggedKeys(store.chains[name], threshold)|
  {
    var cs := new ChainState(store.chains[name]);
    cs.Prune(keys);
    store.chains := store.chains[name := cs.Record()];
    n := CountFlagged(cs.Record(), threshold);
  }

  lemma FlaggedPairsStep(sm: StateMap, todo: set<string>, c: string, threshold: nat)
    requires c in todo && todo <= sm.Keys
    ensures |FlaggedPairs(sm - (todo - {c}), threshold)| == |FlaggedPairs(sm - todo, threshold)| + |FlaggedKeys(sm[c], threshold)|
  {
    var more := sm - (todo - {c});
    assert more - {c} == sm - todo;
    FlaggedPairsGrow(more, c, threshold);
  }

  // Chains outside todo are already pruned, the others are as they were.
  ghost predicate PartlyPruned(sm: StateMap, merged: StateMap, pruned: StateMap, todo: set<string>) {
    && sm.Keys == merged.Keys == pruned.Keys
    && forall c :: c in merged ==> sm[c] == if c in todo then merged[c] else pruned[c]
  }

  lemma PruneStep(sm: StateMap, sm': StateMap, merged: StateMap, pruned: StateMap, todo: set<string>, c: string)
    requires c in todo && todo <= merged.Keys && PartlyPruned(sm, merged, pruned, todo)
    requires sm' == sm[c := pruned[c]]
    ensures PartlyPruned(sm', merged, pruned, todo - {c})
  {
  }

  lemma AllPruned(sm: StateMap, merged: StateMap, pruned: StateMap)
    requires PartlyPruned(sm, merged, pruned, {})
    ensures sm == pruned && pruned - {} == pruned
  {
  }

  method PruneAndCount(store: StateStore, active: ActiveKeys, threshold: nat) returns (flagged: nat)
    modifies store
    ensures store.chains == PruneAll(old(store.chains), active)
    ensures flagged == |FlaggedPairs(store.chains, threshold)|
  {
    ghost var merged := store.chains;
    ghost var pruned := PruneAll(merged, active);
    flagged := 0;
    var todo := store.chains.Keys;
    assert pruned - todo == map[];
    while todo != {}
      invariant todo <= merged.Keys
      invariant PartlyPruned(store.chains, merged, pruned, todo)
      invariant flagged == |FlaggedPairs(pruned - todo, threshold)|
      decreases todo
    {
      var name :| name in todo;
      FlaggedPairsStep(pruned, todo, name, threshold);
      ghost var before := store.chains;
      var n := PruneChain(store, name, KeysFor(active, name), threshold);
      PruneStep(before, store.chains, merged, pruned, todo, name);
      todo := todo - {name};
      flagged := flagged + n;
    }
    AllPruned(store.chains, merged, pruned);
  }

  method UpdateState(store: StateStore, results: seq<Result>, active: ActiveKeys, threshold: nat, now: Time)
    returns (flagged: nat)
    requires ChainsLoaded(store.chains, results)
    modifies store
    ensures store.chains == PruneAll(ApplyAll(old(store.chains), results, now), active)
    ensures flagged == |FlaggedPairs(store.chains, threshold)|
  {
    MergeResults(store, results, now);
    flagged := PruneAndCount(store, active, threshold);
  }
}
