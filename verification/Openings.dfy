// The three loops that open pull requests: per-run caps and per-chain cooldowns.
// openPRs and tryOpenChainPR (prflow.go), the loops of maybeOpenHashPRs (hashpr.go) and
// maybeOpenStatusPRs (chaindeath.go). GitHub is an oracle that accepts a request or not.
module Openings {
  import opened Seqs
  import opened Clock
  import opened Registry
  import opened State
  import opened PrFlow

  predicate Cooling(last: Time, cooldown: Duration, now: Time) {
    cooldown > 0 && last != NEVER && Sub(now, last) < cooldown
  }

  // First come, first served: names in order, those that are willing, until the cap is reached.
  function Opened(names: seq<string>, willing: string -> bool, cap: int): seq<string> {
    if names == [] then []
    else
      var before, last := Opened(names[..|names| - 1], willing, cap), names[|names| - 1];
      if |before| < cap && willing(last) then before + [last] else before
  }

  lemma {:induction false} OpenedShape(names: seq<string>, willing: string -> bool, cap: int)
    ensures |Opened(names, willing, cap)| <= if cap < 0 then 0 else cap
    ensures forall n :: n in Opened(names, willing, cap) ==> n in names && willing(n)
    ensures forall n :: n in names && willing(n) && n !in Opened(names, willing, cap) ==> |Opened(names, willing, cap)| >= cap
  {
    if names != [] {
      OpenedShape(names[..|names| - 1], willing, cap);
    }
  }

  lemma {:induction false} OpenedFull(names: seq<string>, willing: string -> bool, cap: int, i: nat)
    requires i <= |names| && |Opened(names[..i], willing, cap)| >= cap
    ensures Opened(names, willing, cap) == Opened(names[..i], willing, cap)
  {
    if i == |names| {
      assert names[..i] == names;
    } else {
      var init := names[..|names| - 1];
      assert init[..i] == names[..i];
      OpenedFull(init, willing, cap, i);
    }
  }

  // Exactly the first cap willing names, in order.
  lemma {:induction false} OpenedIsPrefix(names: seq<string>, willing: string -> bool, cap: int)
    ensures var all := Filter(names, willing);
      Opened(names, willing, cap) == if cap <= 0 then [] else if cap < |all| then all[..cap] else all
  {
    if names != [] {
      var init, last := names[..|names| - 1], names[|names| - 1];
      OpenedIsPrefix(init, willing, cap);
      assert names == init + [last];
      FilterSnoc(init, last, willing);
    }
  }

  lemma OpenedSnoc(names: seq<string>, i: nat, willing: string -> bool, cap: int)
    requires i < |names| && |Opened(names[..i], willing, cap)| < cap
    ensures Opened(names[..i + 1], willing, cap) == Opened(names[..i], willing, cap) + (if willing(names[i]) then [names[i]] else [])
  {
    assert names[..i + 1][..i] == names[..i];
  }

  lemma NotYetOpened(names: seq<string>, i: nat, willing: string -> bool, cap: int)
    requires i < |names| && forall j :: 0 <= j < i ==> names[j] != names[i]
    ensures names[i] !in Opened(names[..i], willing, cap)
  {
    OpenedShape(names[..i], willing, cap);
  }

  function NamesOf(chains: seq<Chain>): (r: seq<string>)
    ensures |r| == |chains| && forall i :: 0 <= i < |r| ==> r[i] == chains[i].name
  {
    seq(|chains|, i requires 0 <= i < |chains| => chains[i].name)
  }

  // ---------------------------------------------------------------- endpoint-removal PRs

  function NotIn(passed: set<string>): Flagged -> bool {
    (f: Flagged) => KeyOfFlag(f) !in passed
  }

  function StillDead(flagged: FlaggedMap, passed: map<string, set<string>>, c: string): seq<Flagged> {
    Filter(FlagsFor(flagged, c), NotIn(RescueKeys(passed, c)))
  }

  lemma {:induction false} FilterKeepsAll<T(!new)>(s: seq<T>, keep: T -> bool)
    requires forall x :: x in s ==> keep(x)
    ensures Filter(s, keep) == s
  {
    if s != [] {
      FilterKeepsAll(s[1..], keep);
    }
  }

  // stillDead = dead[:0], then append while ranging over dead: both share one backing array, and
  // the write index never overtakes the read index.
  method CompactInPlace(dead: array<Flagged>, passed: set<string>) returns (n: nat)
    modifies dead
    ensures n <= dead.Length
    ensures dead[..n] == Filter(old(dead[..]), NotIn(passed))
  {
    n := 0;
    ghost var was := dead[..];
    for i := 0 to dead.Length
      invariant n <= i
      invariant forall k :: i <= k < dead.Length ==> dead[k] == was[k]
      invariant dead[..n] == Filter(was[..i], NotIn(passed))
    {
      FilterNext(was, i, NotIn(passed));
      var ep := dead[i];
      if KeyOfFlag(ep) !in passed {
        dead[n] := ep;
        assert dead[..n + 1] == dead[..n] + [ep];
        n := n + 1;
      }
    }
    assert was[..dead.Length] == was;
  }

  type Oracle = (string, seq<Flagged>) -> bool

  function WillRemove(flagged: FlaggedMap, passed: map<string, set<string>>, sm: StateMap, cooldown: Duration, now: Time, accepts: Oracle)
    : string -> bool
  {
    (c: string) => c in sm && StillDead(flagged, passed, c) != [] && !Cooling(sm[c].lastPROpenedAt, cooldown, now)
      && accepts(c, StillDead(flagged, passed, c))
  }

  function StampRemovals(sm: StateMap, done: seq<string>, now: Time): StateMap {
    map c | c in sm :: if c in done then sm[c].(lastPROpenedAt := now) else sm[c]
  }

  function ChainsOf(ps: seq<Proposal>): (r: seq<string>)
    ensures |r| == |ps| && forall i :: 0 <= i < |r| ==> r[i] == ps[i].chain
  {
    seq(|ps|, i requires 0 <= i < |ps| => ps[i].chain)
  }

  // tryOpenChainPR preceded by the preflight filter, for one chain with flagged endpoints.
  method TryOpenChainPR(store: StateStore, name: string, dead: array<Flagged>, passed: set<string>, cooldown: Duration, now: Time, accepts: Oracle)
    returns (ok: bool, still: seq<Flagged>)
    requires name in store.chains
    modifies store, dead
    ensures still == Filter(old(dead[..]), NotIn(passed))
    ensures ok <==> still != [] && !Cooling(old(store.chains)[name].lastPROpenedAt, cooldown, now) && accepts(name, still)
    ensures store.chains == if ok then old(store.chains)[name := old(store.chains)[name].(lastPROpenedAt := now)] else old(store.chains)
  {
    ok := false;
    if passed == {} {
      FilterKeepsAll(dead[..], NotIn(passed));
      still := dead[..];
    } else {
      var n := CompactInPlace(dead, passed);
      still := dead[..n];
    }
    if still == [] {
      return;
    }
    var cs := store.chains[name];
    if Cooling(cs.lastPROpenedAt, cooldown, now) {
      return;
    }
    if accepts(name, still) {
      ok := true;
      store.chains := store.chains[name := cs.(lastPROpenedAt := now)];
    }
  }

  // The arrays that back the flagged lists, one per chain.
  ghost predicate Backs(arrays: map<string, array<Flagged>>, flagged: FlaggedMap, names: seq<string>)
    reads arrays.Values
  {
    && arrays.Keys == flagged.Keys
    && (forall c :: c in arrays && c in names ==> arrays[c][..] == flagged[c])
  }

  ghost predicate Separate(arrays: map<string, array<Flagged>>) {
    forall c, d :: c in arrays && d in arrays && c != d ==> arrays[c] != arrays[d]
  }

  // What openPRs has done after visiting names: who was opened with which list, and the stamps.
  ghost predicate RemovalsDone(
    names: seq<string>, ps: seq<Proposal>, before: StateMap, after: StateMap,
    flagged: FlaggedMap, passed: map<string, set<string>>, cooldown: Duration, maxNew: int, now: Time, accepts: Oracle)
  {
    && ChainsOf(ps) == Opened(names, WillRemove(flagged, passed, before, cooldown, now, accepts), maxNew)
    && (forall i :: 0 <= i < |ps| ==> ps[i].dead == StillDead(flagged, passed, ps[i].chain))
    && after == StampRemovals(before, ChainsOf(ps), now)
  }

  lemma RemovalsExtend(
    names: seq<string>, ps: seq<Proposal>, before: StateMap, after: StateMap, flagged: FlaggedMap,
    passed: map<string, set<string>>, cooldown: Duration, maxNew: int, now: Time, accepts: Oracle, i: nat, ok: bool)
    requires i < |names| && NoDuplicates(names) && names[i] in before
    requires RemovalsDone(names[..i], ps, before, after, flagged, passed, cooldown, maxNew, now, accepts)
    requires |ps| < maxNew
    requires ok <==> WillRemove(flagged, passed, before, cooldown, now, accepts)(names[i])
    ensures after[names[i]] == before[names[i]]
    ensures !ok ==> RemovalsDone(names[..i + 1], ps, before, after, flagged, passed, cooldown, maxNew, now, accepts)
    ensures ok ==> RemovalsDone(names[..i + 1], ps + [Proposal(names[i], StillDead(flagged, passed, names[i]))],
      before, after[names[i] := before[names[i]].(lastPROpenedAt := now)], flagged, passed, cooldown, maxNew, now, accepts)
  {
    var willing := WillRemove(flagged, passed, before, cooldown, now, accepts);
    NotYetOpened(names, i, willing, maxNew);
    OpenedSnoc(names, i, willing, maxNew);
    if ok {
      var ps' := ps + [Proposal(names[i], StillDead(flagged, passed, names[i]))];
      assert ChainsOf(ps') == ChainsOf(ps) + [names[i]];
      assert StampRemovals(before, ChainsOf(ps'), now)
        == StampRemovals(before, ChainsOf(ps), now)[names[i] := before[names[i]].(lastPROpenedAt := now)];
    }
  }

  lemma StillToCome(names: seq<string>, i: nat)
    requires i < |names| && NoDuplicates(names)
    ensures names[i] in names[i..]
    ensures forall c :: c in names[i + 1..] ==> c in names[i..] && c != names[i]
  {
    assert names[i] == names[i..][0];
    forall c | c in names[i + 1..] ensures c in names[i..] && c != names[i] {
      var k :| 0 <= k < |names[i + 1..]| && names[i + 1..][k] == c;
      assert names[i..][k + 1] == c;
    }
  }

  method OpenPRs(
    store: StateStore, chains: seq<Chain>, arrays: map<string, array<Flagged>>, ghost flagged: FlaggedMap,
    passed: map<string, set<string>>, cooldown: Duration, maxNew: int, now: Time, accepts: Oracle)
    returns (ps: seq<Proposal>)
    requires DistinctNames(chains) && forall ch :: ch in chains ==> ch.name in store.chains
    requires Backs(arrays, flagged, NamesOf(chains)) && Separate(arrays)
    modifies store, arrays.Values
    ensures RemovalsDone(NamesOf(chains), ps, old(store.chains), store.chains, flagged, passed, cooldown, maxNew, now, accepts)
    ensures forall c :: c in arrays && c !in NamesOf(chains) ==> arrays[c][..] == old(arrays[c][..])
  {
    ps := [];
    ghost var names := NamesOf(chains);
    ghost var before := store.chains;
    ghost var willing := WillRemove(flagged, passed, before, cooldown, now, accepts);
    assert StampRemovals(before, ChainsOf(ps), now) == before;
    for i := 0 to |chains|
      invariant RemovalsDone(names[..i], ps, before, store.chains, flagged, passed, cooldown, maxNew, now, accepts)
      invariant Backs(arrays, flagged, names[i..])
      invariant forall c :: c in arrays && c !in names ==> arrays[c][..] == old(arrays[c][..])
    {
      if |ps| >= maxNew {
        OpenedFull(names, willing, maxNew, i);
        return;
      }
      var name := chains[i].name;
      assert name == names[i] && chains[i] in chains;
      StillToCome(names, i);
      ghost var still := StillDead(flagged, passed, name);
      RemovalsExtend(names, ps, before, store.chains, flagged, passed, cooldown, maxNew, now, accepts, i, willing(name));
      if name !in arrays || arrays[name].Length == 0 {
        assert FlagsFor(flagged, name) == [];
        continue;
      }
      var ok, dead := TryOpenChainPR(store, name, arrays[name], RescueKeys(passed, name), cooldown, now, accepts);
      if ok {
        ps := ps + [Proposal(name, dead)];
      }
    }
    assert names[..|chains|] == names;
  }

  // ---------------------------------------------------------------- hash-fix PRs

  function WillFix(sm: StateMap, mismatched: set<string>, exclude: set<string>, cooldown: Duration, now: Time, accepts: string -> bool)
    : string -> bool
  {
    (c: string) => c in sm && c !in exclude && c in mismatched && !Cooling(sm[c].lastHashPROpenedAt, cooldown, now) && accepts(c)
  }

  function StampFixes(sm: StateMap, done: seq<string>, now: Time): StateMap {
    map c | c in sm :: if c in done then sm[c].(lastHashPROpenedAt := now) else sm[c]
  }

  method OpenHashPRs(
    store: StateStore, chains: seq<Chain>, mismatched: set<string>, exclude: set<string>, cooldown: Duration, cap: int, now: Time,
    accepts: string -> bool)
    returns (done: seq<string>)
    requires DistinctNames(chains) && forall ch :: ch in chains ==> ch.name in store.chains
    modifies store
    ensures done == Opened(NamesOf(chains), WillFix(old(store.chains), mismatched, exclude, cooldown, now, accepts), cap)
    ensures store.chains == StampFixes(old(store.chains), done, now)
  {
    done := [];
    ghost var names := NamesOf(chains);
    ghost var before := store.chains;
    ghost var willing := WillFix(before, mismatched, exclude, cooldown, now, accepts);
    for i := 0 to |chains|
      invariant done == Opened(names[..i], willing, cap)
      invariant store.chains == StampFixes(before, done, now)
    {
      var name := chains[i].name;
      assert name == names[i] && chains[i] in chains;
      NotYetOpened(names, i, willing, cap);
      if |done| < cap {
        OpenedSnoc(names, i, willing, cap);
      } else {
        assert names[..i + 1][..i] == names[..i];
        OpenedFull(names[..i + 1], willing, cap, i);
      }
      if name in exclude || name !in mismatched {
        continue;
      }
      if |done| >= cap {
        OpenedFull(names, willing, cap, i);
        return;
      }
      var cs := store.chains[name];
      if !Cooling(cs.lastHashPROpenedAt, cooldown, now) && accepts(name) {
        done := done + [name];
        store.chains := store.chains[name := cs.(lastHashPROpenedAt := now)];
      }
    }
    assert names[..|chains|] == names;
  }

  // ---------------------------------------------------------------- status-flip PRs

  function WillFlip(sm: StateMap, cooldown: Duration, now: Time, accepts: string -> bool): string -> bool {
    (c: string) => c in sm && !Cooling(sm[c].lastStatusPROpenedAt, cooldown, now) && accepts(c)
  }

  function StampFlips(sm: StateMap, done: seq<string>, now: Time): StateMap {
    map c | c in sm :: if c in done then sm[c].(lastStatusPROpenedAt := now) else sm[c]
  }

  method OpenStatusPRs(store: StateStore, candidates: seq<string>, cooldown: Duration, cap: int, now: Time, accepts: string -> bool)
    returns (done: seq<string>)
    requires NoDuplicates(candidates) && forall c :: c in candidates ==> c in store.chains
    modifies store
    ensures done == Opened(candidates, WillFlip(old(store.chains), cooldown, now, accepts), cap)
    ensures store.chains == StampFlips(old(store.chains), done, now)
  {
    done := [];
    ghost var before := store.chains;
    ghost var willing := WillFlip(before, cooldown, now, accepts);
    for i := 0 to |candidates|
      invariant done == Opened(candidates[..i], willing, cap)
      invariant store.chains == StampFlips(before, done, now)
    {
      if |done| >= cap {
        OpenedFull(candidates, willing, cap, i);
        return;
      }
      var name := candidates[i];
      assert name in candidates;
      NotYetOpened(candidates, i, willing, cap);
      OpenedSnoc(candidates, i, willing, cap);
      var cs := store.chains[name];
      if Cooling(cs.lastStatusPROpenedAt, cooldown, now) {
        continue;
      }
      if accepts(name) {
        store.chains := store.chains[name := cs.(lastStatusPROpenedAt := now)];
        done := done + [name];
      }
    }
    assert candidates[..|candidates|] == candidates;
  }
}
