// internal/github/pr.go: removing dead endpoints from a chain's apis.
module EditChain {
  import opened Options
  import opened GoStrings
  import opened Seqs
  import opened Sorting
  import opened Registry
  import opened Checks
  import opened PrFlow

  // One entry of an apis list: what the loader reads, and the other fields it carries.
  datatype Entry = Entry(endpoint: Endpoint, other: string)

  type Apis = map<string, seq<Entry>>

  function CheckCategory(check: string): Option<string> {
    if check == RPC_LIVENESS then Some("rpc")
    else if check == REST_LIVENESS then Some("rest")
    else if check == "grpc_liveness" then Some("grpc")
    else if check == "grpc_web_liveness" then Some("grpc-web")
    else if check == EVM_LIVENESS then Some("evm-http-jsonrpc")
    else if check == "wss_liveness" then Some("wss")
    else None
  }

  function ApiKey(category: string, address: string): string {
    category + "|" + address
  }

  // ---------------------------------------------------------------- specification

  function DeadKeys(dead: seq<Flagged>): set<string> {
    set f | f in dead && CheckCategory(f.check).Some? :: ApiKey(CheckCategory(f.check).value, f.address)
  }

  function Hit(category: string, keys: set<string>): Entry -> bool {
    (e: Entry) => ApiKey(category, e.endpoint.address) in keys
  }

  function Spared(category: string, keys: set<string>): Entry -> bool {
    (e: Entry) => ApiKey(category, e.endpoint.address) !in keys
  }

  function Edited(apis: Apis, keys: set<string>): Apis {
    map cat | cat in apis :: Filter(apis[cat], Spared(cat, keys))
  }

  function HitsIn(entries: seq<Entry>, category: string, keys: set<string>): set<int> {
    set i | 0 <= i < |entries| && Hit(category, keys)(entries[i])
  }

  function HitCategories(apis: Apis, keys: set<string>): set<string> {
    set cat | cat in apis && HitsIn(apis[cat], cat, keys) != {}
  }

  // ---------------------------------------------------------------- the three loops

  method CollectDeadPairs(dead: seq<Flagged>) returns (keys: set<string>)
    ensures keys == DeadKeys(dead)
  {
    keys := {};
    for i := 0 to |dead|
      invariant keys == DeadKeys(dead[..i])
    {
      assert dead[..i + 1] == dead[..i] + [dead[i]];
      var cat := CheckCategory(dead[i].check);
      if cat.None? {
        continue;
      }
      keys := keys + {ApiKey(cat.value, dead[i].address)};
    }
    assert dead[..|dead|] == dead;
  }

  method CollectIndices(entries: seq<Entry>, category: string, keys: set<string>) returns (indices: seq<int>)
    ensures multiset(indices) == multiset(HitsIn(entries, category, keys))
  {
    indices := [];
    for i := 0 to |entries|
      invariant multiset(indices) == multiset(HitsIn(entries[..i], category, keys))
    {
      if Hit(category, keys)(entries[i]) {
        assert HitsIn(entries[..i + 1], category, keys) == HitsIn(entries[..i], category, keys) + {i};
        indices := indices + [i];
      } else {
        assert HitsIn(entries[..i + 1], category, keys) == HitsIn(entries[..i], category, keys);
      }
    }
    assert entries[..|entries|] == entries;
  }

  ghost predicate Collected(toDelete: map<string, seq<int>>, apis: Apis, keys: set<string>, categories: set<string>) {
    && toDelete.Keys == HitCategories(apis, keys) * categories
    && forall cat :: cat in toDelete ==> multiset(toDelete[cat]) == multiset(HitsIn(apis[cat], cat, keys))
  }

  method CollectAll(apis: Apis, keys: set<string>) returns (toDelete: map<string, seq<int>>)
    ensures Collected(toDelete, apis, keys, apis.Keys)
  {
    toDelete := map[];
    var todo := apis.Keys;
    while todo != {}
      invariant todo <= apis.Keys
      invariant Collected(toDelete, apis, keys, apis.Keys - todo)
      decreases todo
    {
      var cat :| cat in todo;
      todo := todo - {cat};
      var indices := CollectIndices(apis[cat], cat, keys);
      assert |multiset(indices)| == |indices|;
      if indices != [] {
        assert indices[0] in multiset(indices);
        toDelete := toDelete[cat := indices];
      } else {
        ListingMembers(indices, HitsIn(apis[cat], cat, keys));
      }
    }
  }

  // ---------------------------------------------------------------- descending deletion

  predicate Above(a: int, b: int) {
    a > b
  }

  ghost predicate Descending(indices: seq<int>) {
    forall i, j :: 0 <= i < j < |indices| ==> indices[i] > indices[j]
  }

  ghost predicate CoversHits(indices: seq<int>, entries: seq<Entry>, keep: Entry -> bool) {
    forall i :: 0 <= i < |entries| ==> (i in indices <==> !keep(entries[i]))
  }

  // Where the part of the list that k deletions have dealt with begins.
  function CutAt(indices: seq<int>, n: nat, k: nat): int
    requires k <= |indices|
  {
    if k == 0 then n else indices[k - 1]
  }

  ghost predicate InRange(indices: seq<int>, n: nat) {
    forall i :: 0 <= i < |indices| ==> 0 <= indices[i] < n
  }

  lemma {:induction false} AllKept(s: seq<Entry>, keep: Entry -> bool)
    requires forall i :: 0 <= i < |s| ==> keep(s[i])
    ensures Filter(s, keep) == s
  {
    if s != [] {
      AllKept(s[1..], keep);
    }
  }

  lemma NotBetween(indices: seq<int>, n: nat, k: nat, x: int)
    requires k < |indices| && Descending(indices) && indices[k] < x < CutAt(indices, n, k)
    ensures x !in indices
  {
    forall j | 0 <= j < |indices| ensures indices[j] != x {
      if j < k {
        assert indices[j] >= indices[k - 1];
      }
    }
  }

  lemma GapKept(entries: seq<Entry>, indices: seq<int>, keep: Entry -> bool, k: nat)
    requires k < |indices| && Descending(indices) && InRange(indices, |entries|) && CoversHits(indices, entries, keep)
    ensures indices[k] < CutAt(indices, |entries|, k) <= |entries|
    ensures forall i :: indices[k] < i < CutAt(indices, |entries|, k) ==> keep(entries[i])
  {
    forall i | indices[k] < i < CutAt(indices, |entries|, k) ensures keep(entries[i]) {
      NotBetween(indices, |entries|, k, i);
    }
  }

  // A dropped entry followed by a run of kept ones.
  lemma SliceAt(entries: seq<Entry>, lo: nat, hi: nat)
    requires lo < hi <= |entries|
    ensures entries[lo..][0] == entries[lo]
    ensures entries[lo..][1..] == entries[lo + 1..hi] + entries[hi..]
  {
  }

  lemma {:induction false} FilterRun(entries: seq<Entry>, lo: nat, hi: nat, keep: Entry -> bool)
    requires lo < hi <= |entries| && !keep(entries[lo])
    requires forall i :: lo < i < hi ==> keep(entries[i])
    ensures Filter(entries[lo..], keep) == entries[lo + 1..hi] + Filter(entries[hi..], keep)
  {
    var gap := entries[lo + 1..hi];
    AllKept(gap, keep);
    FilterAppend(gap, entries[hi..], keep);
    SliceAt(entries, lo, hi);
  }

  // Between two consecutive hits nothing is dropped.
  lemma GapIsKept(entries: seq<Entry>, indices: seq<int>, keep: Entry -> bool, k: nat)
    requires k < |indices| && Descending(indices) && InRange(indices, |entries|) && CoversHits(indices, entries, keep)
    ensures indices[k] < CutAt(indices, |entries|, k) <= |entries|
    ensures Filter(entries[indices[k]..], keep)
         == entries[indices[k] + 1..CutAt(indices, |entries|, k)] + Filter(entries[CutAt(indices, |entries|, k)..], keep)
  {
    GapKept(entries, indices, keep, k);
    assert indices[k] in indices;
    FilterRun(entries, indices[k], CutAt(indices, |entries|, k), keep);
  }

  // The list once the first k indices are deleted.
  ghost function Deleted(entries: seq<Entry>, indices: seq<int>, keep: Entry -> bool, k: nat): seq<Entry>
    requires k <= |indices| && InRange(indices, |entries|)
  {
    entries[..CutAt(indices, |entries|, k)] + Filter(entries[CutAt(indices, |entries|, k)..], keep)
  }

  lemma NothingDeleted(entries: seq<Entry>, indices: seq<int>, keep: Entry -> bool)
    requires InRange(indices, |entries|)
    ensures Deleted(entries, indices, keep, 0) == entries
  {
    assert entries[|entries|..] == [] && entries[..|entries|] == entries;
  }

  lemma KeptFront(entries: seq<Entry>, cut: nat, keep: Entry -> bool)
    requires cut <= |entries| && forall i :: 0 <= i < cut ==> keep(entries[i])
    ensures Filter(entries, keep) == entries[..cut] + Filter(entries[cut..], keep)
  {
    AllKept(entries[..cut], keep);
    FilterAppend(entries[..cut], entries[cut..], keep);
    assert entries == entries[..cut] + entries[cut..];
  }

  lemma AllDeleted(entries: seq<Entry>, indices: seq<int>, keep: Entry -> bool)
    requires Descending(indices) && InRange(indices, |entries|) && CoversHits(indices, entries, keep)
    ensures Deleted(entries, indices, keep, |indices|) == Filter(entries, keep)
  {
    var cut := CutAt(indices, |entries|, |indices|);
    forall i | 0 <= i < cut ensures keep(entries[i]) {
      assert i !in indices;
    }
    KeptFront(entries, cut, keep);
  }

  lemma RemoveFromFront(front: seq<Entry>, tail: seq<Entry>, i: nat)
    requires i < |front|
    ensures RemoveAt(front + tail, i) == front[..i] + (front[i + 1..] + tail)
  {
  }

  lemma DeleteOne(entries: seq<Entry>, indices: seq<int>, keep: Entry -> bool, k: nat)
    requires k < |indices| && Descending(indices) && InRange(indices, |entries|) && CoversHits(indices, entries, keep)
    ensures indices[k] < |Deleted(entries, indices, keep, k)|
    ensures RemoveAt(Deleted(entries, indices, keep, k), indices[k]) == Deleted(entries, indices, keep, k + 1)
  {
    GapIsKept(entries, indices, keep, k);
    var i, cut := indices[k], CutAt(indices, |entries|, k);
    RemoveFromFront(entries[..cut], Filter(entries[cut..], keep), i);
    assert entries[..cut][..i] == entries[..i] && entries[..cut][i + 1..] == entries[i + 1..cut];
  }

  // The inner deletion loop: highest index first, every lower index stays valid.
  method DeleteIndices(entries: seq<Entry>, indices: seq<int>, ghost keep: Entry -> bool) returns (left: seq<Entry>)
    requires Descending(indices) && InRange(indices, |entries|) && CoversHits(indices, entries, keep)
    ensures left == Filter(entries, keep)
  {
    left := entries;
    NothingDeleted(entries, indices, keep);
    for k := 0 to |indices|
      invariant left == Deleted(entries, indices, keep, k)
    {
      DeleteOne(entries, indices, keep, k);
      var i := indices[k];
      left := left[..i] + left[i + 1..];
    }
    AllDeleted(entries, indices, keep);
  }

  lemma SortedIndices(indices: seq<int>, sorted: seq<int>, entries: seq<Entry>, category: string, keys: set<string>)
    requires multiset(indices) == multiset(HitsIn(entries, category, keys)) == multiset(sorted)
    requires NoInversion(sorted, Above)
    ensures Descending(sorted) && InRange(sorted, |entries|) && CoversHits(sorted, entries, Spared(category, keys))
  {
    ListingMembers(sorted, HitsIn(entries, category, keys));
    forall i | 0 <= i < |sorted| ensures 0 <= sorted[i] < |entries| {
      assert sorted[i] in sorted;
    }
  }

  lemma DescendingOrder()
    ensures WeakOrder(Above)
  {
  }

  method DeleteFromCategory(entries: seq<Entry>, indices: seq<int>, category: string, keys: set<string>) returns (left: seq<Entry>)
    requires multiset(indices) == multiset(HitsIn(entries, category, keys))
    ensures left == Filter(entries, Spared(category, keys))
  {
    DescendingOrder();
    SortSorts(indices, Above);
    var sorted := Sort(indices, Above);
    SortedIndices(indices, sorted, entries, category, keys);
    left := DeleteIndices(entries, sorted, Spared(category, keys));
  }

  ghost predicate PartlyEdited(current: Apis, apis: Apis, keys: set<string>, todo: set<string>) {
    && current.Keys == apis.Keys
    && forall cat :: cat in apis ==> current[cat] == if cat in todo then apis[cat] else Filter(apis[cat], Spared(cat, keys))
  }

  lemma UntouchedIsFiltered(entries: seq<Entry>, category: string, keys: set<string>)
    requires HitsIn(entries, category, keys) == {}
    ensures Filter(entries, Spared(category, keys)) == entries
  {
    forall i | 0 <= i < |entries| ensures Spared(category, keys)(entries[i]) {
      assert i !in HitsIn(entries, category, keys);
    }
    AllKept(entries, Spared(category, keys));
  }

  lemma NothingEdited(apis: Apis, toDelete: map<string, seq<int>>, keys: set<string>)
    requires Collected(toDelete, apis, keys, apis.Keys)
    ensures PartlyEdited(apis, apis, keys, toDelete.Keys)
  {
    forall cat | cat in apis && cat !in toDelete ensures Filter(apis[cat], Spared(cat, keys)) == apis[cat] {
      UntouchedIsFiltered(apis[cat], cat, keys);
    }
  }

  method DeleteCategory(
    current: Apis, indices: seq<int>, category: string, keys: set<string>, ghost apis: Apis, ghost todo: set<string>)
    returns (next: Apis)
    requires PartlyEdited(current, apis, keys, todo) && category in todo && category in apis
    requires multiset(indices) == multiset(HitsIn(apis[category], category, keys))
    ensures PartlyEdited(next, apis, keys, todo - {category})
  {
    var left := DeleteFromCategory(current[category], indices, category, keys);
    next := current[category := left];
  }

  lemma EverythingEdited(current: Apis, apis: Apis, keys: set<string>)
    requires PartlyEdited(current, apis, keys, {})
    ensures current == Edited(apis, keys)
  {
  }

  // Categories in any order: each deletion leaves the other lists alone.
  method DeleteAll(apis: Apis, toDelete: map<string, seq<int>>, keys: set<string>) returns (current: Apis)
    requires Collected(toDelete, apis, keys, apis.Keys)
    ensures current == Edited(apis, keys)
  {
    current := apis;
    var todo := toDelete.Keys;
    NothingEdited(apis, toDelete, keys);
    while todo != {}
      invariant todo <= toDelete.Keys
      invariant PartlyEdited(current, apis, keys, todo)
      decreases todo
    {
      var cat :| cat in todo;
      current := DeleteCategory(current, toDelete[cat], cat, keys, apis, todo);
      todo := todo - {cat};
    }
    EverythingEdited(current, apis, keys);
  }

  // EditChainJSON: nothing when no entry matches, otherwise every list filtered.
  method EditChainJSON(apis: Apis, dead: seq<Flagged>) returns (r: Option<Apis>)
    ensures r == if HitCategories(apis, DeadKeys(dead)) == {} then None else Some(Edited(apis, DeadKeys(dead)))
  {
    var keys := CollectDeadPairs(dead);
    var toDelete := CollectAll(apis, keys);
    assert toDelete.Keys == HitCategories(apis, keys);
    if |toDelete.Keys| == 0 {
      return None;
    }
    var current := DeleteAll(apis, toDelete, keys);
    return Some(current);
  }

  // ---------------------------------------------------------------- what the keys mean

  // The pairs the PR body lists: a known check, and the address it failed at.
  ghost predicate IsDeadPair(dead: seq<Flagged>, category: string, address: string) {
    exists f :: f in dead && CheckCategory(f.check) == Some(category) && f.address == address
  }

  ghost function SparedPair(dead: seq<Flagged>, category: string): Entry -> bool {
    (e: Entry) => !IsDeadPair(dead, category, e.endpoint.address)
  }

  ghost function PairsRemoved(apis: Apis, dead: seq<Flagged>): Apis {
    map cat | cat in apis :: Filter(apis[cat], SparedPair(dead, cat))
  }

  lemma CategoriesHaveNoBar(check: string)
    ensures CheckCategory(check).Some? ==> '|' !in CheckCategory(check).value
  {
  }

  lemma KeyMeansPair(dead: seq<Flagged>, category: string, address: string)
    requires '|' !in category
    ensures ApiKey(category, address) in DeadKeys(dead) <==> IsDeadPair(dead, category, address)
  {
    if ApiKey(category, address) in DeadKeys(dead) {
      var f :| f in dead && CheckCategory(f.check).Some? && ApiKey(CheckCategory(f.check).value, f.address) == ApiKey(category, address);
      CategoriesHaveNoBar(f.check);
      JoinInjective(CheckCategory(f.check).value, f.address, category, address, '|');
    }
  }

  lemma BarCategoriesHaveNoDeadPairs(dead: seq<Flagged>, category: string, address: string)
    requires '|' in category
    ensures !IsDeadPair(dead, category, address)
  {
    if f :| f in dead && CheckCategory(f.check) == Some(category) && f.address == address {
      CategoriesHaveNoBar(f.check);
      assert false;
    }
  }

  // No entry under a category with a bar in its name spells one of the dead keys.
  ghost predicate NoCollision(apis: Apis, keys: set<string>) {
    forall cat :: cat in apis ==> Unambiguous(cat, apis[cat], keys)
  }

  ghost predicate Unambiguous(category: string, entries: seq<Entry>, keys: set<string>) {
    '|' in category ==> forall e :: e in entries ==> !Hit(category, keys)(e)
  }

  lemma CategoryIsPairFilter(entries: seq<Entry>, category: string, dead: seq<Flagged>)
    ensures Filter(entries, Spared(category, DeadKeys(dead))) == Filter(entries, SparedPair(dead, category)) <==>
      Unambiguous(category, entries, DeadKeys(dead))
  {
    var spared, pairs := Spared(category, DeadKeys(dead)), SparedPair(dead, category);
    if '|' !in category {
      forall e | e in entries ensures spared(e) == pairs(e) {
        KeyMeansPair(dead, category, e.endpoint.address);
      }
      FilterCongruent(entries, spared, pairs);
    } else {
      forall e | e in entries ensures pairs(e) {
        BarCategoriesHaveNoDeadPairs(dead, category, e.endpoint.address);
      }
      AllKept(entries, pairs);
      if forall e :: e in entries ==> !Hit(category, DeadKeys(dead))(e) {
        AllKept(entries, spared);
      } else {
        var e :| e in entries && Hit(category, DeadKeys(dead))(e);
        assert e !in Filter(entries, spared);
      }
    }
  }

  // The edit removes exactly the entries of the dead (category, address) pairs, and nothing from
  // any other category -- exactly when no such collision occurs.
  lemma EditIsPairFilter(apis: Apis, dead: seq<Flagged>)
    ensures Edited(apis, DeadKeys(dead)) == PairsRemoved(apis, dead) <==> NoCollision(apis, DeadKeys(dead))
  {
    var a, b := Edited(apis, DeadKeys(dead)), PairsRemoved(apis, dead);
    forall cat | cat in apis ensures a[cat] == b[cat] <==> Unambiguous(cat, apis[cat], DeadKeys(dead)) {
      CategoryIsPairFilter(apis[cat], cat, dead);
    }
    SameLists(a, b);
  }

  lemma SameLists(a: Apis, b: Apis)
    requires a.Keys == b.Keys
    ensures a == b <==> forall cat :: cat in a ==> a[cat] == b[cat]
  {
  }

  // A collision: removing the RPC "x|y" also removes "y" from a category called "rpc|x".
  lemma BarCollides(rpc: Entry, bystander: Entry, f: Flagged)
    requires rpc.endpoint.address == f.address == "x|y" && f.check == RPC_LIVENESS
    requires bystander.endpoint.address == "y"
    ensures var apis := map["rpc" := [rpc], "rpc|x" := [bystander]];
      Edited(apis, DeadKeys([f])) == map["rpc" := [], "rpc|x" := []] && PairsRemoved(apis, [f])["rpc|x"] == [bystander]
  {
    var apis := map["rpc" := [rpc], "rpc|x" := [bystander]];
    assert "rpc|x" + "|" + "y" == "rpc" + "|" + "x|y";
    assert f in [f];
    assert ApiKey("rpc", "x|y") in DeadKeys([f]);
    assert Hit("rpc|x", DeadKeys([f]))(bystander) && Hit("rpc", DeadKeys([f]))(rpc);
    BarCategoriesHaveNoDeadPairs([f], "rpc|x", "y");
    assert [bystander][1..] == [];
  }
}
