// internal/report/render.go: the dominant failure class, domains by a key, and the top-k shares.
module Concentration {
  import opened GoStrings
  import opened Seqs
  import opened Sorting
  import opened Percentages
  import opened ChainDeath
  import opened Aggregation

  // ---------------------------------------------------------------- dominant class

  // The most frequent class among the given ones, the smallest name on a tie; none when every
  // count is zero.
  ghost predicate IsDominant(classes: map<string, nat>, among: set<string>, c: string, n: nat) {
    && (if n == 0 then c == "" else c in among && c in classes && classes[c] == n)
    && forall d :: d in among && d in classes ==> classes[d] <= n && (classes[d] == n && n > 0 ==> !Less(d, c))
  }

  lemma DominantIsUnique(classes: map<string, nat>, among: set<string>, c: string, n: nat, d: string, k: nat)
    requires IsDominant(classes, among, c, n) && IsDominant(classes, among, d, k)
    ensures c == d && n == k
  {
    LessTotal(c, d);
  }

  lemma DominantStep(classes: map<string, nat>, among: set<string>, c: string, n: nat, d: string)
    requires IsDominant(classes, among, c, n) && d in classes
    ensures
      var m := classes[d];
      if m > n || (m == n && Less(d, c)) then IsDominant(classes, among + {d}, d, m)
      else IsDominant(classes, among + {d}, c, n)
  {
    StringOrder();
  }

  // For any iteration order over the map, the same class comes out.
  method Dominant(classes: map<string, nat>) returns (c: string, n: nat)
    ensures IsDominant(classes, classes.Keys, c, n)
  {
    c, n := "", 0;
    var todo := classes.Keys;
    while todo != {}
      invariant todo <= classes.Keys
      invariant IsDominant(classes, classes.Keys - todo, c, n)
      decreases todo
    {
      var d :| d in todo;
      var m := classes[d];
      DominantStep(classes, classes.Keys - todo, c, n, d);
      assert classes.Keys - (todo - {d}) == classes.Keys - todo + {d};
      todo := todo - {d};
      if m > n || (m == n && Less(d, c)) {
        c, n := d, m;
      }
    }
    assert classes.Keys - todo == classes.Keys;
  }

  // ---------------------------------------------------------------- domains by a key

  type Key = string -> nat

  function Larger(key: Key): (string, string) -> bool {
    (a: string, b: string) => key(a) > key(b) || (key(a) == key(b) && Less(a, b))
  }

  lemma LargerOrders(key: Key)
    ensures WeakOrder(Larger(key)) && Total(Larger(key))
  {
    StringOrder();
  }

  // Every name once, largest key first, ties by name.
  ghost predicate Ranks(names: seq<string>, all: set<string>, key: Key) {
    multiset(names) == multiset(all) && NoInversion(names, Larger(key))
  }

  lemma RankingIsUnique(a: seq<string>, b: seq<string>, all: set<string>, key: Key)
    requires Ranks(a, all, key) && Ranks(b, all, key)
    ensures a == b
  {
    LargerOrders(key);
    SortedIsUnique(a, b, Larger(key));
  }

  lemma RanksMeans(names: seq<string>, all: set<string>, key: Key)
    requires Ranks(names, all, key)
    ensures forall i, j :: 0 <= i < j < |names| ==>
      key(names[i]) > key(names[j]) || (key(names[i]) == key(names[j]) && Less(names[i], names[j]))
  {
    ListingMembers(names, all);
    forall i, j | 0 <= i < j < |names|
      ensures key(names[i]) > key(names[j]) || (key(names[i]) == key(names[j]) && Less(names[i], names[j]))
    {
      assert !Larger(key)(names[j], names[i]);
      LessTotal(names[i], names[j]);
    }
  }

  method SortedDomains(t: Totals, key: Key) returns (names: seq<string>)
    ensures Ranks(names, t.domains.Keys, key)
    ensures forall i, j :: 0 <= i < j < |names| ==>
      key(names[i]) > key(names[j]) || (key(names[i]) == key(names[j]) && Less(names[i], names[j]))
  {
    names := [];
    var todo := t.domains.Keys;
    while todo != {}
      invariant todo <= t.domains.Keys
      invariant multiset(names) == multiset(t.domains.Keys - todo)
      decreases todo
    {
      var d :| d in todo;
      MinusStep(t.domains.Keys, todo, d);
      todo := todo - {d};
      names := names + [d];
    }
    assert t.domains.Keys - todo == t.domains.Keys;
    LargerOrders(key);
    SortSorts(names, Larger(key));
    names := Sort(names, Larger(key));
    RanksMeans(names, t.domains.Keys, key);
  }

  // ---------------------------------------------------------------- the k worst domains

  function Cumulative(names: seq<string>, key: Key): nat {
    if names == [] then 0 else Cumulative(names[..|names| - 1], key) + key(names[|names| - 1])
  }

  // What the k largest entries add up to: some k-element subset reaches it and none exceeds it.
  ghost predicate IsTopSum(all: set<string>, key: Key, k: nat, sum: nat) {
    && (exists s :: s <= all && |s| == k && SumOver(s, key) == sum)
    && (forall s :: s <= all && |s| == k ==> SumOver(s, key) <= sum)
  }

  function Members(xs: seq<string>): set<string> {
    set x | x in xs
  }

  lemma OneMoreMember(s: set<string>, x: string, key: Key)
    requires x !in s
    ensures |s + {x}| == |s| + 1 && SumOver(s + {x}, key) == SumOver(s, key) + key(x)
  {
    SumOverRemove(s + {x}, x, key);
    assert s + {x} - {x} == s;
  }

  lemma PrefixStep(names: seq<string>, key: Key, k: nat)
    requires 0 < k <= |names|
    ensures Members(names[..k]) == Members(names[..k - 1]) + {names[k - 1]}
    ensures Cumulative(names[..k], key) == Cumulative(names[..k - 1], key) + key(names[k - 1])
    ensures NoDuplicates(names) ==> names[k - 1] !in Members(names[..k - 1])
  {
    assert names[..k] == names[..k - 1] + [names[k - 1]];
    assert names[..k][..k - 1] == names[..k - 1];
  }

  lemma {:induction false} PrefixIsASet(names: seq<string>, key: Key, k: nat)
    requires k <= |names| && NoDuplicates(names)
    ensures |Members(names[..k])| == k && SumOver(Members(names[..k]), key) == Cumulative(names[..k], key)
  {
    if k == 0 {
      assert |Members(names[..k])| == 0;
      SumOverEmpty(Members(names[..k]), key);
    } else {
      PrefixIsASet(names, key, k - 1);
      PrefixStep(names, key, k);
      OneMoreMember(Members(names[..k - 1]), names[k - 1], key);
    }
  }

  lemma NoLargerBehind(names: seq<string>, key: Key, i: nat, j: nat)
    requires NoInversion(names, Larger(key)) && i <= j < |names|
    ensures key(names[j]) <= key(names[i])
  {
    if i < j {
      assert !Larger(key)(names[j], names[i]);
    }
  }

  lemma OneMoreBounded(names: seq<string>, key: Key, s: set<string>, j: nat)
    requires NoInversion(names, Larger(key)) && 0 < |s| <= |names| && |s| - 1 <= j < |names| && names[j] in s
    requires SumOver(s - {names[j]}, key) <= Cumulative(names[..|s| - 1], key)
    ensures SumOver(s, key) <= Cumulative(names[..|s|], key)
  {
    SumOverRemove(s, names[j], key);
    PrefixStep(names, key, |s|);
    NoLargerBehind(names, key, |s| - 1, j);
  }

  // Exchange argument: drop from s its worst-placed member; it sits at position |s| - 1 or later.
  lemma {:induction false} NoSetBeatsThePrefix(names: seq<string>, key: Key, s: set<string>)
    requires NoInversion(names, Larger(key))
    requires forall x :: x in s ==> x in names
    requires |s| <= |names|
    ensures SumOver(s, key) <= Cumulative(names[..|s|], key)
  {
    if |s| == 0 {
      SumOverEmpty(s, key);
    } else {
      var j := DeepMember(names, s);
      NoSetBeatsThePrefix(names, key, s - {names[j]});
      OneMoreBounded(names, key, s, j);
    }
  }

  lemma DeepMember(names: seq<string>, s: set<string>) returns (j: nat)
    requires s != {} && forall x :: x in s ==> x in names
    ensures |s| - 1 <= j < |names| && names[j] in s
  {
    var front := names[..if |s| - 1 < |names| then |s| - 1 else |names|];
    var prefix := Members(front);
    PrefixIsSmall(front);
    if s <= prefix {
      SubsetIsSmaller(s, prefix);
      assert false;
    }
    var x :| x in s && x !in prefix;
    j :| 0 <= j < |names| && names[j] == x;
    assert forall i :: 0 <= i < |front| ==> front[i] == names[i] && front[i] in prefix;
  }

  lemma {:induction false} PrefixIsSmall(xs: seq<string>)
    ensures |Members(xs)| <= |xs|
  {
    if xs != [] {
      PrefixIsSmall(xs[1..]);
      assert Members(xs) == Members(xs[1..]) + {xs[0]};
    }
  }

  lemma SubsetIsSmaller(a: set<string>, b: set<string>)
    requires a <= b
    ensures |a| <= |b|
  {
    assert b == a + (b - a);
  }

  lemma TopIsOptimal(names: seq<string>, all: set<string>, key: Key, k: nat)
    requires Ranks(names, all, key) && k <= |names|
    ensures IsTopSum(all, key, k, Cumulative(names[..k], key))
  {
    ListingMembers(names, all);
    PrefixIsASet(names, key, k);
    var best := Members(names[..k]);
    assert best <= all && |best| == k && SumOver(best, key) == Cumulative(names[..k], key);
    forall s | s <= all && |s| == k ensures SumOver(s, key) <= Cumulative(names[..k], key) {
      NoSetBeatsThePrefix(names, key, s);
    }
  }

  function DeadIn(t: Totals): Key {
    (d: string) => var a := DomainFor(t, d); if a.live <= a.total then a.total - a.live else 0
  }

  datatype Share = Share(top: int, dead: nat, percent: real)

  const SHARES: seq<int> := [10, 25, 50]

  ghost predicate TopShare(t: Totals, s: Share) {
    && s.top >= 0 && IsTopSum(t.domains.Keys, DeadIn(t), s.top, s.dead)
    && s.percent == Percent(s.dead, t.endpoints - t.live)
  }

  function ShareOf(t: Totals, top: int, dead: nat): Share {
    Share(top, dead, Percent(dead, t.endpoints - t.live))
  }

  lemma PrefixIsTop(t: Totals, names: seq<string>, k: nat)
    requires Ranks(names, t.domains.Keys, DeadIn(t)) && k <= |names|
    ensures TopShare(t, ShareOf(t, k, Cumulative(names[..k], DeadIn(t))))
  {
    TopIsOptimal(names, t.domains.Keys, DeadIn(t), k);
  }

  function Threshold(k: int, domains: nat): seq<int> {
    if k <= domains then [k] else []
  }

  // The thresholds that the given number of domains reaches, ascending.
  function Reached(domains: nat): seq<int> {
    Threshold(10, domains) + Threshold(25, domains) + Threshold(50, domains)
  }

  function Tops(parts: seq<Share>): seq<int> {
    if parts == [] then [] else Tops(parts[..|parts| - 1]) + [parts[|parts| - 1].top]
  }

  // "top k: ... of all dead endpoints", for every threshold that many domains exist for: each
  // figure is the most that any k domains have dead between them, with its share of all dead.
  method RenderConcentration(t: Totals) returns (parts: seq<Share>)
    ensures var n := |t.domains.Keys|;
      Tops(parts) == (if 10 <= n then [10] else []) + (if 25 <= n then [25] else []) + (if 50 <= n then [50] else [])
    ensures forall s :: s in parts ==> TopShare(t, s)
  {
    var names := SortedDomains(t, DeadIn(t));
    ListingMembers(names, t.domains.Keys);
    parts := [];
    var cum := 0;
    for i := 0 to |names|
      invariant cum == Cumulative(names[..i], DeadIn(t))
      invariant Tops(parts) == Reached(i)
      invariant forall s :: s in parts ==> TopShare(t, s)
    {
      assert names[..i + 1][..i] == names[..i];
      cum := cum + DeadIn(t)(names[i]);
      PrefixIsTop(t, names, i + 1);
      ReachedStep(i + 1);
      parts := AddShares(parts, ShareOf(t, i + 1, cum));
    }
  }

  // The inner loop over the thresholds.
  method AddShares(parts: seq<Share>, s: Share) returns (more: seq<Share>)
    ensures more == if s.top in SHARES then parts + [s] else parts
    ensures Tops(more) == if s.top in SHARES then Tops(parts) + [s.top] else Tops(parts)
  {
    more := parts;
    for i := 0 to |SHARES|
      invariant more == if s.top in SHARES[..i] then parts + [s] else parts
    {
      assert SHARES[..i + 1] == SHARES[..i] + [SHARES[i]];
      if s.top == SHARES[i] {
        more := more + [s];
      }
    }
    assert SHARES[..|SHARES|] == SHARES;
  }

  lemma ReachedStep(n: nat)
    requires n > 0
    ensures Reached(n) == if n in SHARES then Reached(n - 1) + [n] else Reached(n - 1)
  {
    assert n in SHARES <==> n == 10 || n == 25 || n == 50;
  }
}
