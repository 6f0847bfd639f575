// Filtering, counting and summing: the vocabulary in which the loops below are specified.
module Seqs {

  function Filter<T(!new)>(s: seq<T>, keep: T -> bool): (r: seq<T>)
    ensures forall x :: x in r <==> x in s && keep(x)
    ensures |r| <= |s|
  {
    if s == [] then []
    else (if keep(s[0]) then [s[0]] else []) + Filter(s[1..], keep)
  }

  lemma {:induction false} FilterAppend<T(!new)>(a: seq<T>, b: seq<T>, keep: T -> bool)
    ensures Filter(a + b, keep) == Filter(a, keep) + Filter(b, keep)
  {
    if a == [] {
      assert a + b == b;
    } else {
      assert (a + b)[1..] == a[1..] + b;
      FilterAppend(a[1..], b, keep);
    }
  }

  lemma FilterSnoc<T(!new)>(a: seq<T>, x: T, keep: T -> bool)
    ensures Filter(a + [x], keep) == Filter(a, keep) + (if keep(x) then [x] else [])
  {
    FilterAppend(a, [x], keep);
  }

  lemma FilterNext<T(!new)>(s: seq<T>, i: nat, keep: T -> bool)
    requires i < |s|
    ensures Filter(s[..i + 1], keep) == if keep(s[i]) then Filter(s[..i], keep) + [s[i]] else Filter(s[..i], keep)
  {
    assert s[..i + 1] == s[..i] + [s[i]];
    FilterSnoc(s[..i], s[i], keep);
  }

  lemma {:induction false} FilterCongruent<T(!new)>(s: seq<T>, p: T -> bool, q: T -> bool)
    requires forall x :: x in s ==> p(x) == q(x)
    ensures Filter(s, p) == Filter(s, q)
  {
    if s != [] {
      FilterCongruent(s[1..], p, q);
    }
  }

  function Count<T(!new)>(s: seq<T>, p: T -> bool): nat {
    if s == [] then 0
    else (if p(s[0]) then 1 else 0) + Count(s[1..], p)
  }

  lemma {:induction false} CountAppend<T(!new)>(a: seq<T>, b: seq<T>, p: T -> bool)
    ensures Count(a + b, p) == Count(a, p) + Count(b, p)
  {
    if a == [] {
      assert a + b == b;
    } else {
      assert (a + b)[1..] == a[1..] + b;
      CountAppend(a[1..], b, p);
    }
  }

  lemma CountSnoc<T(!new)>(a: seq<T>, x: T, p: T -> bool)
    ensures Count(a + [x], p) == Count(a, p) + (if p(x) then 1 else 0)
  {
    CountAppend(a, [x], p);
  }

  lemma {:induction false} CountPositive<T(!new)>(s: seq<T>, p: T -> bool)
    ensures Count(s, p) > 0 <==> exists x :: x in s && p(x)
  {
    if s != [] {
      CountPositive(s[1..], p);
      assert forall x :: x in s <==> x == s[0] || x in s[1..];
    }
  }

  lemma {:induction false} CountCongruent<T(!new)>(s: seq<T>, p: T -> bool, q: T -> bool)
    requires forall x :: x in s ==> p(x) == q(x)
    ensures Count(s, p) == Count(s, q)
  {
    if s != [] {
      CountCongruent(s[1..], p, q);
    }
  }

  lemma {:induction false} CountFilter<T(!new)>(s: seq<T>, keep: T -> bool, p: T -> bool, both: T -> bool)
    requires forall x :: x in s ==> (both(x) <==> keep(x) && p(x))
    ensures Count(Filter(s, keep), p) == Count(s, both)
  {
    if s != [] {
      CountFilter(s[1..], keep, p, both);
      CountAppend(if keep(s[0]) then [s[0]] else [], Filter(s[1..], keep), p);
    }
  }

  // Counting a split: q and its complement within p.
  lemma {:induction false} CountSplit<T(!new)>(s: seq<T>, p: T -> bool, q: T -> bool, r: T -> bool)
    requires forall x :: x in s ==> (p(x) <==> q(x) || r(x)) && !(q(x) && r(x))
    ensures Count(s, p) == Count(s, q) + Count(s, r)
  {
    if s != [] {
      CountSplit(s[1..], p, q, r);
    }
  }

  function RemoveAt<T(!new)>(s: seq<T>, i: nat): seq<T>
    requires i < |s|
  {
    s[..i] + s[i + 1..]
  }

  lemma RemoveAtMultiset<T(!new)>(s: seq<T>, i: nat)
    requires i < |s|
    ensures multiset(RemoveAt(s, i)) == multiset(s) - multiset{s[i]}
  {
    assert s == s[..i] + ([s[i]] + s[i + 1..]);
  }

  lemma CountRemoveAt<T(!new)>(s: seq<T>, i: nat, p: T -> bool)
    requires i < |s|
    ensures Count(s, p) == Count(RemoveAt(s, i), p) + (if p(s[i]) then 1 else 0)
  {
    assert s == s[..i] + ([s[i]] + s[i + 1..]);
    CountAppend(s[..i], [s[i]] + s[i + 1..], p);
    CountAppend([s[i]], s[i + 1..], p);
    CountAppend(s[..i], s[i + 1..], p);
  }

  // Counting does not depend on the order of arrival.
  lemma {:induction false} CountPermutation<T(!new)>(a: seq<T>, b: seq<T>, p: T -> bool)
    requires multiset(a) == multiset(b)
    ensures Count(a, p) == Count(b, p)
  {
    PermutationMembers(a, b);
    if a != [] {
      assert a[0] in b;
      var i :| 0 <= i < |b| && b[i] == a[0];
      RemoveAtMultiset(a, 0);
      RemoveAtMultiset(b, i);
      assert RemoveAt(a, 0) == a[1..];
      CountPermutation(a[1..], RemoveAt(b, i), p);
      CountRemoveAt(b, i, p);
    }
  }

  lemma PermutationMembers<T(!new)>(a: seq<T>, b: seq<T>)
    requires multiset(a) == multiset(b)
    ensures |a| == |b|
    ensures forall x :: x in a <==> x in b
  {
    assert |multiset(a)| == |a| && |multiset(b)| == |b|;
    forall x ensures x in a <==> x in b {
      assert x in a <==> x in multiset(a);
      assert x in b <==> x in multiset(b);
    }
  }

  predicate NoDuplicates<T(==,!new)>(s: seq<T>) {
    forall i, j :: 0 <= i < j < |s| ==> s[i] != s[j]
  }

  lemma PairOccurs<T(!new)>(s: seq<T>, i: nat, j: nat)
    requires i < j < |s|
    ensures multiset(s)[s[i]] >= if s[i] == s[j] then 2 else 1
  {
    assert s == s[..i] + [s[i]] + s[i + 1..j] + [s[j]] + s[j + 1..];
  }

  // A sequence with the multiset of a set lists that set, each member once.
  lemma ListingMembers<T(!new)>(s: seq<T>, all: set<T>)
    requires multiset(s) == multiset(all)
    ensures NoDuplicates(s)
    ensures forall x :: x in s <==> x in all
    ensures |s| == |all|
  {
    assert |multiset(s)| == |s| && |multiset(all)| == |all|;
    forall x ensures x in s <==> x in all {
      assert x in s <==> x in multiset(s);
      assert x in all <==> x in multiset(all);
    }
    forall i, j | 0 <= i < j < |s| ensures s[i] != s[j] {
      PairOccurs(s, i, j);
      assert multiset(all)[s[i]] <= 1;
    }
  }

  // One more element of todo handled, in a loop that visits a set in any order.
  lemma MinusStep<K(!new)>(goal: set<K>, todo: set<K>, k: K)
    requires k in todo
    ensures goal - (todo - {k}) == (goal - todo) + (if k in goal then {k} else {})
    ensures |goal - (todo - {k})| == |goal - todo| + (if k in goal then 1 else 0)
    ensures multiset(goal - (todo - {k})) == multiset(goal - todo) + (if k in goal then multiset{k} else multiset{})
  {
    var before := goal - todo;
    if k in goal {
      assert goal - (todo - {k}) == before + {k};
    } else {
      assert goal - (todo - {k}) == before;
    }
  }

  // Sum of f over a finite set, in any order.
  ghost function SumOver<K(!new)>(keys: set<K>, f: K -> nat): nat {
    if keys == {} then 0
    else
      var k :| k in keys;
      f(k) + SumOver(keys - {k}, f)
  }

  lemma SumOverEmpty<K(!new)>(keys: set<K>, f: K -> nat)
    requires |keys| == 0
    ensures SumOver(keys, f) == 0
  {
    assert keys == {};
  }

  lemma {:induction false} SumOverRemove<K(!new)>(keys: set<K>, k: K, f: K -> nat)
    requires k in keys
    ensures SumOver(keys, f) == f(k) + SumOver(keys - {k}, f)
  {
    var j :| j in keys && SumOver(keys, f) == f(j) + SumOver(keys - {j}, f);
    if j != k {
      SumOverRemove(keys - {j}, k, f);
      SumOverRemove(keys - {k}, j, f);
      assert keys - {j} - {k} == keys - {k} - {j};
    }
  }

  lemma {:induction false} SumOverCongruent<K(!new)>(keys: set<K>, f: K -> nat, g: K -> nat)
    requires forall k :: k in keys ==> f(k) == g(k)
    ensures SumOver(keys, f) == SumOver(keys, g)
  {
    if keys != {} {
      var k :| k in keys;
      SumOverRemove(keys, k, f);
      SumOverRemove(keys, k, g);
      SumOverCongruent(keys - {k}, f, g);
    }
  }

  lemma {:induction false} SumOverAdd<K(!new)>(keys: set<K>, f: K -> nat, g: K -> nat, h: K -> nat)
    requires forall k :: k in keys ==> h(k) == f(k) + g(k)
    ensures SumOver(keys, h) == SumOver(keys, f) + SumOver(keys, g)
  {
    if keys != {} {
      var k :| k in keys;
      SumOverRemove(keys, k, f);
      SumOverRemove(keys, k, g);
      SumOverRemove(keys, k, h);
      SumOverAdd(keys - {k}, f, g, h);
    }
  }
}
