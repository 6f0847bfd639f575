// sort.Strings and sort.Slice: the same elements, no inversions. Where the order is total the
// result is unique, whatever order a map iteration produced.
module Sorting {

  ghost predicate WeakOrder<T(!new)>(before: (T, T) -> bool) {
    && (forall a, b :: before(a, b) ==> !before(b, a))
    && (forall a, b, c :: !before(b, a) && !before(c, b) ==> !before(c, a))
  }

  ghost predicate Total<T(!new)>(before: (T, T) -> bool) {
    forall a, b :: before(a, b) || a == b || before(b, a)
  }

  ghost predicate TotalOn<T(!new)>(s: seq<T>, before: (T, T) -> bool) {
    forall a, b :: a in s && b in s ==> before(a, b) || a == b || before(b, a)
  }

  predicate NoInversion<T(!new)>(s: seq<T>, before: (T, T) -> bool) {
    forall i, j :: 0 <= i < j < |s| ==> !before(s[j], s[i])
  }

  function Insert<T(!new)>(s: seq<T>, x: T, before: (T, T) -> bool): (r: seq<T>)
    ensures multiset(r) == multiset(s) + multiset{x}
  {
    if s == [] then [x]
    else if before(x, s[0]) then [x] + s
    else
      assert s == [s[0]] + s[1..];
      [s[0]] + Insert(s[1..], x, before)
  }

  function Sort<T(!new)>(s: seq<T>, before: (T, T) -> bool): (r: seq<T>)
    ensures multiset(r) == multiset(s)
  {
    if s == [] then []
    else
      assert s == [s[0]] + s[1..];
      Insert(Sort(s[1..], before), s[0], before)
  }

  lemma {:induction false} InsertKeepsOrder<T(!new)>(s: seq<T>, x: T, before: (T, T) -> bool)
    requires WeakOrder(before) && NoInversion(s, before)
    ensures NoInversion(Insert(s, x, before), before)
  {
    if s != [] {
      var r := Insert(s, x, before);
      if before(x, s[0]) {
        forall j | 1 <= j < |r| ensures !before(r[j], x) {
          assert r[j] == s[j - 1];
        }
      } else {
        InsertKeepsOrder(s[1..], x, before);
        var t := Insert(s[1..], x, before);
        forall j | 0 <= j < |t| ensures !before(t[j], s[0]) {
          assert t[j] in multiset(t);
          if t[j] != x {
            assert t[j] in s[1..];
          }
        }
      }
    }
  }

  lemma {:induction false} SortSorts<T(!new)>(s: seq<T>, before: (T, T) -> bool)
    requires WeakOrder(before)
    ensures NoInversion(Sort(s, before), before)
  {
    if s != [] {
      SortSorts(s[1..], before);
      InsertKeepsOrder(Sort(s[1..], before), s[0], before);
    }
  }

  lemma TailMultiset<T(!new)>(s: seq<T>)
    requires s != []
    ensures multiset(s[1..]) == multiset(s) - multiset{s[0]}
  {
    assert s == [s[0]] + s[1..];
  }

  lemma TailSorted<T(!new)>(s: seq<T>, before: (T, T) -> bool)
    requires s != [] && NoInversion(s, before)
    ensures NoInversion(s[1..], before)
    ensures TotalOn(s, before) ==> TotalOn(s[1..], before)
  {
  }

  lemma SameHead<T(!new)>(a: seq<T>, b: seq<T>, before: (T, T) -> bool)
    requires WeakOrder(before) && TotalOn(a, before)
    requires a != [] && b != [] && NoInversion(a, before) && NoInversion(b, before) && multiset(a) == multiset(b)
    ensures a[0] == b[0]
  {
    HeadsAgree(a, b, before);
    HeadsAgree(b, a, before);
  }

  lemma {:induction false} SortedIsUnique<T(!new)>(a: seq<T>, b: seq<T>, before: (T, T) -> bool)
    requires WeakOrder(before) && TotalOn(a, before)
    requires NoInversion(a, before) && NoInversion(b, before)
    requires multiset(a) == multiset(b)
    ensures a == b
  {
    assert |a| == |multiset(a)| == |multiset(b)| == |b|;
    if a != [] {
      SameHead(a, b, before);
      TailMultiset(a);
      TailMultiset(b);
      TailSorted(a, before);
      TailSorted(b, before);
      SortedIsUnique(a[1..], b[1..], before);
      SameHeadSameTail(a, b);
    }
  }

  lemma SameHeadSameTail<T(!new)>(a: seq<T>, b: seq<T>)
    requires a != [] && b != [] && a[0] == b[0] && a[1..] == b[1..]
    ensures a == b
  {
    assert a == [a[0]] + a[1..] && b == [b[0]] + b[1..];
  }

  lemma HeadsAgree<T(!new)>(a: seq<T>, b: seq<T>, before: (T, T) -> bool)
    requires WeakOrder(before)
    requires a != [] && b != [] && NoInversion(a, before) && multiset(a) == multiset(b)
    ensures b[0] in a && !before(b[0], a[0])
  {
    assert b[0] in multiset(a);
    var i :| 0 <= i < |a| && a[i] == b[0];
  }
}
