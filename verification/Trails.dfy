// Runs on a timeline: the hits since the latest reset. Both kinds of streak are specified as such.
module Trails {

  // The first run after the latest one, before run n, that resets.
  function Since(resets: nat -> bool, n: nat): nat {
    if n == 0 then 0 else if resets(n - 1) then n else Since(resets, n - 1)
  }

  // The runs in [from, to) that hit.
  function Hits(hits: nat -> bool, from: nat, to: nat): seq<nat> {
    if to <= from then []
    else Hits(hits, from, to - 1) + (if hits(to - 1) then [to - 1] else [])
  }

  function Trail(resets: nat -> bool, hits: nat -> bool, n: nat): seq<nat> {
    Hits(hits, Since(resets, n), n)
  }

  ghost predicate Quiet(resets: nat -> bool, from: nat, n: nat) {
    forall m: nat :: from <= m < n ==> !resets(m)
  }

  lemma {:induction false} SinceMeans(resets: nat -> bool, n: nat)
    ensures Since(resets, n) <= n
    ensures forall j: nat :: j <= n ==> (Quiet(resets, j, n) <==> Since(resets, n) <= j)
  {
    if n > 0 {
      SinceMeans(resets, n - 1);
      forall j: nat | j <= n ensures Quiet(resets, j, n) <==> Since(resets, n) <= j {
        if j < n {
          assert Quiet(resets, j, n) <==> Quiet(resets, j, n - 1) && !resets(n - 1);
        }
      }
    }
  }

  ghost predicate Ascending(runs: seq<nat>) {
    forall a, b :: 0 <= a < b < |runs| ==> runs[a] < runs[b]
  }

  lemma {:induction false} HitsMean(hits: nat -> bool, from: nat, to: nat)
    ensures forall j: nat :: j in Hits(hits, from, to) <==> from <= j < to && hits(j)
    ensures Ascending(Hits(hits, from, to))
  {
    if to > from {
      HitsMean(hits, from, to - 1);
      var before := Hits(hits, from, to - 1);
      forall a | 0 <= a < |before| ensures before[a] < to - 1 {
        assert before[a] in before;
      }
    }
  }

  // A trail lists, in order, exactly the hits that no later run resets.
  lemma TrailMeans(resets: nat -> bool, hits: nat -> bool, n: nat)
    ensures Ascending(Trail(resets, hits, n))
    ensures forall j: nat :: j in Trail(resets, hits, n) <==> j < n && hits(j) && Quiet(resets, j, n)
  {
    SinceMeans(resets, n);
    HitsMean(hits, Since(resets, n), n);
  }

  lemma TrailStep(resets: nat -> bool, hits: nat -> bool, i: nat)
    ensures Trail(resets, hits, i + 1) ==
      if resets(i) then []
      else Trail(resets, hits, i) + (if hits(i) then [i] else [])
  {
    SinceMeans(resets, i);
  }
}
