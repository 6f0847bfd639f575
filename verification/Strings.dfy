// The few operations of Go's strings package that the sentinel relies on, over sequences of
// characters, and Go's byte-wise string order.
module GoStrings {

  datatype CutResult = CutResult(before: string, after: string, found: bool)

  predicate HasSuffix(s: string, suffix: string) {
    |suffix| <= |s| && s[|s| - |suffix|..] == suffix
  }

  predicate HasPrefix(s: string, prefix: string) {
    prefix <= s
  }

  // strings.TrimPrefix
  function TrimPrefix(s: string, prefix: string): string {
    if prefix <= s then s[|prefix|..] else s
  }

  // strings.Cut with a one-character separator: split at the FIRST occurrence.
  function Cut(s: string, sep: char): (r: CutResult)
    ensures r.found <==> sep in s
    ensures r.found ==> s == r.before + [sep] + r.after && sep !in r.before
    ensures !r.found ==> r.before == s && r.after == ""
  {
    if s == "" then CutResult("", "", false)
    else if s[0] == sep then CutResult("", s[1..], true)
    else
      var rest := Cut(s[1..], sep);
      CutResult([s[0]] + rest.before, rest.after, rest.found)
  }

  // A joined pair determines its parts as soon as the first parts are free of the separator.
  lemma {:induction false} JoinInjective(a: string, b: string, c: string, d: string, sep: char)
    requires sep !in a && sep !in c
    requires a + [sep] + b == c + [sep] + d
    ensures a == c && b == d
  {
    var s, t := a + [sep] + b, c + [sep] + d;
    assert s[0] == if a == "" then sep else a[0];
    assert t[0] == if c == "" then sep else c[0];
    if a == "" {
      assert s[1..] == b && t[1..] == d;
    } else {
      assert s[1..] == a[1..] + [sep] + b && t[1..] == c[1..] + [sep] + d;
      JoinInjective(a[1..], b, c[1..], d, sep);
    }
  }

  // Go's < on strings.
  predicate Less(a: string, b: string) {
    b != "" && (a == "" || a[0] < b[0] || (a[0] == b[0] && Less(a[1..], b[1..])))
  }

  lemma {:induction false} LessTotal(a: string, b: string)
    ensures Less(a, b) || a == b || Less(b, a)
    ensures !(Less(a, b) && Less(b, a))
    ensures !Less(a, a)
  {
    if a != "" {
      LessTotal(a[1..], a[1..]);
      if b != "" && a[0] == b[0] {
        LessTotal(a[1..], b[1..]);
        if a[1..] == b[1..] {
          assert a == [a[0]] + a[1..] && b == [b[0]] + b[1..];
        }
      }
    }
  }

  lemma {:induction false} LessTransitive(a: string, b: string, c: string)
    requires Less(a, b) && Less(b, c)
    ensures Less(a, c)
  {
    if a != "" && a[0] == b[0] && b[0] == c[0] {
      LessTransitive(a[1..], b[1..], c[1..]);
    }
  }

  lemma SuffixMeans(s: string, suffix: string)
    ensures HasSuffix(s, suffix) <==> exists front: string :: s == front + suffix
  {
    if HasSuffix(s, suffix) {
      assert s == s[..|s| - |suffix|] + suffix;
    }
  }

  lemma PrefixMeans(s: string, prefix: string)
    ensures HasPrefix(s, prefix) <==> exists rest: string :: s == prefix + rest
    ensures forall rest: string :: s == prefix + rest ==> TrimPrefix(s, prefix) == rest
    ensures (forall rest: string :: s != prefix + rest) ==> TrimPrefix(s, prefix) == s
  {
    if HasPrefix(s, prefix) {
      assert s == prefix + s[|prefix|..];
    }
  }

  // a comes before b in a dictionary: they agree up to k, where a ends or has the smaller character.
  ghost predicate SmallerAt(a: string, b: string, k: nat) {
    && k <= |a| && k < |b| && a[..k] == b[..k]
    && (k == |a| || a[k] < b[k])
  }

  lemma {:induction false} LessMeans(a: string, b: string)
    ensures Less(a, b) <==> exists k: nat :: SmallerAt(a, b, k)
  {
    if a != "" && b != "" && a[0] == b[0] {
      LessMeans(a[1..], b[1..]);
      if k: nat :| SmallerAt(a[1..], b[1..], k) {
        SmallerLater(a, b, k);
      }
      if k: nat :| SmallerAt(a, b, k) {
        assert k > 0;
        assert a[1..][..k - 1] == a[..k][1..] && b[1..][..k - 1] == b[..k][1..];
        assert SmallerAt(a[1..], b[1..], k - 1);
      }
    } else {
      if Less(a, b) {
        assert SmallerAt(a, b, 0);
      }
      if k: nat :| SmallerAt(a, b, k) {
        FirstsAgree(a, b, k);
      }
    }
  }

  lemma FirstsAgree(a: string, b: string, k: nat)
    requires SmallerAt(a, b, k)
    ensures k > 0 ==> a != "" && b != "" && a[0] == b[0]
  {
    if k > 0 {
      assert a[..k][0] == a[0] && b[..k][0] == b[0];
    }
  }

  lemma SmallerLater(a: string, b: string, k: nat)
    requires a != "" && b != "" && a[0] == b[0] && SmallerAt(a[1..], b[1..], k)
    ensures SmallerAt(a, b, k + 1)
  {
    assert a[..k + 1] == [a[0]] + a[1..][..k] && b[..k + 1] == [b[0]] + b[1..][..k];
  }
}
