// internal/github/client.go, NextBranchN: the number of the next PR branch of a chain.
module Branches {
  import opened Options
  import opened GoStrings

  const MAX_INT: int := 0x7fff_ffff_ffff_ffff
  const MIN_INT: int := -0x8000_0000_0000_0000

  // ---------------------------------------------------------------- strconv

  predicate Digit(c: char) {
    '0' <= c <= '9'
  }

  predicate Digits(s: string) {
    forall i :: 0 <= i < |s| ==> Digit(s[i])
  }

  function Value(s: string): nat
    requires Digits(s)
  {
    if s == "" then 0 else 10 * Value(s[..|s| - 1]) + (s[|s| - 1] as int - '0' as int)
  }

  predicate Signed(s: string) {
    s != "" && (s[0] == '-' || s[0] == '+')
  }

  // strconv.Atoi: an optional sign, at least one digit, in the range of a 64-bit int.
  function Atoi(s: string): (r: Option<int>)
    ensures r.Some? ==> MIN_INT <= r.value <= MAX_INT
  {
    var digits := if Signed(s) then s[1..] else s;
    if digits == "" || !Digits(digits) then None
    else
      var n: int := if s[0] == '-' then 0 - (Value(digits) as int) else Value(digits);
      if MIN_INT <= n <= MAX_INT then Some(n) else None
  }

  function DigitOf(d: nat): char
    requires d < 10
  {
    ('0' as int + d) as char
  }

  function Decimal(n: nat): (s: string)
    ensures s != "" && Digits(s)
  {
    if n < 10 then [DigitOf(n)] else Decimal(n / 10) + [DigitOf(n % 10)]
  }

  // How %d prints an int.
  function Itoa(n: int): string {
    if n < 0 then "-" + Decimal(-n) else Decimal(n)
  }

  lemma {:induction false} ValueOfDecimal(n: nat)
    ensures Value(Decimal(n)) == n
  {
    var s := Decimal(n);
    if n >= 10 {
      ValueOfDecimal(n / 10);
      assert s[..|s| - 1] == Decimal(n / 10);
    } else {
      assert s[..0] == "";
    }
  }

  lemma {:induction false} AtoiOfNatural(n: nat)
    requires n <= MAX_INT
    ensures Atoi(Decimal(n)) == Some(n)
  {
    ValueOfDecimal(n);
    assert Digit(Decimal(n)[0]);
  }

  lemma {:induction false} AtoiOfNegative(n: nat)
    requires n <= -MIN_INT
    ensures Atoi("-" + Decimal(n)) == Some(-(n as int))
  {
    ValueOfDecimal(n);
    assert ("-" + Decimal(n))[1..] == Decimal(n);
  }

  lemma {:induction false} AtoiInvertsItoa(n: int)
    requires MIN_INT <= n <= MAX_INT
    ensures Atoi(Itoa(n)) == Some(n)
  {
    if n < 0 {
      AtoiOfNegative(-n);
    } else {
      AtoiOfNatural(n);
    }
  }

  ghost predicate Spells(s: string, digits: string, n: int) {
    && digits != "" && Digits(digits)
    && ((s == digits && n == Value(digits)) || (s == "+" + digits && n == Value(digits)) || (s == "-" + digits && n == -(Value(digits) as int)))
  }

  // Exactly the strings of digits with at most one sign are numbers, if they fit into 64 bits.
  lemma AtoiIsExact(s: string, n: int)
    ensures Atoi(s) == Some(n) <==>
      -0x8000_0000_0000_0000 <= n <= 0x7fff_ffff_ffff_ffff && exists digits :: Spells(s, digits, n)
  {
    if Atoi(s) == Some(n) {
      var digits := if Signed(s) then s[1..] else s;
      assert Signed(s) ==> s == [s[0]] + s[1..];
      assert s[0] == '-' ==> Signed(s);
      assert Spells(s, digits, n);
    }
    if digits :| Spells(s, digits, n) {
      assert Digit(digits[0]);
      assert ("+" + digits)[1..] == digits && ("-" + digits)[1..] == digits;
    }
  }

  // Zero-padded suffixes are read as the same number.
  lemma LeadingZero(s: string)
    requires s != "" && Digits(s)
    ensures Atoi("0" + s) == Atoi(s)
  {
    var z := "0" + s;
    assert z[1..] == s;
    forall i | 0 <= i < |z| ensures Digit(z[i]) {
      if i > 0 {
        assert z[i] == s[i - 1];
      }
    }
    ZeroAddsNothing(s);
    assert Digit(s[0]);
  }

  lemma {:induction false} ZeroAddsNothing(s: string)
    requires Digits(s) && Digits("0" + s)
    ensures Value("0" + s) == Value(s)
  {
    var z := "0" + s;
    if s == "" {
      assert z[..0] == "";
    } else {
      assert z[..|z| - 1] == "0" + s[..|s| - 1];
      ZeroAddsNothing(s[..|s| - 1]);
    }
  }

  // ---------------------------------------------------------------- NextBranchN

  function Prefix(chain: string): string {
    "refs/heads/sentinel/" + chain + "-"
  }

  function RefName(chain: string, n: int): string {
    Prefix(chain) + Itoa(n)
  }

  // The number a ref counts for, if any.
  function Number(chain: string, ref: string): Option<int> {
    Atoi(TrimPrefix(ref, Prefix(chain)))
  }

  function Highest(chain: string, refs: seq<string>): (r: int)
    ensures 0 <= r <= MAX_INT
  {
    if refs == [] then 0
    else
      var before, n := Highest(chain, refs[..|refs| - 1]), Number(chain, refs[|refs| - 1]);
      if n.Some? && n.value > before then n.value else before
  }

  // int addition wraps around.
  function Increment(n: int): int {
    if n == MAX_INT then MIN_INT else n + 1
  }

  function Next(chain: string, refs: seq<string>): int {
    Increment(Highest(chain, refs))
  }

  method NextBranchN(chain: string, refs: seq<string>) returns (n: int)
    ensures n == Next(chain, refs)
  {
    var prefix := "refs/heads/sentinel/" + chain + "-";
    var maxN := 0;
    for i := 0 to |refs|
      invariant maxN == Highest(chain, refs[..i])
    {
      assert refs[..i + 1][..i] == refs[..i];
      var suffix := TrimPrefix(refs[i], prefix);
      var parsed := Atoi(suffix);
      if parsed.None? {
        continue;
      }
      if parsed.value > maxN {
        maxN := parsed.value;
      }
    }
    assert refs[..|refs|] == refs;
    return Increment(maxN);
  }

  // ---------------------------------------------------------------- freshness

  lemma {:induction false} HighestBounds(chain: string, refs: seq<string>, ref: string)
    requires ref in refs && Number(chain, ref).Some?
    ensures Number(chain, ref).value <= Highest(chain, refs)
  {
    if ref != refs[|refs| - 1] {
      HighestBounds(chain, refs[..|refs| - 1], ref);
    }
  }

  lemma {:induction false} HighestIsReached(chain: string, refs: seq<string>)
    ensures Highest(chain, refs) == 0 || exists ref :: ref in refs && Number(chain, ref) == Some(Highest(chain, refs))
  {
    if refs != [] {
      HighestIsReached(chain, refs[..|refs| - 1]);
      if Number(chain, refs[|refs| - 1]) != Some(Highest(chain, refs)) && Highest(chain, refs) != 0 {
        var ref :| ref in refs[..|refs| - 1] && Number(chain, ref) == Some(Highest(chain, refs));
        assert ref in refs;
      }
    }
  }

  lemma NumberOfRefName(chain: string, n: int)
    requires MIN_INT <= n <= MAX_INT
    ensures Number(chain, RefName(chain, n)) == Some(n)
  {
    assert RefName(chain, n)[|Prefix(chain)|..] == Itoa(n);
    AtoiInvertsItoa(n);
  }

  // The proposed branch does not exist yet, whatever else is among the refs: unless some ref
  // already carries the largest int, where the number wraps around, and the wrapped name exists.
  lemma BranchIsFresh(chain: string, refs: seq<string>)
    ensures RefName(chain, Next(chain, refs)) !in refs <==>
      !((exists ref :: ref in refs && Number(chain, ref) == Some(MAX_INT)) && RefName(chain, MIN_INT) in refs)
  {
    NumberOfRefName(chain, Next(chain, refs));
    HighestIsReached(chain, refs);
    if RefName(chain, Next(chain, refs)) in refs {
      HighestBounds(chain, refs, RefName(chain, Next(chain, refs)));
    }
    if ref :| ref in refs && Number(chain, ref) == Some(MAX_INT) {
      HighestBounds(chain, refs, ref);
    }
  }

  // The next number is 1 when no ref carries a positive one, and otherwise exactly one more than the
  // largest that some ref carries.
  lemma NextIsOneMore(chain: string, refs: seq<string>)
    requires forall ref :: ref in refs ==> Number(chain, ref) != Some(MAX_INT)
    ensures 1 <= Next(chain, refs)
    ensures Next(chain, refs) == 1 || exists ref :: ref in refs && Number(chain, ref) == Some(Next(chain, refs) - 1)
    ensures forall ref :: ref in refs && Number(chain, ref).Some? ==> Number(chain, ref).value < Next(chain, refs)
  {
    HighestIsReached(chain, refs);
    forall ref | ref in refs && Number(chain, ref).Some? ensures Number(chain, ref).value <= Highest(chain, refs) {
      HighestBounds(chain, refs, ref);
    }
  }

  // A history of calls for one chain in which every branch created so far is still listed.
  ghost predicate OnlyAdded(chain: string, history: seq<seq<string>>) {
    forall i, j :: 0 <= i < j < |history| ==> RefName(chain, Next(chain, history[i])) in history[j]
  }

  // Branch numbers only go up, as long as none has reached the largest int.
  lemma NumbersIncrease(chain: string, history: seq<seq<string>>, i: nat, j: nat)
    requires OnlyAdded(chain, history) && i < j < |history|
    requires Highest(chain, history[j]) < MAX_INT
    ensures Next(chain, history[i]) < Next(chain, history[j])
  {
    NumberOfRefName(chain, Next(chain, history[i]));
    HighestBounds(chain, history[j], RefName(chain, Next(chain, history[i])));
  }

  // Before the wrap, branches of different names or numbers never coincide: the endpoint, hash and
  // status flows of one chain, which use the names c, c-hash and c-status, stay apart.
  lemma RefNamesDiffer(c: string, n: nat, d: string, m: nat)
    requires n <= MAX_INT && m <= MAX_INT && RefName(c, n) == RefName(d, m)
    ensures c == d && n == m
  {
    DashBoundsPrefix(c, n, d, m);
    DashBoundsPrefix(d, m, c, n);
    var k := |Prefix(c)|;
    assert RefName(c, n)[..k] == Prefix(c) && RefName(d, m)[..k] == Prefix(d);
    assert Prefix(c)[|"refs/heads/sentinel/"|..k - 1] == c && Prefix(d)[|"refs/heads/sentinel/"|..k - 1] == d;
    NumberOfRefName(c, n);
    NumberOfRefName(d, m);
  }

  lemma DashBoundsPrefix(c: string, n: nat, d: string, m: nat)
    requires RefName(c, n) == RefName(d, m)
    ensures |Prefix(d)| <= |Prefix(c)|
  {
    DigitsFollow(c, n);
    assert RefName(d, m)[|Prefix(d)| - 1] == '-' && !Digit('-');
  }

  lemma DigitsFollow(c: string, n: nat)
    ensures forall k :: |Prefix(c)| <= k < |RefName(c, n)| ==> Digit(RefName(c, n)[k])
  {
    assert RefName(c, n)[|Prefix(c)|..] == Decimal(n);
    forall k | |Prefix(c)| <= k < |RefName(c, n)| ensures Digit(RefName(c, n)[k]) {
      assert RefName(c, n)[k] == Decimal(n)[k - |Prefix(c)|];
    }
  }
}
