// What every answer of the decoder means, in terms of the fields the bytes hold.
module NodeInfoExact {
  import opened Wire
  import opened NodeInfo

  // The length of the leading field; 0 when there is none to skip, because the bytes are malformed or
  // start with the length-delimited field num.
  function LeadingField(b: Bytes, num: nat): (r: nat)
    ensures r <= |b|
  {
    if ConsumeTag(b).Failed? || ConsumeTag(b).value == Tag(num, 2) then 0
    else
      var value := ConsumeFieldValue(ConsumeTag(b).value, b[ConsumeTag(b).n..]);
      if value.Failed? then 0 else ConsumeTag(b).n + value.n
  }

  // Skipping whole fields from the front, none of them length-delimited with number num, ends at k.
  ghost predicate Reaches(b: Bytes, num: nat, k: nat)
    decreases |b|
  {
    k == 0 || (0 < LeadingField(b, num) <= k && Reaches(b[LeadingField(b, num)..], num, k - LeadingField(b, num)))
  }

  ghost predicate AllSkipped(b: Bytes, num: nat) {
    Reaches(b, num, |b|)
  }

  // The bytes start with the length-delimited field num with content v.
  ghost predicate StartsWith(b: Bytes, num: nat, v: Bytes) {
    && ConsumeTag(b).Done? && ConsumeTag(b).value == Tag(num, 2)
    && ConsumeBytes(b[ConsumeTag(b).n..]).Done? && ConsumeBytes(b[ConsumeTag(b).n..]).value == v
  }

  // It stands at k, behind skipped fields.
  ghost predicate StandsAt(b: Bytes, num: nat, v: Bytes, k: nat) {
    k <= |b| && Reaches(b, num, k) && StartsWith(b[k..], num, v)
  }

  ghost predicate Holds(b: Bytes, num: nat, v: Bytes) {
    exists k: nat :: StandsAt(b, num, v, k)
  }

  // One skipped field moves the search behind it.
  lemma {:induction false} FindSkipsLeading(b: Bytes, num: nat)
    requires LeadingField(b, num) > 0
    ensures Find(b, num) == Shift(LeadingField(b, num), Find(b[LeadingField(b, num)..], num))
  {
    var tag, n := ConsumeTag(b).value, ConsumeTag(b).n;
    FindSkips(b, num, tag, n, ConsumeFieldValue(tag, b[n..]).n);
  }

  lemma DropTwice(b: Bytes, i: nat, k: nat)
    requires i <= k <= |b|
    ensures b[i..][k - i..] == b[k..]
  {
  }

  lemma {:induction false} ReachesBehind(b: Bytes, num: nat, n: nat, k: nat)
    requires n == LeadingField(b, num) > 0 && Reaches(b[n..], num, k)
    ensures Reaches(b, num, n + k)
  {
    assert n + k - n == k;
  }

  lemma {:induction false} StandsBehind(b: Bytes, num: nat, v: Bytes, n: nat, k: nat)
    requires n == LeadingField(b, num) > 0 && k <= |b[n..]| && Reaches(b[n..], num, k) && StartsWith(b[n..][k..], num, v)
    ensures StandsAt(b, num, v, n + k)
  {
    ReachesBehind(b, num, n, k);
    DropTwice(b, n, n + k);
    SameStart(b[n..][k..], b[n + k..], num, v);
  }

  lemma SameStart(b: Bytes, c: Bytes, num: nat, v: Bytes)
    requires b == c && StartsWith(b, num, v)
    ensures StartsWith(c, num, v)
  {
  }

  lemma {:induction false} FoundStands(b: Bytes, num: nat)
    requires Find(b, num).Found?
    ensures Holds(b, num, Find(b, num).value)
    decreases |b|
  {
    FindStops(b, num);
    if LeadingField(b, num) == 0 {
      assert b[0..] == b;
      assert StandsAt(b, num, Find(b, num).value, 0);
    } else {
      var rest := b[LeadingField(b, num)..];
      FindSkipsLeading(b, num);
      FoundStands(rest, num);
      var k: nat :| StandsAt(rest, num, Find(rest, num).value, k);
      StandsBehind(b, num, Find(b, num).value, LeadingField(b, num), k);
    }
  }

  lemma {:induction false} AbsentIsSkipped(b: Bytes, num: nat)
    requires Find(b, num).Absent?
    ensures AllSkipped(b, num)
    decreases |b|
  {
    if b != [] {
      FindStops(b, num);
      FindSkipsLeading(b, num);
      AbsentIsSkipped(b[LeadingField(b, num)..], num);
    }
  }

  // The search passes whatever is reached.
  lemma {:induction false} FindPasses(b: Bytes, num: nat, k: nat)
    requires k <= |b| && Reaches(b, num, k)
    ensures Find(b, num) == Shift(k, Find(b[k..], num))
    decreases |b|
  {
    if k == 0 {
      assert b[0..] == b;
    } else {
      var n := LeadingField(b, num);
      DropTwice(b, n, k);
      FindPasses(b[n..], num, k - n);
      FindSkipsLeading(b, num);
    }
  }

  // The search is exact: it finds the field that stands behind skipped ones, finds nothing when
  // everything is skipped, and fails otherwise.
  lemma FindIsExact(b: Bytes, num: nat)
    ensures forall v :: Holds(b, num, v) <==> Find(b, num).Found? && Find(b, num).value == v
    ensures AllSkipped(b, num) <==> Find(b, num).Absent?
  {
    if AllSkipped(b, num) {
      FindPasses(b, num, |b|);
    }
    if Find(b, num).Absent? {
      AbsentIsSkipped(b, num);
    }
    forall v ensures Holds(b, num, v) <==> Find(b, num).Found? && Find(b, num).value == v {
      if k: nat :| StandsAt(b, num, v, k) {
        FindPasses(b, num, k);
        FindStops(b[k..], num);
      }
      if Find(b, num).Found? {
        FoundStands(b, num);
      }
    }
  }

  // The node info decodes to a network exactly when field 4 stands behind skipped fields, to "no
  // network" exactly when every field is skipped, and to a parse error otherwise.
  lemma InnerIsExact(b: Bytes)
    ensures forall t :: DecodeInner(b) == Network(t) <==> Holds(b, 4, t)
    ensures DecodeInner(b) == NoNetwork <==> AllSkipped(b, 4)
    ensures DecodeInner(b).ParseError? <==> !AllSkipped(b, 4) && forall t :: !Holds(b, 4, t)
  {
    FindIsExact(b, 4);
    if Find(b, 4).Found? {
      assert Holds(b, 4, Find(b, 4).value);
    }
  }

  lemma OuterFound(b: Bytes, e: Bytes)
    requires Holds(b, 1, e)
    ensures Decode(b) == DecodeInner(e)
  {
    FindIsExact(b, 1);
  }

  // A response decodes to a network exactly when field 1 stands behind skipped fields and its
  // content holds field 4 behind skipped fields; the two "not found" answers are as exact.
  lemma DecodeIsExact(b: Bytes)
    ensures forall t :: Decode(b) == Network(t) <==> exists e :: Holds(b, 1, e) && Holds(e, 4, t)
    ensures Decode(b) == NoNetwork <==> exists e :: Holds(b, 1, e) && AllSkipped(e, 4)
    ensures Decode(b) == NoNodeInfo <==> AllSkipped(b, 1)
  {
    FindIsExact(b, 1);
    if Find(b, 1).Found? {
      var e := Find(b, 1).value;
      assert Holds(b, 1, e) && forall x :: Holds(b, 1, x) <==> x == e;
      OuterFound(b, e);
      InnerIsExact(e);
    }
  }

  // ---------------------------------------------------------------- encoded responses without a network

  lemma {:induction false} UnknownIsAbsent(fields: seq<Field>, num: nat)
    requires Unknown(fields, num)
    ensures Find(EncodeAll(fields), num).Absent?
  {
    FindPassesFields(fields, num, []);
    assert EncodeAll(fields) + [] == EncodeAll(fields);
  }

  // A server that leaves the network, or the whole node info, unset is told so.
  lemma UnsetIsReported(outer: seq<Field>, inner: seq<Field>, tail: Bytes)
    requires Unknown(outer, 1) && Unknown(inner, 4) && |EncodeAll(inner)| <= MAX_UINT64
    ensures DecodeInner(EncodeAll(inner)) == NoNetwork
    ensures Decode(EncodeAll(outer) + (Record(1, EncodeAll(inner)) + tail)) == NoNetwork
    ensures Decode(EncodeAll(outer)) == NoNodeInfo
  {
    UnknownIsAbsent(inner, 4);
    UnknownIsAbsent(outer, 1);
    PassesThenFinds(outer, 1, EncodeAll(inner), tail);
  }
}
