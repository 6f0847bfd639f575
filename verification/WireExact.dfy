// What the wire format's consuming functions accept, and nothing else.
module WireExact {
  import opened Wire

  // ---------------------------------------------------------------- varints

  // The value of n bytes, seven bits each, least significant first.
  function Digits(b: Bytes, n: nat): nat
    requires n <= |b|
  {
    if n == 0 then 0 else b[0] % 128 + 128 * Digits(b[1..], n - 1)
  }

  // n bytes of which all but the last carry the continuation bit, starting with the i-th of a varint.
  ghost predicate SpellsFrom(b: Bytes, n: nat, i: nat) {
    && 1 <= n <= |b| && i + n <= 10
    && (forall j :: 0 <= j < n - 1 ==> b[j] >= 128)
    && b[n - 1] < (if i + n == 10 then 2 else 128)
  }

  lemma {:induction false} SpelledIsRead(b: Bytes, n: nat, i: nat)
    requires i <= 9 && SpellsFrom(b, n, i)
    ensures VarintFrom(b, i) == Done(Digits(b, n), n)
    decreases n
  {
    if n > 1 {
      assert SpellsFrom(b[1..], n - 1, i + 1);
      SpelledIsRead(b[1..], n - 1, i + 1);
    } else {
      assert Digits(b[1..], 0) == 0;
    }
  }

  lemma {:induction false} ReadIsSpelled(b: Bytes, i: nat)
    requires i <= 9 && VarintFrom(b, i).Done?
    ensures SpellsFrom(b, VarintFrom(b, i).n, i)
    decreases 9 - i
  {
    if i < 9 && b[0] >= 128 {
      ReadIsSpelled(b[1..], i + 1);
      var n := VarintFrom(b[1..], i + 1).n;
      forall j | 0 <= j < n ensures b[j] >= 128 {
        if j > 0 {
          assert b[j] == b[1..][j - 1];
        }
      }
    }
  }

  ghost predicate Continued(b: Bytes, k: nat) {
    k <= |b| && forall j :: 0 <= j < k ==> b[j] >= 128
  }

  lemma ContinuedStep(b: Bytes, k: nat)
    requires b != []
    ensures Continued(b, k + 1) <==> b[0] >= 128 && Continued(b[1..], k)
  {
    if b[0] >= 128 && Continued(b[1..], k) {
      forall j | 0 <= j < k + 1 ensures b[j] >= 128 {
        if j > 0 {
          assert b[j] == b[1..][j - 1];
        }
      }
    }
    if Continued(b, k + 1) {
      assert forall j :: 0 <= j < k ==> b[1..][j] == b[j + 1];
    }
  }

  lemma {:induction false} OverflowFrom(b: Bytes, i: nat)
    requires i <= 9
    ensures VarintFrom(b, i) == Failed(Overflow) <==> Continued(b, 9 - i) && |b| + i >= 10 && b[9 - i] >= 2
    decreases 9 - i
  {
    if b != [] && i < 9 {
      OverflowFrom(b[1..], i + 1);
      ContinuedStep(b, 8 - i);
    }
  }

  // A varint is read exactly when it is spelled in at most ten bytes, the tenth at most 1, and its
  // value is that of its seven-bit digits; it overflows exactly when the tenth byte is larger.
  lemma VarintIsExact(b: Bytes)
    ensures forall v, n :: ConsumeVarint(b) == Done(v, n) <==> SpellsFrom(b, n, 0) && v == Digits(b, n)
    ensures ConsumeVarint(b) == Failed(Overflow) <==> Continued(b, 9) && |b| >= 10 && b[9] >= 2
  {
    OverflowFrom(b, 0);
    if ConsumeVarint(b).Done? {
      ReadIsSpelled(b, 0);
    }
    forall v, n ensures ConsumeVarint(b) == Done(v, n) <==> SpellsFrom(b, n, 0) && v == Digits(b, n) {
      if SpellsFrom(b, n, 0) {
        SpelledIsRead(b, n, 0);
      }
      if ConsumeVarint(b).Done? {
        SpelledIsRead(b, ConsumeVarint(b).n, 0);
      }
    }
  }

  // ---------------------------------------------------------------- tags and groups

  // A tag is accepted exactly when its field number lies between 1 and the largest 32-bit int.
  lemma TagIsExact(v: nat, tail: Bytes)
    requires v <= MAX_UINT64
    ensures ConsumeTag(AppendVarint(v) + tail).Done? <==> 1 <= v / 8 <= 0x7fff_ffff
    ensures ConsumeTag(AppendVarint(v) + tail).Done? ==>
      ConsumeTag(AppendVarint(v) + tail) == Done(Tag(v / 8, v % 8), |AppendVarint(v)|)
    ensures ConsumeTag(AppendVarint(v) + tail).Failed? ==> ConsumeTag(AppendVarint(v) + tail) == Failed(FieldNumber)
  {
    VarintRoundTrip(v, tail);
  }

  // A stray group end and the two unassigned wire types are errors, whatever follows.
  lemma StrayKindsFail(num: nat, b: Bytes)
    ensures ConsumeFieldValue(Tag(num, 4), b) == Failed(EndGroup)
    ensures ConsumeFieldValue(Tag(num, 6), b) == Failed(Reserved)
    ensures ConsumeFieldValue(Tag(num, 7), b) == Failed(Reserved)
  {
  }

  lemma {:induction false} WrongEndAtOnce(num: nat, other: nat, tail: Bytes, depth: int)
    requires 1 <= other <= MAX_INT32 && other != num
    ensures SkipGroup(num, AppendTag(Tag(other, END_GROUP)) + tail, depth) == Failed(EndGroup)
  {
    TagRoundTrip(Tag(other, END_GROUP), tail);
  }

  lemma {:induction false} GroupEndsLater(num: nat, b: Bytes, depth: int, tag: Tag, n: nat, m: nat, after: Bytes)
    requires ConsumeTag(b) == Done(tag, n) && tag.kind != END_GROUP
    requires SkipValue(tag.num, tag.kind, b[n..], depth - 1) == Done((), m)
    requires n + m <= |b| && b[n + m..] == after && SkipGroup(num, after, depth) == Failed(EndGroup)
    ensures SkipGroup(num, b, depth) == Failed(EndGroup)
  {
    GroupStep(num, b, depth, tag, n, m);
  }

  lemma {:induction false} EndsAsTheRest(num: nat, f: Field, after: Bytes, depth: int)
    requires WellFormed(f) && Nesting(f) <= depth && SkipGroup(num, after, depth) == Failed(EndGroup)
    requires SkipValue(f.num, KindOf(f), EncodeValue(f) + after, depth - 1) == Done((), |EncodeValue(f)|)
    ensures SkipGroup(num, AppendTag(Tag(f.num, KindOf(f))) + (EncodeValue(f) + after), depth) == Failed(EndGroup)
  {
    var tag := Tag(f.num, KindOf(f));
    var b := AppendTag(tag) + (EncodeValue(f) + after);
    FieldConsumed(f, after, depth - 1);
    GroupEndsLater(num, b, depth, tag, |AppendTag(tag)|, |EncodeValue(f)|, after);
  }

  // A group must be closed by its own number.
  lemma WrongEndFails(num: nat, other: nat, fields: seq<Field>, tail: Bytes, depth: int)
    requires 1 <= other <= MAX_INT32 && other != num && NestingOf(fields) <= depth
    requires forall g :: g in fields ==> WellFormed(g)
    ensures SkipGroup(num, EncodeAll(fields) + (AppendTag(Tag(other, 4)) + tail), depth) == Failed(EndGroup)
  {
    WrongEndAtOnce(num, other, tail, depth);
    EndsBehindFields(num, fields, AppendTag(Tag(other, END_GROUP)) + tail, depth);
  }

  lemma {:induction false} EndsBehindField(num: nat, fields: seq<Field>, rest: Bytes, depth: int)
    requires fields != [] && WellFormed(fields[0]) && Nesting(fields[0]) <= depth
    requires SkipGroup(num, EncodeAll(fields[1..]) + rest, depth) == Failed(EndGroup)
    ensures SkipGroup(num, EncodeAll(fields) + rest, depth) == Failed(EndGroup)
  {
    var after := EncodeAll(fields[1..]) + rest;
    SkipsValue(fields[0], after, depth - 1);
    EndsAsTheRest(num, fields[0], after, depth);
    FirstField(fields, rest);
  }

  lemma {:induction false} EndsBehindFields(num: nat, fields: seq<Field>, rest: Bytes, depth: int)
    requires NestingOf(fields) <= depth && forall g :: g in fields ==> WellFormed(g)
    requires SkipGroup(num, rest, depth) == Failed(EndGroup)
    ensures SkipGroup(num, EncodeAll(fields) + rest, depth) == Failed(EndGroup)
  {
    if fields == [] {
      assert EncodeAll(fields) + rest == rest;
    } else {
      assert fields[0] in fields;
      EndsBehindFields(num, fields[1..], rest, depth);
      EndsBehindField(num, fields, rest, depth);
    }
  }
}
