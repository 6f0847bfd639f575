// The protobuf wire format ("Encoding": "Base 128 Varints", "Message Structure", "Length-Delimited
// Records"), consumed from the front of a byte sequence as the Go protowire package does.
module Wire {

  type byte = x: int | 0 <= x < 256

  type Bytes = seq<byte>

  datatype WireError = Truncated | FieldNumber | Overflow | Reserved | EndGroup | RecursionDepth

  datatype Consumed<+T> = Done(value: T, n: nat) | Failed(error: WireError)

  // ---------------------------------------------------------------- varints

  const MAX_UINT64: int := 0xffff_ffff_ffff_ffff

  // The i-th byte onwards; the tenth byte may only carry the 64th bit.
  function VarintFrom(b: Bytes, i: nat): (r: Consumed<nat>)
    requires i <= 9
    ensures r.Done? ==> 1 <= r.n <= |b| && r.n <= 10 - i
    decreases 9 - i
  {
    if b == [] then Failed(Truncated)
    else if i == 9 then (if b[0] < 2 then Done(b[0], 1) else Failed(Overflow))
    else if b[0] < 128 then Done(b[0], 1)
    else
      match VarintFrom(b[1..], i + 1)
      case Failed(e) => Failed(e)
      case Done(v, n) => Done(b[0] - 128 + 128 * v, n + 1)
  }

  function ConsumeVarint(b: Bytes): (r: Consumed<nat>)
    ensures r.Done? ==> 1 <= r.n <= |b|
  {
    VarintFrom(b, 0)
  }

  function AppendVarint(v: nat): Bytes {
    if v < 128 then [v] else [v % 128 + 128] + AppendVarint(v / 128)
  }

  // One more than the largest value the bytes from the i-th on can carry.
  function Limit(i: nat): nat
    requires i <= 9
    decreases 9 - i
  {
    if i == 9 then 2 else 128 * Limit(i + 1)
  }

  lemma LimitIsUint64()
    ensures Limit(0) == MAX_UINT64 + 1
  {
    assert Limit(8) == 256 && Limit(7) == 0x8000 && Limit(6) == 0x40_0000 && Limit(5) == 0x2000_0000;
    assert Limit(4) == 0x10_0000_0000 && Limit(3) == 0x800_0000_0000;
    assert Limit(2) == 0x4_0000_0000_0000 && Limit(1) == 0x200_0000_0000_0000;
  }

  lemma {:induction false} VarintRoundTripFrom(v: nat, i: nat, tail: Bytes)
    requires i <= 9 && v < Limit(i)
    ensures VarintFrom(AppendVarint(v) + tail, i) == Done(v, |AppendVarint(v)|)
    decreases 9 - i
  {
    var b := AppendVarint(v) + tail;
    if v >= 128 {
      assert i < 9;
      assert b[1..] == AppendVarint(v / 128) + tail;
      VarintRoundTripFrom(v / 128, i + 1, tail);
      assert v == v % 128 + 128 * (v / 128);
    }
  }

  lemma VarintRoundTrip(v: nat, tail: Bytes)
    requires v <= MAX_UINT64
    ensures ConsumeVarint(AppendVarint(v) + tail) == Done(v, |AppendVarint(v)|)
  {
    LimitIsUint64();
    VarintRoundTripFrom(v, 0, tail);
  }

  // A parse never looks past what it consumes.
  lemma {:induction false} VarintExtends(b: Bytes, c: Bytes, i: nat)
    requires b <= c && i <= 9 && VarintFrom(b, i).Done?
    ensures VarintFrom(c, i) == VarintFrom(b, i)
    decreases 9 - i
  {
    if i < 9 && b[0] >= 128 {
      VarintExtends(b[1..], c[1..], i + 1);
    }
  }

  // ---------------------------------------------------------------- tags and values

  const VARINT: nat := 0
  const FIXED64: nat := 1
  const BYTES: nat := 2
  const START_GROUP: nat := 3
  const END_GROUP: nat := 4
  const FIXED32: nat := 5

  const MAX_INT32: nat := 0x7fff_ffff
  const RECURSION_LIMIT: int := 10000

  datatype Tag = Tag(num: nat, kind: nat)

  function ConsumeTag(b: Bytes): (r: Consumed<Tag>)
    ensures r.Done? ==> 1 <= r.n <= |b|
  {
    match ConsumeVarint(b)
    case Failed(e) => Failed(e)
    case Done(v, n) =>
      if v / 8 > MAX_INT32 || v / 8 < 1 then Failed(FieldNumber) else Done(Tag(v / 8, v % 8), n)
  }

  function AppendTag(t: Tag): Bytes {
    AppendVarint(8 * t.num + t.kind)
  }

  function ConsumeBytes(b: Bytes): (r: Consumed<Bytes>)
    ensures r.Done? ==> 1 <= r.n <= |b| && |r.value| <= r.n
  {
    match ConsumeVarint(b)
    case Failed(e) => Failed(e)
    case Done(m, n) =>
      if m > |b| - n then Failed(Truncated) else Done(b[n..n + m], n + m)
  }

  function AppendBytes(v: Bytes): Bytes {
    AppendVarint(|v|) + v
  }

  function ConsumeFixed(b: Bytes, width: nat): Consumed<()> {
    if |b| < width then Failed(Truncated) else Done((), width)
  }

  // The length of a value that is not a group.
  function SkipSimple(kind: nat, b: Bytes): (r: Consumed<()>)
    ensures r.Done? ==> r.n <= |b|
  {
    if kind == VARINT then
      (match ConsumeVarint(b) case Failed(e) => Failed(e) case Done(_, n) => Done((), n))
    else if kind == FIXED32 then ConsumeFixed(b, 4)
    else if kind == FIXED64 then ConsumeFixed(b, 8)
    else if kind == BYTES then
      (match ConsumeBytes(b) case Failed(e) => Failed(e) case Done(_, n) => Done((), n))
    else if kind == END_GROUP then Failed(EndGroup)
    else Failed(Reserved)
  }

  function Advance(k: nat, r: Consumed<()>): Consumed<()> {
    if r.Done? then Done((), k + r.n) else r
  }

  // The length of one field's value; depth is how many more levels of groups may open.
  function SkipValue(num: nat, kind: nat, b: Bytes, depth: int): (r: Consumed<()>)
    ensures r.Done? ==> r.n <= |b|
    decreases |b|, 1
  {
    if kind != START_GROUP then SkipSimple(kind, b)
    else if depth < 0 then Failed(RecursionDepth)
    else SkipGroup(num, b, depth)
  }

  // The fields of a group up to and including its end tag.
  function SkipGroup(num: nat, b: Bytes, depth: int): (r: Consumed<()>)
    ensures r.Done? ==> r.n <= |b|
    decreases |b|, 0
  {
    match ConsumeTag(b)
    case Failed(e) => Failed(e)
    case Done(tag, n) =>
      if tag.kind == END_GROUP then (if tag.num != num then Failed(EndGroup) else Done((), n))
      else
        var value := SkipValue(tag.num, tag.kind, b[n..], depth - 1);
        if value.Failed? then value else Advance(n + value.n, SkipGroup(num, b[n + value.n..], depth))
  }

  function ConsumeFieldValue(tag: Tag, b: Bytes): (r: Consumed<()>)
    ensures r.Done? ==> r.n <= |b|
  {
    SkipValue(tag.num, tag.kind, b, RECURSION_LIMIT)
  }

  // ---------------------------------------------------------------- success extends

  // From here on b is a prefix of c: what b alone decides, c decides alike.
  lemma TagExtends(b: Bytes, c: Bytes)
    requires b <= c && ConsumeTag(b).Done?
    ensures ConsumeTag(c) == ConsumeTag(b)
  {
    VarintExtends(b, c, 0);
  }

  lemma BytesExtends(b: Bytes, c: Bytes)
    requires b <= c && ConsumeBytes(b).Done?
    ensures ConsumeBytes(c) == ConsumeBytes(b)
  {
    VarintExtends(b, c, 0);
    var r := ConsumeVarint(b);
    assert c[r.n..r.n + r.value] == b[r.n..r.n + r.value];
  }

  lemma PrefixSlice(b: Bytes, c: Bytes, n: nat)
    requires b <= c && n <= |b|
    ensures b[n..] <= c[n..]
  {
  }

  lemma {:induction false} ValueExtends(num: nat, kind: nat, b: Bytes, c: Bytes, depth: int)
    requires b <= c && SkipValue(num, kind, b, depth).Done?
    ensures SkipValue(num, kind, c, depth) == SkipValue(num, kind, b, depth)
    decreases |b|, 1
  {
    if kind == VARINT {
      VarintExtends(b, c, 0);
    } else if kind == BYTES {
      BytesExtends(b, c);
    } else if kind == START_GROUP {
      GroupExtends(num, b, c, depth);
    }
  }

  // The field that opens a group, and the rest of the group behind it.
  lemma {:induction false} GroupStep(num: nat, b: Bytes, depth: int, tag: Tag, n: nat, m: nat)
    requires ConsumeTag(b) == Done(tag, n) && tag.kind != END_GROUP
    requires SkipValue(tag.num, tag.kind, b[n..], depth - 1) == Done((), m)
    ensures n + m <= |b|
    ensures SkipGroup(num, b, depth) == Advance(n + m, SkipGroup(num, b[n + m..], depth))
  {
  }

  // Two inputs that open with the same field and agree behind it are skipped alike.
  lemma {:induction false} GroupStepAlike(num: nat, b: Bytes, c: Bytes, depth: int, tag: Tag, n: nat, m: nat)
    requires ConsumeTag(b) == Done(tag, n) == ConsumeTag(c) && tag.kind != END_GROUP
    requires SkipValue(tag.num, tag.kind, b[n..], depth - 1) == Done((), m)
    requires SkipValue(tag.num, tag.kind, c[n..], depth - 1) == Done((), m)
    requires n + m <= |b| && n + m <= |c|
    requires SkipGroup(num, b[n + m..], depth) == SkipGroup(num, c[n + m..], depth)
    ensures SkipGroup(num, b, depth) == SkipGroup(num, c, depth)
  {
    GroupStep(num, b, depth, tag, n, m);
    GroupStep(num, c, depth, tag, n, m);
  }

  lemma {:induction false} GroupStops(num: nat, b: Bytes, depth: int)
    ensures ConsumeTag(b).Failed? ==> SkipGroup(num, b, depth).Failed?
    ensures ConsumeTag(b).Done? && ConsumeTag(b).value.kind != END_GROUP ==>
      var tag := ConsumeTag(b).value;
      SkipValue(tag.num, tag.kind, b[ConsumeTag(b).n..], depth - 1).Failed? ==> SkipGroup(num, b, depth).Failed?
  {
  }

  lemma {:induction false} GroupParts(num: nat, b: Bytes, depth: int) returns (tag: Tag, n: nat, m: nat)
    requires SkipGroup(num, b, depth).Done? && ConsumeTag(b).value.kind != END_GROUP
    ensures ConsumeTag(b) == Done(tag, n) && 1 <= n
    ensures SkipValue(tag.num, tag.kind, b[n..], depth - 1) == Done((), m)
    ensures n + m <= |b| && SkipGroup(num, b[n + m..], depth).Done?
  {
    GroupStops(num, b, depth);
    tag, n := ConsumeTag(b).value, ConsumeTag(b).n;
    m := SkipValue(tag.num, tag.kind, b[n..], depth - 1).n;
    GroupStep(num, b, depth, tag, n, m);
  }

  lemma {:induction false} GroupExtends(num: nat, b: Bytes, c: Bytes, depth: int)
    requires b <= c && SkipGroup(num, b, depth).Done?
    ensures SkipGroup(num, c, depth) == SkipGroup(num, b, depth)
    decreases |b|, 0
  {
    TagExtends(b, c);
    if ConsumeTag(b).value.kind != END_GROUP {
      var tag, n, m := GroupParts(num, b, depth);
      PrefixSlice(b, c, n);
      PrefixSlice(b, c, n + m);
      ValueExtends(tag.num, tag.kind, b[n..], c[n..], depth - 1);
      GroupExtends(num, b[n + m..], c[n + m..], depth);
      GroupStepAlike(num, b, c, depth, tag, n, m);
    }
  }

  // ---------------------------------------------------------------- well-formed fields

  datatype Field =
    | Varint(num: nat, value: nat)
    | Fixed32(num: nat, raw: Bytes)
    | Fixed64(num: nat, raw: Bytes)
    | LengthDelimited(num: nat, payload: Bytes)
    | Group(num: nat, fields: seq<Field>)

  function KindOf(f: Field): nat {
    match f
    case Varint(_, _) => VARINT
    case Fixed32(_, _) => FIXED32
    case Fixed64(_, _) => FIXED64
    case LengthDelimited(_, _) => BYTES
    case Group(_, _) => START_GROUP
  }

  predicate WellFormed(f: Field) {
    && 1 <= f.num <= MAX_INT32
    && match f
       case Varint(_, v) => v <= MAX_UINT64
       case Fixed32(_, raw) => |raw| == 4
       case Fixed64(_, raw) => |raw| == 8
       case LengthDelimited(_, payload) => |payload| <= MAX_UINT64
       case Group(_, fields) => forall g :: g in fields ==> WellFormed(g)
  }

  // The deepest nesting of groups.
  function Nesting(f: Field): nat {
    if f.Group? then 1 + NestingOf(f.fields) else 0
  }

  function NestingOf(fields: seq<Field>): nat {
    if fields == [] then 0
    else if Nesting(fields[0]) > NestingOf(fields[1..]) then Nesting(fields[0])
    else NestingOf(fields[1..])
  }

  function EncodeValue(f: Field): Bytes
    decreases f, 0
  {
    match f
    case Varint(_, v) => AppendVarint(v)
    case Fixed32(_, raw) => raw
    case Fixed64(_, raw) => raw
    case LengthDelimited(_, payload) => AppendBytes(payload)
    case Group(num, fields) => EncodeAll(fields) + AppendTag(Tag(num, END_GROUP))
  }

  function Encode(f: Field): Bytes
    decreases f, 1
  {
    AppendTag(Tag(f.num, KindOf(f))) + EncodeValue(f)
  }

  function EncodeAll(fields: seq<Field>): Bytes
    decreases fields, 0
  {
    if fields == [] then [] else Encode(fields[0]) + EncodeAll(fields[1..])
  }

  lemma TagRoundTrip(tag: Tag, tail: Bytes)
    requires 1 <= tag.num <= MAX_INT32 && tag.kind < 8
    ensures ConsumeTag(AppendTag(tag) + tail) == Done(tag, |AppendTag(tag)|)
  {
    VarintRoundTrip(8 * tag.num + tag.kind, tail);
  }

  lemma BytesRoundTrip(v: Bytes, tail: Bytes)
    requires |v| <= MAX_UINT64
    ensures ConsumeBytes(AppendBytes(v) + tail) == Done(v, |AppendBytes(v)|)
  {
    VarintRoundTrip(|v|, v + tail);
    assert AppendBytes(v) + tail == AppendVarint(|v|) + (v + tail);
  }

  // Skipping a well-formed field's value consumes exactly that value, whatever follows.
  lemma {:induction false} SkipsValue(f: Field, tail: Bytes, depth: int)
    requires WellFormed(f) && Nesting(f) <= depth + 1
    ensures SkipValue(f.num, KindOf(f), EncodeValue(f) + tail, depth) == Done((), |EncodeValue(f)|)
    decreases f, 1
  {
    match f
    case Varint(_, v) => VarintRoundTrip(v, tail);
    case Fixed32(_, raw) =>
    case Fixed64(_, raw) =>
    case LengthDelimited(_, payload) => BytesRoundTrip(payload, tail);
    case Group(num, fields) =>
      SkipsGroup(num, fields, tail, depth);
      GroupValue(num, fields, tail);
  }

  lemma GroupValue(num: nat, fields: seq<Field>, tail: Bytes)
    ensures EncodeValue(Group(num, fields)) + tail == EncodeAll(fields) + (AppendTag(Tag(num, END_GROUP)) + tail)
    ensures |EncodeValue(Group(num, fields))| == |EncodeAll(fields)| + |AppendTag(Tag(num, END_GROUP))|
  {
  }

  lemma FirstField(fields: seq<Field>, rest: Bytes)
    requires fields != []
    ensures EncodeAll(fields) + rest
         == AppendTag(Tag(fields[0].num, KindOf(fields[0]))) + (EncodeValue(fields[0]) + (EncodeAll(fields[1..]) + rest))
  {
  }

  // What consuming one leading field leaves.
  lemma {:induction false} FieldConsumed(f: Field, after: Bytes, depth: int)
    requires WellFormed(f) && Nesting(f) <= depth + 1
    requires SkipValue(f.num, KindOf(f), EncodeValue(f) + after, depth) == Done((), |EncodeValue(f)|)
    ensures
      var b := AppendTag(Tag(f.num, KindOf(f))) + (EncodeValue(f) + after);
      var n := |AppendTag(Tag(f.num, KindOf(f)))|;
      && ConsumeTag(b) == Done(Tag(f.num, KindOf(f)), n)
      && SkipValue(f.num, KindOf(f), b[n..], depth) == Done((), |EncodeValue(f)|)
      && b[n + |EncodeValue(f)|..] == after
  {
    TagRoundTrip(Tag(f.num, KindOf(f)), EncodeValue(f) + after);
    var b := AppendTag(Tag(f.num, KindOf(f))) + (EncodeValue(f) + after);
    assert b[|AppendTag(Tag(f.num, KindOf(f)))|..] == EncodeValue(f) + after;
  }

  lemma EmptyGroup(num: nat, tail: Bytes, depth: int)
    requires 1 <= num <= MAX_INT32
    ensures SkipGroup(num, EncodeAll([]) + (AppendTag(Tag(num, END_GROUP)) + tail), depth) == Done((), |AppendTag(Tag(num, END_GROUP))|)
  {
    assert EncodeAll([]) + (AppendTag(Tag(num, END_GROUP)) + tail) == AppendTag(Tag(num, END_GROUP)) + tail;
    TagRoundTrip(Tag(num, END_GROUP), tail);
  }

  // One more field in front of a group whose rest is skipped in k bytes.
  lemma {:induction false} GroupGrows(num: nat, b: Bytes, depth: int, tag: Tag, n: nat, m: nat, after: Bytes, k: nat)
    requires ConsumeTag(b) == Done(tag, n) && tag.kind != END_GROUP
    requires SkipValue(tag.num, tag.kind, b[n..], depth - 1) == Done((), m)
    requires n + m <= |b| && b[n + m..] == after && SkipGroup(num, after, depth) == Done((), k)
    ensures SkipGroup(num, b, depth) == Done((), n + m + k)
  {
    GroupStep(num, b, depth, tag, n, m);
  }

  lemma {:induction false} FieldInGroup(num: nat, f: Field, after: Bytes, depth: int, k: nat)
    requires WellFormed(f) && Nesting(f) <= depth
    requires SkipValue(f.num, KindOf(f), EncodeValue(f) + after, depth - 1) == Done((), |EncodeValue(f)|)
    requires SkipGroup(num, after, depth) == Done((), k)
    ensures SkipGroup(num, AppendTag(Tag(f.num, KindOf(f))) + (EncodeValue(f) + after), depth) == Done((), |Encode(f)| + k)
  {
    FieldConsumed(f, after, depth - 1);
    var tag := Tag(f.num, KindOf(f));
    GroupGrows(num, AppendTag(tag) + (EncodeValue(f) + after), depth, tag, |AppendTag(tag)|, |EncodeValue(f)|, after, k);
  }

  lemma {:induction false} SkipsGroup(num: nat, fields: seq<Field>, tail: Bytes, depth: int)
    requires 1 <= num <= MAX_INT32 && NestingOf(fields) <= depth
    requires forall g :: g in fields ==> WellFormed(g)
    ensures SkipGroup(num, EncodeAll(fields) + (AppendTag(Tag(num, END_GROUP)) + tail), depth)
         == Done((), |EncodeAll(fields)| + |AppendTag(Tag(num, END_GROUP))|)
    decreases fields, 0
  {
    var rest := AppendTag(Tag(num, END_GROUP)) + tail;
    if fields == [] {
      EmptyGroup(num, tail, depth);
    } else {
      var f := fields[0];
      assert f in fields;
      var after := EncodeAll(fields[1..]) + rest;
      SkipsValue(f, after, depth - 1);
      SkipsGroup(num, fields[1..], tail, depth);
      FieldInGroup(num, f, after, depth, |EncodeAll(fields[1..])| + |AppendTag(Tag(num, END_GROUP))|);
      FirstField(fields, rest);
    }
  }

  // ---------------------------------------------------------------- the recursion limit

  lemma {:induction false} TooDeepValue(f: Field, tail: Bytes, depth: int)
    requires WellFormed(f) && Nesting(f) > depth + 1 && depth >= -1
    ensures SkipValue(f.num, KindOf(f), EncodeValue(f) + tail, depth).Failed?
    decreases f, 1
  {
    if depth >= 0 {
      GroupValue(f.num, f.fields, tail);
      TooDeepGroup(f.num, f.fields, AppendTag(Tag(f.num, END_GROUP)) + tail, depth);
    }
  }

  lemma {:induction false} TooDeepGroup(num: nat, fields: seq<Field>, rest: Bytes, depth: int)
    requires NestingOf(fields) > depth >= 0
    requires forall g :: g in fields ==> WellFormed(g)
    ensures SkipGroup(num, EncodeAll(fields) + rest, depth).Failed?
    decreases fields, 0
  {
    var f := fields[0];
    assert f in fields;
    var after := EncodeAll(fields[1..]) + rest;
    FirstField(fields, rest);
    if Nesting(f) > depth {
      TooDeepValue(f, after, depth - 1);
      FirstFieldFails(num, f, after, depth);
    } else {
      SkipsValue(f, after, depth - 1);
      TooDeepGroup(num, fields[1..], rest, depth);
      RestFails(num, f, after, depth);
    }
  }

  lemma {:induction false} FirstFieldFails(num: nat, f: Field, after: Bytes, depth: int)
    requires WellFormed(f) && SkipValue(f.num, KindOf(f), EncodeValue(f) + after, depth - 1).Failed?
    ensures SkipGroup(num, AppendTag(Tag(f.num, KindOf(f))) + (EncodeValue(f) + after), depth).Failed?
  {
    var tag := Tag(f.num, KindOf(f));
    var b := AppendTag(tag) + (EncodeValue(f) + after);
    TagRoundTrip(tag, EncodeValue(f) + after);
    assert b[|AppendTag(tag)|..] == EncodeValue(f) + after;
    GroupStops(num, b, depth);
  }

  lemma {:induction false} GroupFailsLater(num: nat, b: Bytes, depth: int, tag: Tag, n: nat, m: nat, after: Bytes)
    requires ConsumeTag(b) == Done(tag, n) && tag.kind != END_GROUP
    requires SkipValue(tag.num, tag.kind, b[n..], depth - 1) == Done((), m)
    requires n + m <= |b| && b[n + m..] == after && SkipGroup(num, after, depth).Failed?
    ensures SkipGroup(num, b, depth).Failed?
  {
    GroupStep(num, b, depth, tag, n, m);
  }

  lemma {:induction false} RestFails(num: nat, f: Field, after: Bytes, depth: int)
    requires WellFormed(f) && Nesting(f) <= depth
    requires SkipValue(f.num, KindOf(f), EncodeValue(f) + after, depth - 1) == Done((), |EncodeValue(f)|)
    requires SkipGroup(num, after, depth).Failed?
    ensures SkipGroup(num, AppendTag(Tag(f.num, KindOf(f))) + (EncodeValue(f) + after), depth).Failed?
  {
    var tag := Tag(f.num, KindOf(f));
    var b := AppendTag(tag) + (EncodeValue(f) + after);
    FieldConsumed(f, after, depth - 1);
    GroupFailsLater(num, b, depth, tag, |AppendTag(tag)|, |EncodeValue(f)|, after);
  }

  // A well-formed field is accepted exactly when its groups nest no deeper than the limit allows.
  lemma AcceptedUpToTheLimit(f: Field, tail: Bytes)
    requires WellFormed(f)
    ensures ConsumeFieldValue(Tag(f.num, KindOf(f)), EncodeValue(f) + tail).Done? <==> Nesting(f) <= RECURSION_LIMIT + 1
  {
    if Nesting(f) <= RECURSION_LIMIT + 1 {
      SkipsValue(f, tail, RECURSION_LIMIT);
    } else {
      TooDeepValue(f, tail, RECURSION_LIMIT);
    }
  }
}
