// internal/checks/grpc.go: the network name inside a raw GetNodeInfoResponse.
module NodeInfo {
  import opened Wire

  const DEFAULT_NODE_INFO: nat := 1
  const NETWORK: nat := 4

  datatype Decoded = Network(text: Bytes) | NoNodeInfo | NoNetwork | ParseError(error: WireError)

  // ---------------------------------------------------------------- specification

  // The first length-delimited field with the given number, and how far the scan got.
  datatype Search = Found(value: Bytes, used: nat) | Absent | Malformed(error: WireError)

  function Shift(k: nat, s: Search): Search {
    if s.Found? then Found(s.value, k + s.used) else s
  }

  function Find(data: Bytes, num: nat): (r: Search)
    ensures r.Found? ==> r.used <= |data|
    decreases |data|
  {
    if data == [] then Absent
    else
      match ConsumeTag(data)
      case Failed(e) => Malformed(e)
      case Done(tag, n) =>
        if tag == Tag(num, BYTES) then
          match ConsumeBytes(data[n..])
          case Failed(e) => Malformed(e)
          case Done(v, m) => Found(v, n + m)
        else
          var value := ConsumeFieldValue(tag, data[n..]);
          if value.Failed? then Malformed(value.error) else Shift(n + value.n, Find(data[n + value.n..], num))
  }

  function DecodeInner(embedded: Bytes): Decoded {
    match Find(embedded, NETWORK)
    case Found(text, _) => Network(text)
    case Absent => NoNetwork
    case Malformed(e) => ParseError(e)
  }

  function Decode(data: Bytes): Decoded {
    match Find(data, DEFAULT_NODE_INFO)
    case Found(embedded, _) => DecodeInner(embedded)
    case Absent => NoNodeInfo
    case Malformed(e) => ParseError(e)
  }

  // ---------------------------------------------------------------- the two loops

  // What the first field decides.
  lemma FindStops(data: Bytes, num: nat)
    requires data != []
    ensures ConsumeTag(data).Failed? ==> Find(data, num) == Malformed(ConsumeTag(data).error)
    ensures ConsumeTag(data).Done? ==>
      var tag, rest := ConsumeTag(data).value, data[ConsumeTag(data).n..];
      && (tag == Tag(num, BYTES) && ConsumeBytes(rest).Failed? ==> Find(data, num) == Malformed(ConsumeBytes(rest).error))
      && (tag == Tag(num, BYTES) && ConsumeBytes(rest).Done? ==>
            Find(data, num) == Found(ConsumeBytes(rest).value, ConsumeTag(data).n + ConsumeBytes(rest).n))
      && (tag != Tag(num, BYTES) && ConsumeFieldValue(tag, rest).Failed? ==>
            Find(data, num) == Malformed(ConsumeFieldValue(tag, rest).error))
  {
  }

  // One field skipped: the search goes on behind it.
  lemma {:induction false} FindSkips(data: Bytes, num: nat, tag: Tag, n: nat, m: nat)
    requires ConsumeTag(data) == Done(tag, n) && tag != Tag(num, BYTES)
    requires ConsumeFieldValue(tag, data[n..]).Done? && ConsumeFieldValue(tag, data[n..]).n == m
    ensures n + m <= |data| && Find(data, num) == Shift(n + m, Find(data[n + m..], num))
  {
  }

  method DecodeDefaultNodeInfoNetwork(embedded: Bytes) returns (r: Decoded)
    ensures r == DecodeInner(embedded)
  {
    var data := embedded;
    ghost var done: nat := 0;
    while |data| > 0
      invariant Find(embedded, NETWORK) == Shift(done, Find(data, NETWORK))
      decreases |data|
    {
      FindStops(data, NETWORK);
      var tag := ConsumeTag(data);
      if tag.Failed? {
        return ParseError(tag.error);
      }
      ghost var before := data;
      data := data[tag.n..];
      if tag.value.num == NETWORK && tag.value.kind == BYTES {
        var s := ConsumeBytes(data);
        if s.Failed? {
          return ParseError(s.error);
        }
        return Network(s.value);
      }
      var value := ConsumeFieldValue(tag.value, data);
      if value.Failed? {
        return ParseError(value.error);
      }
      FindSkips(before, NETWORK, tag.value, tag.n, value.n);
      data := data[value.n..];
      assert data == before[tag.n + value.n..];
      done := done + tag.n + value.n;
    }
    return NoNetwork;
  }

  method DecodeGetNodeInfoNetwork(response: Bytes) returns (r: Decoded)
    ensures r == Decode(response)
  {
    var data := response;
    ghost var done: nat := 0;
    while |data| > 0
      invariant Find(response, DEFAULT_NODE_INFO) == Shift(done, Find(data, DEFAULT_NODE_INFO))
      decreases |data|
    {
      FindStops(data, DEFAULT_NODE_INFO);
      var tag := ConsumeTag(data);
      if tag.Failed? {
        return ParseError(tag.error);
      }
      ghost var before := data;
      data := data[tag.n..];
      if tag.value.num == DEFAULT_NODE_INFO && tag.value.kind == BYTES {
        var embedded := ConsumeBytes(data);
        if embedded.Failed? {
          return ParseError(embedded.error);
        }
        r := DecodeDefaultNodeInfoNetwork(embedded.value);
        return;
      }
      var value := ConsumeFieldValue(tag.value, data);
      if value.Failed? {
        return ParseError(value.error);
      }
      FindSkips(before, DEFAULT_NODE_INFO, tag.value, tag.n, value.n);
      data := data[value.n..];
      assert data == before[tag.n + value.n..];
      done := done + tag.n + value.n;
    }
    return NoNodeInfo;
  }

  // ---------------------------------------------------------------- round trip

  // Fields a decoder looking for num must skip.
  predicate Unknown(fields: seq<Field>, num: nat) {
    forall f :: f in fields ==>
      WellFormed(f) && Nesting(f) <= RECURSION_LIMIT + 1 && !(f.num == num && f.LengthDelimited?)
  }

  function Record(num: nat, payload: Bytes): Bytes {
    AppendTag(Tag(num, BYTES)) + AppendBytes(payload)
  }

  lemma FindsRecord(num: nat, payload: Bytes, tail: Bytes)
    requires 1 <= num <= MAX_INT32 && |payload| <= MAX_UINT64
    ensures Find(Record(num, payload) + tail, num) == Found(payload, |Record(num, payload)|)
  {
    var b := Record(num, payload) + tail;
    var tag := Tag(num, BYTES);
    assert b == AppendTag(tag) + (AppendBytes(payload) + tail);
    TagRoundTrip(tag, AppendBytes(payload) + tail);
    assert b[|AppendTag(tag)|..] == AppendBytes(payload) + tail;
    BytesRoundTrip(payload, tail);
  }

  lemma FieldBytes(f: Field, rest: Bytes)
    ensures Encode(f) + rest == AppendTag(Tag(f.num, KindOf(f))) + (EncodeValue(f) + rest)
    ensures |Encode(f)| == |AppendTag(Tag(f.num, KindOf(f)))| + |EncodeValue(f)|
  {
  }

  lemma FindPassesField(f: Field, num: nat, rest: Bytes)
    requires WellFormed(f) && Nesting(f) <= RECURSION_LIMIT + 1 && !(f.num == num && f.LengthDelimited?)
    ensures Find(Encode(f) + rest, num) == Shift(|Encode(f)|, Find(rest, num))
  {
    var tag, b := Tag(f.num, KindOf(f)), Encode(f) + rest;
    FieldBytes(f, rest);
    SkipsValue(f, rest, RECURSION_LIMIT);
    FieldConsumed(f, rest, RECURSION_LIMIT);
    FindSkips(b, num, tag, |AppendTag(tag)|, |EncodeValue(f)|);
  }

  lemma {:induction false} FindPassesFields(fields: seq<Field>, num: nat, rest: Bytes)
    requires Unknown(fields, num)
    ensures Find(EncodeAll(fields) + rest, num) == Shift(|EncodeAll(fields)|, Find(rest, num))
  {
    if fields == [] {
      assert EncodeAll(fields) + rest == rest;
    } else {
      assert fields[0] in fields;
      FindPassesFields(fields[1..], num, rest);
      FindPassesField(fields[0], num, EncodeAll(fields[1..]) + rest);
      assert EncodeAll(fields) + rest == Encode(fields[0]) + (EncodeAll(fields[1..]) + rest);
    }
  }

  // A response: unknown fields, node info; in the node info: unknown fields, the network, more.
  function NodeInfoBytes(inner: seq<Field>, network: Bytes, more: Bytes): Bytes {
    EncodeAll(inner) + (Record(NETWORK, network) + more)
  }

  function Response(outer: seq<Field>, inner: seq<Field>, network: Bytes, more: Bytes): Bytes {
    EncodeAll(outer) + Record(DEFAULT_NODE_INFO, NodeInfoBytes(inner, network, more))
  }

  ghost predicate Encodable(outer: seq<Field>, inner: seq<Field>, network: Bytes, more: Bytes) {
    && Unknown(outer, DEFAULT_NODE_INFO) && Unknown(inner, NETWORK)
    && |network| <= MAX_UINT64 && |NodeInfoBytes(inner, network, more)| <= MAX_UINT64
  }

  lemma Associate(a: Bytes, b: Bytes, c: Bytes)
    ensures a + b + c == a + (b + c)
  {
  }

  lemma ResponseIsFound(outer: seq<Field>, inner: seq<Field>, network: Bytes, more: Bytes, tail: Bytes)
    requires Encodable(outer, inner, network, more)
    ensures Find(Response(outer, inner, network, more) + tail, DEFAULT_NODE_INFO)
         == Found(NodeInfoBytes(inner, network, more), |Response(outer, inner, network, more)|)
  {
    var payload := NodeInfoBytes(inner, network, more);
    PassesThenFinds(outer, DEFAULT_NODE_INFO, payload, tail);
    Associate(EncodeAll(outer), Record(DEFAULT_NODE_INFO, payload), tail);
  }

  // Unknown fields, then the record looked for.
  lemma PassesThenFinds(fields: seq<Field>, num: nat, payload: Bytes, tail: Bytes)
    requires Unknown(fields, num) && 1 <= num <= MAX_INT32 && |payload| <= MAX_UINT64
    ensures Find(EncodeAll(fields) + (Record(num, payload) + tail), num)
         == Found(payload, |EncodeAll(fields)| + |Record(num, payload)|)
  {
    FindsRecord(num, payload, tail);
    FindPassesFields(fields, num, Record(num, payload) + tail);
  }

  // Decoding gives back the network that was encoded, behind any well-formed unknown fields at
  // both levels (groups included) and whatever bytes follow.
  lemma DecodeInvertsEncode(outer: seq<Field>, inner: seq<Field>, network: Bytes, more: Bytes, tail: Bytes)
    requires Encodable(outer, inner, network, more)
    ensures Decode(Response(outer, inner, network, more) + tail) == Network(network)
  {
    ResponseIsFound(outer, inner, network, more, tail);
    PassesThenFinds(inner, NETWORK, network, more);
  }

  // ---------------------------------------------------------------- truncation

  // A hit does not depend on the bytes behind it.
  lemma {:induction false} FindExtends(b: Bytes, c: Bytes, num: nat)
    requires b <= c && Find(b, num).Found?
    ensures Find(c, num) == Find(b, num)
    decreases |b|
  {
    TagExtends(b, c);
    var tag, n := ConsumeTag(b).value, ConsumeTag(b).n;
    PrefixSlice(b, c, n);
    if tag == Tag(num, BYTES) {
      BytesExtends(b[n..], c[n..]);
    } else {
      var m := ConsumeFieldValue(tag, b[n..]).n;
      ValueExtends(tag.num, tag.kind, b[n..], c[n..], RECURSION_LIMIT);
      PrefixSlice(b, c, n + m);
      FindSkips(b, num, tag, n, m);
      FindExtends(b[n + m..], c[n + m..], num);
      FindSkips(c, num, tag, n, m);
    }
  }

  // Cut anywhere, a response is rejected.
  lemma TruncationIsRejected(outer: seq<Field>, inner: seq<Field>, network: Bytes, more: Bytes, k: nat)
    requires Encodable(outer, inner, network, more)
    requires k < |Response(outer, inner, network, more)|
    ensures !Decode(Response(outer, inner, network, more)[..k]).Network?
  {
    var full := Response(outer, inner, network, more);
    var cut := full[..k];
    ResponseIsFound(outer, inner, network, more, []);
    assert full + [] == full;
    if Find(cut, DEFAULT_NODE_INFO).Found? {
      FindExtends(cut, full, DEFAULT_NODE_INFO);
      assert false;
    }
  }
}
