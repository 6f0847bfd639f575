// internal/checks/grpc_web.go: the first frame of a gRPC-web response body (PROTOCOL-WEB; the
// Length-Prefixed-Message rule of gRPC over HTTP/2).
module GrpcWeb {
  import opened Wire
  import opened NodeInfo

  datatype Probed = Answered(text: Bytes) | ShortHeader | Trailers | ShortBody | BadPayload(why: Decoded)

  // ---------------------------------------------------------------- specification

  function BigEndian(b: Bytes): nat {
    if b == [] then 0 else 256 * BigEndian(b[..|b| - 1]) + b[|b| - 1]
  }

  function Payload(decoded: Decoded): Probed {
    if decoded.Network? then Answered(decoded.text) else BadPayload(decoded)
  }

  function ReadResponse(body: Bytes): Probed {
    if |body| < 5 then ShortHeader
    else if body[0] >= 0x80 then Trailers
    else if |body| - 5 < BigEndian(body[1..5]) then ShortBody
    else Payload(Decode(body[5..5 + BigEndian(body[1..5])]))
  }

  function Frame(flag: byte, message: Bytes): Bytes
    requires |message| < 0x1_0000_0000
  {
    [flag, |message| / 0x100_0000, |message| / 0x1_0000 % 0x100, |message| / 0x100 % 0x100, |message| % 0x100] + message
  }

  // ---------------------------------------------------------------- the probe's reads

  // The response body, consumed from the front.
  class Body {
    const content: Bytes
    var pos: nat

    constructor (content: Bytes)
      ensures this.content == content && pos == 0
    {
      this.content := content;
      pos := 0;
    }

    // io.ReadFull: fill the whole buffer or fail.
    method ReadFull(buf: array<byte>) returns (ok: bool)
      requires pos <= |content|
      modifies this`pos, buf
      ensures pos <= |content|
      ensures ok <==> old(pos) + buf.Length <= |content|
      ensures ok ==> pos == old(pos) + buf.Length && buf[..] == content[old(pos)..pos]
    {
      var i := 0;
      while i < buf.Length && pos < |content|
        invariant 0 <= i <= buf.Length
        invariant pos == old(pos) + i <= |content|
        invariant buf[..i] == content[old(pos)..pos]
      {
        buf[i] := content[pos];
        pos := pos + 1;
        i := i + 1;
      }
      assert buf[..buf.Length] == buf[..];
      return i == buf.Length;
    }
  }

  lemma BigEndian4(b: Bytes)
    requires |b| == 4
    ensures BigEndian(b) == (b[0] as int) * 0x100_0000 + (b[1] as int) * 0x1_0000 + (b[2] as int) * 0x100 + b[3]
  {
    assert b[..3][..2] == b[..2] && b[..2][..1] == b[..1] && b[..1][..0] == [];
    assert BigEndian(b[..1]) == b[0];
    assert BigEndian(b[..2]) == 256 * BigEndian(b[..1]) + b[1];
    assert BigEndian(b[..3]) == 256 * BigEndian(b[..2]) + b[2];
  }

  method ProbeBody(resp: Body) returns (r: Probed)
    requires resp.pos == 0
    modifies resp
    ensures r == ReadResponse(resp.content)
  {
    var header := new byte[5];
    var ok := resp.ReadFull(header);
    if !ok {
      return ShortHeader;
    }
    assert header[..] == resp.content[..5];
    assert header[0] == resp.content[0] && header[1..5] == resp.content[1..5];
    if header[0] >= 0x80 {
      return Trailers;
    }
    var length := BigEndian(header[1..5]);
    var body := new byte[length];
    ok := resp.ReadFull(body);
    if !ok {
      return ShortBody;
    }
    var decoded := DecodeGetNodeInfoNetwork(body[..]);
    if !decoded.Network? {
      return BadPayload(decoded);
    }
    return Answered(decoded.text);
  }

  // ---------------------------------------------------------------- framing round trip

  lemma FrameHeader(flag: byte, message: Bytes, tail: Bytes)
    requires |message| < 0x1_0000_0000
    ensures var b := Frame(flag, message) + tail;
      |b| >= 5 && b[0] == flag && BigEndian(b[1..5]) == |message| && |b| == 5 + |message| + |tail|
  {
    var b := Frame(flag, message) + tail;
    BigEndian4(b[1..5]);
    assert b[1..5][0] == |message| / 0x100_0000 && b[1..5][1] == |message| / 0x1_0000 % 0x100;
    assert b[1..5][2] == |message| / 0x100 % 0x100 && b[1..5][3] == |message| % 0x100;
    Digits(|message|);
  }

  lemma Digits(n: nat)
    requires n < 0x1_0000_0000
    ensures n == n / 0x100_0000 * 0x100_0000 + n / 0x1_0000 % 0x100 * 0x1_0000 + n / 0x100 % 0x100 * 0x100 + n % 0x100
  {
    assert n / 0x1_0000 == n / 0x100 / 0x100 && n / 0x100_0000 == n / 0x100 / 0x100 / 0x100;
  }

  // A data frame's message is decoded, whatever follows it (trailers, usually).
  lemma FrameIsRead(flag: byte, message: Bytes, tail: Bytes)
    requires |message| < 0x1_0000_0000 && flag < 0x80
    ensures ReadResponse(Frame(flag, message) + tail) == Payload(Decode(message))
  {
    FrameHeader(flag, message, tail);
    assert (Frame(flag, message) + tail)[5..5 + |message|] == message;
  }

  // End to end: what a server frames and encodes is what the probe reports.
  lemma ProbeInvertsServer(
    flag: byte, outer: seq<Field>, inner: seq<Field>, network: Bytes, more: Bytes, tail: Bytes)
    requires Encodable(outer, inner, network, more)
    requires |Response(outer, inner, network, more)| < 0x1_0000_0000
    ensures ReadResponse(Frame(flag, Response(outer, inner, network, more)) + tail)
         == if flag < 0x80 then Answered(network) else Trailers
  {
    var message := Response(outer, inner, network, more);
    FrameHeader(flag, message, tail);
    if flag < 0x80 {
      FrameIsRead(flag, message, tail);
      DecodeInvertsEncode(outer, inner, network, more, []);
      assert message + [] == message;
    }
  }

  // A frame cut short is never mistaken for an answer.
  lemma TruncatedFrameIsRejected(flag: byte, message: Bytes, k: nat)
    requires |message| < 0x1_0000_0000 && k < 5 + |message|
    ensures !ReadResponse(Frame(flag, message)[..k]).Answered?
  {
    FrameHeader(flag, message, []);
    var full := Frame(flag, message);
    assert full + [] == full;
    if k >= 5 {
      assert full[..k][1..5] == full[1..5];
    }
  }

  // Any five bytes and the message their length announces are a frame.
  lemma BodyIsFrame(body: Bytes)
    requires |body| >= 5 && |body| - 5 >= BigEndian(body[1..5])
    ensures BigEndian(body[1..5]) < 0x1_0000_0000
    ensures var n := BigEndian(body[1..5]); body == Frame(body[0], body[5..5 + n]) + body[5 + n..]
  {
    var n := BigEndian(body[1..5]);
    var h := body[1..5];
    BigEndian4(h);
    BytesOf(h[0], h[1], h[2], h[3]);
    assert body[..5] == [body[0], h[0], h[1], h[2], h[3]];
    assert body == body[..5] + body[5..5 + n] + body[5 + n..];
  }

  lemma BytesOf(a: int, b: int, c: int, d: int)
    requires 0 <= a < 256 && 0 <= b < 256 && 0 <= c < 256 && 0 <= d < 256
    ensures var n := a * 0x100_0000 + b * 0x1_0000 + c * 0x100 + d;
      0 <= n < 0x1_0000_0000 && n / 0x100_0000 == a && n / 0x1_0000 % 0x100 == b && n / 0x100 % 0x100 == c && n % 0x100 == d
  {
    var n := a * 0x100_0000 + b * 0x1_0000 + c * 0x100 + d;
    assert n / 0x100 == a * 0x1_0000 + b * 0x100 + c;
    assert n / 0x1_0000 == a * 0x100 + b;
  }

  ghost predicate StartsWithFrame(body: Bytes, flag: byte, message: Bytes) {
    |message| < 0x1_0000_0000 && Frame(flag, message) <= body
  }

  // The probe answers a network exactly when the body starts with a data frame whose message decodes
  // to it; trailers exactly when five bytes are there and the first is no data flag.
  lemma AnswerIsExact(body: Bytes, t: Bytes)
    ensures ReadResponse(body) == Answered(t) <==>
      exists flag: byte, message :: flag < 0x80 && StartsWithFrame(body, flag, message) && Decode(message) == Network(t)
    ensures ReadResponse(body) == Trailers <==> |body| >= 5 && body[0] >= 0x80
  {
    if ReadResponse(body) == Answered(t) {
      BodyIsFrame(body);
      var n := BigEndian(body[1..5]);
      assert StartsWithFrame(body, body[0], body[5..5 + n]);
    }
    if flag: byte, message :| flag < 0x80 && StartsWithFrame(body, flag, message) && Decode(message) == Network(t) {
      FrameIsRead(flag, message, body[|Frame(flag, message)|..]);
      assert body == Frame(flag, message) + body[|Frame(flag, message)|..];
    }
  }
}
