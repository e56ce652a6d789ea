/**
 * The stream framer: `pack_message` writes one status byte, the payload
 * length as four big-endian bytes, then the payload. A consumer reads the
 * frames back one after the other; the length prefix makes each frame
 * self-delimiting.
 */
module Framing {
  import opened Wrappers

  /** One element of a Python `bytes` value. */
  type byte = x: int | 0 <= x < 256

  /** `len(data).to_bytes(4, 'big')` raises OverflowError from this length on. */
  const LengthLimit: int := 0x1_0000_0000

  /** Status byte plus four length bytes. */
  const HeaderSize: nat := 5

  function BigEndian4(n: nat): (bs: seq<byte>)
    requires n < LengthLimit
    ensures |bs| == 4
  {
    [n / 0x100_0000, (n / 0x1_0000) % 0x100, (n / 0x100) % 0x100, n % 0x100]
  }

  function ReadBigEndian4(bs: seq<byte>): (n: nat)
    requires |bs| == 4
    ensures n < LengthLimit
  {
    (bs[0] as int) * 0x100_0000 + (bs[1] as int) * 0x1_0000 + (bs[2] as int) * 0x100 + bs[3] as int
  }

  lemma BigEndian4RoundTrip(n: nat)
    requires n < LengthLimit
    ensures ReadBigEndian4(BigEndian4(n)) == n
  {
    var q1, q2, q3 := n / 0x100, n / 0x1_0000, n / 0x100_0000;
    DropByte(n, 0x100);
    DropByte(n, 0x1_0000);
    assert n == q1 * 0x100 + n % 0x100;
    assert q1 == q2 * 0x100 + q1 % 0x100;
    assert q2 == q3 * 0x100 + q2 % 0x100;
  }

  /** Dividing by `d` and then by 256 divides by `d * 256`. */
  lemma DropByte(n: nat, d: nat)
    requires d == 0x100 || d == 0x1_0000
    ensures n / (d * 0x100) == n / d / 0x100
  {
    var q := n / d;
    assert n == q * d + n % d;
    assert q == (q / 0x100) * 0x100 + q % 0x100;
    assert n == (q / 0x100) * (d * 0x100) + (q % 0x100) * d + n % d;
  }

  lemma ReadBigEndian4RoundTrip(bs: seq<byte>)
    requires |bs| == 4
    ensures BigEndian4(ReadBigEndian4(bs)) == bs
  {
    var n := ReadBigEndian4(bs);
    var m2 := (bs[0] as int) * 0x100 + bs[1] as int;
    var m1 := m2 * 0x100 + bs[2] as int;
    SplitByte(n, m1, bs[3]);
    SplitByte(m1, m2, bs[2]);
    SplitByte(m2, bs[0], bs[1]);
    DropByte(n, 0x100);
    DropByte(n, 0x1_0000);
  }

  /** A number written as a quotient and a last byte divides back into them. */
  lemma SplitByte(m: nat, q: nat, r: byte)
    requires m == q * 0x100 + r
    ensures m / 0x100 == q && m % 0x100 == r
  {
  }

  /**
   * `pack_message(status, data)`. Python's `int.to_bytes` raises for a
   * status outside one unsigned byte and for a payload of 2^32 bytes or
   * more; both are `None` here.
   */
  function PackMessage(status: int, data: seq<byte>): (r: Option<seq<byte>>)
    ensures r.Some? <==> 0 <= status < 256 && |data| < LengthLimit
    ensures r.Some? ==> |r.value| == HeaderSize + |data|
    ensures r.Some? ==> r.value[0] == status
    ensures r.Some? ==> ReadBigEndian4(r.value[1..5]) == |data|
    ensures r.Some? ==> r.value[HeaderSize..] == data
  {
    if 0 <= status < 256 && |data| < LengthLimit then
      BigEndian4RoundTrip(|data|);
      Some([status as byte] + BigEndian4(|data|) + data)
    else
      None
  }

  /** One decoded frame. */
  datatype Message = Message(status: byte, data: seq<byte>)

  /**
   * Reads one frame off the front of `bs`: `None` when the header or the
   * payload is incomplete, otherwise the frame and the bytes after it.
   */
  function DecodeMessage(bs: seq<byte>): (r: Option<(Message, seq<byte>)>)
    ensures r.Some? ==> |r.value.1| + HeaderSize + |r.value.0.data| == |bs|
  {
    if |bs| < HeaderSize then None
    else
      var n := ReadBigEndian4(bs[1..5]);
      if |bs| - HeaderSize < n then None
      else Some((Message(bs[0], bs[HeaderSize..HeaderSize + n]), bs[HeaderSize + n..]))
  }

  /** A packed frame followed by anything decodes to itself and leaves the rest. */
  lemma PackThenDecode(status: int, data: seq<byte>, rest: seq<byte>)
    requires PackMessage(status, data).Some?
    ensures DecodeMessage(PackMessage(status, data).value + rest) == Some((Message(status, data), rest))
  {
    var p := PackMessage(status, data).value;
    var bs := p + rest;
    assert bs[1..5] == p[1..5];
    assert bs[HeaderSize..HeaderSize + |data|] == data;
    assert bs[HeaderSize + |data|..] == rest;
  }

  /** Whatever decodes was packed: the decoder accepts nothing `pack_message` cannot write. */
  lemma DecodeThenPack(bs: seq<byte>)
    requires DecodeMessage(bs).Some?
    ensures var (m, rest) := DecodeMessage(bs).value;
            PackMessage(m.status, m.data).Some? && bs == PackMessage(m.status, m.data).value + rest
  {
    var (m, rest) := DecodeMessage(bs).value;
    var p := PackMessage(m.status, m.data).value;
    ReadBigEndian4RoundTrip(bs[1..5]);
    assert p[1..5] == BigEndian4(|m.data|);
    assert p == bs[..HeaderSize + |m.data|];
  }

  /** The bytes of a whole stream: every frame packed, in order; `None` if one cannot be. */
  function PackAll(ms: seq<Message>): (r: Option<seq<byte>>)
  {
    if ms == [] then Some([])
    else
      match PackMessage(ms[0].status, ms[0].data)
      case None => None
      case Some(head) =>
        match PackAll(ms[1..])
        case None => None
        case Some(tail) => Some(head + tail)
  }

  /** What a consumer reads: frames one after the other until the bytes run out. */
  function DecodeAll(bs: seq<byte>): (r: Option<seq<Message>>)
    decreases |bs|
  {
    if bs == [] then Some([])
    else
      match DecodeMessage(bs)
      case None => None
      case Some((m, rest)) =>
        match DecodeAll(rest)
        case None => None
        case Some(ms) => Some([m] + ms)
  }

  /** Frames are independently decodable once received in order. */
  lemma {:induction false} DecodeAllPackAll(ms: seq<Message>)
    requires PackAll(ms).Some?
    ensures DecodeAll(PackAll(ms).value) == Some(ms)
  {
    if ms != [] {
      var head := PackMessage(ms[0].status, ms[0].data).value;
      var tail := PackAll(ms[1..]).value;
      DecodeAllPackAll(ms[1..]);
      PackThenDecode(ms[0].status, ms[0].data, tail);
      assert PackAll(ms).value == head + tail;
      assert [ms[0]] + ms[1..] == ms;
    }
  }

  /** Every frame whose payload fits packs, so a stream of such frames has bytes. */
  lemma {:induction false} PackAllDefined(ms: seq<Message>)
    requires forall i :: 0 <= i < |ms| ==> |ms[i].data| < LengthLimit
    ensures PackAll(ms).Some?
    ensures |PackAll(ms).value| >= HeaderSize * |ms|
  {
    if ms != [] {
      PackAllDefined(ms[1..]);
    }
  }
}
