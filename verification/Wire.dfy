/**
 The two layers of the mesh wire format (internal/protocol): an Envelope tags a
 payload with a request id, and inside it a Frame tags a payload with a type and
 a 32-bit length. Go's integer conversions are written out: the id length is
 stored modulo 2^8, the payload length modulo 2^32, and DecodeFrame compares
 against a length reduced modulo 2^32.
 */
module Wire {
  import opened Seqs

  type byte = x: int | 0 <= x < 0x100

  const MAX_REQ_ID_LEN: nat := 255
  const MAX_PAYLOAD_LEN: nat := 0x100_0000
  const HEADER_SIZE: nat := 5
  const TWO_32: nat := 0x1_0000_0000

  const FRAME_HEADER: byte := 0x01
  const FRAME_CHUNK: byte := 0x02
  const FRAME_EOF: byte := 0x03
  const FRAME_ERROR: byte := 0xFF

  datatype Envelope = Envelope(reqID: seq<byte>, payload: seq<byte>)
  datatype Frame = Frame(ftype: byte, payload: seq<byte>)

  datatype Error = EnvTooShort | ReqIDTruncated | FrameTooShort | PayloadTruncated | PayloadTooLarge
  datatype Result<+T> = Ok(value: T) | Err(error: Error)

  // ---------- envelopes ----------

  /** [1-byte id length][id][payload]; the length byte wraps. */
  function EnvelopeBytes(e: Envelope): seq<byte> {
    [|e.reqID| % 0x100] + e.reqID + e.payload
  }

  function ParseEnvelope(data: seq<byte>): Result<Envelope> {
    if |data| < 1 then Err(EnvTooShort)
    else
      var idLen := data[0] as int;
      if |data| < 1 + idLen then Err(ReqIDTruncated)
      else Ok(Envelope(data[1..1 + idLen], data[1 + idLen..]))
  }

  /** Envelope.Encode: fills one allocated buffer with two copies. */
  method EncodeEnvelope(e: Envelope) returns (buf: array<byte>)
    ensures buf[..] == EnvelopeBytes(e)
    ensures buf.Length == 1 + |e.reqID| + |e.payload| && buf[0] == |e.reqID| % 256
    ensures buf[1..1 + |e.reqID|] == e.reqID && buf[1 + |e.reqID|..] == e.payload
  {
    var n := |e.reqID|;
    buf := new byte[1 + n + |e.payload|];
    buf[0] := n % 0x100;
    CopyInto(buf, 1, e.reqID);
    CopyInto(buf, 1 + n, e.payload);
    assert buf[..] == buf[..1] + buf[1..1 + n] + buf[1 + n..];
  }

  /** Go's copy(buf[at:], src), with room for all of src. */
  method CopyInto(buf: array<byte>, at: nat, src: seq<byte>)
    requires at + |src| <= buf.Length
    modifies buf
    ensures buf[..] == old(buf[..at]) + src + old(buf[at + |src|..])
  {
    for i := 0 to |src|
      invariant buf[..] == old(buf[..at]) + src[..i] + old(buf[at + i..])
    {
      buf[at + i] := src[i];
    }
  }

  /** DecodeEnvelope: both parts are copied out of the input. */
  method DecodeEnvelope(data: array<byte>) returns (r: Result<Envelope>)
    ensures r == ParseEnvelope(data[..])
    ensures r.Ok? <==> data.Length >= 1 && data.Length >= 1 + data[0] as int
    ensures r.Ok? ==> r.value.reqID == data[1..1 + data[0] as int] && r.value.payload == data[1 + data[0] as int..]
  {
    if data.Length < 1 {
      return Err(EnvTooShort);
    }
    var idLen := data[0] as int;
    if data.Length < 1 + idLen {
      return Err(ReqIDTruncated);
    }
    var payload := new byte[data.Length - 1 - idLen];
    CopyInto(payload, 0, data[1 + idLen..]);
    ghost var all := data[..];
    assert payload[..] == all[1 + idLen..] && data[1..1 + idLen] == all[1..1 + idLen];
    r := Ok(Envelope(data[1..1 + idLen], payload[..]));
  }

  /** What decoding an encoded envelope yields for every id length: the id is
      cut at its length modulo 256 and the rest of it spills into the payload. */
  lemma EnvelopeSplitsAtLengthByte(e: Envelope)
    ensures var k := |e.reqID| % 0x100;
            ParseEnvelope(EnvelopeBytes(e)) == Ok(Envelope(e.reqID[..k], e.reqID[k..] + e.payload))
  {
    var k := |e.reqID| % 0x100;
    var data := EnvelopeBytes(e);
    assert data[1..1 + k] == e.reqID[..k];
    assert data[1 + k..] == e.reqID[k..] + e.payload;
  }

  /** The round trip holds exactly for ids of at most MaxReqIDLen bytes. */
  lemma EnvelopeRoundTrip(e: Envelope)
    ensures ParseEnvelope(EnvelopeBytes(e)) == Ok(e) <==> |e.reqID| <= MAX_REQ_ID_LEN
  {
    var k := |e.reqID| % 0x100;
    EnvelopeSplitsAtLengthByte(e);
    if |e.reqID| <= MAX_REQ_ID_LEN {
      assert e.reqID[..k] == e.reqID && e.reqID[k..] + e.payload == e.payload;
    } else {
      assert |e.reqID[..k]| != |e.reqID|;
    }
  }

  /** Encoding inverts decoding: together with EnvelopeRoundTrip, a bijection
      between envelopes with ids up to 255 bytes and decodable inputs. */
  lemma EnvelopeReencodes(data: seq<byte>)
    requires ParseEnvelope(data).Ok?
    ensures EnvelopeBytes(ParseEnvelope(data).value) == data
    ensures |ParseEnvelope(data).value.reqID| <= MAX_REQ_ID_LEN
  {
    var n := data[0] as int;
    assert data == [data[0]] + data[1..1 + n] + data[1 + n..];
  }

  // ---------- frames ----------

  /** binary.BigEndian.PutUint32(uint32(n)). */
  function PutUint32(n: nat): (b: seq<byte>)
    ensures |b| == 4
  {
    [n / 0x100_0000 % 0x100, n / 0x1_0000 % 0x100, n / 0x100 % 0x100, n % 0x100]
  }

  /** binary.BigEndian.Uint32. */
  function Uint32(b: seq<byte>): (n: nat)
    requires |b| == 4
    ensures n < TWO_32
  {
    b[0] as int * 0x100_0000 + b[1] as int * 0x1_0000 + b[2] as int * 0x100 + b[3] as int
  }

  lemma Uint32RoundTrip(n: nat)
    ensures Uint32(PutUint32(n)) == n % TWO_32
  {
    var hi, q2, q1 := n / 0x100_0000, n / 0x1_0000, n / 0x100;
    assert q1 / 0x100 == q2 && q2 / 0x100 == hi && hi / 0x100 == n / TWO_32;
  }

  lemma Uint32Reencodes(b: seq<byte>)
    requires |b| == 4
    ensures PutUint32(Uint32(b)) == b
  {
    var b0, b1, b2, b3 := b[0] as int, b[1] as int, b[2] as int, b[3] as int;
    var n := Uint32(b);
    assert n / 0x100 == b0 * 0x1_0000 + b1 * 0x100 + b2;
    assert n / 0x1_0000 == b0 * 0x100 + b1;
    assert n / 0x100_0000 == b0;
  }

  /** [1-byte type][4-byte big-endian length][payload]; the length wraps at 2^32. */
  function FrameBytes(f: Frame): seq<byte> {
    [f.ftype] + PutUint32(|f.payload|) + f.payload
  }

  function ParseFrame(data: seq<byte>): Result<Frame> {
    if |data| < HEADER_SIZE then Err(FrameTooShort)
    else
      var length := Uint32(data[1..5]);
      if length > MAX_PAYLOAD_LEN then Err(PayloadTooLarge)
      else if (|data| - HEADER_SIZE) % TWO_32 < length then Err(PayloadTruncated)
      else Ok(Frame(data[0], data[5..5 + length]))
  }

  method EncodeFrame(f: Frame) returns (buf: array<byte>)
    ensures buf[..] == FrameBytes(f)
    ensures buf.Length == 5 + |f.payload| && buf[0] == f.ftype && buf[5..] == f.payload
    ensures buf[1] as int * 0x100_0000 + buf[2] as int * 0x1_0000 + buf[3] as int * 0x100 + buf[4] as int == |f.payload| % TWO_32
  {
    buf := new byte[HEADER_SIZE + |f.payload|];
    buf[0] := f.ftype;
    CopyInto(buf, 1, PutUint32(|f.payload|));
    CopyInto(buf, HEADER_SIZE, f.payload);
    assert buf[..] == buf[..1] + buf[1..5] + buf[5..];
    Uint32RoundTrip(|f.payload|);
    assert buf[1..5] == PutUint32(|f.payload|);
  }

  /** DecodeFrame. The slice below is in bounds for every input, although the
      truncation test compares a length reduced modulo 2^32. */
  method DecodeFrame(data: array<byte>) returns (r: Result<Frame>)
    ensures r == ParseFrame(data[..])
    ensures r.Ok? ==> |r.value.payload| <= 0x100_0000 && 5 + |r.value.payload| <= data.Length
    ensures r.Ok? ==> r.value.ftype == data[0] && r.value.payload == data[5..5 + |r.value.payload|]
    ensures r.Ok? ==> data[1] as int * 0x100_0000 + data[2] as int * 0x1_0000 + data[3] as int * 0x100 + data[4] as int
                      == |r.value.payload|
  {
    if data.Length < HEADER_SIZE {
      return Err(FrameTooShort);
    }
    var ftype := data[0];
    var length := Uint32(data[1..5]);
    assert data[..][1..5] == data[1..5];
    if length > MAX_PAYLOAD_LEN {
      return Err(PayloadTooLarge);
    }
    if (data.Length - HEADER_SIZE) % TWO_32 < length {
      return Err(PayloadTruncated);
    }
    var payload := new byte[length];
    CopyInto(payload, 0, data[5..5 + length]);
    assert payload[..] == data[..][5..5 + length];
    r := Ok(Frame(ftype, payload[..]));
  }

  /** Where the parts of an encoded frame are. */
  lemma FrameLayout(f: Frame, tail: seq<byte>)
    ensures var data := FrameBytes(f) + tail;
            && |data| == HEADER_SIZE + |f.payload| + |tail|
            && data[0] == f.ftype
            && data[1..5] == PutUint32(|f.payload|)
            && data[5..5 + |f.payload|] == f.payload
  {
  }

  lemma SmallFrameRoundTrip(f: Frame, tail: seq<byte>)
    requires |f.payload| <= MAX_PAYLOAD_LEN
    ensures ParseFrame(FrameBytes(f) + tail) == Ok(f) <==> (|f.payload| + |tail|) % TWO_32 >= |f.payload|
  {
    FrameLayout(f, tail);
    Uint32RoundTrip(|f.payload|);
    assert |f.payload| % TWO_32 == |f.payload|;
  }

  lemma ParsedFrameIsSmall(data: seq<byte>)
    ensures ParseFrame(data).Ok? ==> |ParseFrame(data).value.payload| <= MAX_PAYLOAD_LEN
  {
  }

  /** A frame followed by any trailing bytes decodes to itself exactly when its
      payload fits and the wrapped remainder still covers it. */
  lemma FrameRoundTrip(f: Frame, tail: seq<byte>)
    ensures ParseFrame(FrameBytes(f) + tail) == Ok(f) <==>
            |f.payload| <= MAX_PAYLOAD_LEN && (|f.payload| + |tail|) % TWO_32 >= |f.payload|
  {
    if |f.payload| <= MAX_PAYLOAD_LEN {
      SmallFrameRoundTrip(f, tail);
    } else {
      ParsedFrameIsSmall(FrameBytes(f) + tail);
    }
  }

  /** The form callers rely on: whole messages shorter than 2^32 bytes. */
  lemma FrameRoundTripBelow4GiB(f: Frame, tail: seq<byte>)
    requires |f.payload| <= MAX_PAYLOAD_LEN && |f.payload| + |tail| < TWO_32
    ensures ParseFrame(FrameBytes(f) + tail) == Ok(f)
  {
    FrameRoundTrip(f, tail);
  }

  /** Encoding a decoded frame gives back a prefix of the input. */
  lemma FrameReencodes(data: seq<byte>)
    requires ParseFrame(data).Ok?
    ensures FrameBytes(ParseFrame(data).value) <= data
  {
    var f := ParseFrame(data).value;
    Uint32Reencodes(data[1..5]);
    assert FrameBytes(f) == data[..5 + |f.payload|];
  }

  // ---------- both layers ----------

  /** "hb" and "hba". */
  const HEARTBEAT_REQ_ID: seq<byte> := [0x68, 0x62]
  const HEARTBEAT_ACK_REQ_ID: seq<byte> := [0x68, 0x62, 0x61]

  /** Ids the router may use for a dispatch. */
  predicate DispatchId(id: seq<byte>) {
    |id| <= MAX_REQ_ID_LEN && id != HEARTBEAT_REQ_ID && id != HEARTBEAT_ACK_REQ_ID
  }

  /** The ids the router draws, UUIDs of 36 characters, are among them. */
  lemma UuidsAreDispatchIds(id: seq<byte>)
    requires |id| == 36
    ensures DispatchId(id)
  {
  }

  datatype Message = HeartbeatMessage(payload: seq<byte>) | FrameMessage(reqID: seq<byte>, frame: Frame) | Undecodable

  /** A worker's sendFrame. */
  function Pack(id: seq<byte>, f: Frame): seq<byte> {
    EnvelopeBytes(Envelope(id, FrameBytes(f)))
  }

  /** The classification handleMeshMessage makes of a message body. */
  function Unpack(body: seq<byte>): Message {
    match ParseEnvelope(body)
    case Err(_) => Undecodable
    case Ok(env) =>
      if env.reqID == HEARTBEAT_REQ_ID then HeartbeatMessage(env.payload)
      else match ParseFrame(env.payload)
           case Err(_) => Undecodable
           case Ok(f) => FrameMessage(env.reqID, f)
  }

  /** A frame sent under a dispatch id reaches the router's demultiplexer as
      that frame under that id; one over 16 MiB never arrives as itself. */
  lemma UnpackPack(id: seq<byte>, f: Frame)
    requires DispatchId(id)
    ensures Unpack(Pack(id, f)) == FrameMessage(id, f) <==> |f.payload| <= MAX_PAYLOAD_LEN
    ensures Unpack(Pack(id, f)).FrameMessage? ==> Unpack(Pack(id, f)).reqID == id
    ensures MAX_PAYLOAD_LEN < |f.payload| < TWO_32 ==> Unpack(Pack(id, f)).Undecodable?
    ensures !Unpack(Pack(id, f)).HeartbeatMessage?
  {
    EnvelopeRoundTrip(Envelope(id, FrameBytes(f)));
    WholeFrame(f);
  }

  /** A frame alone in its envelope. */
  lemma WholeFrame(f: Frame)
    ensures ParseFrame(FrameBytes(f)) == Ok(f) <==> |f.payload| <= MAX_PAYLOAD_LEN
    ensures MAX_PAYLOAD_LEN < |f.payload| < TWO_32 ==> ParseFrame(FrameBytes(f)).Err?
  {
    FrameRoundTrip(f, []);
    assert FrameBytes(f) + [] == FrameBytes(f);
    FrameLayout(f, []);
    Uint32RoundTrip(|f.payload|);
  }
}
