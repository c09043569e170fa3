/** The wire envelope (daemon/envelope.go): a 20-byte little-endian header and the payload. */
module Envelopes {
  import opened Bytes

  const VERSION: byte := 1
  const HEADER_SIZE: nat := 20
  const MAX_PAYLOAD: nat := 65535

  const TYPE_MSG: byte := 1
  const TYPE_ACK: byte := 2
  const TYPE_FILE: byte := 5

  datatype Envelope = Envelope(version: byte, typ: byte, sn: u64, ts: i64, payload: bytes)

  function Header(e: Envelope): (r: bytes)
    ensures |r| == HEADER_SIZE
  {
    [e.version, e.typ] + LittleEndian(e.sn, 8) + LittleEndian(ToUnsigned(e.ts), 8)
      + LittleEndian(|e.payload|, 2)
  }

  function Encode(e: Envelope): (r: Result<bytes>) {
    if |e.payload| > MAX_PAYLOAD then Err else Ok(Header(e) + e.payload)
  }

  function U64At(data: bytes, at: nat): u64
    requires at + 8 <= |data|
  {
    FromLittleEndianRoundTrip(data[at..at + 8]);
    Widths();
    FromLittleEndian(data[at..at + 8])
  }

  function Decode(data: bytes): (r: Result<Envelope>) {
    if |data| < HEADER_SIZE then Err
    else if data[0] != VERSION then Err
    else
      var len := FromLittleEndian(data[18..20]);
      if |data| < HEADER_SIZE + len then Err
      else Ok(Envelope(data[0], data[1], U64At(data, 2), ToSigned(U64At(data, 10)),
                       data[HEADER_SIZE..HEADER_SIZE + len]))
  }

  lemma HeaderFields(e: Envelope, data: bytes)
    requires |data| >= HEADER_SIZE && data[..HEADER_SIZE] == Header(e)
    ensures data[0] == e.version && data[1] == e.typ
    ensures data[2..10] == LittleEndian(e.sn, 8)
    ensures data[10..18] == LittleEndian(ToUnsigned(e.ts), 8)
    ensures data[18..20] == LittleEndian(|e.payload|, 2)
  {
    var h := data[..HEADER_SIZE];
    assert data[2..10] == h[2..10] && data[10..18] == h[10..18] && data[18..20] == h[18..20];
  }

  /** Decoding undoes encoding, also when the datagram carries trailing bytes. */
  lemma DecodeEncode(e: Envelope, junk: bytes)
    requires e.version == VERSION && |e.payload| <= MAX_PAYLOAD
    ensures Decode(Encode(e).value + junk) == Ok(e)
  {
    var data := Encode(e).value + junk;
    HeaderFields(e, data);
    Widths();
    LittleEndianRoundTrip(e.sn, 8);
    LittleEndianRoundTrip(ToUnsigned(e.ts), 8);
    LittleEndianRoundTrip(|e.payload|, 2);
    assert data[HEADER_SIZE..HEADER_SIZE + |e.payload|] == e.payload;
  }

  lemma HeaderInParts(data: bytes)
    requires |data| >= HEADER_SIZE
    ensures data[..HEADER_SIZE] == [data[0], data[1]] + data[2..10] + data[10..18] + data[18..20]
  {
  }

  lemma DecodedFields(data: bytes)
    requires Decode(data).Ok?
    ensures var e := Decode(data).value;
            && data[2..10] == LittleEndian(e.sn, 8)
            && data[10..18] == LittleEndian(ToUnsigned(e.ts), 8)
            && data[18..20] == LittleEndian(|e.payload|, 2)
            && |e.payload| <= MAX_PAYLOAD
  {
    Widths();
    FromLittleEndianRoundTrip(data[2..10]);
    FromLittleEndianRoundTrip(data[10..18]);
    FromLittleEndianRoundTrip(data[18..20]);
  }

  /** Conversely nothing else decodes to `e`: the datagram starts with its encoding. */
  lemma EncodeDecode(data: bytes)
    requires Decode(data).Ok?
    ensures var e := Decode(data).value;
            e.version == VERSION && Encode(e).Ok? && Encode(e).value <= data
  {
    var e := Decode(data).value;
    DecodedFields(data);
    HeaderInParts(data);
    assert Header(e) == data[..HEADER_SIZE];
    assert Encode(e).value == data[..HEADER_SIZE + |e.payload|];
  }

  /** A datagram decodes to `e` exactly when `e` is encodable at this version and
      the datagram starts with its encoding. */
  lemma DecodesExactly(data: bytes, e: Envelope)
    ensures Decode(data) == Ok(e) <==>
            e.version == VERSION && Encode(e).Ok? && Encode(e).value <= data
  {
    if Decode(data) == Ok(e) {
      EncodeDecode(data);
    }
    if e.version == VERSION && Encode(e).Ok? && Encode(e).value <= data {
      var junk := data[|Encode(e).value|..];
      assert data == Encode(e).value + junk;
      DecodeEncode(e, junk);
    }
  }

  function Ack(sn: u64): Envelope {
    Envelope(VERSION, TYPE_ACK, sn, 0, [])
  }

  // ------------------------------------------------- filling the buffer in place

  method PutLittleEndian(buf: array<byte>, at: nat, n: nat, k: nat)
    requires at + k <= buf.Length
    modifies buf
    ensures buf[at..at + k] == LittleEndian(n, k)
    ensures buf[..at] == old(buf[..at]) && buf[at + k..] == old(buf[at + k..])
    decreases k
  {
    if k > 0 {
      buf[at] := n % 256;
      PutLittleEndian(buf, at + 1, n / 256, k - 1);
      assert buf[..at] == buf[..at + 1][..at];
      assert buf[at] == buf[..at + 1][at];
      assert buf[at..at + k] == [buf[at]] + buf[at + 1..at + k];
    }
  }

  method PutBytes(buf: array<byte>, at: nat, data: bytes)
    requires at + |data| <= buf.Length
    modifies buf
    ensures buf[at..at + |data|] == data
    ensures buf[..at] == old(buf[..at])
  {
    ghost var before := buf[..at];
    for i := 0 to |data|
      invariant buf[..at] == before
      invariant buf[at..at + i] == data[..i]
    {
      buf[at + i] := data[i];
      assert buf[at..at + i + 1] == buf[at..at + i] + [data[i]];
    }
    assert data[..|data|] == data;
  }

  /** Envelope.Encode as written: a zeroed buffer filled field by field. */
  method EncodeBuffer(e: Envelope) returns (r: Result<bytes>)
    ensures r == Encode(e)
  {
    if |e.payload| > MAX_PAYLOAD {
      return Err;
    }
    var buf := new byte[HEADER_SIZE + |e.payload|](_ => 0);
    buf[0] := e.version;
    buf[1] := e.typ;
    assert buf[..2] == [e.version, e.typ];
    PutLittleEndian(buf, 2, e.sn, 8);
    assert buf[..10] == buf[..2] + buf[2..10];
    PutLittleEndian(buf, 10, ToUnsigned(e.ts), 8);
    assert buf[..18] == buf[..10] + buf[10..18];
    PutLittleEndian(buf, 18, |e.payload|, 2);
    assert buf[..20] == buf[..18] + buf[18..20];
    assert buf[..20] == Header(e);
    PutBytes(buf, 20, e.payload);
    assert buf[..] == buf[..20] + buf[20..20 + |e.payload|];
    return Ok(buf[..]);
  }
}
