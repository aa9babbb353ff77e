/**
 * The QUIC-style packet headers of tobacco/src/header.rs: a long header
 * (type, version, two length-prefixed connection IDs, a 32-bit packet number
 * and the payload) and a short header (key phase, one length-prefixed
 * connection ID, a 1-, 2- or 4-byte packet number and the payload), each
 * with a parser over a byte cursor and a writer into a growing buffer.
 * Where the cursor is read past its end the Rust code panics; the model
 * returns `Panicked` there.
 */
module PacketHeader {

  import opened Bytes
  import opened Wrappers

  const U32_LIMIT: nat := 0x1_0000_0000
  const U64_LIMIT: nat := 0x1_0000_0000_0000_0000

  type u32 = x: nat | x < U32_LIMIT
  type u64 = x: nat | x < U64_LIMIT

  datatype HeaderError = BufferTooShort | InvalidCidLength | InvalidPacketType

  /** A parse outcome: a value, a `HeaderError`, or a panic of the cursor or of `unreachable!`. */
  datatype Parsed<T> = Parsed(value: T) | Failed(error: HeaderError) | Panicked

  datatype LongPacketType = Initial | ZeroRtt | Handshake | Retry | VersionNegotiation

  datatype LongHeader = LongHeader(
    packetType: LongPacketType,
    version: u32,
    dstCid: seq<byte>,
    srcCid: seq<byte>,
    packetNumber: u32,
    payload: seq<byte>)

  datatype ShortHeader = ShortHeader(
    keyPhase: bool,
    dstCid: seq<byte>,
    packetNumber: u64,
    payload: seq<byte>)

  /** The outcome of a failed stage, carried over to another result type. */
  function Propagate<T, U>(p: Parsed<T>): (r: Parsed<U>)
    requires !p.Parsed?
    ensures p.Failed? <==> r.Failed?
    ensures p.Failed? ==> r.error == p.error
  {
    if p.Failed? then Failed(p.error) else Panicked
  }

  // ---------------------------------------------------------------------
  // Packet type

  /** The low seven bits the writer puts in the first byte; VersionNegotiation shares Initial's 0x00. */
  function TypeBits(t: LongPacketType): (b: byte)
    ensures b <= 3
  {
    match t
    case Initial => 0x00
    case ZeroRtt => 0x01
    case Handshake => 0x02
    case Retry => 0x03
    case VersionNegotiation => 0x00
  }

  /** `LongPacketType::try_from`: the low seven bits name one of four types. */
  function PacketTypeFromByte(b: byte): (r: Result<LongPacketType, HeaderError>)
    ensures r.Ok? <==> b % 128 <= 3
    ensures r.Err? ==> r.error == InvalidPacketType
    ensures r.Ok? ==> r.value != VersionNegotiation && TypeBits(r.value) == b % 128
  {
    match b % 128
    case 0 => Ok(Initial)
    case 1 => Ok(ZeroRtt)
    case 2 => Ok(Handshake)
    case 3 => Ok(Retry)
    case _ => Err(InvalidPacketType)
  }

  /** The type a written header reads back as. */
  function ReadBackType(t: LongPacketType): LongPacketType {
    if t == VersionNegotiation then Initial else t
  }

  lemma PacketTypeOfBits(t: LongPacketType)
    ensures PacketTypeFromByte(0x80 + TypeBits(t)) == Ok(ReadBackType(t))
  {
  }

  // ---------------------------------------------------------------------
  // Cursor reads

  /** `get_u32` after a `remaining() < 4` check. */
  function ReadU32(r: seq<byte>): (p: Parsed<(u32, seq<byte>)>)
    ensures p.Parsed? <==> |r| >= 4
    ensures !p.Parsed? ==> p == Failed(BufferTooShort)
    ensures p.Parsed? ==> r == BeBytes(p.value.0, 4) + p.value.1
  {
    if |r| < 4 then Failed(BufferTooShort)
    else
      BeBytesOfBeValue(r[..4]);
      assert r == r[..4] + r[4..];
      Parsed((BeValue(r[..4]), r[4..]))
  }

  lemma ReadU32Of(v: u32, rest: seq<byte>)
    ensures ReadU32(BeBytes(v, 4) + rest) == Parsed((v, rest))
  {
    var r := BeBytes(v, 4) + rest;
    assert r[..4] == BeBytes(v, 4) && r[4..] == rest;
    BeRoundTrip(v, 4);
  }

  /**
   * A length byte and that many bytes. The long parser reads the length with
   * an unchecked `get_u8` (panic on an empty cursor) and then checks the
   * remaining length (BufferTooShort).
   */
  function ReadCid(r: seq<byte>): (p: Parsed<(seq<byte>, seq<byte>)>)
    ensures p.Panicked? <==> |r| == 0
    ensures p.Failed? ==> p.error == BufferTooShort
    ensures p.Parsed? ==> |p.value.0| <= 255 && r == [|p.value.0| % 256] + (p.value.0 + p.value.1)
  {
    if |r| < 1 then Panicked
    else if |r| - 1 < r[0] then Failed(BufferTooShort)
    else
      var len := r[0];
      assert r == [r[0]] + (r[1..1 + len] + r[1 + len..]);
      Parsed((r[1..1 + len], r[1 + len..]))
  }

  lemma ReadCidOf(cid: seq<byte>, rest: seq<byte>)
    requires |cid| <= 255
    ensures ReadCid([|cid| % 256] + (cid + rest)) == Parsed((cid, rest))
  {
    var r := [|cid| % 256] + (cid + rest);
    assert r[0] == |cid|;
    assert r[1..1 + |cid|] == cid && r[1 + |cid|..] == rest;
  }

  lemma Assoc(a: seq<byte>, b: seq<byte>, c: seq<byte>)
    ensures (a + b) + c == a + (b + c)
  {
  }

  // ---------------------------------------------------------------------
  // Long header

  /** `LongHeader::try_from`. */
  function ParseLong(buf: seq<byte>): (r: Parsed<LongHeader>)
    ensures |buf| == 0 ==> r == Failed(BufferTooShort)
    ensures |buf| > 0 && (buf[0] < 0x80 || buf[0] % 128 > 3) ==> r == Failed(InvalidPacketType)
    ensures |buf| == 5 && 0x80 <= buf[0] <= 0x83 ==> r == Panicked
    ensures r != Failed(InvalidCidLength)
    ensures r.Parsed? ==> r.value.packetType != VersionNegotiation
  {
    if |buf| < 1 then Failed(BufferTooShort)
    else if buf[0] / 128 != 1 then Failed(InvalidPacketType)
    else match PacketTypeFromByte(buf[0])
      case Err(e) => Failed(e)
      case Ok(pt) => ParseLongFields(pt, buf[1..])
  }

  /** What follows the first byte: the version, then the connection IDs. */
  function ParseLongFields(pt: LongPacketType, r: seq<byte>): (res: Parsed<LongHeader>)
    ensures |r| == 4 ==> res == Panicked
    ensures res != Failed(InvalidCidLength)
    ensures res.Parsed? ==> res.value.packetType == pt
  {
    var v := ReadU32(r);
    if !v.Parsed? then Propagate(v) else ParseLongDst(pt, v.value.0, v.value.1)
  }

  /** The destination connection ID, then the source connection ID. */
  function ParseLongDst(pt: LongPacketType, version: u32, r: seq<byte>): (res: Parsed<LongHeader>)
    ensures |r| == 0 ==> res == Panicked
    ensures res != Failed(InvalidCidLength)
    ensures res.Parsed? ==> res.value.packetType == pt && res.value.version == version
  {
    var d := ReadCid(r);
    if !d.Parsed? then Propagate(d) else ParseLongSrc(pt, version, d.value.0, d.value.1)
  }

  /** The source connection ID, then the packet number. */
  function ParseLongSrc(pt: LongPacketType, version: u32, dstCid: seq<byte>, r: seq<byte>): (res: Parsed<LongHeader>)
    ensures res != Failed(InvalidCidLength)
    ensures res.Parsed? ==> res.value.packetType == pt && res.value.version == version && res.value.dstCid == dstCid
  {
    var s := ReadCid(r);
    if !s.Parsed? then Propagate(s) else ParseLongPn(pt, version, dstCid, s.value.0, s.value.1)
  }

  /** The packet number; the payload is everything after it. */
  function ParseLongPn(pt: LongPacketType, version: u32, dstCid: seq<byte>, srcCid: seq<byte>, r: seq<byte>)
    : (res: Parsed<LongHeader>)
    ensures res != Failed(InvalidCidLength)
  {
    var p := ReadU32(r);
    if !p.Parsed? then Propagate(p) else Parsed(LongHeader(pt, version, dstCid, srcCid, p.value.0, p.value.1))
  }

  /** `LongHeader::write`: the bytes appended to the buffer. Each CID length is cast to `u8`. */
  function EncodeLong(h: LongHeader): seq<byte> {
    [0x80 + TypeBits(h.packetType)] + LongFieldsBytes(h)
  }

  function LongFieldsBytes(h: LongHeader): seq<byte> {
    BeBytes(h.version, 4) + LongDstBytes(h)
  }

  function LongDstBytes(h: LongHeader): seq<byte> {
    [|h.dstCid| % 256] + (h.dstCid + LongSrcBytes(h))
  }

  function LongSrcBytes(h: LongHeader): seq<byte> {
    [|h.srcCid| % 256] + (h.srcCid + LongPnBytes(h))
  }

  function LongPnBytes(h: LongHeader): seq<byte> {
    BeBytes(h.packetNumber, 4) + h.payload
  }

  /**
   * Writing then parsing a long header gives it back when both CIDs fit the
   * one-byte length, except that VersionNegotiation reads back as Initial.
   */
  lemma LongRoundTrip(h: LongHeader)
    requires |h.dstCid| <= 255 && |h.srcCid| <= 255
    ensures ParseLong(EncodeLong(h)) == Parsed(h.(packetType := ReadBackType(h.packetType)))
  {
    var h' := h.(packetType := ReadBackType(h.packetType));
    var buf := EncodeLong(h);
    assert buf[0] == 0x80 + TypeBits(h.packetType);
    assert buf[1..] == LongFieldsBytes(h) == LongFieldsBytes(h');
    PacketTypeOfBits(h.packetType);
    LongFieldsRoundTrip(h');
  }

  lemma LongFieldsRoundTrip(h: LongHeader)
    requires |h.dstCid| <= 255 && |h.srcCid| <= 255
    ensures ParseLongFields(h.packetType, LongFieldsBytes(h)) == Parsed(h)
  {
    ReadU32Of(h.version, LongDstBytes(h));
    LongDstRoundTrip(h);
  }

  lemma LongDstRoundTrip(h: LongHeader)
    requires |h.dstCid| <= 255 && |h.srcCid| <= 255
    ensures ParseLongDst(h.packetType, h.version, LongDstBytes(h)) == Parsed(h)
  {
    ReadCidOf(h.dstCid, LongSrcBytes(h));
    LongSrcRoundTrip(h);
  }

  lemma LongSrcRoundTrip(h: LongHeader)
    requires |h.srcCid| <= 255
    ensures ParseLongSrc(h.packetType, h.version, h.dstCid, LongSrcBytes(h)) == Parsed(h)
  {
    ReadCidOf(h.srcCid, LongPnBytes(h));
    ReadU32Of(h.packetNumber, h.payload);
  }

  lemma VersionNegotiationReadsAsInitial(h: LongHeader)
    requires h.packetType == VersionNegotiation && |h.dstCid| <= 255 && |h.srcCid| <= 255
    ensures ParseLong(EncodeLong(h)) == Parsed(h.(packetType := Initial))
  {
    LongRoundTrip(h);
  }

  /** Every byte string the long parser accepts is exactly what writing its header produces. */
  lemma ParseLongThenEncode(buf: seq<byte>)
    requires ParseLong(buf).Parsed?
    ensures EncodeLong(ParseLong(buf).value) == buf
  {
    var h := ParseLong(buf).value;
    assert h == ParseLongFields(h.packetType, buf[1..]).value;
    LongFieldsThenEncode(h.packetType, buf[1..]);
    assert 0x80 + TypeBits(h.packetType) == buf[0];
    assert buf == [buf[0]] + buf[1..];
  }

  lemma LongFieldsThenEncode(pt: LongPacketType, r: seq<byte>)
    requires ParseLongFields(pt, r).Parsed?
    ensures LongFieldsBytes(ParseLongFields(pt, r).value) == r
  {
    var v := ReadU32(r);
    LongDstThenEncode(pt, v.value.0, v.value.1);
  }

  lemma LongDstThenEncode(pt: LongPacketType, version: u32, r: seq<byte>)
    requires ParseLongDst(pt, version, r).Parsed?
    ensures LongDstBytes(ParseLongDst(pt, version, r).value) == r
  {
    var d := ReadCid(r);
    LongSrcThenEncode(pt, version, d.value.0, d.value.1);
  }

  lemma LongSrcThenEncode(pt: LongPacketType, version: u32, dstCid: seq<byte>, r: seq<byte>)
    requires ParseLongSrc(pt, version, dstCid, r).Parsed?
    ensures LongSrcBytes(ParseLongSrc(pt, version, dstCid, r).value) == r
  {
    var s := ReadCid(r);
    var p := ReadU32(s.value.1);
    assert ParseLongSrc(pt, version, dstCid, r).value == LongHeader(pt, version, dstCid, s.value.0, p.value.0, p.value.1);
  }

  // ---------------------------------------------------------------------
  // Short header

  /**
   * The short parser's connection ID: both the length byte and the bytes
   * are taken without any check, so a short cursor panics.
   */
  function ReadCidUnchecked(r: seq<byte>): (p: Parsed<(seq<byte>, seq<byte>)>)
    ensures !p.Failed?
    ensures p.Panicked? <==> |r| == 0 || |r| - 1 < r[0]
    ensures p.Parsed? ==> p == ReadCid(r)
  {
    if |r| < 1 || |r| - 1 < r[0] then Panicked else ReadCid(r)
  }

  /** `((first >> 4) & 0x03) + 1`: 1, 2, 3 or 4 packet-number bytes. */
  function PnLen(first: byte): (n: nat)
    ensures 1 <= n <= 4
  {
    (first / 16) % 4 + 1
  }

  /** `ShortHeader::try_from`. */
  function ParseShort(buf: seq<byte>): (r: Parsed<ShortHeader>)
    ensures |buf| == 0 ==> r == Failed(BufferTooShort)
    ensures |buf| > 0 && buf[0] >= 0x80 ==> r == Failed(InvalidPacketType)
    ensures |buf| > 0 && PnLen(buf[0]) == 3 ==> !r.Parsed?
    ensures r.Parsed? ==> r.value.keyPhase == ((buf[0] / 64) % 2 == 1)
    ensures r.Parsed? ==> r.value.packetNumber < Pow256(PnLen(buf[0]))
    ensures r != Failed(InvalidCidLength)
  {
    if |buf| < 1 then Failed(BufferTooShort)
    else if buf[0] / 128 != 0 then Failed(InvalidPacketType)
    else
      var c := ReadCidUnchecked(buf[1..]);
      if !c.Parsed? then Propagate(c)
      else ParseShortPn((buf[0] / 64) % 2 == 1, PnLen(buf[0]), c.value.0, c.value.1)
  }

  /** The packet number of the width the first byte names; the payload is everything after it. */
  function ParseShortPn(keyPhase: bool, pnLen: nat, dstCid: seq<byte>, r: seq<byte>): (res: Parsed<ShortHeader>)
    requires 1 <= pnLen <= 4
    ensures pnLen == 3 ==> !res.Parsed?
    ensures res.Parsed? ==> res.value.keyPhase == keyPhase && res.value.packetNumber < Pow256(pnLen)
    ensures res != Failed(InvalidCidLength)
  {
    if |r| < pnLen then Failed(BufferTooShort)
    else if pnLen == 3 then Panicked
    else
      assert Pow256(pnLen) <= U64_LIMIT by { PowMonotone(pnLen, 8); }
      Parsed(ShortHeader(keyPhase, dstCid, BeValue(r[..pnLen]), r[pnLen..]))
  }

  lemma {:induction false} PowMonotone(a: nat, b: nat)
    requires a <= b
    ensures Pow256(a) <= Pow256(b)
    decreases b
  {
    if a < b {
      PowMonotone(a, b - 1);
    }
  }

  /** The packet-number width the writer picks: the smallest of 1, 2 and 4 bytes that holds it, truncating to 4. */
  function PnWidth(pn: u64): (w: nat)
    ensures w == 1 || w == 2 || w == 4
  {
    if pn < 0x100 then 1 else if pn < 0x1_0000 then 2 else 4
  }

  /** The length bits 0x00, 0x10 or 0x30 for a width. */
  function PnBits(w: nat): byte
    requires w == 1 || w == 2 || w == 4
  {
    if w == 1 then 0x00 else if w == 2 then 0x10 else 0x30
  }

  /** The first byte `ShortHeader::write` emits: key phase bit 0x40 and the length bits. */
  function ShortFirst(h: ShortHeader): byte {
    (if h.keyPhase then 0x40 else 0x00) + PnBits(PnWidth(h.packetNumber))
  }

  /** `ShortHeader::write`: the bytes appended to the buffer. */
  function EncodeShort(h: ShortHeader): seq<byte> {
    [ShortFirst(h)] + ([|h.dstCid| % 256] + (h.dstCid + ShortPnBytes(h)))
  }

  /** The packet number, cast to `u8`, `u16` or `u32`, then the payload. */
  function ShortPnBytes(h: ShortHeader): seq<byte> {
    BeBytes(h.packetNumber % U32_LIMIT, PnWidth(h.packetNumber)) + h.payload
  }

  /** The first byte the short writer produces, as the short parser reads it. */
  lemma ShortFirstByte(h: ShortHeader)
    ensures var first := ShortFirst(h);
      first < 0x80 && PnLen(first) == PnWidth(h.packetNumber) && ((first / 64) % 2 == 1 <==> h.keyPhase)
  {
  }

  /** The packet number the short writer emits fits its width, and is unchanged below 2^32. */
  lemma ShortPnFits(pn: u64)
    ensures pn % U32_LIMIT < Pow256(PnWidth(pn))
    ensures pn % U32_LIMIT == pn || PnWidth(pn) == 4
  {
    var w := PnWidth(pn);
    if w == 4 {
      assert Pow256(4) == U32_LIMIT;
    } else {
      assert Pow256(1) == 0x100 && Pow256(2) == 0x1_0000;
    }
  }

  /**
   * Writing then parsing a short header gives it back, with the packet
   * number cut to its low 32 bits, whenever the CID fits the length byte.
   */
  lemma ShortRoundTrip(h: ShortHeader)
    requires |h.dstCid| <= 255
    ensures ParseShort(EncodeShort(h)) == Parsed(h.(packetNumber := h.packetNumber % U32_LIMIT))
  {
    var buf := EncodeShort(h);
    assert buf[0] == ShortFirst(h) && buf[1..] == [|h.dstCid| % 256] + (h.dstCid + ShortPnBytes(h));
    ShortFirstByte(h);
    ReadCidOf(h.dstCid, ShortPnBytes(h));
    assert ReadCidUnchecked(buf[1..]) == Parsed((h.dstCid, ShortPnBytes(h)));
    assert ParseShort(buf) == ParseShortPn(h.keyPhase, PnWidth(h.packetNumber), h.dstCid, ShortPnBytes(h));
    ShortPnRoundTrip(h);
  }

  lemma ShortPnRoundTrip(h: ShortHeader)
    ensures ParseShortPn(h.keyPhase, PnWidth(h.packetNumber), h.dstCid, ShortPnBytes(h))
         == Parsed(h.(packetNumber := h.packetNumber % U32_LIMIT))
  {
    var w := PnWidth(h.packetNumber);
    var pn := h.packetNumber % U32_LIMIT;
    var tail := ShortPnBytes(h);
    assert tail[..w] == BeBytes(pn, w) && tail[w..] == h.payload;
    ShortPnFits(h.packetNumber);
    BeRoundTrip(pn, w);
  }

  /** The round trip of the test: packet numbers below 2^32 come back unchanged. */
  lemma ShortRoundTripSmall(h: ShortHeader)
    requires |h.dstCid| <= 255 && h.packetNumber < U32_LIMIT
    ensures ParseShort(EncodeShort(h)) == Parsed(h)
  {
    ShortRoundTrip(h);
    assert h.(packetNumber := h.packetNumber % U32_LIMIT) == h;
  }

  /** A first byte with length bits 0b10 never parses: too short, or `unreachable!`. */
  lemma ShortThreeBytePnPanics(buf: seq<byte>)
    requires |buf| >= 2 && buf[0] < 0x80 && PnLen(buf[0]) == 3
    requires |buf| - 2 >= buf[1] as int + 3
    ensures ParseShort(buf) == Panicked
  {
    var r := buf[1..];
    assert ReadCidUnchecked(r).Parsed?;
    assert ReadCid(r).value.1 == r[1 + r[0]..];
  }

  // ---------------------------------------------------------------------
  // The cursor and the output buffer

  /** The `BufMut` the writers append to. */
  class ByteSink {
    var data: seq<byte>

    constructor ()
      ensures data == []
    {
      data := [];
    }

    method PutU8(b: byte)
      modifies this
      ensures data == old(data) + [b]
    {
      data := data + [b];
    }

    /** `put_u32`: big-endian. */
    method PutU32(v: u32)
      modifies this
      ensures data == old(data) + BeBytes(v, 4)
    {
      data := data + BeBytes(v, 4);
    }

    method PutSlice(s: seq<byte>)
      modifies this
      ensures data == old(data) + s
    {
      data := data + s;
    }
  }

  /** `LongHeader::write` into a buffer. */
  method WriteLong(h: LongHeader, buf: ByteSink)
    modifies buf
    ensures buf.data == old(buf.data) + EncodeLong(h)
  {
    var typeByte: byte := match h.packetType
      case Initial => 0x00
      case ZeroRtt => 0x01
      case Handshake => 0x02
      case Retry => 0x03
      case VersionNegotiation => 0x00;
    ghost var s0 := buf.data;
    buf.PutU8(0x80 + typeByte);
    ghost var s1 := buf.data;
    buf.PutU32(h.version);
    ghost var s2 := buf.data;
    buf.PutU8(|h.dstCid| % 256);
    ghost var s3 := buf.data;
    buf.PutSlice(h.dstCid);
    ghost var s4 := buf.data;
    buf.PutU8(|h.srcCid| % 256);
    ghost var s5 := buf.data;
    buf.PutSlice(h.srcCid);
    ghost var s6 := buf.data;
    buf.PutU32(h.packetNumber);
    ghost var s7 := buf.data;
    buf.PutSlice(h.payload);
    Assoc(s6, BeBytes(h.packetNumber, 4), h.payload);
    Assoc(s5, h.srcCid, LongPnBytes(h));
    Assoc(s4, [|h.srcCid| % 256], h.srcCid + LongPnBytes(h));
    Assoc(s3, h.dstCid, LongSrcBytes(h));
    Assoc(s2, [|h.dstCid| % 256], h.dstCid + LongSrcBytes(h));
    Assoc(s1, BeBytes(h.version, 4), LongDstBytes(h));
    Assoc(s0, [0x80 + typeByte], LongFieldsBytes(h));
  }

  /** `ShortHeader::write` into a buffer. */
  method WriteShort(h: ShortHeader, buf: ByteSink)
    modifies buf
    ensures buf.data == old(buf.data) + EncodeShort(h)
  {
    var first: byte := 0x00;
    if h.keyPhase {
      first := 0x40;
    }
    var pn := h.packetNumber;
    var pnLen: nat;
    var pnBytes: seq<byte>;
    if pn < 0x100 {
      first := first + 0x00;
      pnLen, pnBytes := 1, BeBytes(pn, 1);
    } else if pn < 0x1_0000 {
      first := first + 0x10;
      pnLen, pnBytes := 2, BeBytes(pn, 2);
    } else {
      first := first + 0x30;
      pnLen, pnBytes := 4, BeBytes(pn % U32_LIMIT, 4);
    }
    assert first == ShortFirst(h);
    assert pnBytes[..pnLen] == pnBytes && pnBytes + h.payload == ShortPnBytes(h);
    ghost var s0 := buf.data;
    buf.PutU8(first);
    ghost var s1 := buf.data;
    buf.PutU8(|h.dstCid| % 256);
    ghost var s2 := buf.data;
    buf.PutSlice(h.dstCid);
    ghost var s3 := buf.data;
    buf.PutSlice(pnBytes[..pnLen]);
    buf.PutSlice(h.payload);
    Assoc(s3, pnBytes, h.payload);
    Assoc(s2, h.dstCid, ShortPnBytes(h));
    Assoc(s1, [|h.dstCid| % 256], h.dstCid + ShortPnBytes(h));
    Assoc(s0, [first], [|h.dstCid| % 256] + (h.dstCid + ShortPnBytes(h)));
  }

  /** `LongHeader::try_from`, reading through a cursor that advances over `buf`. */
  method LongTryFrom(buf: seq<byte>) returns (res: Parsed<LongHeader>)
    ensures res == ParseLong(buf)
  {
    var r := buf;
    if |r| < 1 {
      return Failed(BufferTooShort);
    }
    var first := r[0];
    r := r[1..];
    if first / 128 != 1 {
      return Failed(InvalidPacketType);
    }
    var packetType := PacketTypeFromByte(first);
    if packetType.Err? {
      return Failed(packetType.error);
    }
    if |r| < 4 {
      return Failed(BufferTooShort);
    }
    var version := BeValue(r[..4]);
    r := r[4..];
    if |r| < 1 {
      return Panicked;
    }
    var dcLen := r[0];
    r := r[1..];
    if |r| < dcLen {
      return Failed(BufferTooShort);
    }
    var dstCid := r[..dcLen];
    r := r[dcLen..];
    if |r| < 1 {
      return Panicked;
    }
    var scLen := r[0];
    r := r[1..];
    if |r| < scLen {
      return Failed(BufferTooShort);
    }
    var srcCid := r[..scLen];
    r := r[scLen..];
    if |r| < 4 {
      return Failed(BufferTooShort);
    }
    var packetNumber := BeValue(r[..4]);
    var payload := r[4..];
    res := Parsed(LongHeader(packetType.value, version, dstCid, srcCid, packetNumber, payload));
  }

  /** `ShortHeader::try_from`, reading through a cursor that advances over `buf`. */
  method ShortTryFrom(buf: seq<byte>) returns (res: Parsed<ShortHeader>)
    ensures res == ParseShort(buf)
  {
    var r := buf;
    if |r| < 1 {
      return Failed(BufferTooShort);
    }
    var first := r[0];
    r := r[1..];
    if first / 128 != 0 {
      return Failed(InvalidPacketType);
    }
    var keyPhase := (first / 64) % 2 == 1;
    var pnLen := (first / 16) % 4 + 1;
    if |r| < 1 {
      return Panicked;
    }
    var cidLen := r[0];
    r := r[1..];
    if |r| < cidLen {
      return Panicked;
    }
    var dstCid := r[..cidLen];
    r := r[cidLen..];
    assert ParseShort(buf) == ParseShortPn(keyPhase, pnLen, dstCid, r);
    if |r| < pnLen {
      res := Failed(BufferTooShort);
    } else if pnLen == 1 {
      res := Parsed(ShortHeader(keyPhase, dstCid, r[0], r[1..]));
      assert BeValue(r[..1]) == r[0] by { assert r[..1][..0] == []; }
    } else if pnLen == 2 {
      res := Parsed(ShortHeader(keyPhase, dstCid, BeValue(r[..2]), r[2..]));
    } else if pnLen == 4 {
      res := Parsed(ShortHeader(keyPhase, dstCid, BeValue(r[..4]), r[4..]));
    } else {
      res := Panicked;
    }
  }
}
