/**
 * The RTP fixed-header decoder of the streaming client (section 5.1 of
 * RFC 3550), with the client's Java arithmetic written out: bytes are signed,
 * every operand is promoted to a 32-bit `int` by sign extension, and the
 * sequence number is narrowed to a signed `short`.
 */
module Rtp {
  import opened Common

  /** A Java `byte`. */
  type JavaByte = b: int | -128 <= b < 128

  /** The octet a Java byte carries, 0..255. */
  function Unsigned(b: JavaByte): (u: int)
    ensures 0 <= u < 256
    ensures u % 256 == b % 256
  {
    if b < 0 then b + 256 else b
  }

  /** The Java byte carrying octet u. */
  function ToJavaByte(u: int): (b: JavaByte)
    requires 0 <= u < 256
    ensures Unsigned(b) == u
  {
    if u >= 128 then u - 256 else u
  }

  /** A frame as the client stores it: decoded header fields plus the payload window. */
  datatype Frame = Frame(
    payloadType: int,
    marker: bool,
    sequenceNumber: int,
    timestamp: int,
    packet: seq<JavaByte>,
    offset: int,
    payloadLength: int)

  /**
   * Java `x << k` on an `int` for k = log2(scale): the low 32 bits of x * scale.
   * A byte operand needs no separate promotion step, since the `int` value of
   * a sign-extended byte is the byte's own value.
   */
  function ShiftLeft(x: int, scale: int): int
  {
    Wrap32(x * scale)
  }

  /**
   * Java `x & mask` on an `int` for a contiguous mask `(count - 1) * unit`
   * (unit and count powers of two): the selected bits of x's two's-complement
   * representation, in place.
   */
  function MaskField(x: int, unit: int, count: int): int
    requires unit > 0 && count > 0
  {
    (x % TWO_32) / unit % count * unit
  }

  /** Java's `>>` on an `int` for k = log2(scale): division rounding toward minus infinity. */
  function ShiftRightSigned(x: int, scale: int): int
    requires scale > 0
  {
    x / scale
  }

  lemma MaskLowOctet(b: JavaByte)
    ensures MaskField(b, 1, 0x100) == Unsigned(b)
  {
  }

  /**
   * Java `b << k & (0xff << k)` for a byte b and k = log2(scale) in 8, 16, 24:
   * the octet of b, unsigned, moved up k bits. A negative b wraps once to
   * its two's-complement value, whose bits above the field the mask drops.
   */
  lemma MaskShiftedOctet(b: JavaByte, scale: int)
    requires scale == 0x100 || scale == 0x1_0000 || scale == 0x100_0000
    ensures MaskField(ShiftLeft(b, scale), scale, 0x100) == Unsigned(b) * scale
  {
    if scale == 0x100 {
      MaskShifted8(b);
    } else if scale == 0x1_0000 {
      MaskShifted16(b);
    } else {
      MaskShifted24(b);
    }
  }

  lemma MaskShifted8(b: JavaByte)
    ensures MaskField(ShiftLeft(b, 0x100), 0x100, 0x100) == Unsigned(b) * 0x100
  {
    assert IsInt32(b * 0x100);
    if b < 0 {
      assert (b * 0x100) % TWO_32 == (b + 0x100_0000) * 0x100;
    }
  }

  lemma MaskShifted16(b: JavaByte)
    ensures MaskField(ShiftLeft(b, 0x1_0000), 0x1_0000, 0x100) == Unsigned(b) * 0x1_0000
  {
    assert IsInt32(b * 0x1_0000);
    if b < 0 {
      assert (b * 0x1_0000) % TWO_32 == (b + 0x1_0000) * 0x1_0000;
    }
  }

  lemma MaskShifted24(b: JavaByte)
    ensures MaskField(ShiftLeft(b, 0x100_0000), 0x100_0000, 0x100) == Unsigned(b) * 0x100_0000
  {
    assert IsInt32(b * 0x100_0000);
    if b < 0 {
      assert (b * 0x100_0000) % TWO_32 == (b + 0x100) * 0x100_0000;
    }
  }

  /** The marker test as the client writes it: `packet[1] >> 7 == 1`. */
  function MarkerAsWritten(b1: JavaByte): bool
  {
    ShiftRightSigned(b1, 0x80) == 1
  }

  /** The marker bit of section 5.1 of RFC 3550: the top bit of octet 1. */
  function Marker(b1: JavaByte): bool
  {
    MaskField(b1, 0x80, 2) == 0x80
  }

  lemma MarkerAsWrittenNeverSet(b1: JavaByte)
    ensures !MarkerAsWritten(b1)
  {
  }

  lemma MarkerMeansTopBit(b1: JavaByte)
    ensures Marker(b1) <==> Unsigned(b1) >= 128
  {
  }

  /** An octet with the marker bit set that the client's test reports as unset. */
  lemma MarkerAsWrittenMissesSetBit()
    ensures Marker(-128) && !MarkerAsWritten(-128)
  {
    MarkerMeansTopBit(-128);
    MarkerAsWrittenNeverSet(-128);
  }

  function PayloadType(b1: JavaByte): int
  {
    MaskField(b1, 1, 0x80)
  }

  function SequenceNumber(b2: JavaByte, b3: JavaByte): int
  {
    Wrap16(Wrap32(MaskField(ShiftLeft(b2, 0x100), 0x100, 0x100) + MaskField(b3, 1, 0x100)))
  }

  function Timestamp(b4: JavaByte, b5: JavaByte, b6: JavaByte, b7: JavaByte): int
  {
    Wrap32(MaskField(ShiftLeft(b4, 0x100_0000), 0x100_0000, 0x100)
           + MaskField(ShiftLeft(b5, 0x1_0000), 0x1_0000, 0x100)
           + MaskField(ShiftLeft(b6, 0x100), 0x100, 0x100)
           + MaskField(b7, 1, 0x100))
  }

  lemma SequenceNumberIsBigEndian(b2: JavaByte, b3: JavaByte)
    ensures SequenceNumber(b2, b3) == Wrap16(Unsigned(b2) * 0x100 + Unsigned(b3))
  {
    MaskShiftedOctet(b2, 0x100);
    MaskLowOctet(b3);
  }

  lemma TimestampIsBigEndian(b4: JavaByte, b5: JavaByte, b6: JavaByte, b7: JavaByte)
    ensures Timestamp(b4, b5, b6, b7)
         == Wrap32(Unsigned(b4) * 0x100_0000 + Unsigned(b5) * 0x1_0000 + Unsigned(b6) * 0x100 + Unsigned(b7))
  {
    MaskShiftedOctet(b4, 0x100_0000);
    MaskShiftedOctet(b5, 0x1_0000);
    MaskShiftedOctet(b6, 0x100);
    MaskLowOctet(b7);
  }

  function CsrcCount(b0: JavaByte): int
  {
    MaskField(b0, 1, 0x10)
  }

  lemma LowBitsOfOctet(b: JavaByte)
    ensures PayloadType(b) == Unsigned(b) % 0x80
    ensures CsrcCount(b) == Unsigned(b) % 0x10
  {
    if b < 0 {
      var u := b + 256;
      assert b % TWO_32 == u + 0x80 * 0x1FF_FFFE;
      assert (u + 0x80 * 0x1FF_FFFE) % 0x80 == u % 0x80;
      assert (u + 0x10 * 0xFFF_FFF0) % 0x10 == u % 0x10;
    }
  }

  /**
   * Decodes the fixed RTP header of a received datagram of `length` bytes
   * held at the front of `packet`, as the client does: its marker test
   * never succeeds, so every frame comes out unmarked.
   */
  function ParseRtpPacket(packet: seq<JavaByte>, length: int): (f: Frame)
    requires |packet| >= 8
    ensures 0 <= f.payloadType < 128 && f.payloadType == Unsigned(packet[1]) % 128
    ensures !f.marker
    ensures IsInt16(f.sequenceNumber)
    ensures f.sequenceNumber == Wrap16(Unsigned(packet[2]) * 0x100 + Unsigned(packet[3]))
    ensures f.timestamp == Wrap32(Unsigned(packet[4]) * 0x100_0000 + Unsigned(packet[5]) * 0x1_0000
                                  + Unsigned(packet[6]) * 0x100 + Unsigned(packet[7]))
    ensures f.offset == 12 + 4 * (Unsigned(packet[0]) % 16)
    ensures f.payloadLength == length - f.offset
    ensures f.packet == packet
  {
    SequenceNumberIsBigEndian(packet[2], packet[3]);
    TimestampIsBigEndian(packet[4], packet[5], packet[6], packet[7]);
    MarkerAsWrittenNeverSet(packet[1]);
    LowBitsOfOctet(packet[1]);
    LowBitsOfOctet(packet[0]);
    var csrc := CsrcCount(packet[0]);
    var offset := 12 + csrc * 4;
    Frame(PayloadType(packet[1]), MarkerAsWritten(packet[1]), SequenceNumber(packet[2], packet[3]),
          Timestamp(packet[4], packet[5], packet[6], packet[7]), packet, offset, length - offset)
  }

  /**
   * The decoder with the marker bit read as section 5.1 of RFC 3550 places
   * it; every other field is the client's own reading.
   */
  function ParseRtpPacketIntended(packet: seq<JavaByte>, length: int): (f: Frame)
    requires |packet| >= 8
    ensures 0 <= f.payloadType < 128 && f.payloadType == Unsigned(packet[1]) % 128
    ensures f.marker <==> Unsigned(packet[1]) >= 128
    ensures IsInt16(f.sequenceNumber)
    ensures f.sequenceNumber == Wrap16(Unsigned(packet[2]) * 0x100 + Unsigned(packet[3]))
    ensures f.timestamp == Wrap32(Unsigned(packet[4]) * 0x100_0000 + Unsigned(packet[5]) * 0x1_0000
                                  + Unsigned(packet[6]) * 0x100 + Unsigned(packet[7]))
    ensures f.offset == 12 + 4 * (Unsigned(packet[0]) % 16)
    ensures f.payloadLength == length - f.offset
    ensures f.packet == packet
  {
    MarkerMeansTopBit(packet[1]);
    ParseRtpPacket(packet, length).(marker := Marker(packet[1]))
  }

  // ---------------------------------------------------------------------------
  // The sender's side of section 5.1 of RFC 3550, as the decoder's partner
  // ---------------------------------------------------------------------------

  /** Header fields as a sender chooses them (version 2, no padding, no extension). */
  datatype RtpHeader = RtpHeader(
    marker: bool,
    payloadType: int,
    sequenceNumber: int,
    timestamp: int,
    ssrc: int,
    csrcs: seq<int>)

  predicate ValidHeader(h: RtpHeader)
  {
    && 0 <= h.payloadType < 0x80
    && 0 <= h.sequenceNumber < TWO_16
    && IsUInt32(h.timestamp)
    && IsUInt32(h.ssrc)
    && |h.csrcs| < 16
    && forall i :: 0 <= i < |h.csrcs| ==> IsUInt32(h.csrcs[i])
  }

  /** v as four big-endian octets. */
  function Word32(v: int): (r: seq<JavaByte>)
    requires IsUInt32(v)
    ensures |r| == 4
  {
    var q0 := v / 0x100;
    var q1 := q0 / 0x100;
    [ToJavaByte(q1 / 0x100), ToJavaByte(q1 % 0x100), ToJavaByte(q0 % 0x100), ToJavaByte(v % 0x100)]
  }

  lemma Word32Value(v: int)
    requires IsUInt32(v)
    ensures var w := Word32(v);
            Unsigned(w[0]) * 0x100_0000 + Unsigned(w[1]) * 0x1_0000 + Unsigned(w[2]) * 0x100 + Unsigned(w[3]) == v
  {
    var q0 := v / 0x100;
    var q1 := q0 / 0x100;
    assert v == q0 * 0x100 + v % 0x100;
    assert q0 == q1 * 0x100 + q0 % 0x100;
    assert q1 == q1 / 0x100 * 0x100 + q1 % 0x100;
  }

  function CsrcList(cs: seq<int>): (r: seq<JavaByte>)
    requires forall i :: 0 <= i < |cs| ==> IsUInt32(cs[i])
    ensures |r| == 4 * |cs|
  {
    if |cs| == 0 then [] else Word32(cs[0]) + CsrcList(cs[1..])
  }

  function EncodeHeader(h: RtpHeader): (r: seq<JavaByte>)
    requires ValidHeader(h)
    ensures |r| == 12 + 4 * |h.csrcs|
  {
    [ToJavaByte(0x80 + |h.csrcs|),
     ToJavaByte((if h.marker then 0x80 else 0) + h.payloadType),
     ToJavaByte(h.sequenceNumber / 0x100), ToJavaByte(h.sequenceNumber % 0x100)]
    + Word32(h.timestamp) + Word32(h.ssrc) + CsrcList(h.csrcs)
  }

  lemma MarkerOctet(marker: bool, payloadType: int)
    requires 0 <= payloadType < 0x80
    ensures var u := (if marker then 0x80 else 0) + payloadType;
            u % 0x80 == payloadType && (u >= 0x80 <==> marker)
  {
  }

  /** The octets of an encoded header, read unsigned, carry the header's fields. */
  lemma EncodedOctets(h: RtpHeader)
    requires ValidHeader(h)
    ensures var e := EncodeHeader(h);
            && Unsigned(e[0]) % 0x10 == |h.csrcs|
            && Unsigned(e[1]) % 0x80 == h.payloadType && (Unsigned(e[1]) >= 0x80 <==> h.marker)
            && Unsigned(e[2]) * 0x100 + Unsigned(e[3]) == h.sequenceNumber
            && Unsigned(e[4]) * 0x100_0000 + Unsigned(e[5]) * 0x1_0000 + Unsigned(e[6]) * 0x100
               + Unsigned(e[7]) == h.timestamp
  {
    var e := EncodeHeader(h);
    assert e[4..8] == Word32(h.timestamp);
    Word32Value(h.timestamp);
    MarkerOctet(h.marker, h.payloadType);
    var k := |h.csrcs|;
    assert Unsigned(e[0]) == 0x80 + k;
    assert (0x80 + k) % 0x10 == k;
  }

  /** What the decoder makes of a packet whose first eight octets, read unsigned, carry these fields. */
  lemma ParseOctets(p: seq<JavaByte>, marker: bool, payloadType: int, csrcCount: int,
                    sequenceNumber: int, timestamp: int)
    requires |p| >= 8
    requires Unsigned(p[0]) % 0x10 == csrcCount
    requires Unsigned(p[1]) % 0x80 == payloadType && (Unsigned(p[1]) >= 0x80 <==> marker)
    requires Unsigned(p[2]) * 0x100 + Unsigned(p[3]) == sequenceNumber
    requires Unsigned(p[4]) * 0x100_0000 + Unsigned(p[5]) * 0x1_0000 + Unsigned(p[6]) * 0x100
             + Unsigned(p[7]) == timestamp
    ensures var f := ParseRtpPacketIntended(p, |p|);
            && f.payloadType == payloadType && f.marker == marker
            && f.sequenceNumber == Wrap16(sequenceNumber) && f.timestamp == Wrap32(timestamp)
            && f.offset == 12 + 4 * csrcCount && f.payloadLength == |p| - f.offset
  {
  }

  /**
   * The intended decoder recovers every field of an encoded header, with
   * the sequence number and timestamp in Java's signed reading, and locates
   * the payload exactly.
   */
  lemma ParseEncodedHeader(h: RtpHeader, payload: seq<JavaByte>)
    requires ValidHeader(h)
    ensures var p := EncodeHeader(h) + payload;
            var f := ParseRtpPacketIntended(p, |p|);
            && f.payloadType == h.payloadType
            && f.marker == h.marker
            && f.sequenceNumber == Wrap16(h.sequenceNumber)
            && f.timestamp == Wrap32(h.timestamp)
            && f.offset == |EncodeHeader(h)|
            && f.payloadLength == |payload|
            && p[f.offset..f.offset + f.payloadLength] == payload
  {
    var e := EncodeHeader(h);
    var p := e + payload;
    EncodedOctets(h);
    assert p[0] == e[0] && p[1] == e[1] && p[2] == e[2] && p[3] == e[3];
    assert p[4] == e[4] && p[5] == e[5] && p[6] == e[6] && p[7] == e[7];
    ParseOctets(p, h.marker, h.payloadType, |h.csrcs|, h.sequenceNumber, h.timestamp);
    assert p[|e|..|p|] == payload;
  }

  /**
   * The client's own decoder drops a marker the sender set: on a marked
   * header it agrees with the intended decoder in everything but the marker.
   */
  lemma EncodedMarkerLost(h: RtpHeader, payload: seq<JavaByte>)
    requires ValidHeader(h) && h.marker
    ensures var p := EncodeHeader(h) + payload;
            var f := ParseRtpPacket(p, |p|);
            var g := ParseRtpPacketIntended(p, |p|);
            && g.marker && !f.marker && f == g.(marker := false)
  {
    ParseEncodedHeader(h, payload);
  }
}
