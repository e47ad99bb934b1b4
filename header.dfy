/**
 * The fixed file header of a VSANS event file, its packed origin timestamp
 * and the disabled-tube mask that follows it.
 */
module HeaderLayout {
  import opened Bytes

  /**
   * Widths of the header fields in declaration order: magic number,
   * revision, data offset, origin timestamp, detector carriage group,
   * HV reading, timestamp frequency.
   */
  const FieldWidths: seq<nat> := [5, 2, 2, 10, 1, 2, 4]
  const MagicField: nat := 0
  const RevisionField: nat := 1
  const DataOffsetField: nat := 2
  const OriginField: nat := 3
  const CarriageField: nat := 4
  const HvField: nat := 5
  const FrequencyField: nat := 6

  /** Byte offset at which field i starts; field |FieldWidths| is the end of the header. */
  function FieldOffset(i: nat): nat
    requires i <= |FieldWidths|
  {
    if i == 0 then 0 else FieldOffset(i - 1) + FieldWidths[i - 1]
  }

  /** The size of the packed header record. */
  const HeaderSize: nat := 26

  /** The offsets the widths imply; the fields fill the 26-byte header exactly. */
  lemma HeaderOffsets()
    ensures FieldOffset(MagicField) == 0 && FieldOffset(RevisionField) == 5
    ensures FieldOffset(DataOffsetField) == 7 && FieldOffset(OriginField) == 9
    ensures FieldOffset(CarriageField) == 19 && FieldOffset(HvField) == 20
    ensures FieldOffset(FrequencyField) == 22 && FieldOffset(|FieldWidths|) == HeaderSize
  {
  }

  /** The bytes of header field i in a buffer that holds at least a header. */
  function Field(b: seq<Byte>, i: nat): seq<Byte>
    requires i < |FieldWidths| && HeaderSize <= |b|
  {
    HeaderOffsets();
    b[FieldOffset(i) .. FieldOffset(i + 1)]
  }

  datatype Header = Header(
    magic: seq<Byte>,
    revision: nat,
    dataOffset: nat,
    originTimestamp: seq<Byte>,
    carriage: Byte,
    hvReading: nat,
    timestampFrequency: nat)

  /** Every field fits the width the layout gives it. */
  predicate WellFormedHeader(h: Header)
  {
    |h.magic| == 5 && h.revision < Pow256(2) && h.dataOffset < Pow256(2) &&
    |h.originTimestamp| == 10 && h.hvReading < Pow256(2) && h.timestampFrequency < Pow256(4)
  }

  /** Decodes the header record from the first HeaderSize bytes of `b`. */
  function ParseHeader(b: seq<Byte>): (h: Header)
    requires HeaderSize <= |b|
    ensures WellFormedHeader(h)
    ensures h.magic == b[0..5] && h.revision == LittleEndian(b[5..7])
    ensures h.dataOffset == LittleEndian(b[7..9]) && h.originTimestamp == b[9..19]
    ensures h.carriage == b[19] && h.hvReading == LittleEndian(b[20..22])
    ensures h.timestampFrequency == LittleEndian(b[22..26])
  {
    HeaderOffsets();
    assert |Field(b, RevisionField)| == 2 && |Field(b, DataOffsetField)| == 2;
    assert |Field(b, HvField)| == 2 && |Field(b, FrequencyField)| == 4;
    LittleEndianBound(Field(b, RevisionField));
    LittleEndianBound(Field(b, DataOffsetField));
    LittleEndianBound(Field(b, HvField));
    LittleEndianBound(Field(b, FrequencyField));
    Header(
      Field(b, MagicField),
      LittleEndian(Field(b, RevisionField)),
      LittleEndian(Field(b, DataOffsetField)),
      Field(b, OriginField),
      Field(b, CarriageField)[0],
      LittleEndian(Field(b, HvField)),
      LittleEndian(Field(b, FrequencyField)))
  }

  /** Only the first HeaderSize bytes of a buffer decide its header. */
  lemma ParseHeaderPrefix(b: seq<Byte>)
    requires HeaderSize <= |b|
    ensures ParseHeader(b) == ParseHeader(b[..HeaderSize])
  {
    HeaderOffsets();
    var p := b[..HeaderSize];
    assert b[0..5] == p[0..5] && b[5..7] == p[5..7] && b[7..9] == p[7..9] && b[9..19] == p[9..19];
    assert b[20..22] == p[20..22] && b[22..26] == p[22..26];
  }

  /** The packed header record of a well-formed header. */
  function EncodeHeader(h: Header): (b: seq<Byte>)
    requires WellFormedHeader(h)
    ensures |b| == HeaderSize
  {
    HeaderOffsets();
    h.magic + ToLittleEndian(h.revision, 2) + ToLittleEndian(h.dataOffset, 2) +
    h.originTimestamp + [h.carriage] + ToLittleEndian(h.hvReading, 2) +
    ToLittleEndian(h.timestampFrequency, 4)
  }

  /** Decoding an encoded header gives the header back. */
  lemma HeaderRoundTrip(h: Header)
    requires WellFormedHeader(h)
    ensures ParseHeader(EncodeHeader(h)) == h
  {
    var b := EncodeHeader(h);
    HeaderOffsets();
    var rev, off := ToLittleEndian(h.revision, 2), ToLittleEndian(h.dataOffset, 2);
    var hv, f := ToLittleEndian(h.hvReading, 2), ToLittleEndian(h.timestampFrequency, 4);
    var pre := h.magic + rev + off + h.originTimestamp + [h.carriage] + hv;
    assert |pre| == 22 && |f| == 4 && b == pre + f;
    assert b[..22] == pre && b[22..] == f;
    assert b[0..5] == h.magic && b[5..7] == rev && b[7..9] == off;
    assert b[9..19] == h.originTimestamp && b[19] == h.carriage && b[20..22] == hv;
    assert b[22..26] == b[22..];
    DecodeEncode(h.revision, 2);
    DecodeEncode(h.dataOffset, 2);
    DecodeEncode(h.hvReading, 2);
    DecodeEncode(h.timestampFrequency, 4);
  }

  /** Re-encoding a decoded header reproduces the header bytes. */
  lemma HeaderBytesRoundTrip(b: seq<Byte>)
    requires HeaderSize <= |b|
    ensures EncodeHeader(ParseHeader(b)) == b[..HeaderSize]
  {
    HeaderOffsets();
    EncodeDecode(b[5..7]);
    EncodeDecode(b[7..9]);
    EncodeDecode(b[20..22]);
    EncodeDecode(b[22..26]);
    assert b[..26] == b[0..5] + b[5..7] + b[7..9] + b[9..19] + [b[19]] + b[20..22] + b[22..26];
  }

  /** The origin timestamp: whole seconds and the nanoseconds within that second. */
  datatype OriginTimestamp = OriginTimestamp(seconds: nat, nanoseconds: nat)

  /**
   * Splits the 10 raw origin-timestamp bytes: nanoseconds are bytes 0..4
   * read as a 32-bit value, seconds are bytes 4..10 padded with two zero
   * bytes and read as a 64-bit value.
   */
  function DecodeOrigin(raw: seq<Byte>): (o: OriginTimestamp)
    requires |raw| == 10
    ensures o.nanoseconds == LittleEndian(raw[0..4]) && o.nanoseconds < Pow256(4)
    ensures o.seconds == LittleEndian(raw[4..10]) && o.seconds < Pow256(6)
  {
    OriginTimestamp(Widen(raw[4..10], 8), Widen(raw[0..4], 4))
  }

  /** Packs seconds (below 2^48) and nanoseconds (below 2^32) into the 10-byte layout. */
  function EncodeOrigin(o: OriginTimestamp): (raw: seq<Byte>)
    requires o.seconds < Pow256(6) && o.nanoseconds < Pow256(4)
    ensures |raw| == 10
  {
    ToLittleEndian(o.nanoseconds, 4) + ToLittleEndian(o.seconds, 6)
  }

  /** Any representable (seconds, nanoseconds) pair survives encoding and decoding. */
  lemma OriginRoundTrip(o: OriginTimestamp)
    requires o.seconds < Pow256(6) && o.nanoseconds < Pow256(4)
    ensures DecodeOrigin(EncodeOrigin(o)) == o
  {
    var raw := EncodeOrigin(o);
    assert raw[0..4] == ToLittleEndian(o.nanoseconds, 4);
    assert raw[4..10] == ToLittleEndian(o.seconds, 6);
    DecodeEncode(o.nanoseconds, 4);
    DecodeEncode(o.seconds, 6);
  }

  /** Every 10-byte field is the encoding of what it decodes to. */
  lemma OriginBytesRoundTrip(raw: seq<Byte>)
    requires |raw| == 10
    ensures EncodeOrigin(DecodeOrigin(raw)) == raw
  {
    EncodeDecode(raw[0..4]);
    EncodeDecode(raw[4..10]);
    assert raw == raw[0..4] + raw[4..10];
  }

  /**
   * Up to `count` bytes of `b` starting at `start`: a read that runs into
   * the end of the file returns the bytes that are there.
   */
  function ReadBytes(b: seq<Byte>, start: nat, count: nat): (r: seq<Byte>)
    ensures |r| <= count
    ensures start + count <= |b| ==> |r| == count
    ensures start <= |b| < start + count ==> |r| == |b| - start
    ensures |b| < start ==> r == []
    ensures forall i :: 0 <= i < |r| ==> start + i < |b| && r[i] == b[start + i]
  {
    var lo := if start <= |b| then start else |b|;
    var hi := if start + count <= |b| then start + count else |b|;
    b[lo..hi]
  }

  /**
   * The disabled-tube mask: data_offset - HeaderSize bytes, one per disabled
   * tube, stored right after the header (cut short at the end of the file).
   */
  function DisabledTubes(b: seq<Byte>, dataOffset: nat): (mask: seq<Byte>)
    requires HeaderSize <= dataOffset
    ensures |mask| <= dataOffset - HeaderSize
    ensures dataOffset <= |b| ==> mask == b[HeaderSize..dataOffset]
    ensures HeaderSize <= |b| < dataOffset ==> mask == b[HeaderSize..]
    ensures |b| < HeaderSize ==> mask == []
    ensures dataOffset == HeaderSize ==> mask == []
  {
    ReadBytes(b, HeaderSize, dataOffset - HeaderSize)
  }

  /**
   * The mask as the source reads it under NumPy 2 (NEP 50 promotion): the
   * entry count is the 16-bit difference data_offset - HeaderSize (it wraps
   * around below HeaderSize), and the read starts HeaderSize bytes past the
   * cursor, which already stands at HeaderSize after the header was read.
   */
  function DisabledTubesAsWritten(b: seq<Byte>, dataOffset: nat): (w: seq<Byte>)
    requires dataOffset < Pow256(2)
    ensures |w| <= (dataOffset - HeaderSize) % Pow256(2)
    ensures HeaderSize + HeaderSize + (dataOffset - HeaderSize) % Pow256(2) <= |b| ==>
      |w| == (dataOffset - HeaderSize) % Pow256(2)
    ensures HeaderSize + HeaderSize <= |b| < HeaderSize + HeaderSize + (dataOffset - HeaderSize) % Pow256(2) ==>
      |w| == |b| - (HeaderSize + HeaderSize)
    ensures |b| < HeaderSize + HeaderSize ==> w == []
    ensures forall i :: 0 <= i < |w| ==> HeaderSize + HeaderSize + i < |b| && w[i] == b[HeaderSize + HeaderSize + i]
  {
    var count := (dataOffset - HeaderSize) % Pow256(2);
    ReadBytes(b, HeaderSize + HeaderSize, count)
  }

  /**
   * A file with one disabled tube whose records end before byte 52 (three
   * records make 51 bytes): the mask holds b[26], the read as written
   * returns nothing.
   */
  lemma MaskMissedAsWritten(b: seq<Byte>)
    requires 27 <= |b| <= 52
    ensures DisabledTubes(b, 27) == [b[26]]
    ensures DisabledTubesAsWritten(b, 27) == []
  {
    HeaderOffsets();
  }

  /**
   * Under NumPy 2 (NEP 50 promotion), a data offset inside the header makes
   * the 16-bit entry count wrap to at least 65510 rather than fail.
   */
  lemma MaskCountWraps(b: seq<Byte>, dataOffset: nat)
    requires dataOffset < HeaderSize
    ensures DisabledTubesAsWritten(b, dataOffset)
         == ReadBytes(b, 2 * HeaderSize, Pow256(2) + dataOffset - HeaderSize)
    ensures Pow256(2) + dataOffset - HeaderSize >= 65510
  {
    assert Pow256(2) == 65536 by {
      assert Pow256(1) == 256;
    }
    var d: int := dataOffset - HeaderSize;
    assert -26 <= d < 0;
    assert d % 65536 == 65536 + d;
  }
}
