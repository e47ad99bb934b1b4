/**
 * The event records that follow the disabled-tube mask, and the
 * reconstruction of their 6-byte timestamps as tick counts.
 */
module Records {
  import opened Bytes

  /** Widths of the record fields: tube id, pixel, timestamp. */
  const RecordWidths: seq<nat> := [1, 1, 6]
  const RecordSize: nat := RecordWidths[0] + RecordWidths[1] + RecordWidths[2]
  const TimestampWidth: nat := RecordWidths[2]

  datatype EventRecord = EventRecord(tubeId: Byte, pixel: Byte, timestamp: seq<Byte>)

  predicate WellFormedRecord(r: EventRecord)
  {
    |r.timestamp| == TimestampWidth
  }

  predicate AllWellFormed(rs: seq<EventRecord>)
  {
    forall k :: 0 <= k < |rs| ==> WellFormedRecord(rs[k])
  }

  /** One record from its 8 bytes. */
  function DecodeRecord(r8: seq<Byte>): (r: EventRecord)
    requires |r8| == RecordSize
    ensures WellFormedRecord(r)
  {
    EventRecord(r8[0], r8[1], r8[2..8])
  }

  function EncodeRecord(r: EventRecord): (r8: seq<Byte>)
    requires WellFormedRecord(r)
    ensures |r8| == RecordSize
  {
    [r.tubeId, r.pixel] + r.timestamp
  }

  /** A record survives encoding and decoding. */
  lemma RecordRoundTrip(r: EventRecord)
    requires WellFormedRecord(r)
    ensures DecodeRecord(EncodeRecord(r)) == r
  {
    var r8 := EncodeRecord(r);
    assert r8[2..8] == r.timestamp;
  }

  lemma ConcatSplit<T>(a: seq<T>, b: seq<T>)
    ensures (a + b)[..|a|] == a && (a + b)[|a|..] == b
  {
  }

  /** A slice of the suffix from `a` is the slice of the whole shifted by `a`. */
  lemma SuffixSlice<T>(s: seq<T>, a: nat, i: nat, j: nat)
    requires a <= |s| && i <= j <= |s| - a
    ensures s[a..][i..j] == s[a + i .. a + j]
  {
    assert forall m :: 0 <= m < j - i ==> s[a..][i..j][m] == s[a + i .. a + j][m];
  }

  /** A slice of the slice from `a` to `c` is the slice of the whole shifted by `a`. */
  lemma InnerSlice<T>(s: seq<T>, a: nat, c: nat, i: nat, j: nat)
    requires a <= c <= |s| && i <= j <= c - a
    ensures s[a..c][i..j] == s[a + i .. a + j]
    ensures i < c - a ==> s[a..c][i] == s[a + i]
  {
    assert forall m :: 0 <= m < j - i ==> s[a..c][i..j][m] == s[a..c][i + m] == s[a + i + m] == s[a + i .. a + j][m];
  }

  /** Consecutive whole records of `bs`; trailing bytes that do not fill a record are not read. */
  function DecodeAll(bs: seq<Byte>): (rs: seq<EventRecord>)
    ensures AllWellFormed(rs)
    ensures |rs| == |bs| / RecordSize
    decreases |bs|
  {
    if |bs| < RecordSize then [] else [DecodeRecord(bs[..RecordSize])] + DecodeAll(bs[RecordSize..])
  }

  function EncodeAll(rs: seq<EventRecord>): (bs: seq<Byte>)
    requires AllWellFormed(rs)
    ensures |bs| == RecordSize * |rs|
  {
    if rs == [] then [] else EncodeRecord(rs[0]) + EncodeAll(rs[1..])
  }

  /** The records of an event file: everything from data_offset to the end of the file. */
  function DecodeRecords(b: seq<Byte>, dataOffset: nat): (rs: seq<EventRecord>)
    ensures AllWellFormed(rs)
    ensures |rs| == RecordCount(b, dataOffset)
  {
    if dataOffset <= |b| then DecodeAll(b[dataOffset..]) else []
  }

  /** The number of whole records that fit in the bytes from data_offset to the end. */
  function RecordCount(b: seq<Byte>, dataOffset: nat): nat
  {
    if dataOffset <= |b| then (|b| - dataOffset) / RecordSize else 0
  }

  /** Record k is read from bytes 8k .. 8k+8. */
  lemma {:induction false} DecodeAllAt(bs: seq<Byte>, k: nat)
    requires k < |bs| / RecordSize
    ensures RecordSize * k + RecordSize <= |bs|
    ensures k < |DecodeAll(bs)| && DecodeAll(bs)[k] == DecodeRecord(bs[RecordSize * k .. RecordSize * k + RecordSize])
    decreases k
  {
    if k > 0 {
      var i := RecordSize * (k - 1);
      assert RecordSize + i == RecordSize * k;
      DecodeAllAt(bs[RecordSize..], k - 1);
      SuffixSlice(bs, RecordSize, i, i + RecordSize);
    }
  }

  /**
   * Record k of the file has tube b[off+8k], pixel b[off+8k+1] and
   * timestamp bytes b[off+8k+2 .. off+8k+8].
   */
  predicate RecordLaidOut(b: seq<Byte>, dataOffset: nat, k: nat)
  {
    var at := dataOffset + RecordSize * k;
    at + RecordSize <= |b| && k < |DecodeRecords(b, dataOffset)| &&
    DecodeRecords(b, dataOffset)[k] == EventRecord(b[at], b[at + 1], b[at + 2 .. at + 8])
  }

  lemma RecordAt(b: seq<Byte>, dataOffset: nat, k: nat)
    requires k < RecordCount(b, dataOffset)
    ensures RecordLaidOut(b, dataOffset, k)
  {
    var bs := b[dataOffset..];
    DecodeAllAt(bs, k);
    var i := RecordSize * k;
    var at := dataOffset + i;
    SuffixSlice(b, dataOffset, i, i + RecordSize);
    var r8 := b[at .. at + RecordSize];
    assert DecodeRecords(b, dataOffset)[k] == DecodeRecord(r8);
    InnerSlice(b, at, at + RecordSize, 2, 8);
  }

  /** The record layout of the event file: RecordCount records, each read from its own 8 bytes. */
  lemma DecodeRecordsLayout(b: seq<Byte>, dataOffset: nat)
    ensures |DecodeRecords(b, dataOffset)| == RecordCount(b, dataOffset)
    ensures forall k :: 0 <= k < RecordCount(b, dataOffset) ==> RecordLaidOut(b, dataOffset, k)
  {
    forall k | 0 <= k < RecordCount(b, dataOffset)
      ensures RecordLaidOut(b, dataOffset, k)
    {
      RecordAt(b, dataOffset, k);
    }
  }

  /** Re-encoding the decoded records gives back exactly the whole-record bytes. */
  lemma {:induction false} EncodeDecodeAll(bs: seq<Byte>)
    ensures EncodeAll(DecodeAll(bs)) == bs[..RecordSize * (|bs| / RecordSize)]
    decreases |bs|
  {
    if |bs| >= RecordSize {
      var rest := bs[RecordSize..];
      EncodeDecodeAll(rest);
      assert EncodeRecord(DecodeRecord(bs[..RecordSize])) == bs[..RecordSize];
      assert (|bs| / RecordSize) == (|rest| / RecordSize) + 1;
      assert bs[..RecordSize * (|bs| / RecordSize)]
          == bs[..RecordSize] + rest[..RecordSize * (|rest| / RecordSize)];
    }
  }

  /** Decoding the encoding of any records, followed by a partial record, gives the records. */
  lemma {:induction false} DecodeEncodeAll(rs: seq<EventRecord>, tail: seq<Byte>)
    requires AllWellFormed(rs) && |tail| < RecordSize
    ensures DecodeAll(EncodeAll(rs) + tail) == rs
  {
    if rs == [] {
      assert EncodeAll(rs) + tail == tail;
    } else {
      var head, rest := EncodeRecord(rs[0]), EncodeAll(rs[1..]) + tail;
      var bs := EncodeAll(rs) + tail;
      assert bs == head + rest;
      ConcatSplit(head, rest);
      RecordRoundTrip(rs[0]);
      DecodeEncodeAll(rs[1..], tail);
      assert DecodeAll(bs) == [rs[0]] + rs[1..];
    }
  }

  /**
   * The tick count of a 6-byte timestamp: padded with two zero bytes and
   * read as an unsigned 64-bit little-endian integer.
   */
  function Ticks(ts: seq<Byte>): (t: nat)
    requires |ts| == TimestampWidth
    ensures t == LittleEndian(ts) && t < Pow256(6)
  {
    Widen(ts, 8)
  }

  /** The tick count of every record, applied record by record. */
  function Timestamps(rs: seq<EventRecord>): (ts: seq<nat>)
    requires AllWellFormed(rs)
    ensures |ts| == |rs|
    ensures forall k :: 0 <= k < |rs| ==> ts[k] == LittleEndian(rs[k].timestamp) && ts[k] < Pow256(6)
  {
    seq(|rs|, k requires 0 <= k < |rs| => Ticks(rs[k].timestamp))
  }

  /**
   * Every tick count is the little-endian value of its record's six
   * timestamp bytes, is below 2^48 and encodes back to those bytes.
   */
  lemma TimestampsFaithful(rs: seq<EventRecord>)
    requires AllWellFormed(rs)
    ensures forall k :: 0 <= k < |rs| ==>
      Timestamps(rs)[k] == LittleEndian(rs[k].timestamp) && Timestamps(rs)[k] < Pow256(6) &&
      ToLittleEndian(Timestamps(rs)[k], TimestampWidth) == rs[k].timestamp
  {
    forall k | 0 <= k < |rs|
      ensures ToLittleEndian(Timestamps(rs)[k], TimestampWidth) == rs[k].timestamp
    {
      EncodeDecode(rs[k].timestamp);
    }
  }
}
