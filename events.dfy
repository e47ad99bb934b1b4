/**
 * A decoded VSANS event file. As in the source, the object is built step by
 * step from the file bytes: header, origin timestamp, data offset and
 * disabled-tube mask first, then the event records, then their tick counts.
 * Rebinning reads the decoded events and changes nothing.
 */
module Events {
  import opened Results
  import opened Bytes
  import opened HeaderLayout
  import opened Records
  import opened Grids
  import opened Binning
  import opened Detector

  datatype DecodeError = TruncatedHeader | DataOffsetInsideHeader

  datatype RebinError = EdgesNotMonotonic | IndexOutOfRange

  /** The panels of a rebin and the edges they were binned against, in ticks. */
  datatype RebinResult = RebinResult(panels: Panels, edges: seq<int>)

  /** Pairs each record's tube and pixel with its tick count. */
  function EventsOf(data: seq<EventRecord>, ts: seq<nat>): (evs: seq<Event>)
    requires |ts| == |data|
    ensures |evs| == |data|
    ensures forall k :: 0 <= k < |data| ==>
      evs[k].tube == data[k].tubeId && evs[k].pixel == data[k].pixel && evs[k].ticks == ts[k]
  {
    seq(|data|, k requires 0 <= k < |data| => Event(data[k].tubeId, data[k].pixel, ts[k]))
  }

  /** The counts that rebinning `evs` against edges `e` returns. */
  function RebinnedPanels(evs: seq<Event>, e: seq<int>): (ps: Panels)
    requires Ascending(e)
    ensures Shape(ps.right, PanelTubes, Pixels, NBins(e)) && Shape(ps.left, PanelTubes, Pixels, NBins(e))
    ensures Shape(ps.top, Pixels, PanelTubes, NBins(e)) && Shape(ps.bottom, Pixels, PanelTubes, NBins(e))
  {
    TrimVolumeShape(HistVolume(evs, e), Tubes, Pixels, |e| + 1);
    PanelsOf(TrimVolume(HistVolume(evs, e)), NBins(e))
  }

  /** An event file: the header record, the disabled-tube mask, the event records. */
  function EncodeFile(h: Header, mask: seq<Byte>, rs: seq<EventRecord>): seq<Byte>
    requires WellFormedHeader(h) && AllWellFormed(rs)
  {
    EncodeHeader(h) + mask + EncodeAll(rs)
  }

  /**
   * Decoding an encoded file whose data offset is the header size plus the
   * mask length gives back the header, the mask and the records.
   */
  lemma FileRoundTrip(h: Header, mask: seq<Byte>, rs: seq<EventRecord>)
    requires WellFormedHeader(h) && AllWellFormed(rs) && h.dataOffset == HeaderSize + |mask|
    ensures var f := EncodeFile(h, mask, rs);
      HeaderSize <= |f| && ParseHeader(f) == h &&
      DisabledTubes(f, h.dataOffset) == mask && DecodeRecords(f, h.dataOffset) == rs
  {
    var f := EncodeFile(h, mask, rs);
    assert f[..HeaderSize] == EncodeHeader(h);
    ParseHeaderPrefix(f);
    HeaderRoundTrip(h);
    assert f[HeaderSize..h.dataOffset] == mask;
    assert f[h.dataOffset..] == EncodeAll(rs) + [];
    DecodeEncodeAll(rs, []);
  }

  class VsansEvents {
    /** The bytes of the event file. */
    const file: seq<Byte>
    var header: Header
    var originTimestamp: OriginTimestamp
    var dataOffset: nat
    var disabledTubes: seq<Byte>
    var data: seq<EventRecord>
    var ts: seq<nat>

    /** Every field holds what decoding the file gives for it. */
    ghost predicate Valid()
      reads this
    {
      HeaderSize <= |file| && header == ParseHeader(file) &&
      originTimestamp == DecodeOrigin(header.originTimestamp) &&
      dataOffset == header.dataOffset && HeaderSize <= dataOffset &&
      disabledTubes == DisabledTubes(file, dataOffset) &&
      data == DecodeRecords(file, dataOffset) && ts == Timestamps(data)
    }

    /** Decodes a file whose header is complete and whose data offset lies past the header. */
    constructor (bytes: seq<Byte>)
      requires HeaderSize <= |bytes| && HeaderSize <= ParseHeader(bytes).dataOffset
      ensures file == bytes && Valid()
    {
      var h := ParseHeader(bytes);
      file := bytes;
      header := h;
      originTimestamp := DecodeOrigin(h.originTimestamp);
      dataOffset := h.dataOffset;
      disabledTubes := DisabledTubes(bytes, h.dataOffset);
      new;
      ReadData();
      ProcessTimestamps();
    }

    /** Reads every whole record from data_offset to the end of the file. */
    method ReadData()
      modifies this`data
      ensures data == DecodeRecords(file, dataOffset)
    {
      data := DecodeRecords(file, dataOffset);
    }

    /** Computes the tick count of every record's timestamp bytes. */
    method ProcessTimestamps()
      requires AllWellFormed(data)
      modifies this`ts
      ensures ts == Timestamps(data)
    {
      ts := Timestamps(data);
    }

    /**
     * Opens an event file: fails if the header is cut short or if the data
     * offset points inside the header.
     */
    static method Open(bytes: seq<Byte>) returns (r: Result<VsansEvents, DecodeError>)
      ensures r == Failure(TruncatedHeader) <==> |bytes| < HeaderSize
      ensures r == Failure(DataOffsetInsideHeader) <==>
        HeaderSize <= |bytes| && ParseHeader(bytes).dataOffset < HeaderSize
      ensures r.Success? ==> fresh(r.value) && r.value.file == bytes && r.value.Valid()
    {
      if |bytes| < HeaderSize {
        return Failure(TruncatedHeader);
      }
      if ParseHeader(bytes).dataOffset < HeaderSize {
        return Failure(DataOffsetInsideHeader);
      }
      var v := new VsansEvents(bytes);
      r := Success(v);
    }

    /** The decoded events: tube, pixel and tick count of every record. */
    function Events(): seq<Event>
      reads this
      requires |ts| == |data|
    {
      EventsOf(data, ts)
    }

    /**
     * Rebins the events against ascending edges given in ticks. Fails if an
     * edge exceeds its successor, or if an event's tube or pixel lies
     * outside the dense volume; otherwise returns the four panels of the
     * trimmed volume.
     */
    method Rebin(edges: seq<int>) returns (r: Result<RebinResult, RebinError>)
      requires Valid()
      ensures r == Failure(EdgesNotMonotonic) <==> !Monotonic(edges)
      ensures r == Failure(IndexOutOfRange) <==> Monotonic(edges) && !InBounds(Events())
      ensures r.Success? ==>
        Ascending(edges) && InBounds(Events()) &&
        r.value == RebinResult(RebinnedPanels(Events(), edges), edges)
    {
      if !Monotonic(edges) {
        return Failure(EdgesNotMonotonic);
      }
      MonotonicAscending(edges);
      var evs := EventsOf(data, ts);
      if !InBounds(evs) {
        return Failure(IndexOutOfRange);
      }
      var vol := ScatterAdd(evs, edges);
      var v := Snapshot(vol);
      SameVolume(v, HistVolume(evs, edges), Tubes, Pixels, |edges| + 1);
      TrimVolumeShape(v, Tubes, Pixels, |edges| + 1);
      r := Success(RebinResult(PanelsOf(TrimVolume(v), NBins(edges)), edges));
    }
  }
}
