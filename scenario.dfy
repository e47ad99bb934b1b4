/**
 * A worked file: a header with data_offset 27, one disabled-tube byte and
 * three records (tube 0, pixel 0, tick 0), (tube 0, pixel 0, tick 50) and
 * (tube 191, pixel 127, tick 150), rebinned against the edges 0, 100, 200.
 */
module Scenario {
  import opened Bytes
  import opened HeaderLayout
  import opened Records
  import opened Grids
  import opened Binning
  import opened Detector
  import opened Events

  const Edges: seq<int> := [0, 100, 200]

  function SampleHeader(): (h: Header)
    ensures WellFormedHeader(h)
  {
    Header([0, 0, 0, 0, 0], 0, 27, Zeros(10), 70, 0, 10000000)
  }

  function SampleRecords(): (rs: seq<EventRecord>)
    ensures AllWellFormed(rs)
  {
    [EventRecord(0, 0, [0, 0, 0, 0, 0, 0]),
     EventRecord(0, 0, [50, 0, 0, 0, 0, 0]),
     EventRecord(191, 127, [150, 0, 0, 0, 0, 0])]
  }

  function SampleFile(): seq<Byte>
  {
    EncodeFile(SampleHeader(), [5], SampleRecords())
  }

  lemma SampleTicks()
    ensures Timestamps(SampleRecords()) == [0, 50, 150]
  {
    var rs := SampleRecords();
    assert rs[1].timestamp == [50] + Zeros(5);
    ZeroPadding([50], 5);
    assert rs[2].timestamp == [150] + Zeros(5);
    ZeroPadding([150], 5);
    assert rs[0].timestamp == Zeros(6);
    ZerosValue(6);
  }

  /** The file decodes to its header, its one mask byte and its three records. */
  lemma SampleHeaderDecodes()
    ensures |SampleFile()| == 51 && ParseHeader(SampleFile()) == SampleHeader()
    ensures DisabledTubes(SampleFile(), 27) == [5] && DisabledTubesAsWritten(SampleFile(), 27) == []
    ensures DecodeRecords(SampleFile(), 27) == SampleRecords()
  {
    FileRoundTrip(SampleHeader(), [5], SampleRecords());
    MaskMissedAsWritten(SampleFile());
  }

  lemma SampleEvents()
    ensures EventsOf(SampleRecords(), Timestamps(SampleRecords()))
         == [Event(0, 0, 0), Event(0, 0, 50), Event(191, 127, 150)]
  {
    SampleTicks();
  }

  lemma SampleDecodes()
    ensures |SampleFile()| == 51 && ParseHeader(SampleFile()) == SampleHeader()
    ensures DisabledTubes(SampleFile(), 27) == [5] && DisabledTubesAsWritten(SampleFile(), 27) == []
    ensures DecodeRecords(SampleFile(), 27) == SampleRecords()
    ensures EventsOf(SampleRecords(), Timestamps(SampleRecords()))
         == [Event(0, 0, 0), Event(0, 0, 50), Event(191, 127, 150)]
  {
    SampleHeaderDecodes();
    SampleEvents();
  }

  lemma CountOfThree(a: Event, b: Event, c: Event, P: Event -> bool)
    ensures Count([a, b, c], P) == (if P(a) then 1 else 0) + (if P(b) then 1 else 0) + (if P(c) then 1 else 0)
  {
    assert [a, b, c] == [a] + [b] + [c];
    CountConcat([a] + [b], [c], P);
    CountConcat([a], [b], P);
    CountSingle(a, P);
    CountSingle(b, P);
    CountSingle(c, P);
  }

  /** The trimmed volume of the sample: the two counted events sit in cells (0, 0) and (191, 127). */
  lemma SampleBins()
    ensures var v := TrimVolume(HistVolume([Event(0, 0, 0), Event(0, 0, 50), Event(191, 127, 150)], Edges));
      Shape(v, Tubes, Pixels, 2) && v[0][0] == [1, 0] && v[191][127] == [0, 1]
  {
    var a, b, c := Event(0, 0, 0), Event(0, 0, 50), Event(191, 127, 150);
    var evs := [a, b, c];
    var v := TrimVolume(HistVolume(evs, Edges));
    TrimVolumeShape(HistVolume(evs, Edges), Tubes, Pixels, |Edges| + 1);
    TrimmedBinCount(evs, Edges, 0, 0, 0);
    CountOfThree(a, b, c, InBin(Edges, 0, 0, 0));
    TrimmedBinCount(evs, Edges, 0, 0, 1);
    CountOfThree(a, b, c, InBin(Edges, 0, 0, 1));
    TrimmedBinCount(evs, Edges, 191, 127, 0);
    CountOfThree(a, b, c, InBin(Edges, 191, 127, 0));
    TrimmedBinCount(evs, Edges, 191, 127, 1);
    CountOfThree(a, b, c, InBin(Edges, 191, 127, 1));
    assert v[0][0] == [1, 0];
    assert v[191][127] == [0, 1];
  }

  /**
   * The event at tick 0 sits on the first edge and is dropped with overflow
   * slot 0; the right panel shows tube 0, pixel 0 at row 0, column 127 with
   * one count in bin 0, the left panel shows tube 191, pixel 127 at row 0,
   * column 127 with one count in bin 1, and the panels hold 2 counts in all.
   */
  lemma SampleRebins()
    ensures Ascending(Edges)
    ensures var ps := RebinnedPanels([Event(0, 0, 0), Event(0, 0, 50), Event(191, 127, 150)], Edges);
      Shape(ps.right, 48, 128, 2) && Shape(ps.left, 48, 128, 2) &&
      ps.right[0][127] == [1, 0] && ps.left[0][127] == [0, 1] &&
      Sum3(ps.right) + Sum3(ps.left) + Sum3(ps.top) + Sum3(ps.bottom) == 2
  {
    var a, b, c := Event(0, 0, 0), Event(0, 0, 50), Event(191, 127, 150);
    var evs := [a, b, c];
    var v := TrimVolume(HistVolume(evs, Edges));
    SampleBins();
    RightPanelMap(v, NBins(Edges));
    LeftPanelMap(v, NBins(Edges));
    PanelsConserveEvents(evs, Edges);
    CountOfThree(a, b, c, (ev: Event) => InRange(ev, Edges));
  }
}
