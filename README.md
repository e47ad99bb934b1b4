# VSANS event-file decoder and time rebinning, in Dafny

This project models the core of the stopped-flow SANS tools: the `vsans_events` class. It reads a
VSANS event-mode detector file and turns the neutron events in it into time-sliced count images of the
four detector panels. The model follows the class step by step.

- **Header** (`HeaderLayout`). The 26-byte header has the fields magic 5, revision 2, data_offset 2,
  origin timestamp 10, carriage 1, HV 2 and frequency 4 bytes, at the offsets these widths imply.
  The origin timestamp splits asymmetrically: nanoseconds are bytes 0..4, read as a 32-bit value.
  Seconds are bytes 4..10, padded with two zero bytes and read as a 64-bit value.
  The disabled-tube mask (one byte per tube) follows the header.
- **Records** (`Records`). The 8-byte event records (tube, pixel, 6 timestamp bytes) run from
  data_offset to the end of the file. Each timestamp is zero-extended to a tick count.
- **Rebinning** (`Binning`, `Detector`). Each event gets a left-biased insertion point among the bin
  edges, so the slots run from 0 to n_bins+1. The events are scatter-added into a dense
  192 x 128 x (n_bins+2) volume, and the two overflow slots are trimmed off. The tube axis is then
  cut into the panels right, left, top and bottom, each with its fixed flip or transpose.
- **Object** (`Events`). `VsansEvents` is a class whose constructor sets its fields step by step, as
  the source's `__init__`, `read_data` and `process_timestamps` do, with two corrections (see
  "## Findings"). The mask is read from byte 26 (`DisabledTubes`), not from byte 52 as the source
  reads it. `Open`, the failing form of construction, rejects a data_offset below 26, which the
  source accepts. `Rebin` accumulates into an `array3` with a loop over the events.
- **Byte order and width**. Integers are decoded little-endian and explicitly; the source uses the
  host's native byte order. Field widths and the 16-bit wrap of the data_offset subtraction under
  NumPy 2 (NEP 50 promotion) are written out.
- **Bin edges** are integer tick counts.

The model follows the code as written:

- The magic number is never checked.
- Trailing bytes that do not fill a whole record are ignored, not rejected.
- A kept bin j holds the events with e[j] < ticks <= e[j+1], so the events that survive trimming are
  those in (e[0], e[n]], not [e[0], e[n]).
- So with ticks 0, 50 and 150 against edges 0, 100, 200, the right panel's bin 0 holds 1 count: the
  event at tick 0 falls in overflow slot 0 (`Scenario.SampleRebins`).
- An out-of-range tube or pixel makes the rebin fail (numpy's `add.at` raises IndexError); it is not
  a decode error.

## Model

| member | source | states |
|---|---|---|
| `Bytes.Widen` | read_vsans_events_class.py:33-34 | padding a field with zero bytes up to a native width and reading it gives the field's own little-endian value, below 256^(field width) |
| `Bytes.DecodeEncode` | read_vsans_events_class.py:33-34 | decoding the width-n little-endian encoding of any x < 256^n gives x |
| `Bytes.EncodeDecode` | read_vsans_events_class.py:33-34 | every byte field is the encoding, at its own width, of the value it decodes to |
| `Bytes.ZeroPadding` | read_vsans_events_class.py:60 | appending zero high-order bytes does not change a field's value |
| `Bytes.LittleEndianBound` | read_vsans_events_class.py:60 | an n-byte field decodes below 256^n |
| `HeaderLayout.HeaderOffsets` | read_vsans_events_class.py:13-21 | the widths 5, 2, 2, 10, 1, 2, 4 put the fields at offsets 0, 5, 7, 9, 19, 20, 22 and fill the 26-byte header exactly |
| `HeaderLayout.ParseHeader` | read_vsans_events_class.py:13-21 | the decoded header has magic b[0..5], revision LE(b[5..7]), data_offset LE(b[7..9]) < 2^16, origin bytes b[9..19], carriage b[19], HV LE(b[20..22]), frequency LE(b[22..26]) |
| `HeaderLayout.ParseHeaderPrefix` | read_vsans_events_class.py:31 | reading one header record looks only at the first 26 bytes |
| `HeaderLayout.HeaderRoundTrip` | read_vsans_events_class.py:13-21 | decoding the encoding of any header whose fields fit their widths gives that header back |
| `HeaderLayout.HeaderBytesRoundTrip` | read_vsans_events_class.py:13-21 | re-encoding a decoded header reproduces the 26 header bytes |
| `HeaderLayout.DecodeOrigin` | read_vsans_events_class.py:32-35 | nanoseconds = LE(raw[0..4]) < 2^32 and seconds = LE(raw[4..10]) < 2^48 |
| `HeaderLayout.OriginRoundTrip` | read_vsans_events_class.py:32-35 | any (seconds < 2^48, nanoseconds < 2^32) packed into the 10 bytes decodes to the same pair |
| `HeaderLayout.OriginBytesRoundTrip` | read_vsans_events_class.py:32-35 | every 10-byte origin field is the packing of the pair it decodes to |
| `HeaderLayout.ReadBytes` | read_vsans_events_class.py:39 | a read of count bytes from start returns count bytes when the file holds them, exactly the len(b) - start remaining bytes when it runs into the end, nothing when start is past the end, each equal to the file byte at its position |
| `HeaderLayout.DisabledTubes` | read_vsans_events_class.py:37-39 | the mask has at most data_offset - 26 entries; it is b[26..data_offset] when the file reaches data_offset, b[26..] when the file ends before it, and empty when data_offset == 26 or the file ends inside the header |
| `HeaderLayout.DisabledTubesAsWritten` | read_vsans_events_class.py:36-39 | as the source reads it under NumPy 2, the mask has (data_offset - 26) mod 2^16 entries when the file holds them, exactly the len(b) - 52 bytes that are there when it runs into the end, none when the file ends before byte 52, and entry i is byte 52 + i, not byte 26 + i |
| `HeaderLayout.MaskMissedAsWritten` | read_vsans_events_class.py:39 | for data_offset 27 and a file of 27 to 52 bytes, the mask is [b[26]] but the source reads [] |
| `HeaderLayout.MaskCountWraps` | read_vsans_events_class.py:36-38 | under NumPy 2, a data_offset below 26 makes the 16-bit entry count wrap to at least 65510 |
| `Records.DecodeAll` | read_vsans_events_class.py:53-55 | the number of records decoded is the byte count divided by 8, rounded down, and every record has 6 timestamp bytes |
| `Records.DecodeRecords` | read_vsans_events_class.py:53-55 | the records of a file are the (len - data_offset) / 8 whole records from data_offset on (none when data_offset is past the end), each with 6 timestamp bytes |
| `Records.DecodeAllAt` | read_vsans_events_class.py:23-27 | record k is decoded from bytes 8k .. 8k+8 |
| `Records.RecordAt` | read_vsans_events_class.py:23-27 | record k of the file is (b[off+8k], b[off+8k+1], b[off+8k+2 .. off+8k+8]) |
| `Records.DecodeRecordsLayout` | read_vsans_events_class.py:23-27 | there are (len - data_offset) / 8 records, and record k is (b[off+8k], b[off+8k+1], b[off+8k+2 .. off+8k+8]) |
| `Records.EncodeDecodeAll` | read_vsans_events_class.py:53-55 | re-encoding the decoded records reproduces exactly the whole-record bytes |
| `Records.DecodeEncodeAll` | read_vsans_events_class.py:53-55 | decoding the encoding of any records, followed by a partial record, gives those records |
| `Records.Ticks` | read_vsans_events_class.py:58-60 | a tick count is the little-endian value of the 6 timestamp bytes, below 2^48 |
| `Records.Timestamps` | read_vsans_events_class.py:58-60 | there is one tick count per record, the little-endian value of its timestamp bytes, below 2^48 |
| `Records.TimestampsFaithful` | read_vsans_events_class.py:58-60 | every record's tick count is the value of its own timestamp bytes, is below 2^48 and encodes back to those bytes |
| `Binning.MonotonicAscending` | read_vsans_events_class.py:66 | edges that pass the neighbour check for monotonicity are ascending for every pair |
| `Binning.Bisect` | read_vsans_events_class.py:68 | the binary search returns a split point in [lo, hi] with every edge before it below t and every edge from it on at least t |
| `Binning.SearchLeft` | read_vsans_events_class.py:68 | the insertion point lies in [0, n+1] for n+1 edges; the edges before it are below t and the rest are at least t |
| `Binning.SearchLeftCountsBelow` | read_vsans_events_class.py:68 | the insertion point is the number of edges strictly below the timestamp |
| `Binning.SlotOfTimestamp` | read_vsans_events_class.py:68-74 | slot 0 holds ticks <= e[0], slot n+1 holds ticks > e[n], and slot j+1 holds exactly e[j] < ticks <= e[j+1] |
| `Binning.HistVolume` | read_vsans_events_class.py:75 | the untrimmed volume is 192 x 128 x (n_bins + 2) |
| `Binning.Trim` | read_vsans_events_class.py:79 | dropping the first and last slot leaves max(n - 2, 0) slots, slot j being old slot j + 1 |
| `Binning.TrimVolume` | read_vsans_events_class.py:79 | the trimmed volume keeps the tube and pixel axes, has max(n - 2, 0) bins per cell, and kept bin j of each cell is its slot j + 1 |
| `Binning.TrimVolumeShape` | read_vsans_events_class.py:79 | trimming leaves max(depth - 2, 0) time bins in every cell |
| `Binning.TrimmedBinCount` | read_vsans_events_class.py:68-79 | kept bin j of cell (t, p) counts exactly the events of tube t and pixel p with e[j] < ticks <= e[j+1] |
| `Binning.FirstEdgeDiscarded` | read_vsans_events_class.py:68-79 | an event at or before e[0] lands in overflow slot 0 and in no kept bin |
| `Binning.HistMerge` | read_vsans_events_class.py:76-77 | accumulating two event subsets against the same edges and adding the volumes gives the volume of all the events |
| `Binning.HistOrderIndependent` | read_vsans_events_class.py:77 | event sequences with the same multiset of events give the same volume |
| `Binning.Conservation` | read_vsans_events_class.py:75-79 | with every tube < 192 and pixel < 128, the trimmed volume sums to the number of events with e[0] < ticks <= e[n] |
| `Binning.ScatterAdd` | read_vsans_events_class.py:75-77 | the zero-initialised 192 x 128 x (n_bins + 2) array, incremented once per event, holds in each cell the number of events with that tube, pixel and insertion point |
| `Grids.FlipLR` | read_vsans_events_class.py:83-86 | mirroring the columns keeps every row's length and moves element j of each row to position n - 1 - j |
| `Grids.FlipLRTwice` | read_vsans_events_class.py:83-86 | mirroring the columns twice gives the grid back |
| `Grids.FlipUD` | read_vsans_events_class.py:84-86 | mirroring the rows keeps their number and moves row i to position n - 1 - i |
| `Grids.FlipUDTwice` | read_vsans_events_class.py:84-86 | mirroring the rows twice gives the grid back |
| `Grids.SwapAxes` | read_vsans_events_class.py:85-86 | swapping the axes of a rows x width grid gives a width x rows grid with s[j][i] = m[i][j] |
| `Grids.SwapAxesTwice` | read_vsans_events_class.py:85-86 | swapping the axes twice gives a rectangular grid back |
| `Grids.Sum3FlipLR` | read_vsans_events_class.py:83 | mirroring the pixel axis keeps the total count |
| `Grids.Sum3FlipUD` | read_vsans_events_class.py:84 | mirroring the tube axis keeps the total count |
| `Grids.Sum3Swap` | read_vsans_events_class.py:85 | swapping the tube and pixel axes keeps the total count |
| `Detector.PanelsOf` | read_vsans_events_class.py:82-87 | a 192 x 128 x n volume makes right and left panels of 48 x 128 x n and top and bottom panels of 128 x 48 x n |
| `Detector.RightPanelMap` | read_vsans_events_class.py:83 | the right panel is 48 x 128 with right[t][p] = V[t][127 - p] |
| `Detector.LeftPanelMap` | read_vsans_events_class.py:84 | the left panel is 48 x 128 with left[r][p] = V[191 - r][p] |
| `Detector.TopPanelMap` | read_vsans_events_class.py:85 | the top panel is 128 x 48 with top[p][t] = V[48 + t][p] |
| `Detector.BottomPanelMap` | read_vsans_events_class.py:86 | the bottom panel is 128 x 48 with bottom[p][t] = V[143 - t][127 - p] |
| `Detector.Locate` | read_vsans_events_class.py:82-87 | every (tube, pixel) goes to a valid position of the panel whose tube range contains the tube |
| `Detector.LocateShowsCell` | read_vsans_events_class.py:82-87 | the panel position Locate gives for (t, p) holds exactly V[t][p], and CellAt inverts Locate |
| `Detector.PositionsAreCells` | read_vsans_events_class.py:82-87 | every panel position shows one volume cell, and Locate sends that cell back to it |
| `Detector.PanelBoundaries` | read_vsans_events_class.py:82-87 | the boundary tubes 0, 47, 48, 95, 96, 143, 144, 191 land at their predicted panel rows and columns |
| `Detector.PanelsPartition` | read_vsans_events_class.py:82-87 | the four panels together hold exactly the counts of the volume |
| `Detector.PanelsConserveEvents` | read_vsans_events_class.py:75-87 | the panels of a rebinned event set hold one count per in-bounds event with e[0] < ticks <= e[n] |
| `Events.EventsOf` | read_vsans_events_class.py:77 | event k has record k's tube and pixel and tick count k |
| `Events.RebinnedPanels` | read_vsans_events_class.py:75-87 | the panels that rebinning returns are 48 x 128 (right, left) and 128 x 48 (top, bottom), each with n_bins = max(len(edges) - 1, 0) time bins |
| `Events.FileRoundTrip` | read_vsans_events_class.py:29-41 | a file encoded from a header, a mask of data_offset - 26 bytes and records decodes to that header, mask and records |
| `Events.VsansEvents.constructor` | read_vsans_events_class.py:29-41 | the fields hold the decoded header, origin timestamp, data_offset, mask, records and tick counts of the file |
| `Events.VsansEvents.ReadData` | read_vsans_events_class.py:53-56 | the records are the whole records from data_offset to the end of the file |
| `Events.VsansEvents.ProcessTimestamps` | read_vsans_events_class.py:58-60 | the tick counts are those of every record's timestamp bytes |
| `Events.VsansEvents.Open` | read_vsans_events_class.py:29-41 | fails on a header cut short and on a data_offset inside the header; otherwise gives a fresh decoded object of the file |
| `Events.VsansEvents.Rebin` | read_vsans_events_class.py:62-90 | fails exactly when an edge exceeds its successor, or when an event's tube or pixel is outside the volume (in that order); otherwise returns the panels of the trimmed histogram of the decoded events, and the edges |
| `Scenario.SampleDecodes` | read_vsans_events_class.py:29-60 | the sample file (data_offset 27, one mask byte, three records) decodes to its header, mask and events, and the source's mask read returns nothing |
| `Scenario.SampleBins` | read_vsans_events_class.py:75-79 | the sample's trimmed volume holds [1, 0] in cell (0, 0) and [0, 1] in cell (191, 127) |
| `Scenario.SampleRebins` | read_vsans_events_class.py:62-90 | rebinning the sample against edges 0, 100, 200 gives right[0][127] = [1, 0], left[0][127] = [0, 1] and 2 counts in all |

## Left out

- Seconds and ticks: the 100 ns resolution constant, dividing edge arrays given in seconds and
  multiplying the returned edges back (read_vsans_events_class.py:10, 65, 90) are floating point.
  The model takes and returns edges in integer ticks.
- Edges from a bin count: `np.histogram_bin_edges` with an integer bin count, including the default
  of 10 slices (read_vsans_events_class.py:62, 66), computes floating-point edges. The model takes
  the edges as a caller-supplied array.
- `counts_vs_time` (read_vsans_events_class.py:92-101) is floating-point arithmetic throughout.
- `simple_header` (read_vsans_events_class.py:46-51) only unwraps numpy fields.
- The file handle: `open`, `seek_data_start` and `close` become a byte sequence and the data offset.
- Counts: the volume holds numpy float64 counts; the model counts with natural numbers, which agree
  up to 2^53 events per cell.
- Strings: numpy's `S5` and `S1` fields drop trailing NUL bytes when read; the model keeps the raw
  bytes of the magic number and of the carriage group. Neither is used by the core.
- Past the end: a data_offset beyond the end of the file yields no records in the model. numpy
  computes a negative record count when it is 8 or more bytes beyond, and may raise instead.
- NumPy 1.x: under the older promotion rules, `data_offset - header_size` at
  read_vsans_events_class.py:38 becomes a negative int64 when data_offset < 26, and `fromfile` then
  reads the whole rest of the file from byte 52 as the mask. `DisabledTubesAsWritten` and
  `MaskCountWraps` model the NumPy 2 wrap only. The corrected `Open` rejects such files under either
  version.
- As in the source, the magic number is not checked and the disabled-tube mask does not filter events.
- `Rebin` returns a fresh result and changes nothing, so rebinning twice with the same edges gives the
  same result. There is no separate lemma for this, because methods cannot be called from lemmas.
- rebin_nexus.py, get_eventfiles.py and ViciMultiposSelector.py are not part of this model: they are
  container rewriting, plotting, HTTP retrieval and a serial-port valve driver.

## Findings

| source | as written | input that shows it | evidently intended | confidence | as-written member | corrected member |
|---|---|---|---|---|---|---|
| read_vsans_events_class.py:39 | the mask is read with `offset=header_size`. numpy's `fromfile` measures that offset from the current position, which is already 26 after the header read, so the read starts at byte 52 | a file with data_offset 27, one mask byte and three records (51 bytes): the source's mask is empty instead of [b[26]] | read data_offset - 26 bytes starting at byte 26 | high; not executed | `HeaderLayout.MaskMissedAsWritten` | `HeaderLayout.DisabledTubes` |
| read_vsans_events_class.py:36-38 | `data_offset` is a numpy uint16, so under NumPy 2 (NEP 50 promotion) `data_offset - header_size` wraps modulo 2^16; under NumPy 1.x it is a negative int64, which `fromfile` takes as "read everything" | data_offset 10: the entry count becomes 65520 (NumPy 2) or -16 (NumPy 1.x), and in both cases decoding goes on with records read from inside the header | reject a data_offset inside the header | medium; not executed | `HeaderLayout.MaskCountWraps` | `Events.VsansEvents.Open` |
