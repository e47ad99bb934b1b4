/**
 * The four detector panels of one carriage. The 192-tube axis of the
 * volume is four panels of 48 tubes, each turned into the orientation its
 * consumers index by a fixed flip or axis swap.
 */
module Detector {
  import opened Grids
  import opened Binning

  const PanelTubes: nat := 48

  datatype PanelName = Right | Left | Top | Bottom

  /** The first tube of each panel on the volume's tube axis. */
  function FirstTube(name: PanelName): nat
  {
    match name
    case Right => 0
    case Top => 48
    case Bottom => 96
    case Left => 144
  }

  /** The tubes of one panel, in volume order. */
  function PanelSlab(v: Volume, name: PanelName): Volume
    requires |v| == Tubes
  {
    v[FirstTube(name) .. FirstTube(name) + PanelTubes]
  }

  datatype Panels = Panels(right: Volume, left: Volume, top: Volume, bottom: Volume)

  /**
   * Cuts a trimmed volume into panels: right mirrored left-right, left
   * mirrored top-bottom, top with tube and pixel axes swapped, bottom
   * swapped and then mirrored both ways.
   */
  function PanelsOf(v: Volume, depth: nat): (ps: Panels)
    requires Shape(v, Tubes, Pixels, depth)
    ensures Shape(ps.right, PanelTubes, Pixels, depth) && Shape(ps.left, PanelTubes, Pixels, depth)
    ensures Shape(ps.top, Pixels, PanelTubes, depth) && Shape(ps.bottom, Pixels, PanelTubes, depth)
  {
    Panels(
      FlipLR(PanelSlab(v, Right)),
      FlipUD(PanelSlab(v, Left)),
      SwapAxes(PanelSlab(v, Top), Pixels),
      FlipUD(FlipLR(SwapAxes(PanelSlab(v, Bottom), Pixels))))
  }

  function PanelOf(ps: Panels, name: PanelName): Volume
  {
    match name
    case Right => ps.right
    case Left => ps.left
    case Top => ps.top
    case Bottom => ps.bottom
  }

  lemma RightPanelMap(v: Volume, depth: nat)
    requires Shape(v, Tubes, Pixels, depth)
    ensures Shape(PanelsOf(v, depth).right, 48, 128, depth)
    ensures forall t, p :: 0 <= t < 48 && 0 <= p < 128 ==> PanelsOf(v, depth).right[t][p] == v[t][127 - p]
  {
  }

  lemma LeftPanelMap(v: Volume, depth: nat)
    requires Shape(v, Tubes, Pixels, depth)
    ensures Shape(PanelsOf(v, depth).left, 48, 128, depth)
    ensures forall r, p :: 0 <= r < 48 && 0 <= p < 128 ==> PanelsOf(v, depth).left[r][p] == v[191 - r][p]
  {
  }

  lemma TopPanelMap(v: Volume, depth: nat)
    requires Shape(v, Tubes, Pixels, depth)
    ensures Shape(PanelsOf(v, depth).top, 128, 48, depth)
    ensures forall p, t :: 0 <= p < 128 && 0 <= t < 48 ==> PanelsOf(v, depth).top[p][t] == v[48 + t][p]
  {
  }

  lemma BottomPanelMap(v: Volume, depth: nat)
    requires Shape(v, Tubes, Pixels, depth)
    ensures Shape(PanelsOf(v, depth).bottom, 128, 48, depth)
    ensures forall p, t :: 0 <= p < 128 && 0 <= t < 48 ==> PanelsOf(v, depth).bottom[p][t] == v[143 - t][127 - p]
  {
    var b := PanelsOf(v, depth).bottom;
    var sw := SwapAxes(PanelSlab(v, Bottom), Pixels);
    forall p, t | 0 <= p < 128 && 0 <= t < 48
      ensures b[p][t] == v[143 - t][127 - p]
    {
      assert b[p] == Reverse(sw[127 - p]);
    }
  }

  /** A position in one panel: panel name, row, column. */
  datatype PanelPosition = PanelPosition(name: PanelName, row: nat, col: nat)

  predicate ValidPosition(pos: PanelPosition)
  {
    match pos.name
    case Right => pos.row < 48 && pos.col < 128
    case Left => pos.row < 48 && pos.col < 128
    case Top => pos.row < 128 && pos.col < 48
    case Bottom => pos.row < 128 && pos.col < 48
  }

  /** Where the counts of tube t, pixel p end up among the panels. */
  function Locate(t: nat, p: nat): (pos: PanelPosition)
    requires t < Tubes && p < Pixels
    ensures ValidPosition(pos)
    ensures FirstTube(pos.name) <= t < FirstTube(pos.name) + PanelTubes
  {
    if t < 48 then PanelPosition(Right, t, 127 - p)
    else if t < 96 then PanelPosition(Top, p, t - 48)
    else if t < 144 then PanelPosition(Bottom, 127 - p, 143 - t)
    else PanelPosition(Left, 191 - t, p)
  }

  /** The volume cell (tube, pixel) shown at a panel position. */
  function CellAt(pos: PanelPosition): (cell: (nat, nat))
    requires ValidPosition(pos)
  {
    match pos.name
    case Right => (pos.row, 127 - pos.col)
    case Left => (191 - pos.row, pos.col)
    case Top => (48 + pos.col, pos.row)
    case Bottom => (143 - pos.col, 127 - pos.row)
  }

  /** Locate sends every cell to the panel position that shows it. */
  lemma LocateShowsCell(v: Volume, depth: nat, t: nat, p: nat)
    requires Shape(v, Tubes, Pixels, depth) && t < Tubes && p < Pixels
    ensures var pos := Locate(t, p);
      CellAt(pos) == (t, p) && PanelOf(PanelsOf(v, depth), pos.name)[pos.row][pos.col] == v[t][p]
  {
    RightPanelMap(v, depth);
    LeftPanelMap(v, depth);
    TopPanelMap(v, depth);
    BottomPanelMap(v, depth);
  }

  /** Every panel position shows exactly one cell, the one Locate sends there. */
  lemma PositionsAreCells(pos: PanelPosition)
    requires ValidPosition(pos)
    ensures CellAt(pos).0 < Tubes && CellAt(pos).1 < Pixels
    ensures Locate(CellAt(pos).0, CellAt(pos).1) == pos
  {
  }

  /** Where the boundary tubes of each panel land, for pixel 0. */
  lemma PanelBoundaries()
    ensures Locate(0, 0) == PanelPosition(Right, 0, 127) && Locate(47, 0) == PanelPosition(Right, 47, 127)
    ensures Locate(48, 0) == PanelPosition(Top, 0, 0) && Locate(95, 0) == PanelPosition(Top, 0, 47)
    ensures Locate(96, 0) == PanelPosition(Bottom, 127, 47) && Locate(143, 0) == PanelPosition(Bottom, 127, 0)
    ensures Locate(144, 0) == PanelPosition(Left, 47, 0) && Locate(191, 0) == PanelPosition(Left, 0, 0)
  {
  }

  /** The four panels partition the tubes: together they hold every count of the volume. */
  lemma PanelsPartition(v: Volume, depth: nat)
    requires Shape(v, Tubes, Pixels, depth)
    ensures var ps := PanelsOf(v, depth);
      Sum3(ps.right) + Sum3(ps.left) + Sum3(ps.top) + Sum3(ps.bottom) == Sum3(v)
  {
    var r, tp, bt, l := PanelSlab(v, Right), PanelSlab(v, Top), PanelSlab(v, Bottom), PanelSlab(v, Left);
    assert v == r + tp + bt + l;
    Sum3Concat(r + tp + bt, l);
    Sum3Concat(r + tp, bt);
    Sum3Concat(r, tp);
    Sum3FlipLR(r);
    Sum3FlipUD(l);
    assert Rectangular(tp, Pixels) by {
      forall i | 0 <= i < |tp|
        ensures |tp[i]| == Pixels
      {
        assert tp[i] == v[48 + i];
      }
    }
    assert Rectangular(bt, Pixels) by {
      forall i | 0 <= i < |bt|
        ensures |bt[i]| == Pixels
      {
        assert bt[i] == v[96 + i];
      }
    }
    Sum3Swap(tp, Pixels);
    var sw := SwapAxes(bt, Pixels);
    Sum3Swap(bt, Pixels);
    Sum3FlipLR(sw);
    Sum3FlipUD(FlipLR(sw));
  }

  /**
   * The panels of a rebinned event set hold one count per in-bounds event
   * strictly after the first edge and at or before the last.
   */
  lemma PanelsConserveEvents(evs: seq<Event>, e: seq<int>)
    requires Ascending(e) && InBounds(evs)
    ensures Shape(TrimVolume(HistVolume(evs, e)), Tubes, Pixels, NBins(e))
    ensures var ps := PanelsOf(TrimVolume(HistVolume(evs, e)), NBins(e));
      Sum3(ps.right) + Sum3(ps.left) + Sum3(ps.top) + Sum3(ps.bottom) == InRangeCount(evs, e)
  {
    TrimVolumeShape(HistVolume(evs, e), Tubes, Pixels, |e| + 1);
    PanelsPartition(TrimVolume(HistVolume(evs, e)), NBins(e));
    Conservation(evs, e);
  }
}
