/**
 * Time rebinning: the left-biased insertion point of a timestamp among the
 * bin edges, the dense tube x pixel x slot histogram with its two overflow
 * slots, and the trimming of those slots.
 */
module Binning {
  import opened Grids

  /** The dense volume covers tubes 0..192 and pixels 0..128. */
  const Tubes: nat := 192
  const Pixels: nat := 128

  /** A decoded event: tube id, pixel along the tube, tick count. */
  datatype Event = Event(tube: nat, pixel: nat, ticks: nat)

  /** The check made of an array of edges: no edge exceeds its successor. */
  predicate Monotonic(e: seq<int>)
  {
    forall i :: 0 <= i < |e| - 1 ==> e[i] <= e[i + 1]
  }

  predicate Ascending(e: seq<int>)
  {
    forall i, j :: 0 <= i <= j < |e| ==> e[i] <= e[j]
  }

  lemma {:induction false} MonotonicStep(e: seq<int>, i: nat, j: nat)
    requires Monotonic(e) && i <= j < |e|
    ensures e[i] <= e[j]
    decreases j - i
  {
    if i < j {
      MonotonicStep(e, i + 1, j);
    }
  }

  /** Checking neighbours is enough: a monotonic edge array is ascending. */
  lemma MonotonicAscending(e: seq<int>)
    requires Monotonic(e)
    ensures Ascending(e)
  {
    forall i, j | 0 <= i <= j < |e|
      ensures e[i] <= e[j]
    {
      MonotonicStep(e, i, j);
    }
  }

  /** Binary search of e[lo..hi] for the first edge not below t. */
  function Bisect(e: seq<int>, t: int, lo: nat, hi: nat): (i: nat)
    requires Ascending(e) && lo <= hi <= |e|
    requires forall k :: 0 <= k < lo ==> e[k] < t
    requires forall k :: hi <= k < |e| ==> t <= e[k]
    ensures lo <= i <= hi
    ensures forall k :: 0 <= k < i ==> e[k] < t
    ensures forall k :: i <= k < |e| ==> t <= e[k]
    decreases hi - lo
  {
    if lo == hi then lo
    else
      var mid := (lo + hi) / 2;
      if e[mid] < t then Bisect(e, t, mid + 1, hi) else Bisect(e, t, lo, mid)
  }

  /**
   * The insertion point of t in the ascending edges with side='left': every
   * edge before it is below t and every edge from it on is at least t.
   */
  function SearchLeft(e: seq<int>, t: int): (i: nat)
    requires Ascending(e)
    ensures i <= |e|
    ensures forall k :: 0 <= k < i ==> e[k] < t
    ensures forall k :: i <= k < |e| ==> t <= e[k]
  {
    Bisect(e, t, 0, |e|)
  }

  /** The number of edges strictly below t. */
  function CountBelow(e: seq<int>, t: int): nat
  {
    if e == [] then 0 else CountBelow(e[..|e| - 1], t) + (if e[|e| - 1] < t then 1 else 0)
  }

  lemma {:induction false} SplitPointCounts(e: seq<int>, t: int, i: nat)
    requires i <= |e|
    requires forall k :: 0 <= k < i ==> e[k] < t
    requires forall k :: i <= k < |e| ==> t <= e[k]
    ensures CountBelow(e, t) == i
  {
    if e != [] {
      var n := |e| - 1;
      if i == |e| {
        SplitPointCounts(e[..n], t, n);
      } else {
        SplitPointCounts(e[..n], t, i);
      }
    }
  }

  /** The bin index of an event is the number of edges strictly below its timestamp. */
  lemma SearchLeftCountsBelow(e: seq<int>, t: int)
    requires Ascending(e)
    ensures SearchLeft(e, t) == CountBelow(e, t)
  {
    SplitPointCounts(e, t, SearchLeft(e, t));
  }

  /**
   * Where an event lands among n+2 slots (n+1 edges): slot 0 holds the
   * events at or before the first edge, slot n+1 those after the last
   * edge, and slot j+1 those in (e[j], e[j+1]].
   */
  lemma SlotOfTimestamp(e: seq<int>, t: int)
    requires Ascending(e)
    ensures SearchLeft(e, t) == 0 <==> (|e| == 0 || t <= e[0])
    ensures SearchLeft(e, t) == |e| <==> (|e| == 0 || e[|e| - 1] < t)
    ensures forall j :: 0 <= j < |e| - 1 ==> (SearchLeft(e, t) == j + 1 <==> e[j] < t <= e[j + 1])
  {
  }

  /** The number of events satisfying P. */
  function Count(evs: seq<Event>, P: Event -> bool): nat
  {
    if evs == [] then 0 else Count(evs[..|evs| - 1], P) + (if P(evs[|evs| - 1]) then 1 else 0)
  }

  lemma {:induction false} CountConcat(a: seq<Event>, b: seq<Event>, P: Event -> bool)
    ensures Count(a + b, P) == Count(a, P) + Count(b, P)
  {
    if b == [] {
      assert a + b == a;
    } else {
      var n := |b| - 1;
      assert (a + b)[..|a + b| - 1] == a + b[..n];
      CountConcat(a, b[..n], P);
    }
  }

  /** A count depends on the events present, not on their order. */
  lemma {:induction false} CountPermutation(a: seq<Event>, b: seq<Event>, P: Event -> bool)
    requires multiset(a) == multiset(b)
    ensures Count(a, P) == Count(b, P)
    decreases |a|
  {
    if a != [] {
      var n := |a| - 1;
      var x := a[n];
      assert a == a[..n] + [x];
      assert multiset(a[..n]) == multiset(a) - multiset{x};
      assert x in multiset(b);
      var i :| 0 <= i < |b| && b[i] == x;
      var rest := b[..i] + b[i + 1..];
      RemoveOne(b, i);
      CountPermutation(a[..n], rest, P);
      CountRemoveOne(b, i, P);
      CountConcat(a[..n], [x], P);
    } else {
      assert b == [];
    }
  }

  /** Removing the element at i takes one copy of it out of the multiset. */
  lemma RemoveOne(b: seq<Event>, i: nat)
    requires i < |b|
    ensures multiset(b[..i] + b[i + 1..]) == multiset(b) - multiset{b[i]}
  {
    assert b == b[..i] + [b[i]] + b[i + 1..];
    assert multiset(b) == multiset(b[..i]) + multiset{b[i]} + multiset(b[i + 1..]);
  }

  /** Removing the element at i lowers the count by one exactly when it satisfies P. */
  lemma CountRemoveOne(b: seq<Event>, i: nat, P: Event -> bool)
    requires i < |b|
    ensures Count(b, P) == Count(b[..i] + b[i + 1..], P) + (if P(b[i]) then 1 else 0)
  {
    var front, x, back := b[..i], b[i], b[i + 1..];
    assert front + [x] == b[..i + 1];
    assert b == b[..i + 1] + back;
    CountConcat(front + [x], back, P);
    CountConcat(front, [x], P);
    CountConcat(front, back, P);
    CountSingle(x, P);
  }

  lemma CountSingle(x: Event, P: Event -> bool)
    ensures Count([x], P) == if P(x) then 1 else 0
  {
    assert [x][..0] == [];
  }

  lemma {:induction false} CountSame(evs: seq<Event>, P: Event -> bool, Q: Event -> bool)
    requires forall k :: 0 <= k < |evs| ==> P(evs[k]) == Q(evs[k])
    ensures Count(evs, P) == Count(evs, Q)
  {
    if evs != [] {
      CountSame(evs[..|evs| - 1], P, Q);
    }
  }

  /** Holds of the events of tube t and pixel p whose insertion point is slot s. */
  function InSlot(e: seq<int>, t: nat, p: nat, s: nat): Event -> bool
    requires Ascending(e)
  {
    (ev: Event) => ev.tube == t && ev.pixel == p && SearchLeft(e, ev.ticks) == s
  }

  /** The number of events of tube t and pixel p whose insertion point is slot s. */
  function Hist(evs: seq<Event>, e: seq<int>, t: nat, p: nat, s: nat): nat
    requires Ascending(e)
  {
    Count(evs, InSlot(e, t, p, s))
  }

  /**
   * The untrimmed count volume: Tubes x Pixels x (|e| + 1) slots, counting in
   * each cell the events with that tube, that pixel and that insertion point.
   */
  function HistVolume(evs: seq<Event>, e: seq<int>): (v: Volume)
    requires Ascending(e)
    ensures Shape(v, Tubes, Pixels, |e| + 1)
  {
    seq(Tubes, t requires 0 <= t < Tubes =>
      seq(Pixels, p requires 0 <= p < Pixels =>
        seq(|e| + 1, s requires 0 <= s < |e| + 1 => Hist(evs, e, t, p, s))))
  }

  /** Drops the first and the last element, as numpy's [1:-1] does. */
  function Trim<T>(s: seq<T>): (r: seq<T>)
    ensures |r| == if |s| >= 2 then |s| - 2 else 0
    ensures forall j :: 0 <= j < |r| ==> r[j] == s[j + 1]
  {
    if |s| >= 2 then s[1..|s| - 1] else []
  }

  /** The volume with both overflow slots of every cell removed. */
  function TrimVolume(v: Volume): (u: Volume)
    ensures |u| == |v| && forall r :: 0 <= r < |v| ==> |u[r]| == |v[r]|
    ensures forall r, c :: 0 <= r < |v| && 0 <= c < |v[r]| ==>
      |u[r][c]| == if |v[r][c]| >= 2 then |v[r][c]| - 2 else 0
    ensures forall r, c, j :: 0 <= r < |v| && 0 <= c < |v[r]| && 0 <= j < |v[r][c]| - 2 ==>
      u[r][c][j] == v[r][c][j + 1]
  {
    seq(|v|, r requires 0 <= r < |v| => seq(|v[r]|, c requires 0 <= c < |v[r]| => Trim(v[r][c])))
  }

  /** The number of kept time bins for an edge array: one fewer than the edges, at least 0. */
  function NBins(e: seq<int>): nat
  {
    if |e| >= 1 then |e| - 1 else 0
  }

  lemma TrimVolumeShape(v: Volume, rows: nat, cols: nat, depth: nat)
    requires Shape(v, rows, cols, depth)
    ensures Shape(TrimVolume(v), rows, cols, if depth >= 2 then depth - 2 else 0)
  {
  }

  /** Holds of the events of tube t and pixel p with e[j] < ticks <= e[j+1]. */
  function InBin(e: seq<int>, t: nat, p: nat, j: nat): Event -> bool
    requires j + 1 < |e|
  {
    (ev: Event) => ev.tube == t && ev.pixel == p && e[j] < ev.ticks <= e[j + 1]
  }

  /** The number of events of tube t and pixel p with e[j] < ticks <= e[j+1]. */
  function BinCount(evs: seq<Event>, e: seq<int>, t: nat, p: nat, j: nat): nat
    requires j + 1 < |e|
  {
    Count(evs, InBin(e, t, p, j))
  }

  /** Kept bin j of cell (t, p) counts exactly the events of that cell in (e[j], e[j+1]]. */
  lemma TrimmedBinCount(evs: seq<Event>, e: seq<int>, t: nat, p: nat, j: nat)
    requires Ascending(e) && t < Tubes && p < Pixels && j < NBins(e)
    ensures Shape(TrimVolume(HistVolume(evs, e)), Tubes, Pixels, NBins(e))
    ensures TrimVolume(HistVolume(evs, e))[t][p][j] == BinCount(evs, e, t, p, j)
  {
    TrimVolumeShape(HistVolume(evs, e), Tubes, Pixels, |e| + 1);
    forall k | 0 <= k < |evs|
      ensures InSlot(e, t, p, j + 1)(evs[k]) == InBin(e, t, p, j)(evs[k])
    {
      SlotOfTimestamp(e, evs[k].ticks);
    }
    CountSame(evs, InSlot(e, t, p, j + 1), InBin(e, t, p, j));
  }

  /** An event at or before the first edge lands in overflow slot 0 and is in no kept bin. */
  lemma FirstEdgeDiscarded(e: seq<int>, ev: Event)
    requires Ascending(e) && |e| >= 1 && ev.ticks <= e[0]
    ensures SearchLeft(e, ev.ticks) == 0
    ensures forall j :: 0 <= j < NBins(e) ==> !(e[j] < ev.ticks <= e[j + 1])
  {
  }

  /**
   * Accumulating two event subsets against the same edges and adding the
   * volumes gives the volume of all the events.
   */
  lemma HistMerge(a: seq<Event>, b: seq<Event>, e: seq<int>)
    requires Ascending(e)
    ensures SameShape(HistVolume(a, e), HistVolume(b, e))
    ensures HistVolume(a + b, e) == Add3(HistVolume(a, e), HistVolume(b, e))
  {
    var va, vb, vab := HistVolume(a, e), HistVolume(b, e), HistVolume(a + b, e);
    var sum := Add3(va, vb);
    forall t, p | 0 <= t < Tubes && 0 <= p < Pixels
      ensures vab[t][p] == sum[t][p]
    {
      forall s | 0 <= s < |e| + 1
        ensures vab[t][p][s] == sum[t][p][s]
      {
        CountConcat(a, b, InSlot(e, t, p, s));
      }
    }
    forall t | 0 <= t < Tubes
      ensures vab[t] == sum[t]
    {
    }
  }

  /** The volume does not depend on the order of the events. */
  lemma HistOrderIndependent(a: seq<Event>, b: seq<Event>, e: seq<int>)
    requires Ascending(e) && multiset(a) == multiset(b)
    ensures HistVolume(a, e) == HistVolume(b, e)
  {
    var va, vb := HistVolume(a, e), HistVolume(b, e);
    forall t, p | 0 <= t < Tubes && 0 <= p < Pixels
      ensures va[t][p] == vb[t][p]
    {
      forall s | 0 <= s < |e| + 1
        ensures va[t][p][s] == vb[t][p][s]
      {
        CountPermutation(a, b, InSlot(e, t, p, s));
      }
    }
    forall t | 0 <= t < Tubes
      ensures va[t] == vb[t]
    {
    }
  }

  /** Every event addresses a cell of the dense volume. */
  predicate InBounds(evs: seq<Event>)
  {
    forall k :: 0 <= k < |evs| ==> evs[k].tube < Tubes && evs[k].pixel < Pixels
  }

  predicate InRange(ev: Event, e: seq<int>)
  {
    |e| >= 1 && e[0] < ev.ticks <= e[|e| - 1]
  }

  /** The events strictly after the first edge and at or before the last. */
  function InRangeCount(evs: seq<Event>, e: seq<int>): nat
  {
    Count(evs, (ev: Event) => InRange(ev, e))
  }

  lemma TrimAdd3(v: Volume, w: Volume)
    requires SameShape(v, w)
    ensures SameShape(TrimVolume(v), TrimVolume(w))
    ensures TrimVolume(Add3(v, w)) == Add3(TrimVolume(v), TrimVolume(w))
  {
    var lhs, rhs := TrimVolume(Add3(v, w)), Add3(TrimVolume(v), TrimVolume(w));
    forall r, c | 0 <= r < |v| && 0 <= c < |v[r]|
      ensures lhs[r][c] == rhs[r][c]
    {
    }
    forall r | 0 <= r < |v|
      ensures lhs[r] == rhs[r]
    {
    }
  }

  /** Kept bin j of a cell is slot j + 1 of the untrimmed volume. */
  lemma TrimmedSlot(evs: seq<Event>, e: seq<int>, t: nat, p: nat, j: nat)
    requires Ascending(e) && t < Tubes && p < Pixels && j < NBins(e)
    ensures TrimVolume(HistVolume(evs, e))[t][p][j] == Hist(evs, e, t, p, j + 1)
  {
    var v := HistVolume(evs, e);
    TrimVolumeShape(v, Tubes, Pixels, |e| + 1);
    assert TrimVolume(v)[t][p] == Trim(v[t][p]);
    assert v[t][p][j + 1] == Hist(evs, e, t, p, j + 1);
  }

  /** A single event counts once, in its own cell and slot, and nowhere else. */
  lemma HistSingle(x: Event, e: seq<int>, t: nat, p: nat, s: nat)
    requires Ascending(e)
    ensures Hist([x], e, t, p, s) == if x.tube == t && x.pixel == p && SearchLeft(e, x.ticks) == s then 1 else 0
  {
    CountSingle(x, InSlot(e, t, p, s));
  }

  /** The trimmed volume of one in-bounds event holds 1 count if the event is in range, else none. */
  lemma SingleEventTotal(x: Event, e: seq<int>)
    requires Ascending(e) && x.tube < Tubes && x.pixel < Pixels
    ensures Sum3(TrimVolume(HistVolume([x], e))) == if InRange(x, e) then 1 else 0
  {
    var u := TrimVolume(HistVolume([x], e));
    var slot := SearchLeft(e, x.ticks);
    var c := if InRange(x, e) then 1 else 0;
    TrimVolumeShape(HistVolume([x], e), Tubes, Pixels, |e| + 1);
    assert [x][..0] == [];
    SlotOfTimestamp(e, x.ticks);
    assert (1 <= slot && slot - 1 < NBins(e)) == InRange(x, e);
    var tot := Totals(u);
    forall t | 0 <= t < Tubes
      ensures Sum(tot[t]) == if t == x.tube then c else 0
    {
      forall p | 0 <= p < Pixels
        ensures tot[t][p] == if p == x.pixel then (if t == x.tube then c else 0) else 0
      {
        forall j | 0 <= j < |u[t][p]|
          ensures u[t][p][j] == if j == slot - 1 then (if t == x.tube && p == x.pixel then 1 else 0) else 0
        {
          TrimmedSlot([x], e, t, p, j);
          HistSingle(x, e, t, p, j + 1);
        }
        SumSingle(u[t][p], slot - 1, if t == x.tube && p == x.pixel then 1 else 0);
      }
      SumSingle(tot[t], x.pixel, if t == x.tube then c else 0);
    }
    SumSingle(RowSums(tot), x.tube, c);
  }

  /**
   * Conservation: the trimmed volume holds exactly one count per event
   * strictly after the first edge and at or before the last one.
   */
  lemma {:induction false} Conservation(evs: seq<Event>, e: seq<int>)
    requires Ascending(e) && InBounds(evs)
    ensures Sum3(TrimVolume(HistVolume(evs, e))) == InRangeCount(evs, e)
  {
    if evs == [] {
      var u := TrimVolume(HistVolume(evs, e));
      TrimVolumeShape(HistVolume(evs, e), Tubes, Pixels, |e| + 1);
      forall t | 0 <= t < Tubes
        ensures Sum(Totals(u)[t]) == 0
      {
        forall p | 0 <= p < Pixels
          ensures Totals(u)[t][p] == 0
        {
          forall j | 0 <= j < |u[t][p]|
            ensures u[t][p][j] == 0
          {
            TrimmedSlot(evs, e, t, p, j);
          }
          SumSingle(u[t][p], -1, 0);
        }
        SumSingle(Totals(u)[t], -1, 0);
      }
      SumSingle(RowSums(Totals(u)), -1, 0);
    } else {
      var n := |evs| - 1;
      var front, x := evs[..n], evs[n];
      assert evs == front + [x];
      Conservation(front, e);
      HistMerge(front, [x], e);
      TrimAdd3(HistVolume(front, e), HistVolume([x], e));
      Sum3Add(TrimVolume(HistVolume(front, e)), TrimVolume(HistVolume([x], e)));
      SingleEventTotal(x, e);
    }
  }

  /**
   * The scatter-add: a zero volume of Tubes x Pixels x (|e| + 1) slots,
   * incremented once per event at (tube, pixel, insertion point).
   */
  method ScatterAdd(evs: seq<Event>, e: seq<int>) returns (vol: array3<nat>)
    requires Ascending(e) && InBounds(evs)
    ensures fresh(vol)
    ensures vol.Length0 == Tubes && vol.Length1 == Pixels && vol.Length2 == |e| + 1
    ensures forall t, p, s :: 0 <= t < Tubes && 0 <= p < Pixels && 0 <= s <= |e| ==>
      vol[t, p, s] == Hist(evs, e, t, p, s)
  {
    vol := new nat[Tubes, Pixels, |e| + 1]((t, p, s) => 0);
    var i := 0;
    while i < |evs|
      invariant 0 <= i <= |evs|
      invariant forall t, p, s :: 0 <= t < Tubes && 0 <= p < Pixels && 0 <= s <= |e| ==>
        vol[t, p, s] == Hist(evs[..i], e, t, p, s)
    {
      var ev := evs[i];
      var slot := SearchLeft(e, ev.ticks);
      vol[ev.tube, ev.pixel, slot] := vol[ev.tube, ev.pixel, slot] + 1;
      assert evs[..i + 1][..i] == evs[..i];
      i := i + 1;
    }
    assert evs[..|evs|] == evs;
  }

  /** The contents of a three-dimensional array as a value. */
  function Snapshot(a: array3<nat>): (v: Volume)
    reads a
    ensures Shape(v, a.Length0, a.Length1, a.Length2)
    ensures forall t, p, s :: 0 <= t < a.Length0 && 0 <= p < a.Length1 && 0 <= s < a.Length2 ==>
      v[t][p][s] == a[t, p, s]
  {
    seq(a.Length0, t reads a requires 0 <= t < a.Length0 =>
      seq(a.Length1, p reads a requires 0 <= p < a.Length1 =>
        seq(a.Length2, s reads a requires 0 <= s < a.Length2 => a[t, p, s])))
  }

  lemma SameVolume(v: Volume, w: Volume, rows: nat, cols: nat, depth: nat)
    requires Shape(v, rows, cols, depth) && Shape(w, rows, cols, depth)
    requires forall r, c, s :: 0 <= r < rows && 0 <= c < cols && 0 <= s < depth ==> v[r][c][s] == w[r][c][s]
    ensures v == w
  {
    forall r, c | 0 <= r < rows && 0 <= c < cols
      ensures v[r][c] == w[r][c]
    {
    }
    forall r | 0 <= r < rows
      ensures v[r] == w[r]
    {
    }
  }
}
