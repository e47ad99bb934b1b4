/**
 * Dense count arrays as nested sequences, the axis flips and the axis swap
 * the detector panels are cut with, and sums over them.
 */
module Grids {
  /** A count array indexed [row][column][time bin]. */
  type Volume = seq<seq<seq<nat>>>

  function Reverse<T>(s: seq<T>): seq<T>
  {
    seq(|s|, i requires 0 <= i < |s| => s[|s| - 1 - i])
  }

  /** Mirrors the second axis (columns), as numpy's fliplr does. */
  function FlipLR<T>(m: seq<seq<T>>): (f: seq<seq<T>>)
    ensures |f| == |m| && forall i :: 0 <= i < |m| ==> |f[i]| == |m[i]|
    ensures forall i, j :: 0 <= i < |m| && 0 <= j < |m[i]| ==> f[i][|m[i]| - 1 - j] == m[i][j]
  {
    seq(|m|, i requires 0 <= i < |m| => Reverse(m[i]))
  }

  /** Mirrors the first axis (rows), as numpy's flipud does. */
  function FlipUD<T>(m: seq<seq<T>>): (f: seq<seq<T>>)
    ensures |f| == |m|
    ensures forall i :: 0 <= i < |m| ==> f[|m| - 1 - i] == m[i]
  {
    Reverse(m)
  }

  predicate Rectangular<T>(m: seq<seq<T>>, width: nat)
  {
    forall i :: 0 <= i < |m| ==> |m[i]| == width
  }

  /** Exchanges the first two axes, as numpy's swapaxes(0, 1) does. */
  function SwapAxes<T>(m: seq<seq<T>>, width: nat): (s: seq<seq<T>>)
    requires Rectangular(m, width)
    ensures |s| == width && Rectangular(s, |m|)
    ensures forall i, j :: 0 <= i < |m| && 0 <= j < width ==> s[j][i] == m[i][j]
  {
    seq(width, j requires 0 <= j < width => seq(|m|, i requires 0 <= i < |m| => m[i][j]))
  }

  lemma ReverseTwice<T>(s: seq<T>)
    ensures Reverse(Reverse(s)) == s
  {
    assert forall i :: 0 <= i < |s| ==> Reverse(Reverse(s))[i] == Reverse(s)[|s| - 1 - i] == s[i];
  }

  /** Mirroring the columns twice gives the grid back. */
  lemma FlipLRTwice<T>(m: seq<seq<T>>)
    ensures FlipLR(FlipLR(m)) == m
  {
    var f := FlipLR(FlipLR(m));
    forall i | 0 <= i < |m|
      ensures f[i] == m[i]
    {
      assert f[i] == Reverse(Reverse(m[i]));
      ReverseTwice(m[i]);
    }
  }

  /** Mirroring the rows twice gives the grid back. */
  lemma FlipUDTwice<T>(m: seq<seq<T>>)
    ensures FlipUD(FlipUD(m)) == m
  {
    ReverseTwice(m);
  }

  /** Swapping the axes twice gives a rectangular grid back. */
  lemma SwapAxesTwice<T>(m: seq<seq<T>>, width: nat)
    requires Rectangular(m, width)
    ensures SwapAxes(SwapAxes(m, width), |m|) == m
  {
    var s := SwapAxes(SwapAxes(m, width), |m|);
    forall i | 0 <= i < |m|
      ensures s[i] == m[i]
    {
      assert forall j :: 0 <= j < width ==> s[i][j] == SwapAxes(m, width)[j][i] == m[i][j];
    }
  }

  predicate Shape(v: Volume, rows: nat, cols: nat, depth: nat)
  {
    |v| == rows &&
    forall r :: 0 <= r < rows ==>
      |v[r]| == cols && forall c :: 0 <= c < cols ==> |v[r][c]| == depth
  }

  predicate SameShape(v: Volume, w: Volume)
  {
    |v| == |w| &&
    forall r :: 0 <= r < |v| ==>
      |v[r]| == |w[r]| && forall c :: 0 <= c < |v[r]| ==> |v[r][c]| == |w[r][c]|
  }

  function Add(a: seq<nat>, b: seq<nat>): seq<nat>
    requires |a| == |b|
  {
    seq(|a|, i requires 0 <= i < |a| => a[i] + b[i])
  }

  /** Element-wise sum of two count arrays of the same shape. */
  function Add3(v: Volume, w: Volume): (u: Volume)
    requires SameShape(v, w)
    ensures SameShape(u, v)
  {
    seq(|v|, r requires 0 <= r < |v| =>
      seq(|v[r]|, c requires 0 <= c < |v[r]| => Add(v[r][c], w[r][c])))
  }

  function Sum(s: seq<nat>): nat
  {
    if s == [] then 0 else s[0] + Sum(s[1..])
  }

  function RowSums(m: seq<seq<nat>>): seq<nat>
  {
    seq(|m|, i requires 0 <= i < |m| => Sum(m[i]))
  }

  function Sum2(m: seq<seq<nat>>): nat
  {
    Sum(RowSums(m))
  }

  /** The count of every (row, column) cell summed over its time bins. */
  function Totals(v: Volume): seq<seq<nat>>
  {
    seq(|v|, r requires 0 <= r < |v| => RowSums(v[r]))
  }

  /** The sum of every count in the array. */
  function Sum3(v: Volume): nat
  {
    Sum2(Totals(v))
  }

  lemma {:induction false} SumConcat(a: seq<nat>, b: seq<nat>)
    ensures Sum(a + b) == Sum(a) + Sum(b)
  {
    if a != [] {
      assert (a + b)[1..] == a[1..] + b;
      SumConcat(a[1..], b);
    } else {
      assert a + b == b;
    }
  }

  lemma {:induction false} SumReverse(s: seq<nat>)
    ensures Sum(Reverse(s)) == Sum(s)
  {
    if s != [] {
      var n := |s|;
      SumReverse(s[1..]);
      assert Reverse(s) == Reverse(s[1..]) + [s[0]];
      SumConcat(Reverse(s[1..]), [s[0]]);
    }
  }

  lemma {:induction false} SumAdd(a: seq<nat>, b: seq<nat>)
    requires |a| == |b|
    ensures Sum(Add(a, b)) == Sum(a) + Sum(b)
  {
    if a != [] {
      assert Add(a, b)[1..] == Add(a[1..], b[1..]);
      SumAdd(a[1..], b[1..]);
    }
  }

  /** A sequence that is zero except possibly at index k sums to its value there. */
  lemma {:induction false} SumSingle(s: seq<nat>, k: int, x: nat)
    requires forall i :: 0 <= i < |s| ==> s[i] == if i == k then x else 0
    ensures Sum(s) == if 0 <= k < |s| then x else 0
  {
    if s != [] {
      SumSingle(s[1..], k - 1, x);
    }
  }

  /** Swapping the two axes of a rectangular grid keeps its total. */
  lemma {:induction false} Sum2Swap(m: seq<seq<nat>>, width: nat)
    requires Rectangular(m, width)
    ensures Sum2(SwapAxes(m, width)) == Sum2(m)
  {
    var s := SwapAxes(m, width);
    if |m| == 0 {
      SumSingle(RowSums(s), -1, 0);
    } else {
      var n := |m| - 1;
      var front, row := m[..n], m[n];
      var s' := SwapAxes(front, width);
      Sum2Swap(front, width);
      forall j | 0 <= j < width
        ensures RowSums(s)[j] == RowSums(s')[j] + row[j]
      {
        assert s[j] == s'[j] + [row[j]];
        SumConcat(s'[j], [row[j]]);
      }
      assert RowSums(s) == Add(RowSums(s'), row);
      SumAdd(RowSums(s'), row);
      assert RowSums(m) == RowSums(front) + [Sum(row)];
      SumConcat(RowSums(front), [Sum(row)]);
    }
  }

  lemma Sum3FlipLR(v: Volume)
    ensures Sum3(FlipLR(v)) == Sum3(v)
  {
    var f := FlipLR(v);
    forall r | 0 <= r < |v|
      ensures RowSums(Totals(f))[r] == RowSums(Totals(v))[r]
    {
      assert Totals(f)[r] == Reverse(Totals(v)[r]);
      SumReverse(Totals(v)[r]);
    }
    assert RowSums(Totals(f)) == RowSums(Totals(v));
  }

  lemma Sum3FlipUD(v: Volume)
    ensures Sum3(FlipUD(v)) == Sum3(v)
  {
    var f := FlipUD(v);
    assert RowSums(Totals(f)) == Reverse(RowSums(Totals(v)));
    SumReverse(RowSums(Totals(v)));
  }

  lemma Sum3Swap(v: Volume, width: nat)
    requires Rectangular(v, width)
    ensures Sum3(SwapAxes(v, width)) == Sum3(v)
  {
    var tv := Totals(v);
    assert Rectangular(tv, width);
    var sv := SwapAxes(v, width);
    forall j | 0 <= j < width
      ensures Totals(sv)[j] == SwapAxes(tv, width)[j]
    {
      assert |Totals(sv)[j]| == |v|;
    }
    assert Totals(sv) == SwapAxes(tv, width);
    Sum2Swap(tv, width);
  }

  lemma Sum3Concat(a: Volume, b: Volume)
    ensures Sum3(a + b) == Sum3(a) + Sum3(b)
  {
    assert Totals(a + b) == Totals(a) + Totals(b);
    assert RowSums(Totals(a) + Totals(b)) == RowSums(Totals(a)) + RowSums(Totals(b));
    SumConcat(RowSums(Totals(a)), RowSums(Totals(b)));
  }

  lemma Sum3Add(v: Volume, w: Volume)
    requires SameShape(v, w)
    ensures Sum3(Add3(v, w)) == Sum3(v) + Sum3(w)
  {
    var u := Add3(v, w);
    forall r | 0 <= r < |v|
      ensures RowSums(Totals(u))[r] == RowSums(Totals(v))[r] + RowSums(Totals(w))[r]
    {
      forall c | 0 <= c < |v[r]|
        ensures Totals(u)[r][c] == Totals(v)[r][c] + Totals(w)[r][c]
      {
        SumAdd(v[r][c], w[r][c]);
      }
      assert Totals(u)[r] == Add(Totals(v)[r], Totals(w)[r]);
      SumAdd(Totals(v)[r], Totals(w)[r]);
    }
    assert RowSums(Totals(u)) == Add(RowSums(Totals(v)), RowSums(Totals(w)));
    SumAdd(RowSums(Totals(v)), RowSums(Totals(w)));
  }
}
