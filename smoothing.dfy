/** The Laplacian stage of the getting-started smoothing example
    (docs_src/manuals/getting_started/code/gt_smoothing.hpp) and its two-interval axis.
    An evaluation is a view of the input relative to the current point. */
module Smoothing {

  import opened Accessors
  import opened Levels

  /** lap_function::in and ::lap, in parameter order. */
  const InExtent := Extent(-1, 1, -1, 1, 0, 0)
  const InAcc := InAccessor(0, InExtent)
  const LapAcc := InOutAccessor(1)
  const LapParams := [InAcc, LapAcc]

  /** The values of a field around the current point, addressed by offset. */
  type View = Offset -> int

  /** The offsets lap_function::apply reads, with their coefficients. */
  const LapOffsets := [Centre, Offset(1, 0, 0), Offset(0, 1, 0), Offset(-1, 0, 0), Offset(0, -1, 0)]
  const LapCoefficients := [-4, 1, 1, 1, 1]

  /** lap(i, j, k) = -4 in(i, j, k) + in(i+1, j, k) + in(i, j+1, k) + in(i-1, j, k) + in(i, j-1, k) */
  function LapApply(v: View): int
  {
    -4 * v(Centre) + v(Offset(1, 0, 0)) + v(Offset(0, 1, 0)) + v(Offset(-1, 0, 0)) + v(Offset(0, -1, 0))
  }

  /** The weighted sum of the view over offsets and coefficients taken pairwise. */
  function Weighted(offs: seq<Offset>, coeffs: seq<int>, v: View): int
    requires |offs| == |coeffs|
  {
    if |offs| == 0 then 0 else coeffs[0] * v(offs[0]) + Weighted(offs[1..], coeffs[1..], v)
  }

  /** The stage is the stencil with the declared offsets and coefficients. */
  lemma LapIsStencil(v: View)
    ensures LapApply(v) == Weighted(LapOffsets, LapCoefficients, v)
  {
    var o, c := LapOffsets, LapCoefficients;
    assert o[4..][1..] == [] && c[4..][1..] == [];
    assert Weighted(o[4..], c[4..], v) == v(Offset(0, -1, 0));
    assert o[3..][1..] == o[4..] && c[3..][1..] == c[4..];
    assert Weighted(o[3..], c[3..], v) == v(Offset(-1, 0, 0)) + v(Offset(0, -1, 0));
    assert o[2..][1..] == o[3..] && c[2..][1..] == c[3..];
    assert Weighted(o[2..], c[2..], v) == v(Offset(0, 1, 0)) + v(Offset(-1, 0, 0)) + v(Offset(0, -1, 0));
    assert o[1..][1..] == o[2..] && c[1..][1..] == c[2..];
    assert Weighted(o[1..], c[1..], v) == v(Offset(1, 0, 0)) + v(Offset(0, 1, 0)) + v(Offset(-1, 0, 0)) + v(Offset(0, -1, 0));
  }

  lemma Declarations()
    ensures ParamListWellFormed(LapParams)
    ensures LapParams[0].intent == In && LapParams[1].intent == InOut
    ensures forall x :: 0 <= x < |LapOffsets| ==> WithinExtent(LapOffsets[x], InExtent) && LapOffsets[x].dk == 0
    ensures forall o :: WithinExtent(o, LapAcc.extent) <==> o == Centre
  {
  }

  /** The stage reads the input only inside its declared extent: two fields that agree
      there give the same Laplacian. */
  lemma LapIsLocal(v: View, w: View)
    requires forall o :: WithinExtent(o, InAcc.extent) ==> v(o) == w(o)
    ensures LapApply(v) == LapApply(w)
  {
    assert WithinExtent(Centre, InAcc.extent);
    assert WithinExtent(Offset(1, 0, 0), InAcc.extent);
    assert WithinExtent(Offset(0, 1, 0), InAcc.extent);
    assert WithinExtent(Offset(-1, 0, 0), InAcc.extent);
    assert WithinExtent(Offset(0, -1, 0), InAcc.extent);
  }

  /** The coefficients sum to 0: a constant field has Laplacian 0. */
  lemma ConstantFieldHasZeroLap(v: View, c: int)
    requires forall o :: v(o) == c
    ensures LapApply(v) == 0
  {
  }

  /** The five-point stencil is exact on affine fields: their Laplacian is 0. */
  lemma AffineFieldHasZeroLap(v: View, c: int, a: int, b: int, d: int)
    requires forall o :: v(o) == c + a * o.di + b * o.dj + d * o.dk
    ensures LapApply(v) == 0
  {
  }

  /** axis<N>::get_interval<x>: from the first level after splitter x to the last before x+1. */
  function AxisInterval(x: nat): (iv: Interval)
    ensures ValidInterval(iv)
    ensures Hi(iv) - Lo(iv) == LevelsPerSplitter - 1
  {
    Interval(Level(x, 1), Level(x + 1, -1))
  }

  /** The intervals of axis<N>, bottom to top. */
  function AxisIntervals(n: nat): (r: seq<Interval>)
    ensures |r| == n
    ensures forall x :: 0 <= x < n ==> r[x] == AxisInterval(x)
  {
    if n == 0 then [] else AxisIntervals(n - 1) + [AxisInterval(n - 1)]
  }

  /** The intervals of an axis are valid and follow each other without gap or overlap. */
  lemma AxisIntervalsTile(n: nat)
    ensures forall x :: 0 <= x < n ==> ValidInterval(AxisIntervals(n)[x])
    ensures forall x :: 0 <= x < n - 1 ==> Hi(AxisIntervals(n)[x]) + 1 == Lo(AxisIntervals(n)[x + 1])
    ensures forall x, y :: 0 <= x < y < n ==> !Overlap(AxisIntervals(n)[x], AxisIntervals(n)[y])
  {
    forall x, y | 0 <= x < y < n
      ensures !Overlap(AxisIntervals(n)[x], AxisIntervals(n)[y])
    {
      IndexOrderIsLevelOrder(Level(x + 1, -1), Level(y, 1));
    }
  }

  /** axis_t = axis<2>: exactly the lower and the upper domain. */
  lemma SmoothingAxis()
    ensures AxisIntervals(2) == [Interval(Level(0, 1), Level(1, -1)), Interval(Level(1, 1), Level(2, -1))]
  {
  }
}
