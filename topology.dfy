/** The icosahedral topology's layout rule and storage dimensions, as fixed by
    unit_tests/stencil-composition/icosahedral_grids/test_cxx11_icosahedral_topology.cpp.
    A layout map gives each selected dimension a rank (its stride order; the highest
    rank is the contiguous one) and -1 to each masked dimension. */
module Topology {

  import opened Accessors

  datatype Backend = Host | Cuda

  /** The priority order of dimensions: q is ranked below p.
      Host: the extra dimensions (position 4 and up) come first, then i, colour, j, k.
      Cuda: the reversed order of positions.
      icosahedral_topology::layout_t is not part of this model: this order is the one
      generalised from the three host and three CUDA layouts the test asserts. */
  predicate RankedBelow(b: Backend, q: nat, p: nat)
  {
    match b
    case Host => (q >= 4 && p < 4) || ((q >= 4) == (p >= 4) && q < p)
    case Cuda => q > p
  }

  /** Selected dimensions among 0 .. n-1 ranked below p. */
  function CountBelow(b: Backend, sel: seq<bool>, p: nat, n: nat): nat
    requires n <= |sel|
  {
    if n == 0 then 0
    else CountBelow(b, sel, p, n - 1) + (if sel[n - 1] && RankedBelow(b, n - 1, p) then 1 else 0)
  }

  /** Selected dimensions among 0 .. n-1. */
  function CountSelected(sel: seq<bool>, n: nat): nat
    requires n <= |sel|
  {
    if n == 0 then 0 else CountSelected(sel, n - 1) + (if sel[n - 1] then 1 else 0)
  }

  /** layout_t<selector<...>>: the rank of each dimension. */
  function Layout(b: Backend, sel: seq<bool>): (r: seq<int>)
    ensures |r| == |sel|
    ensures forall p :: 0 <= p < |sel| ==> (r[p] == -1 <==> !sel[p])
  {
    seq(|sel|, p requires 0 <= p < |sel| => if sel[p] then CountBelow(b, sel, p, |sel|) as int else -1)
  }

  lemma RankedBelowIsStrictTotal(b: Backend, p: nat, q: nat, s: nat)
    ensures !RankedBelow(b, p, p)
    ensures p != q ==> RankedBelow(b, p, q) || RankedBelow(b, q, p)
    ensures RankedBelow(b, p, q) ==> !RankedBelow(b, q, p)
    ensures RankedBelow(b, s, q) && RankedBelow(b, q, p) ==> RankedBelow(b, s, p)
  {
  }

  /** Everything ranked below q is ranked below p, and q itself as well. */
  lemma {:induction false} CountBelowMonotone(b: Backend, sel: seq<bool>, q: nat, p: nat, n: nat)
    requires n <= |sel| && q < |sel| && sel[q] && RankedBelow(b, q, p)
    ensures CountBelow(b, sel, p, n) >= CountBelow(b, sel, q, n) + (if q < n then 1 else 0)
  {
    if n > 0 {
      CountBelowMonotone(b, sel, q, p, n - 1);
      RankedBelowIsStrictTotal(b, p, q, n - 1);
    }
  }

  /** Fewer dimensions are ranked below a selected p than are selected. */
  lemma {:induction false} CountBelowBound(b: Backend, sel: seq<bool>, p: nat, n: nat)
    requires n <= |sel| && p < |sel| && sel[p]
    ensures CountBelow(b, sel, p, n) + (if p < n then 1 else 0) <= CountSelected(sel, n)
  {
    if n > 0 {
      CountBelowBound(b, sel, p, n - 1);
      RankedBelowIsStrictTotal(b, p, p, p);
    }
  }

  /** The selected dimensions receive distinct ranks 0 .. m-1, m being their number. */
  lemma LayoutIsPermutationOfRanks(b: Backend, sel: seq<bool>)
    ensures forall p :: 0 <= p < |sel| && sel[p] ==> 0 <= Layout(b, sel)[p] < CountSelected(sel, |sel|)
    ensures forall p, q :: 0 <= p < |sel| && 0 <= q < |sel| && p != q && sel[p] && sel[q] ==>
              Layout(b, sel)[p] != Layout(b, sel)[q]
  {
    forall p | 0 <= p < |sel| && sel[p]
      ensures 0 <= Layout(b, sel)[p] < CountSelected(sel, |sel|)
    {
      CountBelowBound(b, sel, p, |sel|);
    }
    forall p, q | 0 <= p < |sel| && 0 <= q < |sel| && p != q && sel[p] && sel[q]
      ensures Layout(b, sel)[p] != Layout(b, sel)[q]
    {
      RankedBelowIsStrictTotal(b, p, q, p);
      if RankedBelow(b, q, p) {
        CountBelowMonotone(b, sel, q, p, |sel|);
      } else {
        CountBelowMonotone(b, sel, p, q, |sel|);
      }
    }
  }

  /** Masking a dimension does not change the relative order of the others. */
  lemma LayoutKeepsPriorityOrder(b: Backend, sel: seq<bool>, p: nat, q: nat)
    requires p < |sel| && q < |sel| && sel[p] && sel[q] && RankedBelow(b, q, p)
    ensures Layout(b, sel)[q] < Layout(b, sel)[p]
  {
    CountBelowMonotone(b, sel, q, p, |sel|);
  }

  /** A layout equals an expected rank list once each rank is known. */
  lemma LayoutByRanks(b: Backend, sel: seq<bool>, expected: seq<int>)
    requires |expected| == |sel|
    requires forall p :: 0 <= p < |sel| ==> expected[p] == if sel[p] then CountBelow(b, sel, p, |sel|) as int else -1
    ensures Layout(b, sel) == expected
  {
  }

  lemma HostLayouts()
    ensures Layout(Host, [true, true, true, true]) == [0, 1, 2, 3]
    ensures Layout(Host, [true, true, true, false]) == [0, 1, 2, -1]
    ensures Layout(Host, [true, true, true, true, true, true]) == [2, 3, 4, 5, 0, 1]
  {
    LayoutByRanks(Host, [true, true, true, true], [0, 1, 2, 3]);
    LayoutByRanks(Host, [true, true, true, false], [0, 1, 2, -1]);
    LayoutByRanks(Host, [true, true, true, true, true, true], [2, 3, 4, 5, 0, 1]);
  }

  lemma CudaLayouts()
    ensures Layout(Cuda, [true, true, true, true]) == [3, 2, 1, 0]
    ensures Layout(Cuda, [true, true, true, false]) == [2, 1, 0, -1]
    ensures Layout(Cuda, [true, true, true, true, true, true]) == [5, 4, 3, 2, 1, 0]
  {
    LayoutByRanks(Cuda, [true, true, true, true], [3, 2, 1, 0]);
    LayoutByRanks(Cuda, [true, true, true, false], [2, 1, 0, -1]);
    LayoutByRanks(Cuda, [true, true, true, true, true, true], [5, 4, 3, 2, 1, 0]);
  }

  /** Colours per location type of the icosahedral grid. */
  function Colors(loc: LocationType): (n: nat)
    ensures 1 <= n <= 3
  {
    match loc
    case Cells => 2
    case Edges => 3
    case Vertices => 1
  }

  datatype Grid = Grid(ni: nat, nj: nat, nk: nat)

  /** make_storage<Location, ...>(name, extra...): the storage's dimensions. */
  function StorageDims(g: Grid, loc: LocationType, extra: seq<nat>): (d: seq<nat>)
    ensures |d| == 4 + |extra|
    ensures d[0] == g.ni && d[1] == Colors(loc) && d[2] == g.nj && d[3] == g.nk
    ensures forall x :: 0 <= x < |extra| ==> d[4 + x] == extra[x]
  {
    [g.ni, Colors(loc), g.nj, g.nk] + extra
  }

  lemma MakeStorageTest()
    ensures StorageDims(Grid(4, 6, 7), Edges, []) == [4, 3, 6, 7]
    ensures var d := StorageDims(Grid(4, 6, 7), Edges, [8, 9]);
            d[0] == 4 && d[1] == 3 && d[3] == 7 && d[4] == 8 && d[5] == 9
  {
  }
}
