/** Placeholders' access declarations shared by the stencil functors:
    an accessor has a parameter index, an intent and an extent (the box of
    relative offsets it may be read at), and on icosahedral grids a location. */
module Accessors {

  import opened Wrappers

  datatype Intent = In | InOut

  datatype LocationType = Cells | Edges | Vertices

  /** extent<iminus, iplus, jminus, jplus, kminus, kplus>; missing bounds are 0. */
  datatype Extent = Extent(iMinus: int, iPlus: int, jMinus: int, jPlus: int, kMinus: int, kPlus: int)

  const ZeroExtent := Extent(0, 0, 0, 0, 0, 0)

  /** A relative offset (di, dj, dk) from the current grid point. */
  datatype Offset = Offset(di: int, dj: int, dk: int)

  const Centre := Offset(0, 0, 0)

  predicate WithinExtent(o: Offset, e: Extent)
  {
    e.iMinus <= o.di <= e.iPlus && e.jMinus <= o.dj <= e.jPlus && e.kMinus <= o.dk <= e.kPlus
  }

  datatype Accessor = Accessor(index: nat, intent: Intent, extent: Extent, location: Option<LocationType>)

  /** in_accessor<I, Extent> */
  function InAccessor(index: nat, extent: Extent): (a: Accessor)
    ensures a.intent == In && a.index == index && a.extent == extent
  {
    Accessor(index, In, extent, None)
  }

  /** inout_accessor<I>: written at the centre only, so its extent is zero. */
  function InOutAccessor(index: nat): (a: Accessor)
    ensures a.intent == InOut && a.index == index && a.extent == ZeroExtent
    ensures forall o :: WithinExtent(o, a.extent) <==> o == Centre
  {
    Accessor(index, InOut, ZeroExtent, None)
  }

  /** make_param_list<A0, A1, ...> is well formed when the i-th accessor has index i. */
  predicate ParamListWellFormed(params: seq<Accessor>)
  {
    forall i :: 0 <= i < |params| ==> params[i].index == i
  }
}
