/** examples/boundary-condition.cpp: a boundary-condition functor whose overloads are
    chosen by the direction of the boundary point, and the halo descriptors that
    give every axis one halo cell on each side. */
module Boundary {

  datatype Sign = Minus | Zero | Plus

  /** direction<I, J, K> */
  datatype Direction = Direction(i: Sign, j: Sign, k: Sign)

  /** The four operator() overloads of direction_bc_input, from least to most specialised. */
  datatype Overload = Generic | AnyMinusAny | MinusMinusAny | MinusMinusMinus

  /** The axes an overload's parameter type fixes to minus. */
  function FixedAxes(o: Overload): set<nat>
  {
    match o
    case Generic => {}
    case AnyMinusAny => {1}
    case MinusMinusAny => {0, 1}
    case MinusMinusMinus => {0, 1, 2}
  }

  function SignAt(d: Direction, axis: nat): Sign
  {
    if axis == 0 then d.i else if axis == 1 then d.j else d.k
  }

  /** Template argument deduction succeeds for the overload at this direction. */
  predicate Matches(o: Overload, d: Direction)
  {
    forall a :: a in FixedAxes(o) ==> SignAt(d, a) == Minus
  }

  /** Partial ordering of function templates: a is more specialised than b. */
  predicate MoreSpecialised(a: Overload, b: Overload)
  {
    FixedAxes(b) < FixedAxes(a)
  }

  /** Overload resolution: the matching overload more specialised than every other match. */
  function Select(d: Direction): (o: Overload)
    ensures Matches(o, d)
    ensures forall o' :: Matches(o', d) && o' != o ==> MoreSpecialised(o, o')
  {
    if d.i == Minus && d.j == Minus && d.k == Minus then MinusMinusMinus
    else if d.i == Minus && d.j == Minus then MinusMinusAny
    else if d.j == Minus then AnyMinusAny
    else Generic
  }

  /** The best match is unique: no call is ambiguous. */
  lemma SelectIsUnique(d: Direction, o: Overload)
    requires Matches(o, d)
    requires forall o' :: Matches(o', d) && o' != o ==> MoreSpecialised(o, o')
    ensures o == Select(d)
  {
    assert Matches(Select(d), d);
  }

  /** direction_bc_input<T>: the default constructor sets value 1. */
  datatype DirectionBcInput = DirectionBcInput(value: int)

  function DefaultBcInput(): DirectionBcInput
  {
    DirectionBcInput(1)
  }

  /** What the chosen overload stores, given the source field's value at the point. */
  function BcValue(bc: DirectionBcInput, d: Direction, source: int): int
  {
    match Select(d)
    case Generic => source * bc.value
    case AnyMinusAny => 88 * bc.value
    case MinusMinusAny => 77777 * bc.value
    case MinusMinusMinus => 55555 * bc.value
  }

  /** Every overload scales its result by the stored value: an instance holding v stores
      v times what the default instance stores. */
  lemma BcValueScalesWithValue(bc: DirectionBcInput, d: Direction, source: int)
    ensures BcValue(bc, d, source) == bc.value * BcValue(DefaultBcInput(), d, source)
  {
  }

  /** Only the generic overload reads the source field. */
  lemma SourceReadOnlyByGeneric(bc: DirectionBcInput, d: Direction, s1: int, s2: int)
    requires Select(d) != Generic
    ensures BcValue(bc, d, s1) == BcValue(bc, d, s2)
  {
  }

  /** operator()(direction, data_field0, data_field1, i, j, k): writes data_field0 at
      (i, j, k) only; data_field1 is const. */
  method ApplyAt(bc: DirectionBcInput, d: Direction, field0: array3<int>, field1: array3<int>, i: nat, j: nat, k: nat)
    requires field0 != field1
    requires i < field0.Length0 && j < field0.Length1 && k < field0.Length2
    requires i < field1.Length0 && j < field1.Length1 && k < field1.Length2
    modifies field0
    ensures field0[i, j, k] == BcValue(bc, d, field1[i, j, k])
    ensures forall x, y, z :: 0 <= x < field0.Length0 && 0 <= y < field0.Length1 && 0 <= z < field0.Length2 && (x, y, z) != (i, j, k) ==>
              field0[x, y, z] == old(field0[x, y, z])
  {
    match Select(d)
    case Generic => field0[i, j, k] := field1[i, j, k] * bc.value;
    case AnyMinusAny => field0[i, j, k] := 88 * bc.value;
    case MinusMinusAny => field0[i, j, k] := 77777 * bc.value;
    case MinusMinusMinus => field0[i, j, k] := 55555 * bc.value;
  }

  /** halo_descriptor(minus, plus, begin, end, total): halo widths on either side, the
      first and last interior index, and the full extent of the axis. */
  datatype HaloDescriptor = HaloDescriptor(minus: int, plus: int, begin: int, end: int, total: int)

  /** The descriptor every axis of the example gets: one halo cell on each side. */
  function HaloFor(d: int): HaloDescriptor
  {
    HaloDescriptor(1, 1, 1, d - 2, d)
  }

  /** The direction of position x on an axis: below, inside or above the interior. */
  function SignOf(h: HaloDescriptor, x: int): (s: Sign)
    ensures s == Minus <==> x < h.begin
    ensures s == Plus <==> h.begin <= x && h.end < x
    ensures s == Zero <==> h.begin <= x <= h.end
  {
    if x < h.begin then Minus else if x > h.end then Plus else Zero
  }

  /** The halo cells and the interior exactly fill the axis. */
  lemma HaloForCoversAxis(d: int, x: int)
    requires d >= 2 && 0 <= x < d
    ensures HaloFor(d).minus + (HaloFor(d).end - HaloFor(d).begin + 1) + HaloFor(d).plus == HaloFor(d).total
    ensures SignOf(HaloFor(d), x) == Minus <==> x == 0
    ensures SignOf(HaloFor(d), x) == Plus <==> x == d - 1
  {
  }

  function DirectionAt(h0: HaloDescriptor, h1: HaloDescriptor, h2: HaloDescriptor, x: int, y: int, z: int): Direction
  {
    Direction(SignOf(h0, x), SignOf(h1, y), SignOf(h2, z))
  }

  /** The corner (0, 0, 0) gets the --- overload, the opposite corner the generic one. */
  lemma CornerOverloads(d1: int, d2: int, d3: int)
    requires d1 >= 3 && d2 >= 3 && d3 >= 3
    ensures Select(DirectionAt(HaloFor(d1), HaloFor(d2), HaloFor(d3), 0, 0, 0)) == MinusMinusMinus
    ensures Select(DirectionAt(HaloFor(d1), HaloFor(d2), HaloFor(d3), 0, 0, d3 - 1)) == MinusMinusAny
    ensures Select(DirectionAt(HaloFor(d1), HaloFor(d2), HaloFor(d3), d1 - 1, 0, d3 - 1)) == AnyMinusAny
    ensures Select(DirectionAt(HaloFor(d1), HaloFor(d2), HaloFor(d3), d1 - 1, d2 - 1, d3 - 1)) == Generic
  {
  }

  /** main's initialisation loop: in(i, j, k) = 0 and out(i, j, k) = i + j + k. */
  method InitFields(inA: array3<int>, outA: array3<int>)
    requires inA != outA
    requires inA.Length0 == outA.Length0 && inA.Length1 == outA.Length1 && inA.Length2 == outA.Length2
    modifies inA, outA
    ensures forall x, y, z :: 0 <= x < inA.Length0 && 0 <= y < inA.Length1 && 0 <= z < inA.Length2 ==>
              inA[x, y, z] == 0 && outA[x, y, z] == x + y + z
  {
    for i := 0 to inA.Length0
      invariant forall x, y, z :: 0 <= x < i && 0 <= y < inA.Length1 && 0 <= z < inA.Length2 ==>
                  inA[x, y, z] == 0 && outA[x, y, z] == x + y + z
    {
      for j := 0 to inA.Length1
        invariant forall x, y, z :: (0 <= x < inA.Length0 && 0 <= y < inA.Length1 && 0 <= z < inA.Length2 &&
                                     (x < i || (x == i && y < j))) ==> inA[x, y, z] == 0 && outA[x, y, z] == x + y + z
      {
        for k := 0 to inA.Length2
          invariant forall x, y, z :: (0 <= x < inA.Length0 && 0 <= y < inA.Length1 && 0 <= z < inA.Length2 &&
                                       (x < i || (x == i && y < j) || (x == i && y == j && z < k))) ==> inA[x, y, z] == 0 && outA[x, y, z] == x + y + z
        {
          inA[i, j, k] := 0;
          outA[i, j, k] := i + j + k;
        }
      }
    }
  }

  /** After the initialisation, applying the condition at a boundary point stores, with
      the default functor and with the stateful one (value 2): */
  lemma ExampleValues(x: int, y: int, z: int, d: Direction)
    ensures BcValue(DefaultBcInput(), d, x + y + z) == (match Select(d)
                                                      case Generic => x + y + z
                                                      case AnyMinusAny => 88
                                                      case MinusMinusAny => 77777
                                                      case MinusMinusMinus => 55555)
    ensures BcValue(DirectionBcInput(2), d, x + y + z) == 2 * BcValue(DefaultBcInput(), d, x + y + z)
  {
  }
}
