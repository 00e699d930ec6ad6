/** unit_tests/interface/test_fortran_array_adapter.cpp: copying between a Fortran
    array, indexed [z][y][x] with x fastest, and a data store view indexed (x, y, z). */
module FortranAdapter {

  datatype FloatKind = FkFloat | FkDouble

  /** bindgen_fortran_array_descriptor as the tests fill it. */
  datatype ArrayDescriptor = ArrayDescriptor(rank: nat, dims: seq<nat>, kind: FloatKind, isAccPresent: bool)

  function MakeDescriptor(xSize: nat, ySize: nat, zSize: nat, kind: FloatKind): ArrayDescriptor
  {
    ArrayDescriptor(3, [xSize, ySize, zSize], kind, false)
  }

  /** The descriptor describes a Fortran array [z][y][x] and a store (x, y, z). */
  predicate Describes(d: ArrayDescriptor, fortran: array3<int>, store: array3<int>)
    reads {}
  {
    d.rank == 3 && |d.dims| == 3 &&
    fortran.Length2 == d.dims[0] && fortran.Length1 == d.dims[1] && fortran.Length0 == d.dims[2] &&
    store.Length0 == d.dims[0] && store.Length1 == d.dims[1] && store.Length2 == d.dims[2]
  }

  /** The tests' descriptor fits exactly the arrays of those sizes: a Fortran array
      [zSize][ySize][xSize] and a store (xSize, ySize, zSize). */
  lemma MadeDescriptorDescribes(xSize: nat, ySize: nat, zSize: nat, kind: FloatKind, fortran: array3<int>, store: array3<int>)
    ensures Describes(MakeDescriptor(xSize, ySize, zSize, kind), fortran, store) <==>
            fortran.Length0 == zSize && fortran.Length1 == ySize && fortran.Length2 == xSize &&
            store.Length0 == xSize && store.Length1 == ySize && store.Length2 == zSize
    ensures MakeDescriptor(xSize, ySize, zSize, kind).kind == kind && !MakeDescriptor(xSize, ySize, zSize, kind).isAccPresent
  {
  }

  /** The position of (x, y, z) in the fill order, x fastest. */
  function LinearIndex(xSize: nat, ySize: nat, x: nat, y: nat, z: nat): nat
  {
    x + xSize * (y + ySize * z)
  }

  /** The fill order enumerates every element exactly once: the position determines
      the coordinates and stays below the element count. */
  lemma LinearIndexIsBijective(xSize: nat, ySize: nat, zSize: nat, x: nat, y: nat, z: nat)
    requires x < xSize && y < ySize && z < zSize
    ensures LinearIndex(xSize, ySize, x, y, z) < xSize * ySize * zSize
    ensures LinearIndex(xSize, ySize, x, y, z) % xSize == x
    ensures (LinearIndex(xSize, ySize, x, y, z) / xSize) % ySize == y
    ensures LinearIndex(xSize, ySize, x, y, z) / (xSize * ySize) == z
  {
    var l := LinearIndex(xSize, ySize, x, y, z);
    var r := y + ySize * z;
    RowMajorBound(ySize, zSize, y, z);
    RowMajorBound(xSize, ySize * zSize, x, r);
    RowMajorBound(xSize, ySize, x, y);
    Regroup(xSize, ySize, x, y, z);
    DivModUnique(l, xSize, r, x);
    DivModUnique(r, ySize, z, y);
    DivModUnique(l, xSize * ySize, z, x + xSize * y);
  }

  /** a + w * b < w * h whenever a < w and b < h. */
  lemma RowMajorBound(w: nat, h: nat, a: nat, b: nat)
    requires a < w && b < h
    ensures a + w * b < w * h
  {
    MulAtLeast(w, h - b);
    assert w * h == w * b + w * (h - b);
  }

  lemma Regroup(xSize: nat, ySize: nat, x: nat, y: nat, z: nat)
    ensures x + xSize * (y + ySize * z) == (xSize * ySize) * z + (x + xSize * y)
    ensures xSize * (ySize * z) == (xSize * ySize) * z
    ensures xSize * ySize * z == xSize * (ySize * z)
  {
    assert xSize * (y + ySize * z) == xSize * y + xSize * (ySize * z);
  }

  lemma MulAtLeast(d: int, k: int)
    requires d > 0 && k >= 1
    ensures d * k >= d
  {
    assert d * k == d + d * (k - 1);
  }

  lemma DivModUnique(n: int, d: int, q: int, r: int)
    requires d > 0 && 0 <= r < d && n == d * q + r
    ensures n / d == q && n % d == r
  {
    var q', r' := n / d, n % d;
    assert d * (q - q') == r' - r;
    if q > q' {
      MulAtLeast(d, q - q');
      assert false;
    } else if q < q' {
      MulAtLeast(d, q' - q);
      assert false;
    }
  }

  /** The counter passes from the end of one row to the start of the next. */
  lemma NextRow(xSize: nat, ySize: nat, y: nat, z: nat)
    ensures LinearIndex(xSize, ySize, xSize, y, z) == LinearIndex(xSize, ySize, 0, y + 1, z)
  {
    assert xSize * (y + 1 + ySize * z) == xSize + xSize * (y + ySize * z);
  }

  /** The counter passes from the end of one plane to the start of the next. */
  lemma NextPlane(xSize: nat, ySize: nat, z: nat)
    ensures LinearIndex(xSize, ySize, 0, ySize, z) == LinearIndex(xSize, ySize, 0, 0, z + 1)
  {
    assert ySize + ySize * z == ySize * (z + 1);
  }

  /** The tests' fill loop over the Fortran array: fortran[z][y][x] = running counter. */
  method FillFortran(fortran: array3<int>)
    modifies fortran
    ensures forall z, y, x :: 0 <= z < fortran.Length0 && 0 <= y < fortran.Length1 && 0 <= x < fortran.Length2 ==>
              fortran[z, y, x] == LinearIndex(fortran.Length2, fortran.Length1, x, y, z)
  {
    var xSize, ySize, zSize := fortran.Length2, fortran.Length1, fortran.Length0;
    var i := 0;
    var z := 0;
    while z < zSize
      invariant 0 <= z <= zSize && i == LinearIndex(xSize, ySize, 0, 0, z)
      invariant forall c, b, a :: 0 <= c < z && 0 <= b < ySize && 0 <= a < xSize ==> fortran[c, b, a] == LinearIndex(xSize, ySize, a, b, c)
    {
      var y := 0;
      while y < ySize
        invariant 0 <= y <= ySize && i == LinearIndex(xSize, ySize, 0, y, z)
        invariant forall c, b, a :: 0 <= c < zSize && 0 <= b < ySize && 0 <= a < xSize && (c < z || (c == z && b < y)) ==>
                    fortran[c, b, a] == LinearIndex(xSize, ySize, a, b, c)
      {
        var x := 0;
        while x < xSize
          invariant 0 <= x <= xSize && i == LinearIndex(xSize, ySize, x, y, z)
          invariant forall c, b, a :: 0 <= c < zSize && 0 <= b < ySize && 0 <= a < xSize && (c < z || (c == z && b < y) || (c == z && b == y && a < x)) ==>
                      fortran[c, b, a] == LinearIndex(xSize, ySize, a, b, c)
        {
          fortran[z, y, x] := i;
          x, i := x + 1, i + 1;
        }
        NextRow(xSize, ySize, y, z);
        y := y + 1;
      }
      NextPlane(xSize, ySize, z);
      z := z + 1;
    }
  }

  /** The same fill through the store's view: view(x, y, z) = running counter. */
  method FillView(store: array3<int>)
    modifies store
    ensures forall x, y, z :: 0 <= x < store.Length0 && 0 <= y < store.Length1 && 0 <= z < store.Length2 ==>
              store[x, y, z] == LinearIndex(store.Length0, store.Length1, x, y, z)
  {
    var xSize, ySize, zSize := store.Length0, store.Length1, store.Length2;
    var i := 0;
    var z := 0;
    while z < zSize
      invariant 0 <= z <= zSize && i == LinearIndex(xSize, ySize, 0, 0, z)
      invariant forall a, b, c :: 0 <= c < z && 0 <= b < ySize && 0 <= a < xSize ==> store[a, b, c] == LinearIndex(xSize, ySize, a, b, c)
    {
      var y := 0;
      while y < ySize
        invariant 0 <= y <= ySize && i == LinearIndex(xSize, ySize, 0, y, z)
        invariant forall a, b, c :: 0 <= c < zSize && 0 <= b < ySize && 0 <= a < xSize && (c < z || (c == z && b < y)) ==>
                    store[a, b, c] == LinearIndex(xSize, ySize, a, b, c)
      {
        var x := 0;
        while x < xSize
          invariant 0 <= x <= xSize && i == LinearIndex(xSize, ySize, x, y, z)
          invariant forall a, b, c :: 0 <= c < zSize && 0 <= b < ySize && 0 <= a < xSize && (c < z || (c == z && b < y) || (c == z && b == y && a < x)) ==>
                      store[a, b, c] == LinearIndex(xSize, ySize, a, b, c)
        {
          store[x, y, z] := i;
          x, i := x + 1, i + 1;
        }
        NextRow(xSize, ySize, y, z);
        y := y + 1;
      }
      NextPlane(xSize, ySize, z);
      z := z + 1;
    }
  }

  /** fortran_array_adapter::transform_to: view(x, y, z) = fortran[z][y][x] everywhere. */
  method TransformTo(d: ArrayDescriptor, fortran: array3<int>, store: array3<int>)
    requires Describes(d, fortran, store) && fortran != store
    modifies store
    ensures forall x, y, z :: 0 <= x < store.Length0 && 0 <= y < store.Length1 && 0 <= z < store.Length2 ==>
              store[x, y, z] == fortran[z, y, x]
  {
    for z := 0 to store.Length2
      invariant forall x, y, c :: 0 <= x < store.Length0 && 0 <= y < store.Length1 && 0 <= c < z ==> store[x, y, c] == fortran[c, y, x]
    {
      for y := 0 to store.Length1
        invariant forall x, b, c :: 0 <= x < store.Length0 && 0 <= b < store.Length1 && 0 <= c < store.Length2 && (c < z || (c == z && b < y)) ==>
                    store[x, b, c] == fortran[c, b, x]
      {
        for x := 0 to store.Length0
          invariant forall a, b, c :: 0 <= a < store.Length0 && 0 <= b < store.Length1 && 0 <= c < store.Length2 && (c < z || (c == z && b < y) || (c == z && b == y && a < x)) ==>
                      store[a, b, c] == fortran[c, b, a]
        {
          store[x, y, z] := fortran[z, y, x];
        }
      }
    }
  }

  /** fortran_array_adapter::transform_from: fortran[z][y][x] = view(x, y, z) everywhere. */
  method TransformFrom(d: ArrayDescriptor, store: array3<int>, fortran: array3<int>)
    requires Describes(d, fortran, store) && fortran != store
    modifies fortran
    ensures forall z, y, x :: 0 <= z < fortran.Length0 && 0 <= y < fortran.Length1 && 0 <= x < fortran.Length2 ==>
              fortran[z, y, x] == store[x, y, z]
  {
    for z := 0 to fortran.Length0
      invariant forall c, y, x :: 0 <= c < z && 0 <= y < fortran.Length1 && 0 <= x < fortran.Length2 ==> fortran[c, y, x] == store[x, y, c]
    {
      for y := 0 to fortran.Length1
        invariant forall c, b, x :: 0 <= c < fortran.Length0 && 0 <= b < fortran.Length1 && 0 <= x < fortran.Length2 && (c < z || (c == z && b < y)) ==>
                    fortran[c, b, x] == store[x, b, c]
      {
        for x := 0 to fortran.Length2
          invariant forall c, b, a :: 0 <= c < fortran.Length0 && 0 <= b < fortran.Length1 && 0 <= a < fortran.Length2 && (c < z || (c == z && b < y) || (c == z && b == y && a < x)) ==>
                      fortran[c, b, a] == store[a, b, c]
        {
          fortran[z, y, x] := store[x, y, z];
        }
      }
    }
  }

  /** transform_from undoes transform_to: the Fortran data comes back unchanged. */
  method RoundTrip(d: ArrayDescriptor, fortran: array3<int>, store: array3<int>, back: array3<int>)
    requires Describes(d, fortran, store) && Describes(d, back, store)
    requires fortran != back && fortran != store && back != store
    modifies store, back
    ensures forall z, y, x :: 0 <= z < fortran.Length0 && 0 <= y < fortran.Length1 && 0 <= x < fortran.Length2 ==>
              back[z, y, x] == fortran[z, y, x]
  {
    TransformTo(d, fortran, store);
    TransformFrom(d, store, back);
  }

  /** TEST(FortranArrayAdapter, TransformAdapterIntoDataStore) with sizes 6, 5, 4. */
  method TransformAdapterIntoDataStore() returns (ok: bool)
    ensures ok
  {
    var fortran := new int[4, 5, 6];
    var d := MakeDescriptor(6, 5, 4, FkDouble);
    var store := new int[6, 5, 4];
    FillFortran(fortran);
    TransformTo(d, fortran, store);
    ok := forall x, y, z :: 0 <= x < 6 && 0 <= y < 5 && 0 <= z < 4 ==> store[x, y, z] == LinearIndex(6, 5, x, y, z);
  }

  /** TEST(FortranArrayAdapter, TransformDataStoreIntoAdapter) with sizes 6, 5, 4. */
  method TransformDataStoreIntoAdapter() returns (ok: bool)
    ensures ok
  {
    var fortran := new int[4, 5, 6];
    var d := MakeDescriptor(6, 5, 4, FkDouble);
    var store := new int[6, 5, 4];
    FillView(store);
    TransformFrom(d, store, fortran);
    ok := forall z, y, x :: 0 <= z < 4 && 0 <= y < 5 && 0 <= x < 6 ==> fortran[z, y, x] == LinearIndex(6, 5, x, y, z);
  }
}
