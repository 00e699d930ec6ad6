/** examples/basic_laplacian.cpp: the same 5-point Laplacian over the interior of a
    3-D field, computed by a naive i/j/k loop nest and by a 4x4-tiled traversal
    (full tiles, then the i remainder, the j remainder and the corner). Field
    values are integers; in is never written. */
module BasicLaplacian {

  import opened Accessors
  import Smoothing

  /** Tile sizes BI and BJ. */
  const TileSize: int := 4

  /** 4 c - (e + n + w + s) */
  function Laplacian5(c: int, e: int, n: int, w: int, s: int): int
  {
    4 * c - (e + n + w + s)
  }

  /** This Laplacian is the negated one of the smoothing example. */
  lemma NegatedSmoothingLap(v: Smoothing.View)
    ensures Smoothing.LapApply(v) ==
            -Laplacian5(v(Centre), v(Offset(1, 0, 0)), v(Offset(0, 1, 0)), v(Offset(-1, 0, 0)), v(Offset(0, -1, 0)))
  {
  }

  predicate SameShape(a: array3<int>, b: array3<int>)
  {
    a.Length0 == b.Length0 && a.Length1 == b.Length1 && a.Length2 == b.Length2
  }

  /** The Laplacian of a at (x, y, z), for a point whose four horizontal neighbours exist. */
  function LapAt(a: array3<int>, x: int, y: int, z: int): int
    reads a
    requires 1 <= x < a.Length0 - 1 && 1 <= y < a.Length1 - 1 && 0 <= z < a.Length2
  {
    Laplacian5(a[x, y, z], a[x + 1, y, z], a[x, y + 1, z], a[x - 1, y, z], a[x, y - 1, z])
  }

  /** The interior both traversals write: 2 <= i < d1-2, 2 <= j < d2-2. */
  predicate Interior(d1: int, d2: int, x: int, y: int)
  {
    2 <= x < d1 - 2 && 2 <= y < d2 - 2
  }

  /** The innermost loop: out(i, j, k) for every k. */
  method UpdateColumn(inA: array3<int>, outA: array3<int>, i: int, j: int)
    requires inA != outA && SameShape(inA, outA)
    requires 1 <= i < inA.Length0 - 1 && 1 <= j < inA.Length1 - 1
    modifies outA
    ensures forall x, y, z :: 0 <= x < outA.Length0 && 0 <= y < outA.Length1 && 0 <= z < outA.Length2 ==>
              outA[x, y, z] == if x == i && y == j then LapAt(inA, x, y, z) else old(outA[x, y, z])
  {
    var k := 0;
    while k < outA.Length2
      invariant 0 <= k <= outA.Length2
      invariant forall x, y, z :: 0 <= x < outA.Length0 && 0 <= y < outA.Length1 && 0 <= z < outA.Length2 ==>
                  outA[x, y, z] == if x == i && y == j && z < k then LapAt(inA, x, y, z) else old(outA[x, y, z])
    {
      outA[i, j, k] := Laplacian5(inA[i, j, k], inA[i + 1, j, k], inA[i, j + 1, k], inA[i - 1, j, k], inA[i, j - 1, k]);
      k := k + 1;
    }
  }

  /** One loop nest: i over [i0, i1), j over [j0, j1), all k. An empty range writes nothing. */
  method UpdateRect(inA: array3<int>, outA: array3<int>, i0: int, i1: int, j0: int, j1: int)
    requires inA != outA && SameShape(inA, outA)
    requires 1 <= i0 && 1 <= j0 && i1 <= inA.Length0 - 1 && j1 <= inA.Length1 - 1
    modifies outA
    ensures forall x, y, z :: 0 <= x < outA.Length0 && 0 <= y < outA.Length1 && 0 <= z < outA.Length2 ==>
              outA[x, y, z] == if i0 <= x < i1 && j0 <= y < j1 then LapAt(inA, x, y, z) else old(outA[x, y, z])
  {
    var i := i0;
    while i < i1
      invariant i0 <= i && (i0 <= i1 ==> i <= i1)
      invariant forall x, y, z :: 0 <= x < outA.Length0 && 0 <= y < outA.Length1 && 0 <= z < outA.Length2 ==>
                  outA[x, y, z] == if i0 <= x < i && x < i1 && j0 <= y < j1 then LapAt(inA, x, y, z) else old(outA[x, y, z])
    {
      var j := j0;
      while j < j1
        invariant j0 <= j && (j0 <= j1 ==> j <= j1)
        invariant forall x, y, z :: 0 <= x < outA.Length0 && 0 <= y < outA.Length1 && 0 <= z < outA.Length2 ==>
                    outA[x, y, z] == if (i0 <= x < i && x < i1 && j0 <= y < j1) || (x == i && j0 <= y < j && y < j1) then LapAt(inA, x, y, z) else old(outA[x, y, z])
      {
        UpdateColumn(inA, outA, i, j);
        j := j + 1;
      }
      i := i + 1;
    }
  }

  /** main_naive's loop nest over the interior. */
  method Naive(inA: array3<int>, outA: array3<int>)
    requires inA != outA && SameShape(inA, outA)
    modifies outA
    ensures forall x, y, z :: 0 <= x < outA.Length0 && 0 <= y < outA.Length1 && 0 <= z < outA.Length2 ==>
              outA[x, y, z] == if Interior(outA.Length0, outA.Length1, x, y) then LapAt(inA, x, y, z) else old(outA[x, y, z])
  {
    UpdateRect(inA, outA, 2, inA.Length0 - 2, 2, inA.Length1 - 2);
  }

  /** d - c on uint_t (unsigned 32-bit), as the loop bounds d1-2 and the tile counts compute it. */
  function UnsignedMinus(d: nat, c: nat): (n: nat)
    requires d < 0x1_0000_0000 && c < 0x1_0000_0000
    ensures n < 0x1_0000_0000
    ensures d >= c ==> n == d - c
    ensures d < c ==> n == 0x1_0000_0000 - (c - d)
  {
    (d - c) % 0x1_0000_0000
  }

  /** Below two columns the written bound i < d1-2 wraps: the loop starts at i = 2 >= d1. */
  lemma NaiveBoundAsWrittenOverruns(d: nat)
    requires d < 2
    ensures 2 < UnsignedMinus(d, 2) && d <= 2 && !Interior(d, d, 2, 2)
  {
  }

  /** NBI = (d1-4)/BI as written: d1 is uint_t, so d1-4 wraps below 4. */
  function TileCountAsWritten(d: nat): (n: int)
    requires d < 0x1_0000_0000
    ensures d >= 4 ==> n == (d - 4) / TileSize
    ensures d < 4 ==> n == 0x3FFF_FFFF
  {
    UnsignedMinus(d, 4) / TileSize
  }

  /** The intended number of full tiles: none when fewer than four columns are interior. */
  function TileCount(d: nat): (n: nat)
    ensures d >= 4 ==> TileSize * n + 2 <= d - 2 < TileSize * (n + 1) + 2
    ensures d < 4 ==> n == 0
  {
    if d >= 4 then (d - 4) / TileSize else 0
  }

  /** Both agree from 4 on; below it the written count tiles far past the array. */
  lemma TileCountAsWrittenOverruns(d: nat)
    requires d < 0x1_0000_0000
    ensures d >= 4 ==> TileCountAsWritten(d) == TileCount(d)
    ensures 2 <= d < 4 ==> TileCountAsWritten(d) > 0 && TileSize * 0 + 2 + TileSize > d && !Interior(d, d, 2, 2)
  {
  }

  /** The full tiles: bi < nbi, bj < nbj, each a 4x4 loop nest. */
  method FullTiles(inA: array3<int>, outA: array3<int>, nbi: nat, nbj: nat)
    requires inA != outA && SameShape(inA, outA)
    requires nbi == 0 || TileSize * nbi + 2 <= inA.Length0 - 2
    requires nbj == 0 || TileSize * nbj + 2 <= inA.Length1 - 2
    modifies outA
    ensures forall x, y, z :: 0 <= x < outA.Length0 && 0 <= y < outA.Length1 && 0 <= z < outA.Length2 ==>
              outA[x, y, z] == if 2 <= x < TileSize * nbi + 2 && 2 <= y < TileSize * nbj + 2 then LapAt(inA, x, y, z) else old(outA[x, y, z])
  {
    for bi := 0 to nbi
      invariant forall x, y, z :: 0 <= x < outA.Length0 && 0 <= y < outA.Length1 && 0 <= z < outA.Length2 ==>
                  outA[x, y, z] == if 2 <= x < TileSize * bi + 2 && 2 <= y < TileSize * nbj + 2 then LapAt(inA, x, y, z) else old(outA[x, y, z])
    {
      for bj := 0 to nbj
        invariant forall x, y, z :: 0 <= x < outA.Length0 && 0 <= y < outA.Length1 && 0 <= z < outA.Length2 ==>
                    outA[x, y, z] == if (2 <= x < TileSize * bi + 2 && 2 <= y < TileSize * nbj + 2) ||
                                        (TileSize * bi + 2 <= x < TileSize * bi + 2 + TileSize && 2 <= y < TileSize * bj + 2)
                                     then LapAt(inA, x, y, z) else old(outA[x, y, z])
      {
        var starti := bi * TileSize + 2;
        var startj := bj * TileSize + 2;
        UpdateRect(inA, outA, starti, starti + TileSize, startj, startj + TileSize);
      }
    }
  }

  /** The i remainder: i from nbi*BI+2 to d1-2, for each full j tile. */
  method RemainderI(inA: array3<int>, outA: array3<int>, nbi: nat, nbj: nat)
    requires inA != outA && SameShape(inA, outA)
    requires nbj == 0 || TileSize * nbj + 2 <= inA.Length1 - 2
    modifies outA
    ensures forall x, y, z :: 0 <= x < outA.Length0 && 0 <= y < outA.Length1 && 0 <= z < outA.Length2 ==>
              outA[x, y, z] == if TileSize * nbi + 2 <= x < outA.Length0 - 2 && 2 <= y < TileSize * nbj + 2 then LapAt(inA, x, y, z) else old(outA[x, y, z])
  {
    for bj := 0 to nbj
      invariant forall x, y, z :: 0 <= x < outA.Length0 && 0 <= y < outA.Length1 && 0 <= z < outA.Length2 ==>
                  outA[x, y, z] == if TileSize * nbi + 2 <= x < outA.Length0 - 2 && 2 <= y < TileSize * bj + 2 then LapAt(inA, x, y, z) else old(outA[x, y, z])
    {
      var starti := nbi * TileSize + 2;
      var startj := bj * TileSize + 2;
      UpdateRect(inA, outA, starti, inA.Length0 - 2, startj, startj + TileSize);
    }
  }

  /** The j remainder: j from nbj*BJ+2 to d2-2, for each full i tile. */
  method RemainderJ(inA: array3<int>, outA: array3<int>, nbi: nat, nbj: nat)
    requires inA != outA && SameShape(inA, outA)
    requires nbi == 0 || TileSize * nbi + 2 <= inA.Length0 - 2
    modifies outA
    ensures forall x, y, z :: 0 <= x < outA.Length0 && 0 <= y < outA.Length1 && 0 <= z < outA.Length2 ==>
              outA[x, y, z] == if 2 <= x < TileSize * nbi + 2 && TileSize * nbj + 2 <= y < outA.Length1 - 2 then LapAt(inA, x, y, z) else old(outA[x, y, z])
  {
    for bi := 0 to nbi
      invariant forall x, y, z :: 0 <= x < outA.Length0 && 0 <= y < outA.Length1 && 0 <= z < outA.Length2 ==>
                  outA[x, y, z] == if 2 <= x < TileSize * bi + 2 && TileSize * nbj + 2 <= y < outA.Length1 - 2 then LapAt(inA, x, y, z) else old(outA[x, y, z])
    {
      var starti := bi * TileSize + 2;
      var startj := nbj * TileSize + 2;
      UpdateRect(inA, outA, starti, starti + TileSize, startj, inA.Length1 - 2);
    }
  }

  /** main_block's traversal, with the intended tile counts. */
  method Block(inA: array3<int>, outA: array3<int>)
    requires inA != outA && SameShape(inA, outA)
    modifies outA
    ensures forall x, y, z :: 0 <= x < outA.Length0 && 0 <= y < outA.Length1 && 0 <= z < outA.Length2 ==>
              outA[x, y, z] == if Interior(outA.Length0, outA.Length1, x, y) then LapAt(inA, x, y, z) else old(outA[x, y, z])
  {
    var nbi := TileCount(inA.Length0);
    var nbj := TileCount(inA.Length1);
    FullTiles(inA, outA, nbi, nbj);
    RemainderI(inA, outA, nbi, nbj);
    RemainderJ(inA, outA, nbi, nbj);
    var starti := nbi * TileSize + 2;
    var startj := nbj * TileSize + 2;
    UpdateRect(inA, outA, starti, inA.Length0 - 2, startj, inA.Length1 - 2);
  }

  /** Which of the four loop groups covers (x, y): full tiles, i remainder, j remainder, corner. */
  function Group(d1: nat, d2: nat, x: int, y: int): (g: nat)
    ensures g < 4
  {
    var a := TileSize * TileCount(d1) + 2;
    var b := TileSize * TileCount(d2) + 2;
    if x < a && y < b then 0 else if y < b then 1 else if x < a then 2 else 3
  }

  /** Within a group, the tile that covers (x, y): bi and bj of its loops. */
  function TileOf(x: int): int
  {
    (x - 2) / TileSize
  }

  /** The block traversal visits each interior point exactly once: it lies in exactly
      the region of its group, and inside that group in exactly one tile. */
  lemma BlocksPartitionInterior(d1: nat, d2: nat, x: int, y: int)
    requires Interior(d1, d2, x, y)
    ensures var a, b := TileSize * TileCount(d1) + 2, TileSize * TileCount(d2) + 2;
            (Group(d1, d2, x, y) == 0 <==> x < a && y < b) &&
            (Group(d1, d2, x, y) == 1 <==> a <= x < d1 - 2 && y < b) &&
            (Group(d1, d2, x, y) == 2 <==> x < a && b <= y < d2 - 2) &&
            (Group(d1, d2, x, y) == 3 <==> a <= x < d1 - 2 && b <= y < d2 - 2)
    ensures Group(d1, d2, x, y) in {0, 2} ==> 0 <= TileOf(x) < TileCount(d1)
    ensures Group(d1, d2, x, y) in {0, 1} ==> 0 <= TileOf(y) < TileCount(d2)
    ensures forall bi :: TileSize * bi + 2 <= x < TileSize * bi + 2 + TileSize <==> bi == TileOf(x)
    ensures forall bj :: TileSize * bj + 2 <= y < TileSize * bj + 2 + TileSize <==> bj == TileOf(y)
  {
    TileBounds(x);
    TileBounds(y);
  }

  lemma TileBounds(x: int)
    requires x >= 2
    ensures forall b :: TileSize * b + 2 <= x < TileSize * b + 2 + TileSize <==> b == TileOf(x)
  {
    forall b ensures TileSize * b + 2 <= x < TileSize * b + 2 + TileSize <==> b == TileOf(x) {
      var q := TileOf(x);
      assert TileSize * q + 2 <= x < TileSize * q + 2 + TileSize;
      if b < q {
        assert TileSize * b + 2 + TileSize <= TileSize * q + 2;
      } else if b > q {
        assert TileSize * q + 2 + TileSize <= TileSize * b + 2;
      }
    }
  }

  /** The storage constructor storage_type(d1, d2, d3, init, name): every cell holds init. */
  method MakeStorage(d1: nat, d2: nat, d3: nat, init: int) returns (a: array3<int>)
    ensures fresh(a) && a.Length0 == d1 && a.Length1 == d2 && a.Length2 == d3
    ensures forall x, y, z :: 0 <= x < d1 && 0 <= y < d2 && 0 <= z < d3 ==> a[x, y, z] == init
  {
    a := new int[d1, d2, d3]((x, y, z) => init);
  }

  /** main_naive and main_block on the same fields: in is -1 everywhere and out starts
      at outInit; both leave the same out, which is 0 inside and outInit outside. */
  method NaiveAndBlockAgree(d1: nat, d2: nat, d3: nat, outInit: int) returns (same: bool)
    ensures same
  {
    var inA := MakeStorage(d1, d2, d3, -1);
    var out1 := MakeStorage(d1, d2, d3, outInit);
    var out2 := MakeStorage(d1, d2, d3, outInit);
    Naive(inA, out1);
    Block(inA, out2);
    same := forall x, y, z :: 0 <= x < d1 && 0 <= y < d2 && 0 <= z < d3 ==> out1[x, y, z] == out2[x, y, z];
    assert forall x, y, z :: 0 <= x < d1 && 0 <= y < d2 && 0 <= z < d3 ==>
             out1[x, y, z] == if Interior(d1, d2, x, y) then 0 else outInit;
  }
}
