/** regression/icosahedral/stencil_on_cells.cpp: every output cell is the sum of
    the input over the cell's cell-neighbours. The neighbour table (neighbours_of)
    is a parameter: the kernel's for_neighbors and the reference may visit the
    same neighbours in different orders. */
module OnCells {

  import opened Wrappers
  import opened Accessors

  /** A cell of the icosahedral grid: position (i, j, k) and colour c. */
  datatype Cell = Cell(i: int, j: int, k: int, c: int)

  /** The test's input field: i + j + k + c. */
  function InValue(x: Cell): int
  {
    x.i + x.j + x.k + x.c
  }

  /** The sum of a field over a sequence of cells, accumulated from 0 left to right. */
  function Sum(s: seq<Cell>, f: Cell -> int): int
  {
    if |s| == 0 then 0 else Sum(s[..|s| - 1], f) + f(s[|s| - 1])
  }

  /** test_on_cells_functor::in and ::out. */
  const InAcc := Accessor(0, In, Extent(-1, 1, -1, 1, 0, 0), Some(Cells))
  const OutAcc := Accessor(1, InOut, ZeroExtent, Some(Cells))

  lemma FunctorAccessors()
    ensures ParamListWellFormed([InAcc, OutAcc])
    ensures InAcc.location == Some(Cells) && OutAcc.location == Some(Cells)
    ensures forall o :: WithinExtent(o, InAcc.extent) <==> -1 <= o.di <= 1 && -1 <= o.dj <= 1 && o.dk == 0
    ensures forall o :: WithinExtent(o, OutAcc.extent) <==> o == Centre
  {
  }

  /** test_on_cells_functor::apply at one cell: res starts at 0, for_neighbors adds the
      input at each neighbour in its visiting order, and res is stored into out. */
  method Apply(visit: seq<Cell>, inField: Cell -> int) returns (out: int)
    ensures out == Sum(visit, inField)
  {
    var res := 0;
    var n := 0;
    while n < |visit|
      invariant 0 <= n <= |visit|
      invariant res == Sum(visit[..n], inField)
    {
      assert visit[..n + 1][..n] == visit[..n];
      res := res + inField(visit[n]);
      n := n + 1;
    }
    assert visit[..n] == visit;
    out := res;
  }

  /** The reference ref: res starts at 0 and the loop adds in over neighbours_of. */
  method Ref(neighbours: seq<Cell>, inField: Cell -> int) returns (res: int)
    ensures res == Sum(neighbours, inField)
  {
    res := 0;
    for n := 0 to |neighbours|
      invariant res == Sum(neighbours[..n], inField)
    {
      assert neighbours[..n + 1][..n] == neighbours[..n];
      res := res + inField(neighbours[n]);
    }
    assert neighbours[..|neighbours|] == neighbours;
  }

  lemma {:induction false} SumAppend(a: seq<Cell>, b: seq<Cell>, f: Cell -> int)
    ensures Sum(a + b, f) == Sum(a, f) + Sum(b, f)
  {
    if |b| > 0 {
      assert (a + b)[..|a + b| - 1] == a + b[..|b| - 1];
      SumAppend(a, b[..|b| - 1], f);
    } else {
      assert a + b == a;
    }
  }

  /** Removing one occurrence of x from both sides keeps two permutations permutations. */
  lemma RemoveOccurrence(a: seq<Cell>, b: seq<Cell>, i: nat)
    requires |a| > 0 && i < |b| && b[i] == a[|a| - 1]
    requires multiset(a) == multiset(b)
    ensures multiset(a[..|a| - 1]) == multiset(b[..i] + b[i + 1..])
  {
    var x := b[i];
    assert a == a[..|a| - 1] + [x];
    assert b == b[..i] + [x] + b[i + 1..];
    assert multiset(a) == multiset(a[..|a| - 1]) + multiset{x};
    assert multiset(b) == multiset(b[..i]) + multiset{x} + multiset(b[i + 1..]);
    assert multiset(b[..i] + b[i + 1..]) == multiset(b[..i]) + multiset(b[i + 1..]);
    assert multiset(a[..|a| - 1]) == multiset(a) - multiset{x};
    assert multiset(b[..i] + b[i + 1..]) == multiset(b) - multiset{x};
  }

  /** A sum splits around one element in the middle. */
  lemma SumMiddle(pre: seq<Cell>, x: Cell, post: seq<Cell>, f: Cell -> int)
    ensures Sum(pre + [x] + post, f) == Sum(pre + post, f) + f(x)
  {
    SumAppend(pre + [x], post, f);
    SumAppend(pre, [x], f);
    SumAppend(pre, post, f);
    assert Sum([x], f) == f(x) by {
      assert [x][..0] == [];
    }
  }

  /** The sum over b splits around its i-th element. */
  lemma SumAround(b: seq<Cell>, i: nat, f: Cell -> int)
    requires i < |b|
    ensures Sum(b, f) == Sum(b[..i] + b[i + 1..], f) + f(b[i])
  {
    SplitAt(b, i);
    SumMiddle(b[..i], b[i], b[i + 1..], f);
  }

  lemma SplitAt(b: seq<Cell>, i: nat)
    requires i < |b|
    ensures b == b[..i] + [b[i]] + b[i + 1..]
  {
  }

  /** Integer sums do not depend on the order the neighbours are visited in. */
  lemma {:induction false} SumPermutation(a: seq<Cell>, b: seq<Cell>, f: Cell -> int)
    requires multiset(a) == multiset(b)
    ensures Sum(a, f) == Sum(b, f)
  {
    if |a| == 0 {
      assert |b| == |multiset(b)| == 0;
    } else {
      var x := a[|a| - 1];
      assert x in multiset(b);
      var i :| 0 <= i < |b| && b[i] == x;
      RemoveOccurrence(a, b, i);
      SumPermutation(a[..|a| - 1], b[..i] + b[i + 1..], f);
      SumAround(b, i, f);
    }
  }

  /** verify(ref, out) on one cell: whatever orders the kernel and the reference visit
      the neighbours in, the stored value equals the reference. */
  method CheckCell(kernelOrder: seq<Cell>, refOrder: seq<Cell>) returns (equal: bool)
    requires multiset(kernelOrder) == multiset(refOrder)
    ensures equal
  {
    var out := Apply(kernelOrder, InValue);
    var expected := Ref(refOrder, InValue);
    SumPermutation(kernelOrder, refOrder, InValue);
    equal := out == expected;
  }
}
