/** has_do_simple and compute_functor_do_methods of unit_tests/FunctorDoMethods.cpp:
    a functor declares Do overloads on vertical intervals; against an axis the
    declarations are clipped, ordered bottom-up and checked not to overlap. */
module DoMethods {

  import opened Wrappers
  import opened Sequences
  import opened Levels

  /** A functor, known by the intervals of its Do overloads in declaration order. */
  datatype DoFunctor = DoFunctor(intervals: seq<Interval>)

  predicate AllValid(s: seq<Interval>)
  {
    forall i :: 0 <= i < |s| ==> ValidInterval(s[i])
  }

  /** has_do_simple<Functor, Interval>: an overload is declared on exactly this interval. */
  function HasDoSimple(f: DoFunctor, iv: Interval): (b: bool)
    ensures b <==> iv in f.intervals
  {
    IsThereInSequence(f.intervals, iv)
  }

  function Max(a: int, b: int): int { if a < b then b else a }

  function Min(a: int, b: int): int { if a < b then a else b }

  /** The part of iv inside the axis, if any. */
  function Clip(iv: Interval, axis: Interval): (r: Option<Interval>)
    requires ValidInterval(iv) && ValidInterval(axis)
    ensures r.Some? <==> Overlap(iv, axis)
    ensures r.Some? ==> ValidInterval(r.value) && Inside(r.value, axis) && Inside(r.value, iv)
    ensures r.Some? ==> Lo(r.value) == Max(Lo(iv), Lo(axis)) && Hi(r.value) == Min(Hi(iv), Hi(axis))
    ensures Inside(iv, axis) ==> r == Some(iv)
  {
    if Hi(iv) < Lo(axis) || Hi(axis) < Lo(iv) then None
    else
      var lo, hi := Max(Lo(iv), Lo(axis)), Min(Hi(iv), Hi(axis));
      IndexRoundTrip(lo);
      IndexRoundTrip(hi);
      LevelRoundTrip(iv.from);
      LevelRoundTrip(iv.to);
      Some(Interval(IndexToLevel(lo), IndexToLevel(hi)))
  }

  /** The declared intervals that meet the axis, clipped to it, in declaration order. */
  function ClipAll(s: seq<Interval>, axis: Interval): (r: seq<Interval>)
    requires AllValid(s) && ValidInterval(axis)
    ensures AllValid(r)
    ensures forall i :: 0 <= i < |r| ==> Inside(r[i], axis)
    ensures forall iv :: iv in r <==> exists i :: 0 <= i < |s| && Clip(s[i], axis) == Some(iv)
    ensures |r| <= |s|
  {
    if s == [] then []
    else
      var rest := ClipAll(s[1..], axis);
      match Clip(s[0], axis)
      case Some(c) => [c] + rest
      case None => rest
  }

  /** One declaration contributes its clipped part, or nothing when it misses the axis. */
  lemma ClipAllSingle(iv: Interval, axis: Interval)
    requires ValidInterval(iv) && ValidInterval(axis)
    ensures Clip(iv, axis).Some? ==> ClipAll([iv], axis) == [Clip(iv, axis).value]
    ensures Clip(iv, axis).None? ==> ClipAll([iv], axis) == []
  {
    assert [iv][1..] == [];
  }

  /** Clipping works declaration by declaration: the clipped parts keep the declaration
      order and each declaration contributes at most once. */
  lemma {:induction false} ClipAllAppend(a: seq<Interval>, b: seq<Interval>, axis: Interval)
    requires AllValid(a) && AllValid(b) && ValidInterval(axis)
    ensures AllValid(a + b)
    ensures ClipAll(a + b, axis) == ClipAll(a, axis) + ClipAll(b, axis)
  {
    if a == [] {
      assert a + b == b;
    } else {
      var ab := a + b;
      assert ab[0] == a[0] && ab[1..] == a[1..] + b;
      ClipAllAppend(a[1..], b, axis);
      var rest := ClipAll(a[1..], axis) + ClipAll(b, axis);
      match Clip(a[0], axis)
      case Some(c) =>
        assert ClipAll(ab, axis) == [c] + rest;
        assert ClipAll(a, axis) == [c] + ClipAll(a[1..], axis);
      case None =>
        assert ClipAll(ab, axis) == rest;
    }
  }

  predicate SortedByStart(s: seq<Interval>)
  {
    forall i, j :: 0 <= i < j < |s| ==> Lo(s[i]) <= Lo(s[j])
  }

  /** Every interval ends strictly below the start of every later one. */
  predicate OrderedDisjoint(s: seq<Interval>)
  {
    forall i, j :: 0 <= i < j < |s| ==> Hi(s[i]) < Lo(s[j])
  }

  function Insert(x: Interval, s: seq<Interval>): (r: seq<Interval>)
    requires SortedByStart(s)
    ensures SortedByStart(r)
    ensures multiset(r) == multiset(s) + multiset{x}
    ensures |r| == |s| + 1
  {
    if s == [] then [x]
    else if Lo(x) <= Lo(s[0]) then
      ConsSorted(x, s);
      [x] + s
    else
      var rest := Insert(x, s[1..]);
      assert s == [s[0]] + s[1..];
      HeadBelowAll(s[0], rest, s[1..], x);
      ConsSorted(s[0], rest);
      [s[0]] + rest
  }

  lemma ConsSorted(h: Interval, t: seq<Interval>)
    requires SortedByStart(t)
    requires t != [] ==> Lo(h) <= Lo(t[0])
    ensures SortedByStart([h] + t)
  {
    var r := [h] + t;
    forall i, j | 0 <= i < j < |r| ensures Lo(r[i]) <= Lo(r[j]) {
      if i == 0 {
        assert r[j] == t[j - 1];
      } else {
        assert r[i] == t[i - 1] && r[j] == t[j - 1];
      }
    }
  }

  /** A lower bound for x and for every element of u bounds every element of t. */
  lemma HeadBelowAll(h: Interval, t: seq<Interval>, u: seq<Interval>, x: Interval)
    requires multiset(t) == multiset(u) + multiset{x}
    requires Lo(h) <= Lo(x) && forall i :: 0 <= i < |u| ==> Lo(h) <= Lo(u[i])
    ensures forall i :: 0 <= i < |t| ==> Lo(h) <= Lo(t[i])
  {
    forall i | 0 <= i < |t| ensures Lo(h) <= Lo(t[i]) {
      assert t[i] in multiset(t);
      if t[i] != x {
        assert t[i] in multiset(u);
        var k :| 0 <= k < |u| && u[k] == t[i];
      }
    }
  }

  /** Validity depends on the elements only, so it survives any permutation. */
  lemma AllValidPermutation(s: seq<Interval>, t: seq<Interval>)
    requires AllValid(s) && multiset(t) <= multiset(s)
    ensures AllValid(t)
  {
    forall i | 0 <= i < |t| ensures ValidInterval(t[i]) {
      assert t[i] in multiset(s);
    }
  }

  function SortByStart(s: seq<Interval>): (r: seq<Interval>)
    requires AllValid(s)
    ensures AllValid(r) && SortedByStart(r)
    ensures multiset(r) == multiset(s)
    ensures |r| == |s|
  {
    if s == [] then []
    else
      assert s == [s[0]] + s[1..];
      var r := Insert(s[0], SortByStart(s[1..]));
      AllValidPermutation(s, r);
      r
  }

  /** The first pair of neighbours in a sorted list that share a level, if any. */
  function FirstOverlap(s: seq<Interval>): (r: Option<(Interval, Interval)>)
    requires AllValid(s) && SortedByStart(s)
    ensures r.None? ==> OrderedDisjoint(s)
    ensures r.Some? ==> exists k :: 0 <= k < |s| - 1 && s[k] == r.value.0 && s[k + 1] == r.value.1 &&
                                   Overlap(s[k], s[k + 1])
  {
    if |s| < 2 then None
    else if Lo(s[1]) <= Hi(s[0]) then Some((s[0], s[1]))
    else
      TailSorted(s);
      var rest := FirstOverlap(s[1..]);
      if rest.Some? then
        NeighboursInTail(s, rest.value.0, rest.value.1);
        rest
      else
        DisjointCons(s);
        rest
  }

  lemma TailSorted(s: seq<Interval>)
    requires |s| > 0 && AllValid(s) && SortedByStart(s)
    ensures AllValid(s[1..]) && SortedByStart(s[1..])
  {
    assert forall i :: 0 <= i < |s[1..]| ==> s[1..][i] == s[i + 1];
  }

  /** Neighbours in the tail are neighbours in the whole list. */
  lemma NeighboursInTail(s: seq<Interval>, a: Interval, b: Interval)
    requires |s| > 0
    requires exists k :: 0 <= k < |s[1..]| - 1 && s[1..][k] == a && s[1..][k + 1] == b && Overlap(s[1..][k], s[1..][k + 1])
    ensures exists k :: 0 <= k < |s| - 1 && s[k] == a && s[k + 1] == b && Overlap(s[k], s[k + 1])
  {
    var k :| 0 <= k < |s[1..]| - 1 && s[1..][k] == a && s[1..][k + 1] == b && Overlap(s[1..][k], s[1..][k + 1]);
    assert s[k + 1] == a && s[k + 2] == b;
  }

  /** A head that ends below the second start, in front of an ordered disjoint tail. */
  lemma DisjointCons(s: seq<Interval>)
    requires |s| >= 2 && SortedByStart(s) && Hi(s[0]) < Lo(s[1]) && OrderedDisjoint(s[1..])
    ensures OrderedDisjoint(s)
  {
    forall i, j | 0 <= i < j < |s| ensures Hi(s[i]) < Lo(s[j]) {
      if i == 0 {
        assert Lo(s[1]) <= Lo(s[j]);
      } else {
        assert s[1..][i - 1] == s[i] && s[1..][j - 1] == s[j];
      }
    }
  }

  datatype DoMethodError = OverlappingDoMethods(first: Interval, second: Interval)

  /** compute_functor_do_methods<Functor, Axis>: the do-method intervals the functor
      has on the axis, bottom-up and disjoint; overlapping declarations are a definition error. */
  function ComputeFunctorDoMethods(f: DoFunctor, axis: Interval): (r: Result<seq<Interval>, DoMethodError>)
    requires AllValid(f.intervals) && ValidInterval(axis)
    ensures r.Success? ==> AllValid(r.value) && OrderedDisjoint(r.value)
    ensures r.Success? ==> forall i :: 0 <= i < |r.value| ==> Inside(r.value[i], axis)
    ensures r.Success? ==> multiset(r.value) == multiset(ClipAll(f.intervals, axis))
    ensures r.Failure? ==>
      var c := ClipAll(f.intervals, axis);
      var a, b := r.error.first, r.error.second;
      a in c && b in c && ValidInterval(a) && ValidInterval(b) && Overlap(a, b) &&
      (a == b ==> multiset(c)[a] >= 2)
  {
    var c := ClipAll(f.intervals, axis);
    var s := SortByStart(c);
    var o := FirstOverlap(s);
    if o.None? then
      InsidePermutation(c, s, axis);
      Success(s)
    else
      OverlapWitness(c, s, o.value.0, o.value.1);
      Failure(OverlappingDoMethods(o.value.0, o.value.1))
  }

  lemma OverlapWitness(c: seq<Interval>, s: seq<Interval>, a: Interval, b: Interval)
    requires AllValid(s) && multiset(s) == multiset(c)
    requires exists k :: 0 <= k < |s| - 1 && s[k] == a && s[k + 1] == b && Overlap(s[k], s[k + 1])
    ensures a in c && b in c && ValidInterval(a) && ValidInterval(b) && Overlap(a, b)
    ensures a == b ==> multiset(c)[a] >= 2
  {
    var k :| 0 <= k < |s| - 1 && s[k] == a && s[k + 1] == b && Overlap(s[k], s[k + 1]);
    NeighboursInMultiset(s, k);
    assert a in multiset(c) && b in multiset(c);
  }

  lemma InsidePermutation(c: seq<Interval>, s: seq<Interval>, axis: Interval)
    requires multiset(s) == multiset(c)
    requires forall i :: 0 <= i < |c| ==> Inside(c[i], axis)
    ensures forall i :: 0 <= i < |s| ==> Inside(s[i], axis)
  {
    forall i | 0 <= i < |s| ensures Inside(s[i], axis) {
      assert s[i] in multiset(c);
      var j :| 0 <= j < |c| && c[j] == s[i];
    }
  }

  lemma NeighboursInMultiset(s: seq<Interval>, k: nat)
    requires k + 1 < |s|
    ensures s[k] in s && s[k + 1] in s
    ensures s[k] == s[k + 1] ==> multiset(s)[s[k]] >= 2
  {
    assert s == s[..k] + [s[k], s[k + 1]] + s[k + 2..];
    assert multiset(s) == multiset(s[..k]) + multiset{s[k], s[k + 1]} + multiset(s[k + 2..]);
  }

  /** No two declarations, clipped to the axis, overlap: then the computation succeeds. */
  lemma DisjointDeclarationsSucceed(f: DoFunctor, axis: Interval)
    requires AllValid(f.intervals) && ValidInterval(axis)
    requires NoOverlapping(ClipAll(f.intervals, axis))
    ensures ComputeFunctorDoMethods(f, axis).Success?
  {
    var r := ComputeFunctorDoMethods(f, axis);
    if r.Failure? {
      NoOverlappingPair(ClipAll(f.intervals, axis), r.error.first, r.error.second);
    }
  }

  /** Among intervals no two of which overlap there is no overlapping pair. */
  lemma NoOverlappingPair(c: seq<Interval>, a: Interval, b: Interval)
    requires NoOverlapping(c)
    requires a in c && b in c && (a == b ==> multiset(c)[a] >= 2)
    ensures !Overlap(a, b)
  {
    var i, j := TwoPositions(c, a, b);
    assert !Overlap(c[i], c[j]);
  }

  /** No two different positions hold overlapping intervals. */
  predicate NoOverlapping(c: seq<Interval>)
  {
    forall i, j :: 0 <= i < |c| && 0 <= j < |c| && i != j ==> !Overlap(c[i], c[j])
  }

  lemma TwoPositions(c: seq<Interval>, a: Interval, b: Interval) returns (i: nat, j: nat)
    requires a in c && b in c && (a == b ==> multiset(c)[a] >= 2)
    ensures i < |c| && j < |c| && i != j && c[i] == a && c[j] == b
  {
    i :| 0 <= i < |c| && c[i] == a;
    if a == b {
      j := OtherOccurrence(c, i);
    } else {
      j :| 0 <= j < |c| && c[j] == b;
    }
  }

  /** A value that occurs at least twice occurs at a second position. */
  lemma OtherOccurrence(c: seq<Interval>, i: nat) returns (j: nat)
    requires i < |c| && multiset(c)[c[i]] >= 2
    ensures j < |c| && j != i && c[j] == c[i]
  {
    var rest := c[..i] + c[i + 1..];
    assert c == c[..i] + [c[i]] + c[i + 1..];
    assert multiset(c) == multiset(rest) + multiset{c[i]};
    assert c[i] in multiset(rest);
    var m :| 0 <= m < |rest| && rest[m] == c[i];
    j := if m < i then m else m + 1;
  }

  // The functors of unit_tests/FunctorDoMethods.cpp and the test's axis.

  const Axis := Interval(Level(0, -3), Level(3, 3))

  const Functor0 := DoFunctor([Interval(Level(3, -1), Level(3, -1))])
  const Functor1 := DoFunctor([Interval(Level(0, 1), Level(2, -1))])
  const Functor2 := DoFunctor([Interval(Level(0, 1), Level(1, -1)), Interval(Level(1, 1), Level(3, -1))])
  const IllegalFunctor := DoFunctor([Interval(Level(1, 1), Level(2, -1)),
                                     Interval(Level(1, 1), Level(3, -2)),
                                     Interval(Level(3, -1), Level(3, -1))])

  lemma HasDoSimpleTest()
    ensures HasDoSimple(IllegalFunctor, Interval(Level(1, 1), Level(2, -1)))
    ensures HasDoSimple(IllegalFunctor, Interval(Level(1, 1), Level(3, -2)))
    ensures !HasDoSimple(IllegalFunctor, Interval(Level(0, 1), Level(3, -2)))
  {
    assert IllegalFunctor.intervals[1] == Interval(Level(1, 1), Level(3, -2));
  }

  lemma Functor0Test()
    ensures ComputeFunctorDoMethods(Functor0, Axis) == Success([Interval(Level(3, -1), Level(3, -1))])
  {
    var iv := Functor0.intervals[0];
    assert Inside(iv, Axis);
    assert ClipAll(Functor0.intervals, Axis) == [iv];
  }

  lemma Functor1Test()
    ensures ComputeFunctorDoMethods(Functor1, Axis) == Success(Functor1.intervals)
  {
    var iv := Functor1.intervals[0];
    assert Inside(iv, Axis);
    assert ClipAll(Functor1.intervals, Axis) == [iv];
  }

  lemma Functor2Test()
    ensures ComputeFunctorDoMethods(Functor2, Axis) == Success(Functor2.intervals)
    ensures Hi(Functor2.intervals[0]) + 1 == Lo(Functor2.intervals[1])
  {
    var a, b := Functor2.intervals[0], Functor2.intervals[1];
    assert Inside(a, Axis) && Inside(b, Axis);
    assert ClipAll([b], Axis) == [b];
    assert ClipAll(Functor2.intervals, Axis) == [a, b];
    assert SortByStart([b]) == [b];
    assert SortByStart([a, b]) == Insert(a, [b]) == [a, b];
  }

  /** All three declarations of IllegalFunctor lie inside the axis. */
  lemma IllegalFunctorClipped()
    ensures ClipAll(IllegalFunctor.intervals, Axis) == IllegalFunctor.intervals
  {
    var a, b, d := IllegalFunctor.intervals[0], IllegalFunctor.intervals[1], IllegalFunctor.intervals[2];
    assert Inside(a, Axis) && Inside(b, Axis) && Inside(d, Axis);
    assert ClipAll([d], Axis) == [d];
    assert ClipAll([b, d], Axis) == [b, d];
  }

  lemma IllegalFunctorRejected()
    ensures ComputeFunctorDoMethods(IllegalFunctor, Axis).Failure?
  {
    var a, b, d := IllegalFunctor.intervals[0], IllegalFunctor.intervals[1], IllegalFunctor.intervals[2];
    IllegalFunctorClipped();
    assert IllegalFunctor.intervals == [a, b, d];
    assert SortByStart([d]) == [d];
    assert SortByStart([b, d]) == Insert(b, [d]) == [b, d];
    assert SortByStart([a, b, d]) == Insert(a, [b, d]) == [a, b, d];
    assert FirstOverlap([a, b, d]) == Some((a, b));
  }
}
