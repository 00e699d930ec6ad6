/** Type-list utilities: membership (is_there_in_sequence), flattening and
    de-duplication (meta::flatten, meta::dedup). */
module Sequences {

  /** is_there_in_sequence<Seq, T>: a search from the front of the list. */
  function IsThereInSequence<T(==)>(s: seq<T>, x: T): (found: bool)
    ensures found <==> exists i :: 0 <= i < |s| && s[i] == x
  {
    if s == [] then false
    else if s[0] == x then true
    else
      assert forall i :: 1 <= i < |s| ==> s[i] == s[1..][i - 1];
      IsThereInSequence(s[1..], x)
  }

  predicate NoDuplicates<T(==)>(s: seq<T>)
  {
    forall i, j :: 0 <= i < j < |s| ==> s[i] != s[j]
  }

  /** meta::flatten: concatenation of a list of lists, in order. */
  function Flatten<T(!new)>(ss: seq<seq<T>>): (r: seq<T>)
    ensures forall x :: x in r <==> exists i :: 0 <= i < |ss| && x in ss[i]
  {
    if ss == [] then []
    else
      assert forall i :: 1 <= i < |ss| ==> ss[i] == ss[1..][i - 1];
      ss[0] + Flatten(ss[1..])
  }

  lemma {:induction false} FlattenAppend<T(!new)>(a: seq<seq<T>>, b: seq<seq<T>>)
    ensures Flatten(a + b) == Flatten(a) + Flatten(b)
  {
    if a == [] {
      assert a + b == b;
    } else {
      assert (a + b)[1..] == a[1..] + b;
      FlattenAppend(a[1..], b);
    }
  }

  /** meta::dedup: keeps the first occurrence of every element, in order. */
  function Dedup<T(==,!new)>(s: seq<T>): (r: seq<T>)
    ensures forall x :: x in r <==> x in s
    ensures NoDuplicates(r)
    ensures IsSubsequence(r, s)
    ensures |r| <= |s|
  {
    if s == [] then []
    else
      var d := Dedup(s[..|s| - 1]);
      assert s == s[..|s| - 1] + [s[|s| - 1]];
      SubsequenceExtend(d, s[..|s| - 1], s[|s| - 1]);
      if s[|s| - 1] in d then d else d + [s[|s| - 1]]
  }

  /** Keeping the first occurrences means a list without duplicates is left as it is. */
  lemma {:induction false} DedupOfDistinct<T(!new)>(s: seq<T>)
    requires NoDuplicates(s)
    ensures Dedup(s) == s
  {
    if s != [] {
      var p := s[..|s| - 1];
      assert NoDuplicates(p);
      DedupOfDistinct(p);
      assert s[|s| - 1] !in p;
      assert s == p + [s[|s| - 1]];
    }
  }

  /** Order preservation: r is obtained from s by deleting elements. */
  predicate IsSubsequence<T(==)>(r: seq<T>, s: seq<T>)
    decreases |s|
  {
    if r == [] then true
    else if s == [] then false
    else if r[0] == s[0] then IsSubsequence(r[1..], s[1..])
    else IsSubsequence(r, s[1..])
  }

  /** Appending one element to s keeps r a subsequence, with or without appending it to r. */
  lemma {:induction false} SubsequenceExtend<T>(r: seq<T>, s: seq<T>, x: T)
    requires IsSubsequence(r, s)
    ensures IsSubsequence(r, s + [x]) && IsSubsequence(r + [x], s + [x])
    decreases |s|
  {
    if s == [] {
      assert r == [] && [x][1..] == [];
    } else {
      assert (s + [x])[0] == s[0] && (s + [x])[1..] == s[1..] + [x];
      if r == [] {
        SubsequenceExtend(r, s[1..], x);
        assert r + [x] == [x] && [x][1..] == [];
      } else if r[0] == s[0] {
        SubsequenceExtend(r[1..], s[1..], x);
        assert (r + [x])[0] == r[0] && (r + [x])[1..] == r[1..] + [x];
      } else {
        SubsequenceExtend(r, s[1..], x);
        assert (r + [x])[0] == r[0];
      }
    }
  }

  // The instance of unit_tests/common/generic_metafunctions/test_is_there_in_sequence.cpp.

  datatype ScalarType = Int | Float | Char | Long

  lemma IsThereInSequenceTest()
    ensures IsThereInSequence([Int, Float, Char], Int)
    ensures IsThereInSequence([Int, Float, Char], Char)
    ensures !IsThereInSequence([Int, Float, Char], Long)
  {
    assert [Int, Float, Char][2] == Char;
  }
}
