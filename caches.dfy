/** caches_used_by_esfs, as exercised by
    unit_tests/stencil-composition/caches/test_cache_metafunctions.cpp: of the
    requested caches, keep those whose placeholder is an argument of some stage. */
module Caches {

  import opened Wrappers
  import opened Accessors
  import opened Sequences
  import opened Composition

  /** The placeholder is bound to some argument of some stage. */
  ghost predicate UsedByEsfs(esfs: seq<Esf>, p: Placeholder)
  {
    exists j :: 0 <= j < |esfs| && p in esfs[j].args
  }

  /** All arguments of the stage sequence, in order (with repetitions). */
  function EsfArgs(esfs: seq<Esf>): (r: seq<Placeholder>)
    ensures forall p :: p in r <==> UsedByEsfs(esfs, p)
  {
    var r := Flatten(seq(|esfs|, j requires 0 <= j < |esfs| => esfs[j].args));
    assert forall p :: p in r <==> UsedByEsfs(esfs, p) by {
      forall p ensures p in r ==> UsedByEsfs(esfs, p) {
        if p in r {
          var j :| 0 <= j < |esfs| && p in seq(|esfs|, j requires 0 <= j < |esfs| => esfs[j].args)[j];
        }
      }
      forall p ensures UsedByEsfs(esfs, p) ==> p in r {
        if UsedByEsfs(esfs, p) {
          var j :| 0 <= j < |esfs| && p in esfs[j].args;
          assert p in seq(|esfs|, j requires 0 <= j < |esfs| => esfs[j].args)[j];
        }
      }
    }
    r
  }

  function CachesUsedByEsfs(esfs: seq<Esf>, caches: seq<CacheInfo>): (r: seq<CacheInfo>)
    ensures forall c :: c in r <==> c in caches && UsedByEsfs(esfs, c.arg)
    ensures IsSubsequence(r, caches)
    ensures |r| <= |caches|
  {
    FilterUsed(EsfArgs(esfs), caches)
  }

  function FilterUsed(used: seq<Placeholder>, caches: seq<CacheInfo>): (r: seq<CacheInfo>)
    ensures forall c :: c in r <==> c in caches && c.arg in used
    ensures IsSubsequence(r, caches)
    ensures |r| <= |caches|
  {
    if caches == [] then []
    else
      var rest := FilterUsed(used, caches[1..]);
      assert forall c :: c in caches <==> c == caches[0] || c in caches[1..];
      if IsThereInSequence(used, caches[0].arg) then [caches[0]] + rest else rest
  }

  /** A cache appears in the result as many times as among the requested caches,
      or not at all: filtering never duplicates a cache whose placeholder several stages use. */
  lemma {:induction false} FilterKeepsMultiplicity(used: seq<Placeholder>, caches: seq<CacheInfo>, c: CacheInfo)
    ensures multiset(FilterUsed(used, caches))[c] == if c.arg in used then multiset(caches)[c] else 0
  {
    if caches != [] {
      FilterKeepsMultiplicity(used, caches[1..], c);
      assert caches == [caches[0]] + caches[1..];
    }
  }

  // The instance of test_cache_metafunctions.cpp.

  /** functor1: `in` is a const accessor 0, `buff` a read-write accessor 1, both of zero extent. */
  const Functor1 := Functor(1, [InAccessor(0, ZeroExtent), InOutAccessor(1)])

  const PIn := Arg(0)
  const PBuff := Arg(1)
  const POut := Arg(2)
  const PNotIn := Arg(3)

  const Esf1 := Esf(Functor1, [PIn, PBuff], None)
  const Esf2 := Esf(Functor1, [PBuff, POut], None)

  /** cache<IJ, p_in, cFill>, cache<IJ, p_buff, cFill>, cache<K, p_notin, cLocal>;
      a local cache has neither fill nor flush. */
  const Cache1 := CacheInfo(PIn, IJ, [Fill])
  const Cache2 := CacheInfo(PBuff, IJ, [Fill])
  const Cache3 := CacheInfo(PNotIn, K, [])

  lemma CacheMetafunctionTest()
    ensures CachesUsedByEsfs([Esf1, Esf2], [Cache1, Cache2, Cache3]) == [Cache1, Cache2]
  {
    var used := EsfArgs([Esf1, Esf2]);
    assert PIn in Esf1.args && PBuff in Esf1.args;
    assert UsedByEsfs([Esf1, Esf2], PIn) && UsedByEsfs([Esf1, Esf2], PBuff);
    assert !UsedByEsfs([Esf1, Esf2], PNotIn);
    assert PIn in used && PBuff in used && PNotIn !in used;
    assert FilterUsed(used, [Cache3]) == [] by {
      assert [Cache3][1..] == [];
      assert !IsThereInSequence(used, Cache3.arg);
    }
    assert FilterUsed(used, [Cache2, Cache3]) == [Cache2] by {
      assert [Cache2, Cache3][1..] == [Cache3];
      assert IsThereInSequence(used, Cache2.arg);
    }
    assert FilterUsed(used, [Cache1, Cache2, Cache3]) == [Cache1, Cache2] by {
      assert [Cache1, Cache2, Cache3][1..] == [Cache2, Cache3];
      assert IsThereInSequence(used, Cache1.arg);
    }
  }
}
