/** Vertical levels and intervals, as used in unit_tests/FunctorDoMethods.cpp.
    A level is a splitter index and a non-zero offset: offset -1 is the last
    vertical position before the splitter and +1 the first after it, so
    level<s,-1> and level<s,1> are neighbours. */
module Levels {

  /** cLevelOffsetLimit: offsets range over -3..-1 and 1..3. */
  const OffsetLimit: int := 3

  /** Number of levels per splitter. */
  const LevelsPerSplitter: int := 2 * OffsetLimit

  datatype Level = Level(splitter: nat, offset: int)

  predicate ValidLevel(l: Level)
  {
    l.offset != 0 && -OffsetLimit <= l.offset <= OffsetLimit
  }

  /** The vertical order: by splitter, then by offset. */
  predicate LevelLess(a: Level, b: Level)
  {
    a.splitter < b.splitter || (a.splitter == b.splitter && a.offset < b.offset)
  }

  /** level_to_index: the position of a level in the dense enumeration of valid levels. */
  function LevelToIndex(l: Level): (n: int)
    ensures ValidLevel(l) ==> 0 <= n && n / LevelsPerSplitter == l.splitter
  {
    LevelsPerSplitter * l.splitter + (if l.offset < 0 then l.offset + OffsetLimit else l.offset + OffsetLimit - 1)
  }

  /** index_to_level */
  function IndexToLevel(n: nat): (l: Level)
    ensures ValidLevel(l)
    ensures l.splitter == n / LevelsPerSplitter
  {
    var r := n % LevelsPerSplitter;
    Level(n / LevelsPerSplitter, if r < OffsetLimit then r - OffsetLimit else r - OffsetLimit + 1)
  }

  lemma IndexRoundTrip(n: nat)
    ensures LevelToIndex(IndexToLevel(n)) == n
  {
  }

  lemma LevelRoundTrip(l: Level)
    requires ValidLevel(l)
    ensures IndexToLevel(LevelToIndex(l)) == l
  {
  }

  /** The index order is the vertical order of levels. */
  lemma IndexOrderIsLevelOrder(a: Level, b: Level)
    requires ValidLevel(a) && ValidLevel(b)
    ensures LevelLess(a, b) <==> LevelToIndex(a) < LevelToIndex(b)
  {
  }

  /** The test's enumeration of the indices 0..19: each converts back to
      itself, and consecutive indices give increasing levels. */
  lemma EnumerationTest()
    ensures forall n: nat :: n < 20 ==> LevelToIndex(IndexToLevel(n)) == n
    ensures forall n: nat, m: nat :: n < m < 20 ==> LevelLess(IndexToLevel(n), IndexToLevel(m))
  {
    forall n: nat, m: nat | n < m < 20 ensures LevelLess(IndexToLevel(n), IndexToLevel(m)) {
      IndexOrderIsLevelOrder(IndexToLevel(n), IndexToLevel(m));
    }
  }

  /** Level<s,-1> and level<s,1> are adjacent: no level lies between them. */
  lemma SplitterNeighbours(s: nat)
    ensures LevelToIndex(Level(s, 1)) == LevelToIndex(Level(s, -1)) + 1
  {
  }

  /** interval<From, To>: From not above To. */
  datatype Interval = Interval(from: Level, to: Level)

  predicate ValidInterval(iv: Interval)
  {
    ValidLevel(iv.from) && ValidLevel(iv.to) && LevelToIndex(iv.from) <= LevelToIndex(iv.to)
  }

  function Lo(iv: Interval): int { LevelToIndex(iv.from) }

  function Hi(iv: Interval): int { LevelToIndex(iv.to) }

  /** The two intervals share at least one level. */
  predicate Overlap(a: Interval, b: Interval)
  {
    Lo(a) <= Hi(b) && Lo(b) <= Hi(a)
  }

  /** a lies inside b. */
  predicate Inside(a: Interval, b: Interval)
  {
    Lo(b) <= Lo(a) && Hi(a) <= Hi(b)
  }
}
