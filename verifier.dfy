/** examples/verifier.h: comparison of two fields over the i/j interior. */
module Verifier {

  function Abs(x: real): (r: real)
    ensures r >= 0.0 && (r == x || r == -x)
  {
    if x < 0.0 then -x else x
  }

  /** The absolute threshold below which both values count as zero. */
  const SmallValue: real := 0.001

  /** compare_below_threashold with a given precision. Two values that are both
      near zero must differ by less than the precision; otherwise the relative error
      scaled by the precision must be below one, and a zero denominator fails. */
  predicate CompareBelowThreshold(precision: real, expected: real, actual: real)
  {
    if Abs(expected) < SmallValue && Abs(actual) < SmallValue then
      Abs(expected - actual) < precision
    else
      precision * expected != 0.0 && Abs((expected - actual) / (precision * expected)) < 1.0
  }

  /** Away from zero the test is a plain relative-error bound. */
  lemma RelativeErrorBound(precision: real, expected: real, actual: real)
    requires precision > 0.0 && Abs(expected) >= SmallValue
    ensures CompareBelowThreshold(precision, expected, actual) <==> Abs(expected - actual) < precision * Abs(expected)
  {
    var d := precision * expected;
    var q := (expected - actual) / d;
    assert Abs(d) == precision * Abs(expected);
    assert Abs(q) * Abs(d) == Abs(expected - actual);
    BelowOneIffBelowScale(Abs(q), Abs(d), Abs(expected - actual));
  }

  /** For a positive scale m and n == a * m: a < 1 exactly when n < m. */
  lemma BelowOneIffBelowScale(a: real, m: real, n: real)
    requires a >= 0.0 && m > 0.0 && a * m == n
    ensures a < 1.0 <==> n < m
  {
    var t := a - 1.0;
    assert n == m + t * m;
    if t < 0.0 {
      assert (-t) * m > 0.0;
    } else {
      assert t * m >= 0.0;
    }
  }

  /** Every value is close to itself, as long as the precision is positive. */
  lemma CompareReflexive(precision: real, x: real)
    requires precision > 0.0
    ensures CompareBelowThreshold(precision, x, x)
  {
    if !(Abs(x) < SmallValue) {
      assert precision * x != 0.0;
    }
  }

  /** A zero precision accepts nothing. */
  lemma ZeroPrecisionRejects(expected: real, actual: real)
    ensures !CompareBelowThreshold(0.0, expected, actual)
  {
  }

  predicate SameDims(f1: array3<real>, f2: array3<real>)
  {
    f1.Length0 == f2.Length0 && f1.Length1 == f2.Length1 && f1.Length2 == f2.Length2
  }

  /** The points verify looks at: the halo trimmed off i and j, nothing off k. */
  predicate InInterior(halo: int, f: array3<real>, i: int, j: int, k: int)
  {
    halo <= i < f.Length0 - halo && halo <= j < f.Length1 - halo && 0 <= k < f.Length2
  }

  ghost predicate InteriorAgrees(precision: real, halo: int, f1: array3<real>, f2: array3<real>)
    requires halo >= 0 && SameDims(f1, f2)
    reads f1, f2
  {
    forall i, j, k :: InInterior(halo, f1, i, j, k) ==> CompareBelowThreshold(precision, f1[i, j, k], f2[i, j, k])
  }

  /** Values in the i/j halo never affect the outcome. */
  lemma HaloIsIgnored(precision: real, halo: int, f1: array3<real>, f2: array3<real>, g1: array3<real>, g2: array3<real>)
    requires halo >= 0 && SameDims(f1, f2) && SameDims(f1, g1) && SameDims(f1, g2)
    requires forall i, j, k :: InInterior(halo, f1, i, j, k) ==> g1[i, j, k] == f1[i, j, k] && g2[i, j, k] == f2[i, j, k]
    ensures InteriorAgrees(precision, halo, f1, f2) <==> InteriorAgrees(precision, halo, g1, g2)
  {
  }

  /** A field always verifies against itself. */
  lemma SelfAgrees(precision: real, halo: int, f: array3<real>)
    requires precision > 0.0 && halo >= 0
    ensures InteriorAgrees(precision, halo, f, f)
  {
    forall i, j, k | InInterior(halo, f, i, j, k)
      ensures CompareBelowThreshold(precision, f[i, j, k], f[i, j, k])
    {
      CompareReflexive(precision, f[i, j, k]);
    }
  }

  class Verifier {
    const precision: real
    const haloSize: int

    constructor (precision: real, haloSize: int)
      ensures this.precision == precision && this.haloSize == haloSize
    {
      this.precision := precision;
      this.haloSize := haloSize;
    }

    /** verify: true exactly when every interior point passes the comparison. The
        fields are only read. */
    method Verify(field1: array3<real>, field2: array3<real>) returns (verified: bool)
      requires SameDims(field1, field2)
      requires haloSize >= 0
      ensures verified <==> InteriorAgrees(precision, haloSize, field1, field2)
    {
      var idim := field1.Length0;
      var jdim := field1.Length1;
      var kdim := field1.Length2;
      verified := true;
      var i := haloSize;
      while i < idim - haloSize
        invariant haloSize <= i && (i <= idim - haloSize || i == haloSize)
        invariant verified <==> forall x, y, z :: InInterior(haloSize, field1, x, y, z) && x < i ==>
                                  CompareBelowThreshold(precision, field1[x, y, z], field2[x, y, z])
      {
        var j := haloSize;
        while j < jdim - haloSize
          invariant haloSize <= j && (j <= jdim - haloSize || j == haloSize)
          invariant verified <==> forall x, y, z :: InInterior(haloSize, field1, x, y, z) && (x < i || (x == i && y < j)) ==>
                                    CompareBelowThreshold(precision, field1[x, y, z], field2[x, y, z])
        {
          var k := 0;
          while k < kdim
            invariant 0 <= k <= kdim
            invariant verified <==> forall x, y, z :: InInterior(haloSize, field1, x, y, z) && (x < i || (x == i && y < j) || (x == i && y == j && z < k)) ==>
                                      CompareBelowThreshold(precision, field1[x, y, z], field2[x, y, z])
          {
            var expected := field1[i, j, k];
            var actual := field2[i, j, k];
            if !CompareBelowThreshold(precision, expected, actual) {
              verified := false;
            }
            k := k + 1;
          }
          j := j + 1;
        }
        i := i + 1;
      }
    }
  }

  /** With a positive precision a field verifies against itself. */
  method VerifySelf(precision: real, haloSize: int, f: array3<real>) returns (verified: bool)
    requires precision > 0.0 && haloSize >= 0
    ensures verified
  {
    var v := new Verifier(precision, haloSize);
    verified := v.Verify(f, f);
    SelfAgrees(precision, haloSize, f);
  }
}
