/** Inner products, and rows brought to length one. */
module Cosine {
  import opened Vectors

  function Dot(a: Vec, b: Vec): real
    requires |a| == |b|
  {
    if a == [] then 0.0
    else
      var n := |a| - 1;
      Dot(a[..n], b[..n]) + Product(a[n], b[n])
  }

  function Scale(k: real, v: Vec): (r: Vec)
    ensures |r| == |v|
  {
    seq(|v|, i requires 0 <= i < |v| => Product(k, v[i]))
  }

  /** The row of `n` columns with a one in column `i`. */
  function Unit(n: nat, i: nat): (r: Vec)
    ensures |r| == n
  {
    seq(n, j => if j == i then 1.0 else 0.0)
  }

  predicate IsZero(v: Vec) { forall i :: 0 <= i < |v| ==> v[i] == 0.0 }

  ghost predicate RootOf(r: real, x: real) { r >= 0.0 && Product(r, r) == x }

  /** `sqrt` is the square root. */
  ghost predicate IsRoot(sqrt: real -> real) { forall x :: x >= 0.0 ==> RootOf(sqrt(x), x) }

  /** `np.where(norms == 0.0, 1.0, norms)`. */
  function SafeNorm(sqrt: real -> real, v: Vec): (r: real)
    ensures r != 0.0
  {
    if sqrt(Dot(v, v)) == 0.0 then 1.0 else sqrt(Dot(v, v))
  }

  /** `vectors / safe_norms`, for one row. */
  function Normalize(sqrt: real -> real, v: Vec): (r: Vec)
    ensures |r| == |v|
  {
    seq(|v|, i requires 0 <= i < |v| => v[i] / SafeNorm(sqrt, v))
  }

  // ----- Products -----

  lemma ProductLaws(x: real, y: real, z: real)
    ensures Product(x, y) == Product(y, x) && Product(x + y, z) == Product(x, z) + Product(y, z)
    ensures Product(x - y, z) == Product(x, z) - Product(y, z)
    ensures Product(Product(x, y), z) == Product(x, Product(y, z))
    ensures Product(1.0, x) == x && Product(0.0, x) == 0.0
  {
  }

  lemma RootUnique(r: real, s: real, x: real)
    requires RootOf(r, x) && RootOf(s, x)
    ensures r == s
  {
    hide Product;
    if r < s {
      Squares(s, r);
    } else if s < r {
      Squares(r, s);
    }
  }

  lemma Squares(r: real, s: real)
    requires r > s >= 0.0
    ensures Product(r, r) > Product(s, s)
  {
    ProductPositive(r - s, r + s);
    assert Product(r - s, r + s) == Product(r, r) - Product(s, s);
    hide Product;
  }

  lemma Quotient(x: real, n: real)
    requires n != 0.0
    ensures Product(1.0 / n, x) == x / n && Product(n, x / n) == x && Product(1.0 / n, n) == 1.0
  {
  }

  // ----- The inner product -----

  lemma {:induction false} DotSymmetric(a: Vec, b: Vec)
    requires |a| == |b|
    ensures Dot(a, b) == Dot(b, a)
  {
    hide Product;
    if a != [] {
      var n := |a| - 1;
      DotSymmetric(a[..n], b[..n]);
      ProductLaws(a[n], b[n], 0.0);
    }
  }

  lemma {:induction false} DotAdds(a: Vec, b: Vec, c: Vec)
    requires |a| == |b| == |c|
    ensures Dot(Add(a, b), c) == Dot(a, c) + Dot(b, c)
  {
    hide Product;
    if a != [] {
      var n := |a| - 1;
      DotAdds(a[..n], b[..n], c[..n]);
      assert Add(a, b)[..n] == Add(a[..n], b[..n]);
      ProductLaws(a[n], b[n], c[n]);
    }
  }

  lemma {:induction false} DotScales(k: real, a: Vec, b: Vec)
    requires |a| == |b|
    ensures Dot(Scale(k, a), b) == Product(k, Dot(a, b))
  {
    hide Product;
    if a == [] {
      ProductLaws(k, 0.0, 0.0);
    } else {
      var n := |a| - 1;
      var d := Dot(a[..n], b[..n]);
      DotScales(k, a[..n], b[..n]);
      assert Scale(k, a)[..n] == Scale(k, a[..n]);
      ProductLaws(k, a[n], b[n]);
      ProductLaws(d, Product(a[n], b[n]), k);
      ProductLaws(k, d, 0.0);
      ProductLaws(k, Product(a[n], b[n]), 0.0);
      ProductLaws(k, d + Product(a[n], b[n]), 0.0);
    }
  }

  lemma {:induction false} DotUnit(n: nat, i: nat, a: Vec)
    requires |a| == n
    ensures Dot(Unit(n, i), a) == if i < n then a[i] else 0.0
  {
    hide Product;
    if n > 0 {
      DotUnit(n - 1, i, a[..n - 1]);
      assert Unit(n, i)[..n - 1] == Unit(n - 1, i);
      ProductLaws(a[n - 1], 0.0, 0.0);
    } else {
      assert Unit(n, i) == [];
    }
  }

  /** The inner product is symmetric and linear, and picks a column out with a unit row: only one function does that. */
  lemma DotLaws(a: Vec, b: Vec, c: Vec, k: real, i: nat)
    requires |a| == |b| == |c|
    ensures Dot(a, b) == Dot(b, a)
    ensures Dot(Add(a, b), c) == Dot(a, c) + Dot(b, c)
    ensures Dot(Scale(k, a), b) == Product(k, Dot(a, b))
    ensures i < |a| ==> Dot(Unit(|a|, i), a) == a[i]
  {
    DotSymmetric(a, b);
    DotAdds(a, b, c);
    DotScales(k, a, b);
    DotUnit(|a|, i, a);
    hide Dot, Product;
  }

  lemma {:induction false} DotSelf(a: Vec)
    ensures Dot(a, a) >= 0.0 && (Dot(a, a) == 0.0 <==> IsZero(a))
  {
    hide Product;
    if a != [] {
      var n := |a| - 1;
      DotSelf(a[..n]);
      SquarePositive(a[n]);
      assert IsZero(a) <==> IsZero(a[..n]) && a[n] == 0.0;
    }
  }

  lemma {:induction false} DotDifference(a: Vec, b: Vec)
    requires |a| == |b|
    ensures Dot(Sub(a, b), Sub(a, b)) == Dot(a, a) - 2.0 * Dot(a, b) + Dot(b, b)
    ensures Dot(Add(a, b), Add(a, b)) == Dot(a, a) + 2.0 * Dot(a, b) + Dot(b, b)
  {
    if a != [] {
      var n, x, y := |a| - 1, a[|a| - 1], b[|a| - 1];
      DotDifference(a[..n], b[..n]);
      assert Sub(a, b)[..n] == Sub(a[..n], b[..n]) && Add(a, b)[..n] == Add(a[..n], b[..n]);
      Expand(x, y);
      hide Product;
    }
  }

  lemma Expand(x: real, y: real)
    ensures Product(x - y, x - y) == Product(x, x) - 2.0 * Product(x, y) + Product(y, y)
    ensures Product(x + y, x + y) == Product(x, x) + 2.0 * Product(x, y) + Product(y, y)
  {
  }

  // ----- Rows of length one -----

  lemma NormalizeIsScale(sqrt: real -> real, v: Vec)
    ensures Normalize(sqrt, v) == Scale(1.0 / SafeNorm(sqrt, v), v)
  {
    hide Product, SafeNorm;
    var n := SafeNorm(sqrt, v);
    forall i | 0 <= i < |v| ensures v[i] / n == Product(1.0 / n, v[i]) {
      Quotient(v[i], n);
    }
  }

  lemma Norm(sqrt: real -> real, v: Vec)
    requires IsRoot(sqrt)
    ensures IsZero(v) ==> SafeNorm(sqrt, v) == 1.0
    ensures !IsZero(v) ==> SafeNorm(sqrt, v) > 0.0 && Product(SafeNorm(sqrt, v), SafeNorm(sqrt, v)) == Dot(v, v)
  {
    hide Product, Dot, IsZero;
    DotSelf(v);
    var n := sqrt(Dot(v, v));
    assert RootOf(n, Dot(v, v));
    SquarePositive(n);
  }

  lemma ScaledSquare(k: real, v: Vec)
    ensures Dot(Scale(k, v), Scale(k, v)) == Product(k, Product(k, Dot(v, v)))
  {
    hide Product, Dot, Scale;
    DotScales(k, v, Scale(k, v));
    DotSymmetric(v, Scale(k, v));
    DotScales(k, v, v);
  }

  /** A row that is not zero is brought to length one; a zero row stays. */
  lemma NormalizedLength(sqrt: real -> real, v: Vec)
    requires IsRoot(sqrt)
    ensures Dot(Normalize(sqrt, v), Normalize(sqrt, v)) == if IsZero(v) then 0.0 else 1.0
    ensures IsZero(v) ==> Normalize(sqrt, v) == v
  {
    hide Product, Dot, Scale, IsRoot;
    var n := SafeNorm(sqrt, v);
    Norm(sqrt, v);
    NormalizeIsScale(sqrt, v);
    ScaledSquare(1.0 / n, v);
    DotSelf(v);
    if IsZero(v) {
      Quotient(0.0, n);
      assert Normalize(sqrt, v) == v;
    } else {
      hide SafeNorm, Normalize, IsZero;
      ProductLaws(1.0 / n, n, n);
      Quotient(n, n);
      Quotient(1.0, n);
      ProductLaws(n, 1.0, 1.0);
      ProductLaws(1.0, n, n);
    }
  }

  lemma NormScales(sqrt: real -> real, k: real, v: Vec)
    requires IsRoot(sqrt) && k > 0.0 && !IsZero(v)
    ensures !IsZero(Scale(k, v)) && SafeNorm(sqrt, Scale(k, v)) == Product(k, SafeNorm(sqrt, v))
  {
    hide Product, Dot, IsRoot, SafeNorm, IsZero;
    var n, m := SafeNorm(sqrt, v), SafeNorm(sqrt, Scale(k, v));
    Norm(sqrt, v);
    Norm(sqrt, Scale(k, v));
    DotSelf(v);
    DotSelf(Scale(k, v));
    ScaledSquare(k, v);
    ProductPositive(k, Dot(v, v));
    ProductPositive(k, Product(k, Dot(v, v)));
    ProductPositive(k, n);
    hide Scale;
    ProductSquare(k, n);
    RootUnique(m, Product(k, n), Product(k, Product(k, Dot(v, v))));
  }

  lemma ProductSquare(k: real, n: real)
    ensures Product(Product(k, n), Product(k, n)) == Product(k, Product(k, Product(n, n)))
  {
    hide Product;
    ProductLaws(k, n, Product(k, n));
    ProductLaws(n, Product(k, n), 0.0);
    ProductLaws(k, n, n);
  }

  /** Lengths do not matter to the normalized row. */
  lemma NormalizeIgnoresLength(sqrt: real -> real, k: real, v: Vec)
    requires IsRoot(sqrt) && k > 0.0
    ensures Normalize(sqrt, Scale(k, v)) == Normalize(sqrt, v)
  {
    hide Product, Dot, IsRoot, SafeNorm;
    if IsZero(v) {
      ZeroScales(k, v);
      NormalizedLength(sqrt, v);
    } else {
      NormScales(sqrt, k, v);
      var n := SafeNorm(sqrt, v);
      Norm(sqrt, v);
      forall i | 0 <= i < |v| ensures Product(k, v[i]) / Product(k, n) == v[i] / n {
        Cancel(k, v[i], n);
      }
    }
  }

  lemma ZeroScales(k: real, v: Vec)
    requires IsZero(v)
    ensures Scale(k, v) == v
  {
    hide Product;
    ProductLaws(k, 0.0, 0.0);
    ProductLaws(0.0, k, 0.0);
  }

  lemma Cancel(k: real, x: real, n: real)
    requires k != 0.0 && n != 0.0
    ensures Product(k, n) != 0.0 && Product(k, x) / Product(k, n) == x / n
  {
  }

  /** The cosine score of two rows that are not zero lies in -1 .. 1, and is 1 exactly when one is a positive multiple of the other. */
  lemma CosineLaws(sqrt: real -> real, a: Vec, b: Vec)
    requires IsRoot(sqrt) && |a| == |b| && !IsZero(a) && !IsZero(b)
    ensures -1.0 <= Dot(Normalize(sqrt, a), Normalize(sqrt, b)) <= 1.0
    ensures Dot(Normalize(sqrt, a), Normalize(sqrt, b)) == 1.0 <==> exists k :: k > 0.0 && b == Scale(k, a)
  {
    hide Product, Dot, IsRoot, SafeNorm, Normalize, Scale, IsZero;
    var x, y := Normalize(sqrt, a), Normalize(sqrt, b);
    NormalizedLength(sqrt, a);
    NormalizedLength(sqrt, b);
    DotDifference(x, y);
    DotSelf(Sub(x, y));
    DotSelf(Add(x, y));
    ZeroDifference(x, y);
    if k :| k > 0.0 && b == Scale(k, a) {
      NormalizeIgnoresLength(sqrt, k, a);
    }
    if x == y {
      SameDirection(sqrt, a, b);
    }
  }

  lemma ZeroDifference(x: Vec, y: Vec)
    requires |x| == |y|
    ensures IsZero(Sub(x, y)) <==> x == y
  {
    if IsZero(Sub(x, y)) {
      forall i | 0 <= i < |x| ensures x[i] == y[i] {
        assert Sub(x, y)[i] == 0.0;
      }
    }
  }

  lemma SameDirection(sqrt: real -> real, a: Vec, b: Vec)
    requires IsRoot(sqrt) && |a| == |b| && !IsZero(a) && !IsZero(b) && Normalize(sqrt, a) == Normalize(sqrt, b)
    ensures exists k :: k > 0.0 && b == Scale(k, a)
  {
    hide Product, Dot, IsRoot, SafeNorm, IsZero;
    var n, m := SafeNorm(sqrt, a), SafeNorm(sqrt, b);
    Norm(sqrt, a);
    Norm(sqrt, b);
    var k := Product(m, 1.0 / n);
    Reciprocal(n);
    ProductPositive(m, 1.0 / n);
    forall i | 0 <= i < |a| ensures b[i] == Product(k, a[i]) {
      assert a[i] / n == Normalize(sqrt, a)[i] == Normalize(sqrt, b)[i] == b[i] / m;
      Quotient(b[i], m);
      Quotient(a[i], n);
      ProductLaws(m, 1.0 / n, a[i]);
    }
    assert b == Scale(k, a);
  }

  lemma Reciprocal(n: real)
    requires n > 0.0
    ensures 1.0 / n > 0.0
  {
  }
}
