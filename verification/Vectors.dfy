/** Embedding rows over exact reals. */
module Vectors {
  type Vec = seq<real>

  function Abs(x: real): real { if x >= 0.0 then x else -x }

  function Add(a: Vec, b: Vec): (r: Vec)
    requires |a| == |b|
    ensures |r| == |a|
  {
    seq(|a|, i requires 0 <= i < |a| => a[i] + b[i])
  }

  function Sub(a: Vec, b: Vec): (r: Vec)
    requires |a| == |b|
    ensures |r| == |a|
  {
    seq(|a|, i requires 0 <= i < |a| => a[i] - b[i])
  }

  lemma AddSub(c: Vec, x: Vec)
    requires |c| == |x|
    ensures Add(c, Sub(x, c)) == x
  {
  }

  predicate Shaped(data: seq<Vec>, rows: nat, dim: nat) {
    |data| == rows && forall i :: 0 <= i < rows ==> |data[i]| == dim
  }

  function ColumnSum(points: seq<Vec>, d: nat): real
    requires forall p :: p in points ==> d < |p|
  {
    if points == [] then 0.0 else ColumnSum(points[..|points| - 1], d) + points[|points| - 1][d]
  }

  /** `points.mean(axis=0)`. */
  function Mean(points: seq<Vec>, dim: nat): (m: Vec)
    requires points != [] && forall p :: p in points ==> |p| == dim
    ensures |m| == dim
  {
    seq(dim, d requires 0 <= d < dim => ColumnSum(points, d) / (|points| as real))
  }

  function Product(x: real, y: real): real { x * y }

  function Squared(x: real): real { Product(x, x) }

  function SquaredDistance(a: Vec, b: Vec): real
    requires |a| == |b|
  {
    if a == [] then 0.0
    else
      var n := |a| - 1;
      SquaredDistance(a[..n], b[..n]) + Squared(a[n] - b[n])
  }

  lemma {:induction false} DistanceSymmetric(a: Vec, b: Vec)
    requires |a| == |b|
    ensures SquaredDistance(a, b) == SquaredDistance(b, a)
  {
    if a != [] {
      var n := |a| - 1;
      DistanceSymmetric(a[..n], b[..n]);
      SquarePositive(a[n] - b[n]);
    }
  }

  lemma ProductPositive(x: real, y: real)
    ensures x > 0.0 && y > 0.0 ==> Product(x, y) > 0.0
    ensures Product(-x, -y) == Product(x, y)
    ensures Product(0.0, y) == 0.0
  {
  }

  lemma SquarePositive(x: real)
    ensures Squared(x) >= 0.0
    ensures x == 0.0 <==> Squared(x) == 0.0
    ensures Squared(-x) == Squared(x)
  {
    hide Product;
    ProductPositive(x, x);
    ProductPositive(-x, -x);
  }

  /** A distance is zero exactly between equal rows. */
  lemma {:induction false} DistanceZeroIff(a: Vec, b: Vec)
    requires |a| == |b|
    ensures SquaredDistance(a, b) >= 0.0
    ensures SquaredDistance(a, b) == 0.0 <==> a == b
  {
    hide Squared;
    if a != [] {
      var n := |a| - 1;
      DistanceZeroIff(a[..n], b[..n]);
      var x := a[n] - b[n];
      SquarePositive(x);
      assert a != b ==> a[..n] != b[..n] || a[n] != b[n];
    } else {
      assert a == b;
    }
  }

  /** Every coordinate adds the square of its difference; with `DistanceZeroIff` this fixes the distance. */
  lemma DistanceByCoordinate(a: Vec, b: Vec, i: nat, x: real)
    requires |a| == |b| && i < |a|
    ensures SquaredDistance(a, b[i := x]) == SquaredDistance(a, b) - (a[i] - b[i]) * (a[i] - b[i]) + (a[i] - x) * (a[i] - x)
  {
    ChangeOne(a, b, i, x);
    hide SquaredDistance;
  }

  lemma {:induction false} ChangeOne(a: Vec, b: Vec, i: nat, x: real)
    requires |a| == |b| && i < |a|
    ensures SquaredDistance(a, b[i := x]) == SquaredDistance(a, b) - Squared(a[i] - b[i]) + Squared(a[i] - x)
  {
    hide Squared;
    var n := |a| - 1;
    if i < n {
      assert b[i := x][..n] == b[..n][i := x];
      ChangeOne(a[..n], b[..n], i, x);
    } else {
      assert b[i := x][..n] == b[..n];
    }
  }
}
