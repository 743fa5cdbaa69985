/** Eight-bit quantisation of offsets, over exact reals but for the float32 rounding of the stored scale. */
module Quantizer {
  import opened Numbers
  import opened Vectors

  const TINY := 0.00000001

  /** Round half to even. */
  function RoundEven(x: real): int {
    var f := x.Floor;
    var d := x - f as real;
    if d < 0.5 || (d == 0.5 && f % 2 == 0) then f else f + 1
  }

  function Clip(q: int): int { if q < -127 then -127 else if q > 127 then 127 else q }

  function Quantize(v: real, scale: real): int
    requires scale > 0.0
  {
    Clip(RoundEven(v / scale))
  }

  function MaxAbs(vs: Vec): (m: real)
    ensures m >= 0.0 && forall i :: 0 <= i < |vs| ==> Abs(vs[i]) <= m
    ensures vs != [] ==> exists i :: 0 <= i < |vs| && Abs(vs[i]) == m
  {
    if vs == [] then 0.0
    else
      var n := |vs| - 1;
      var m := MaxAbs(vs[..n]);
      if Abs(vs[n]) >= m then Abs(vs[n]) else m
  }

  function MaxReal(a: real, b: real): real { if a >= b then a else b }

  function RawScale(vs: Vec): real { MaxReal(MaxAbs(vs) / 127.0, TINY) }

  /** What is assumed of rounding to a format with largest value `max`: up to `max` it is idempotent, monotone and,
      from the floor on, off by at most a thousandth; of overflow only that it stays positive.
      IEEE 754 binary32 with max = (2 - 2^-23) * 2^127 meets this (its error is at most 2^-24 of the value),
      and so does the grid of `SampleFormats`. */
  ghost predicate Rounds(r: real -> real, max: real) {
    max >= TINY && r(max) == max && Idempotent(r, max) && Monotone(r, max) && Accurate(r, max) && forall x :: x > max ==> r(x) > 0.0
  }

  ghost predicate Idempotent(r: real -> real, max: real) { forall x, y :: 0.0 <= x <= max && y == r(x) ==> r(y) == y }

  ghost predicate Monotone(r: real -> real, max: real) { forall x, y :: 0.0 <= x <= y <= max ==> 0.0 <= r(x) <= r(y) }

  ghost predicate Accurate(r: real -> real, max: real) { forall x :: TINY <= x <= max ==> Abs(r(x) - x) <= x * 0.001 }

  lemma RoundingError(x: real)
    ensures Abs(RoundEven(x) as real - x) <= 0.5
  {
  }

  lemma RoundsTo(x: real, q: int)
    requires Abs(x - q as real) < 0.5
    ensures RoundEven(x) == q
  {
    var f := x.Floor;
    assert f == q || f == q - 1;
  }

  lemma Quotient(v: real, m: real, s: real, b: real)
    requires s > 0.0 && b >= 0.0 && Abs(v) <= m <= b * s
    ensures Abs(v / s) <= b
  {
    var x := v / s;
    assert x * s == v;
    assert x > b ==> x * s > b * s;
    assert x < -b ==> x * s < -b * s;
  }

  function Times(q: int, s: real): real { q as real * s }

  /** One value of a row, for a scale close enough to the row's. */
  ghost predicate QuantisedWell(v: real, q: int, s: real) {
    s > 0.0 && -127 <= q <= 127 && q == RoundEven(v / s) && Abs(Times(q, s) - v) <= s / 2.0
  }

  /** A scale close to max/127 never needs the clip, and the error is at most half of it. */
  lemma ClipNeverFires(v: real, m: real, s: real)
    requires s > 0.0 && Abs(v) <= m <= 127.2 * s
    ensures QuantisedWell(v, Quantize(v, s), s)
  {
    Quotient(v, m, s, 127.2);
    RoundingError(v / s);
    HalfScale(v, v / s, RoundEven(v / s), s);
  }

  lemma HalfScale(v: real, x: real, q: int, s: real)
    requires s > 0.0 && x * s == v && Abs(q as real - x) <= 0.5
    ensures Abs(Times(q, s) - v) <= s / 2.0
  {
    assert (q as real - x) * s == q as real * s - v;
    ScaledBound(q as real - x, 0.5, s);
  }

  lemma ScaledBound(e: real, b: real, s: real)
    requires s >= 0.0 && Abs(e) <= b
    ensures Abs(e * s) <= b * s
  {
    assert e * s <= b * s;
    assert -b * s <= e * s;
  }

  lemma RawScaleBounds(vs: Vec)
    ensures RawScale(vs) >= TINY && MaxAbs(vs) <= 127.0 * RawScale(vs)
  {
  }

  /** A rounded scale stays positive and, without overflow, close. */
  lemma RoundedScale(r: real -> real, max: real, x: real)
    requires Rounds(r, max) && x >= TINY
    ensures r(x) > 0.0
    ensures x <= max ==> 127.0 * x <= 127.2 * r(x) && r(x) <= x * 1.001 && x * 0.999 <= r(x) <= max && r(r(x)) == r(x)
  {
    if x <= max {
      assert Abs(r(x) - x) <= x * 0.001;
      assert r(x) <= r(max);
    }
  }

  /** Rounding again anything between the floor and the rounded scale gives the rounded scale, if that is the floor's. */
  lemma RoundsBack(r: real -> real, max: real, s: real, y: real)
    requires Rounds(r, max) && 0.0 <= s <= max && s == r(s) && r(TINY) <= s && TINY <= y <= MaxReal(s, TINY)
    requires y == MaxReal(s, TINY) || s == r(TINY)
    ensures r(y) == s
  {
    assert r(TINY) <= r(y) <= r(MaxReal(s, TINY));
    if s < TINY {
      assert r(s) <= r(TINY);
    }
  }

  // ----- Rows -----

  function Quantized(vs: Vec, s: real): (qs: seq<int>)
    requires s > 0.0
    ensures |qs| == |vs|
  {
    seq(|vs|, i requires 0 <= i < |vs| => Quantize(vs[i], s))
  }

  function Dequantized(qs: seq<int>, s: real): (vs: Vec)
    ensures |vs| == |qs|
  {
    seq(|qs|, i requires 0 <= i < |qs| => Times(qs[i], s))
  }

  ghost predicate Bytewise(qs: seq<int>) { forall i :: 0 <= i < |qs| ==> -127 <= qs[i] <= 127 }

  ghost predicate ReachesEnd(qs: seq<int>) { exists i :: 0 <= i < |qs| && (qs[i] == 127 || qs[i] == -127) }

  lemma AbsProduct(q: real, s: real)
    requires s >= 0.0
    ensures Abs(q * s) == Abs(q) * s
  {
    if q >= 0.0 {
      assert q * s >= 0.0;
    } else {
      assert q * s <= 0.0;
    }
  }

  lemma Cancel(a: real, b: real, s: real)
    requires s > 0.0 && a * s <= b * s
    ensures a <= b
  {
    assert a > b ==> (a - b) * s > 0.0;
  }

  lemma AtMost(a: real, b: real, s: real, m: real)
    requires s > 0.0 && a * s == m && m <= b * s
    ensures a <= b
  {
    Cancel(a, b, s);
  }

  lemma AtLeast(a: real, b: real, s: real, m: real)
    requires s > 0.0 && a * s == m && b * s <= m
    ensures b <= a
  {
    Cancel(b, a, s);
  }

  lemma LargestIndex(vs: Vec) returns (i: nat)
    requires vs != []
    ensures i < |vs| && Abs(vs[i]) == MaxAbs(vs)
  {
    i :| 0 <= i < |vs| && Abs(vs[i]) == MaxAbs(vs);
  }

  /** Unless the floor applies, the largest value is quantised to an end of the range. */
  lemma LargestReachesEnd(vs: Vec, s: real)
    requires MaxAbs(vs) / 127.0 >= TINY && s > 0.0 && vs != []
    requires 127.0 * RawScale(vs) <= 127.2 * s && s <= RawScale(vs) * 1.001
    ensures ReachesEnd(Quantized(vs, s))
  {
    var i := LargestIndex(vs);
    assert RawScale(vs) == MaxAbs(vs) / 127.0;
    assert 126.8 * s <= MaxAbs(vs) <= 127.2 * s;
    hide MaxAbs, RawScale, Quantize, Abs;
    assert Quantized(vs, s)[i] == Quantize(vs[i], s);
    EndValue(vs[i], MaxAbs(vs), s);
  }

  lemma EndValue(v: real, m: real, s: real)
    requires s > 0.0 && Abs(v) == m && 126.8 * s <= m <= 127.2 * s
    ensures Quantize(v, s) == 127 || Quantize(v, s) == -127
  {
    hide Quantize;
    DivMul(v, s);
    Near127(v, v / s, m, s);
    EndOfRange(v, s, v / s);
  }

  lemma DivMul(v: real, s: real)
    requires s > 0.0
    ensures v / s * s == v
  {
  }

  lemma EndOfRange(v: real, s: real, x: real)
    requires s > 0.0 && x == v / s && 126.8 <= Abs(x) <= 127.2
    ensures Quantize(v, s) == 127 || Quantize(v, s) == -127
  {
    RoundsTo(x, if x >= 0.0 then 127 else -127);
  }

  lemma Near127(v: real, x: real, m: real, s: real)
    requires s > 0.0 && x * s == v && Abs(v) == m && m <= 127.2 * s && 126.8 * s <= m
    ensures 126.8 <= Abs(x) <= 127.2
  {
    AbsProduct(x, s);
    hide Abs;
    AtMost(Abs(x), 127.2, s, m);
    AtLeast(Abs(x), 126.8, s, m);
  }

  lemma ByteMagnitude(q: int, s: real)
    requires s >= 0.0 && -127 <= q <= 127
    ensures Abs(Times(q, s)) <= 127.0 * s
    ensures q == 127 || q == -127 ==> Abs(Times(q, s)) == 127.0 * s
  {
    AbsProduct(q as real, s);
    assert Abs(q as real) <= 127.0;
    assert (127.0 - Abs(q as real)) * s >= 0.0;
  }

  lemma MaxDequantized(qs: seq<int>, s: real)
    requires Bytewise(qs) && s >= 0.0
    ensures MaxAbs(Dequantized(qs, s)) <= 127.0 * s
    ensures ReachesEnd(qs) ==> MaxAbs(Dequantized(qs, s)) == 127.0 * s
  {
    var ds := Dequantized(qs, s);
    assert forall i :: 0 <= i < |qs| ==> ds[i] == Times(qs[i], s);
    hide MaxAbs, Dequantized, Abs, Times;
    forall i | 0 <= i < |qs| ensures Abs(ds[i]) <= 127.0 * s && (qs[i] == 127 || qs[i] == -127 ==> Abs(ds[i]) == 127.0 * s) {
      ByteMagnitude(qs[i], s);
    }
    assert ds == [] ==> MaxAbs(ds) <= 127.0 * s by { MaxOfNone(); }
  }

  lemma MaxOfNone()
    ensures MaxAbs([]) == 0.0
  {
  }

  /** The scale computed from decoded values rounds to the stored scale again. */
  lemma ScaleComesBack(r: real -> real, max: real, vs: Vec, qs: seq<int>, s: real)
    requires Rounds(r, max) && RawScale(vs) <= max && s == r(RawScale(vs)) && |qs| == |vs| && Bytewise(qs)
    requires MaxAbs(vs) / 127.0 >= TINY ==> ReachesEnd(qs)
    ensures var y := RawScale(Dequantized(qs, s)); TINY <= y <= max && r(y) == s
  {
    RawScaleBounds(vs);
    RoundedScale(r, max, RawScale(vs));
    MaxDequantized(qs, s);
    hide MaxAbs, Dequantized, ReachesEnd, Bytewise;
    assert r(TINY) <= s;
    RoundsBack(r, max, s, RawScale(Dequantized(qs, s)));
  }

  /** Any scale close enough to the one a byte was multiplied with gives the byte back. */
  lemma ByteComesBack(q: int, s: real, y: real)
    requires -127 <= q <= 127 && s > 0.0 && y > 0.0 && y * 0.998 <= s <= y * 1.002
    ensures Quantize(Times(q, s), y) == q
  {
    var x := q as real * s / y;
    assert x * y == q as real * s;
    QuotientNear(q as real, x, s, y);
    RoundsTo(x, q);
  }

  lemma QuotientNear(q: real, x: real, s: real, y: real)
    requires y > 0.0 && x * y == q * s && -127.0 <= q <= 127.0 && Abs(s - y) <= 0.002 * y
    ensures Abs(x - q) < 0.5
  {
    var e := x - q;
    assert e * y == q * (s - y);
    SmallProduct(q, s - y, 0.002 * y);
    AbsProduct(e, y);
    AtMost(Abs(e), 0.3, y, Abs(e * y));
  }

  lemma Nonnegative(a: real, b: real)
    requires a >= 0.0 && b >= 0.0
    ensures a * b >= 0.0
  {
  }

  lemma SmallProduct(q: real, e: real, b: real)
    requires -127.0 <= q <= 127.0 && Abs(e) <= b
    ensures Abs(q * e) <= 127.0 * b
  {
    Nonnegative(127.0 - q, b - e);
    Nonnegative(127.0 + q, b + e);
    Nonnegative(127.0 - q, b + e);
    Nonnegative(127.0 + q, b - e);
    assert (127.0 - q) * (b - e) + (127.0 + q) * (b + e) == 254.0 * b + 2.0 * (q * e);
    assert (127.0 - q) * (b + e) + (127.0 + q) * (b - e) == 254.0 * b - 2.0 * (q * e);
  }

  lemma RowElements(vs: Vec, s: real)
    requires s > 0.0 && MaxAbs(vs) <= 127.2 * s
    ensures Bytewise(Quantized(vs, s))
    ensures forall i :: 0 <= i < |vs| ==> QuantisedWell(vs[i], Quantized(vs, s)[i], s)
  {
    hide MaxAbs, Quantize, QuantisedWell;
    forall i | 0 <= i < |vs|
      ensures -127 <= Quantized(vs, s)[i] <= 127 && QuantisedWell(vs[i], Quantized(vs, s)[i], s)
    {
      OneElement(vs, i, s);
    }
  }

  lemma OneElement(vs: Vec, i: nat, s: real)
    requires i < |vs| && s > 0.0 && MaxAbs(vs) <= 127.2 * s
    ensures -127 <= Quantize(vs[i], s) <= 127 && QuantisedWell(vs[i], Quantize(vs[i], s), s)
  {
    assert Abs(vs[i]) <= MaxAbs(vs);
    ClipNeverFires(vs[i], MaxAbs(vs), s);
    hide MaxAbs, Quantize, RoundEven, Abs, Times;
  }

  lemma RowComesBack(qs: seq<int>, s: real, y: real)
    requires Bytewise(qs) && s > 0.0 && y > 0.0 && y * 0.998 <= s <= y * 1.002
    ensures Quantized(Dequantized(qs, s), y) == qs
  {
    hide Quantize, Times;
    forall i | 0 <= i < |qs| ensures Quantized(Dequantized(qs, s), y)[i] == qs[i] {
      ByteComesBack(qs[i], s, y);
    }
  }

  lemma EndsReached(r: real -> real, max: real, vs: Vec, s: real)
    requires Rounds(r, max) && RawScale(vs) <= max && vs != [] && (s == RawScale(vs) || s == r(RawScale(vs)))
    ensures s > 0.0 && r(RawScale(vs)) > 0.0 && MaxAbs(vs) <= 127.2 * s
    ensures MaxAbs(vs) / 127.0 >= TINY ==> ReachesEnd(Quantized(vs, s))
  {
    RawScaleBounds(vs);
    RoundedScale(r, max, RawScale(vs));
    if MaxAbs(vs) / 127.0 >= TINY {
      LargestReachesEnd(vs, s);
    }
  }

  lemma BoundedScale(r: real -> real, max: real, vs: Vec)
    requires Rounds(r, max) && RawScale(vs) <= max
    ensures r(RawScale(vs)) <= max && r(r(RawScale(vs))) == r(RawScale(vs))
  {
    RawScaleBounds(vs);
    RoundedScale(r, max, RawScale(vs));
  }

  /** A row quantised with its rounded scale: no clip, half-scale error, and the same bytes when the decoded row is quantised again. */
  lemma RowIsStable(r: real -> real, max: real, vs: Vec)
    requires Rounds(r, max) && RawScale(vs) <= max && vs != []
    ensures var s := r(RawScale(vs));
            && s > 0.0
            && var qs := Quantized(vs, s);
            && Bytewise(qs) && (forall i :: 0 <= i < |vs| ==> QuantisedWell(vs[i], qs[i], s))
            && s <= max && r(s) == s && RawScale(Dequantized(qs, s)) <= max
            && r(RawScale(Dequantized(qs, s))) == s && Quantized(Dequantized(qs, s), s) == qs
  {
    hide MaxAbs, RawScale, Quantized, Rounds, QuantisedWell, Bytewise, Dequantized, ReachesEnd;
    var s := r(RawScale(vs));
    EndsReached(r, max, vs, s);
    RowElements(vs, s);
    BoundedScale(r, max, vs);
    ScaleComesBack(r, max, vs, Quantized(vs, s), s);
    RowComesBack(Quantized(vs, s), s, s);
  }

  /** One scale for all, quantised before the scale is rounded: half-scale error for that scale, and bytes still come back. */
  lemma ClusterIsStable(r: real -> real, max: real, vs: Vec)
    requires Rounds(r, max) && RawScale(vs) <= max && vs != []
    ensures var (raw, s) := (RawScale(vs), r(RawScale(vs)));
            && raw > 0.0 && s > 0.0
            && var qs := Quantized(vs, raw);
            && Bytewise(qs) && (forall i :: 0 <= i < |vs| ==> QuantisedWell(vs[i], qs[i], raw))
            && var again := RawScale(Dequantized(qs, s));
            s <= max && 0.0 < again <= max && r(again) == s && Quantized(Dequantized(qs, s), again) == qs
  {
    hide MaxAbs, RawScale, Quantized, Rounds, QuantisedWell, Bytewise, Dequantized, ReachesEnd;
    var raw, s := RawScale(vs), r(RawScale(vs));
    EndsReached(r, max, vs, raw);
    RowElements(vs, raw);
    BoundedScale(r, max, vs);
    ScaleComesBack(r, max, vs, Quantized(vs, raw), s);
    NearItsRounding(r, max, RawScale(Dequantized(Quantized(vs, raw), s)));
    RowComesBack(Quantized(vs, raw), s, RawScale(Dequantized(Quantized(vs, raw), s)));
  }

  lemma NearItsRounding(r: real -> real, max: real, y: real)
    requires Rounds(r, max) && TINY <= y <= max
    ensures y * 0.998 <= r(y) <= y * 1.002
  {
  }

  /** What the rounded scale of the one-scale mode adds to the error. */
  lemma ClusterError(v: real, q: int, raw: real, s: real)
    requires QuantisedWell(v, q, raw)
    ensures Abs(Times(q, s) - v) <= raw / 2.0 + 127.0 * Abs(s - raw)
  {
    hide Times, Abs, RoundEven;
    SplitProduct(q, raw, s);
    SumOfErrors(Times(q, raw) - v, Times(q, s - raw), raw / 2.0, 127.0 * Abs(s - raw));
  }

  lemma SplitProduct(q: int, raw: real, s: real)
    requires -127 <= q <= 127
    ensures Times(q, s) == Times(q, raw) + Times(q, s - raw)
    ensures Abs(Times(q, s - raw)) <= 127.0 * Abs(s - raw)
  {
    SmallProduct(q as real, s - raw, Abs(s - raw));
  }

  lemma SumOfErrors(a: real, b: real, e: real, f: real)
    requires Abs(a) <= e && Abs(b) <= f
    ensures Abs(a + b) <= e + f
  {
  }
}
