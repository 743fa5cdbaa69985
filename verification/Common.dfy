/** Optional values, and results that carry an error. */
module Wrappers {
  datatype Option<+T> = None | Some(value: T)

  datatype Result<+T, +E> = Ok(value: T) | Err(error: E)
}

/** Bytes, powers of two and the few division facts the other modules need. */
module Numbers {
  type Byte = x: nat | x < 256
  type Bytes = seq<Byte>

  const U32_SPAN: nat := 0x1_0000_0000
  const U64_SPAN: nat := 0x1_0000_0000_0000_0000

  function Min(a: int, b: int): int { if a <= b then a else b }

  function Max(a: int, b: int): int { if a <= b then b else a }

  function Pow2(n: nat): (p: nat)
    ensures p > 0
  {
    if n == 0 then 1 else 2 * Pow2(n - 1)
  }

  lemma {:induction false} Pow2Add(a: nat, b: nat)
    ensures Pow2(a + b) == Pow2(a) * Pow2(b)
  {
    if a == 0 {
    } else {
      Pow2Add(a - 1, b);
      assert Pow2(a + b) == 2 * (Pow2(a - 1) * Pow2(b));
      assert Pow2(a) * Pow2(b) == (2 * Pow2(a - 1)) * Pow2(b);
    }
  }

  lemma MulAtLeast(a: int, d: int)
    requires a > 0
    ensures d >= 1 ==> a * d >= a
    ensures d <= -1 ==> a * d <= -a
  {
    if d >= 1 {
      assert a * d == a + a * (d - 1);
    } else if d <= -1 {
      assert a * d == -a + a * (d + 1);
    }
  }

  lemma DivModUnique(x: int, a: int, q: int, r: int)
    requires a > 0 && x == a * q + r && 0 <= r < a
    ensures x % a == r && x / a == q
  {
    var d := x / a - q;
    assert x == a * (x / a) + x % a;
    assert a * d == a * (x / a) - a * q;
    MulAtLeast(a, d);
    assert d == 0;
  }

  lemma ModOfProduct(x: int, a: int, b: int)
    requires a > 0 && b > 0
    ensures a * b > 0 && (x % (a * b)) % a == x % a
  {
    assert a * b > 0;
    var q, r := x / (a * b), x % (a * b);
    assert x == (a * b) * q + r;
    assert x == a * (b * q + r / a) + r % a by {
      assert (a * b) * q == a * (b * q);
      assert r == a * (r / a) + r % a;
    }
    DivModUnique(x, a, b * q + r / a, r % a);
  }

  lemma ModIgnoresMultiples(x: int, a: int, q: int)
    requires a > 0
    ensures (x + a * q) % a == x % a
  {
    assert x + a * q == a * (x / a + q) + x % a;
    DivModUnique(x + a * q, a, x / a + q, x % a);
  }

  lemma MulSwap(a: int, b: int, c: int)
    ensures a * (b * c) == b * (a * c)
  {
    assert a * (b * c) == (a * b) * c == (b * a) * c == b * (a * c);
  }

  lemma HalfMod(h: nat, p: nat)
    requires p > 0
    ensures h % (2 * p) == 2 * (h / 2 % p) + h % 2
  {
    var q, r := h / 2 / p, h / 2 % p;
    assert h / 2 == p * q + r;
    assert h == (2 * p) * q + (2 * r + h % 2) by {
      assert (2 * p) * q == 2 * (p * q);
    }
    DivModUnique(h, 2 * p, q, 2 * r + h % 2);
  }

  lemma Pow2Double(n: nat, v: nat)
    requires Pow2(n) == v
    ensures Pow2(2 * n) == v * v
  {
    Pow2Add(n, n);
    hide Pow2;
  }

  lemma Pow2Literals()
    ensures Pow2(32) == U32_SPAN && Pow2(64) == U64_SPAN
  {
    assert Pow2(4) == 16;
    hide Pow2;
    Pow2Double(4, 16);
    Pow2Double(8, 256);
    Pow2Double(16, 65536);
    Pow2Double(32, U32_SPAN);
  }

  /** `g` shifted left by `n` bits. */
  function Shifted(g: nat, n: nat): (x: nat) {
    assert g * Pow2(n) >= 0 by { ProductIsNat(g, Pow2(n)); }
    g * Pow2(n)
  }

  lemma ProductIsNat(a: nat, b: nat)
    ensures a * b >= 0
  {
  }

  /** Conversion to u64. */
  function Wrap64(x: nat): nat { x % U64_SPAN }

  lemma Wrap64Laws(a: nat, b: nat)
    ensures Wrap64(Wrap64(a) + b) == Wrap64(a + b)
    ensures a < U64_SPAN ==> Wrap64(a) == a
  {
    assert a + b == Wrap64(a) + b + U64_SPAN * (a / U64_SPAN);
    ModIgnoresMultiples(Wrap64(a) + b, U64_SPAN, a / U64_SPAN);
  }
}

/** What the stores share: a blob's bytes, and the pins that keep an origin. */
module Stores {
  import opened Numbers

  datatype Blob = Blob(data: Bytes)

  datatype PinState = Pending | Active | Released

  type Pins = map<string, seq<PinState>>

  predicate AnyActive(pins: Pins, o: string) { o in pins && exists i :: 0 <= i < |pins[o]| && pins[o][i] != Released }
}
