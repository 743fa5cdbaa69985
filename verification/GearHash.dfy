/** 64-bit wrapping arithmetic and the gear hash. */
module GearHash {
  import opened Numbers

  function BitAnd(a: nat, b: nat): nat {
    if a == 0 || b == 0 then 0 else 2 * BitAnd(a / 2, b / 2) + (if a % 2 == 1 && b % 2 == 1 then 1 else 0)
  }

  function BitXor(a: nat, b: nat): nat
    decreases a + b
  {
    if a == 0 then b else if b == 0 then a else 2 * BitXor(a / 2, b / 2) + (a % 2 + b % 2) % 2
  }

  /** `64 - leading_zeros`. */
  function BitLength(n: nat): nat { if n == 0 then 0 else 1 + BitLength(n / 2) }

  /** Shifts by 13 and 17 to the left, by 7 to the right, on 64 bits. */
  function XorShift(s0: nat): nat {
    var s1 := BitXor(s0, s0 * 8192 % U64_SPAN);
    var s2 := BitXor(s1, s1 / 128);
    BitXor(s2, s2 * 131072 % U64_SPAN)
  }

  /** The generator's state after `n` rounds from the seed 42. */
  function TableState(n: nat): nat { if n == 0 then 42 else XorShift(TableState(n - 1)) }

  function Gear(b: Byte): nat { TableState(b + 1) }

  lemma XorHalves(a: nat, b: nat)
    ensures BitXor(a, b) % 2 == (a % 2 + b % 2) % 2 && BitXor(a, b) / 2 == BitXor(a / 2, b / 2)
  {
    if a != 0 && b != 0 {
      var x, r := BitXor(a / 2, b / 2), (a % 2 + b % 2) % 2;
      assert BitXor(a, b) == 2 * x + r;
      hide BitXor;
      assert (2 * x + r) / 2 == x && (2 * x + r) % 2 == r;
    }
  }

  function Up(n: nat, k: nat): nat { if k == 0 then n else 2 * Up(n, k - 1) }

  function High(n: nat, k: nat): nat { if k == 0 then n else High(n / 2, k - 1) }

  lemma UpFour(n: nat, k: nat)
    ensures Up(n, k + 4) == 16 * Up(n, k)
    ensures Up(n, k + 1) == 2 * Up(n, k) && Up(n, 0) == n
  {
    assert Up(n, k + 4) == 2 * Up(n, k + 3) == 4 * Up(n, k + 2) == 8 * Up(n, k + 1);
  }

  lemma ShiftsAre(n: nat)
    ensures n * 8192 == Up(n, 13) && n * 131072 == Up(n, 17)
    ensures n / 128 == High(n, 7)
  {
    UpFour(n, 0);
    UpFour(n, 4);
    UpFour(n, 8);
    UpFour(n, 12);
    UpFour(n, 16);
    SevenHalves(n);
    hide High, Up;
  }

  lemma SevenHalves(n: nat)
    ensures n / 128 == High(n, 7)
  {
    var n2, n4, n8, n16, n32, n64 := n / 2, n / 4, n / 8, n / 16, n / 32, n / 64;
    assert n2 / 2 == n4 && n4 / 2 == n8 && n8 / 2 == n16 && n16 / 2 == n32 && n32 / 2 == n64 && n64 / 2 == n / 128;
    assert High(n, 7) == High(n2, 6) == High(n4, 5);
    assert High(n4, 5) == High(n8, 4) == High(n16, 3);
    assert High(n16, 3) == High(n32, 2) == High(n64, 1) == n64 / 2;
  }

  /** Bit `i` of `n`. */
  function Bit(n: nat, i: nat): nat { if i == 0 then n % 2 else Bit(n / 2, i - 1) }

  function XorOf(x: nat, y: nat): nat { if x == y then 0 else 1 }

  lemma {:induction false} BitOfZero(i: nat)
    ensures Bit(0, i) == 0
  {
    if i > 0 {
      BitOfZero(i - 1);
    }
  }

  lemma {:induction false} BitOfXor(a: nat, b: nat, i: nat)
    ensures Bit(BitXor(a, b), i) == XorOf(Bit(a, i), Bit(b, i))
  {
    hide BitXor;
    XorHalves(a, b);
    if i > 0 {
      BitOfXor(a / 2, b / 2, i - 1);
    }
  }

  lemma {:induction false} BitIsBit(n: nat, i: nat)
    ensures Bit(n, i) < 2
  {
    if i > 0 {
      BitIsBit(n / 2, i - 1);
    }
  }

  lemma {:induction false} BitOfUp(n: nat, k: nat, i: nat)
    ensures Bit(Up(n, k), i) == if i < k then 0 else Bit(n, i - k)
  {
    if k > 0 {
      assert Up(n, k) / 2 == Up(n, k - 1);
      if i > 0 {
        BitOfUp(n, k - 1, i - 1);
      }
    }
  }

  lemma {:induction false} BitOfHigh(n: nat, k: nat, i: nat)
    ensures Bit(High(n, k), i) == Bit(n, i + k)
  {
    if k > 0 {
      BitOfHigh(n / 2, k - 1, i);
    }
  }

  lemma NoLowBits(n: nat)
    ensures LowBits(n, 0) == 0
  {
  }

  lemma {:induction false} BitOfLow(n: nat, k: nat, i: nat)
    ensures Bit(LowBits(n, k), i) == if i < k then Bit(n, i) else 0
  {
    hide LowBits;
    if k == 0 {
      BitOfZero(i);
      NoLowBits(n);
    } else {
      LowBitsStep(n, k);
      if i > 0 {
        BitOfLow(n / 2, k - 1, i - 1);
      }
    }
  }

  /** The bits after each of the three shifts of a round. */
  function FirstShift(s: nat, i: nat): nat { XorOf(Bit(s, i), if i >= 13 then Bit(s, i - 13) else 0) }

  function SecondShift(s: nat, i: nat): nat { XorOf(FirstShift(s, i), if i + 7 < 64 then FirstShift(s, i + 7) else 0) }

  function ThirdShift(s: nat, i: nat): nat { XorOf(SecondShift(s, i), if i >= 17 then SecondShift(s, i - 17) else 0) }

  lemma WordBits(n: nat, i: nat)
    ensures Bit(n % U64_SPAN, i) == if i < 64 then Bit(n, i) else 0
  {
    Pow2Literals();
    BitOfLow(n, 64, i);
    assert LowBits(n, 64) == n % U64_SPAN;
    hide Pow2, Bit;
  }

  lemma WordBit(s: nat, i: nat)
    requires s < U64_SPAN
    ensures i >= 64 ==> Bit(s, i) == 0
  {
    WordBits(s, i);
    hide Bit;
  }

  lemma {:induction false} XorBelow(a: nat, b: nat, k: nat)
    requires a < Pow2(k) && b < Pow2(k)
    ensures BitXor(a, b) < Pow2(k)
  {
    if k > 0 {
      XorHalves(a, b);
      XorBelow(a / 2, b / 2, k - 1);
    }
  }

  lemma XorIsWord(a: nat, b: nat)
    requires a < U64_SPAN && b < U64_SPAN
    ensures BitXor(a, b) < U64_SPAN
  {
    Pow2Literals();
    XorBelow(a, b, 64);
    hide Pow2, BitXor;
  }

  lemma BothZero()
    ensures XorOf(0, 0) == 0
  {
  }

  lemma BitAfterLeft(s: nat, x: nat, k: nat, i: nat)
    requires s < U64_SPAN && x == BitXor(s, Up(s, k) % U64_SPAN)
    ensures x < U64_SPAN && Bit(x, i) == if i < 64 then XorOf(Bit(s, i), if i >= k then Bit(s, i - k) else 0) else 0
  {
    hide Bit, BitXor, Up, XorOf;
    var t := Up(s, k) % U64_SPAN;
    BitOfXor(s, t, i);
    WordBits(Up(s, k), i);
    WordBit(s, i);
    BitOfUp(s, k, i);
    BothZero();
    XorIsWord(s, t);
  }

  lemma BitOfQuotient(s: nat, i: nat)
    ensures Bit(s / 128, i) == Bit(s, i + 7)
  {
    hide High, Bit;
    SevenHalves(s);
    BitOfHigh(s, 7, i);
  }

  lemma BitAfterRight(s: nat, x: nat, i: nat)
    requires s < U64_SPAN && x == BitXor(s, s / 128)
    ensures x < U64_SPAN && Bit(x, i) == if i < 64 then XorOf(Bit(s, i), if i + 7 < 64 then Bit(s, i + 7) else 0) else 0
  {
    hide Bit, BitXor, XorOf;
    var t := s / 128;
    BitOfXor(s, t, i);
    BitOfQuotient(s, i);
    WordBit(s, i);
    WordBit(s, i + 7);
    BothZero();
    XorIsWord(s, t);
  }

  /** One round of the generator, bit by bit. */
  lemma RoundBits(s: nat, i: nat)
    requires s < U64_SPAN
    ensures XorShift(s) < U64_SPAN && Bit(XorShift(s), i) == if i < 64 then ThirdShift(s, i) else 0
  {
    hide Bit, BitXor, Up, High;
    var s1 := BitXor(s, s * 8192 % U64_SPAN);
    var s2 := BitXor(s1, s1 / 128);
    ShiftsAre(s);
    ShiftsAre(s2);
    BitAfterLeft(s, s1, 13, i);
    BitAfterLeft(s, s1, 13, i + 7);
    BitAfterRight(s1, s2, i);
    BitAfterLeft(s2, XorShift(s), 17, i);
    if i >= 17 {
      BitAfterLeft(s, s1, 13, i - 17);
      BitAfterLeft(s, s1, 13, i - 10);
      BitAfterRight(s1, s2, i - 17);
    }
  }

  lemma {:induction false} TableIsWords(n: nat)
    ensures TableState(n) < U64_SPAN
  {
    if n > 0 {
      TableIsWords(n - 1);
      RoundBits(TableState(n - 1), 0);
    }
    hide XorShift;
  }

  /** The table, bit by bit: the first entry is one round from 42, every other one round from the entry before. */
  lemma GearBits(b: Byte, i: nat)
    ensures Gear(b) < U64_SPAN && Bit(Gear(b), i) == if i < 64 then ThirdShift(if b == 0 then 42 else Gear(b - 1), i) else 0
  {
    TableIsWords(b);
    RoundBits(TableState(b), i);
    hide XorShift, Bit, ThirdShift;
  }

  /** A number is known by its bits. */
  lemma {:induction false} BitsTell(m: nat, n: nat)
    requires forall i: nat :: Bit(m, i) == Bit(n, i)
    ensures m == n
    decreases m + n
  {
    if m + n > 0 {
      assert Bit(m, 0) == Bit(n, 0);
      forall i: nat ensures Bit(m / 2, i) == Bit(n / 2, i) {
        assert Bit(m, i + 1) == Bit(n, i + 1);
      }
      BitsTell(m / 2, n / 2);
    }
  }

  /** `(hash << 1).wrapping_add(GEAR_TABLE[b])`. */
  function HashStep(hash: nat, b: Byte): nat { (2 * hash + Gear(b)) % U64_SPAN }

  /** The hash once data[lo..hi] is consumed. */
  function HashOf(data: Bytes, lo: nat, hi: nat): nat
    requires lo <= hi <= |data|
  {
    if lo == hi then 0 else HashStep(HashOf(data, lo, hi - 1), data[hi - 1])
  }

  /** Sum of Gear(data[hi-1-j]) * 2^j over j < n: the last `n` bytes before `hi`. */
  function WindowSum(data: Bytes, hi: nat, n: nat): nat
    requires n <= hi <= |data|
  {
    if n == 0 then 0 else WindowSum(data, hi, n - 1) + Shifted(Gear(data[hi - n]), n - 1)
  }

  lemma {:induction false} WindowShift(data: Bytes, hi: nat, n: nat)
    requires 0 < n <= hi <= |data|
    ensures WindowSum(data, hi, n) == Gear(data[hi - 1]) + 2 * WindowSum(data, hi - 1, n - 1)
  {
    hide Gear;
    if n == 1 {
      assert WindowSum(data, hi, 1) == WindowSum(data, hi, 0) + Shifted(Gear(data[hi - 1]), 0);
    } else {
      WindowShift(data, hi, n - 1);
      var g := Gear(data[hi - n]);
      assert WindowSum(data, hi - 1, n - 1) == WindowSum(data, hi - 1, n - 2) + Shifted(g, n - 2);
      MulSwap(g, 2, Pow2(n - 2));
    }
  }

  lemma {:induction false} HashIsFullSum(data: Bytes, lo: nat, hi: nat)
    requires lo <= hi <= |data|
    ensures HashOf(data, lo, hi) == WindowSum(data, hi, hi - lo) % U64_SPAN
  {
    hide Gear;
    if lo < hi {
      HashIsFullSum(data, lo, hi - 1);
      WindowShift(data, hi, hi - lo);
      WrapOnce(WindowSum(data, hi - 1, hi - 1 - lo), Gear(data[hi - 1]));
      hide WindowSum;
    }
  }

  /** Wrapping around before the step changes nothing. */
  lemma WrapOnce(w: nat, g: nat)
    ensures (2 * (w % U64_SPAN) + g) % U64_SPAN == (2 * w + g) % U64_SPAN
  {
    var h := w % U64_SPAN;
    assert 2 * w + g == (2 * h + g) + U64_SPAN * (2 * (w / U64_SPAN));
    ModIgnoresMultiples(2 * h + g, U64_SPAN, 2 * (w / U64_SPAN));
  }

  lemma {:induction false} OlderBytesVanish(data: Bytes, hi: nat, n: nat, k: nat)
    requires k <= n <= hi <= |data|
    ensures WindowSum(data, hi, n) % Pow2(k) == WindowSum(data, hi, k) % Pow2(k)
  {
    hide Gear, Pow2;
    if k < n {
      OlderBytesVanish(data, hi, n - 1, k);
      Pow2Add(k, n - 1 - k);
      var g := Gear(data[hi - n]);
      MulSwap(g, Pow2(k), Pow2(n - 1 - k));
      ModIgnoresMultiples(WindowSum(data, hi, n - 1), Pow2(k), g * Pow2(n - 1 - k));
    }
  }

  /** Despite the 64-bit wrap-around, the low k bits depend on the last k bytes only. */
  lemma LowBitsAreWindow(data: Bytes, lo: nat, hi: nat, k: nat)
    requires lo <= hi <= |data| && k <= hi - lo && k <= 64
    ensures HashOf(data, lo, hi) % Pow2(k) == WindowSum(data, hi, k) % Pow2(k)
  {
    hide Pow2, WindowSum, HashOf;
    HashIsFullSum(data, lo, hi);
    Pow2Literals();
    Pow2Add(k, 64 - k);
    assert U64_SPAN == Pow2(k) * Pow2(64 - k);
    ModOfProduct(WindowSum(data, hi, hi - lo), Pow2(k), Pow2(64 - k));
    OlderBytesVanish(data, hi, hi - lo, k);
  }

  lemma AndOdd(h: nat, q: nat)
    ensures BitAnd(h, 2 * q + 1) == 2 * BitAnd(h / 2, q) + h % 2
  {
    assert (2 * q + 1) / 2 == q && (2 * q + 1) % 2 == 1;
  }

  function LowBits(h: nat, k: nat): nat { h % Pow2(k) }

  lemma LowBitsStep(h: nat, k: nat)
    requires k > 0
    ensures LowBits(h, k) == 2 * LowBits(h / 2, k - 1) + h % 2
  {
    HalfMod(h, Pow2(k - 1));
  }

  lemma {:induction false} AndMaskIsLow(h: nat, k: nat)
    ensures BitAnd(h, Pow2(k) - 1) == LowBits(h, k)
  {
    hide LowBits;
    if k > 0 {
      AndMaskIsLow(h / 2, k - 1);
      LowBitsStep(h, k);
      AndOdd(h, Pow2(k - 1) - 1);
      hide BitAnd;
    } else {
      NoLowBits(h);
    }
  }

  /** `&` with a run of k low one bits is the remainder modulo 2^k. */
  lemma AndMaskIsMod(h: nat, k: nat)
    ensures BitAnd(h, Pow2(k) - 1) == h % Pow2(k)
  {
    hide BitAnd, Pow2;
    AndMaskIsLow(h, k);
  }

  /** The bit length is one more than the rounded-down logarithm. */
  lemma {:induction false} BitLengthIsLog(n: nat)
    requires n > 0
    ensures Pow2(BitLength(n) - 1) <= n < Pow2(BitLength(n))
  {
    if n > 1 {
      BitLengthIsLog(n / 2);
    }
  }

  lemma {:induction false} BitLengthBound(n: nat, m: nat)
    requires n < Pow2(m)
    ensures BitLength(n) <= m
  {
    if n > 0 {
      BitLengthBound(n / 2, m - 1);
    }
  }

  lemma {:induction false} HashOfSameBytes(a: Bytes, b: Bytes, lo: nat, hi: nat)
    requires lo <= hi <= |a| && hi <= |b| && a[..hi] == b[..hi]
    ensures HashOf(a, lo, hi) == HashOf(b, lo, hi)
  {
    hide Gear;
    if lo < hi {
      assert a[..hi - 1] == a[..hi][..hi - 1] == b[..hi - 1];
      assert a[hi - 1] == a[..hi][hi - 1] == b[hi - 1];
      HashOfSameBytes(a, b, lo, hi - 1);
    }
  }

  lemma {:induction false} WindowOfSameBytes(a: Bytes, i: nat, b: Bytes, j: nat, k: nat)
    requires k <= i <= |a| && k <= j <= |b| && a[i - k..i] == b[j - k..j]
    ensures WindowSum(a, i, k) == WindowSum(b, j, k)
  {
    hide Gear;
    if k > 0 {
      assert a[i - k + 1..i] == a[i - k..i][1..] == b[j - k + 1..j];
      assert a[i - k] == a[i - k..i][0] == b[j - k];
      WindowOfSameBytes(a, i, b, j, k - 1);
    }
  }
}
