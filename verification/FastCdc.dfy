/** The content-defined chunker. */
module FastCdc {
  import opened Numbers
  import opened GearHash

  datatype Sizes = Sizes(minSize: nat, avgSize: nat, maxSize: nat) {
    /** What the constructor asserts. */
    predicate Valid() { minSize < avgSize < maxSize < U32_SPAN }

    /** The bits the mask keeps: the logarithm of `avgSize`, rounded down. */
    function MaskBits(): (k: nat)
      requires Valid()
    {
      assert BitLength(avgSize) >= 1;
      BitLength(avgSize) - 1
    }

    /** `(1 << (bits - 1)) - 1`. */
    function Mask(): nat
      requires Valid()
    {
      Pow2(MaskBits()) - 1
    }
  }

  /** The cut test after byte `i` of a chunk whose hashing starts at `lo`. */
  predicate Hit(s: Sizes, data: Bytes, lo: nat, i: nat)
    requires s.Valid() && lo <= i < |data|
  {
    BitAnd(HashOf(data, lo, i + 1), s.Mask()) == 0
  }

  function First(s: Sizes, data: Bytes): nat { Min(s.minSize, |data|) }

  function Last(s: Sizes, data: Bytes): nat { Min(s.maxSize, |data|) }

  /** `cut` is the first hit in the window from `First` to `Last`, or the forced cut at its end. */
  ghost predicate IsCut(s: Sizes, data: Bytes, cut: nat)
    requires s.Valid()
  {
    var lo, hi := First(s, data), Last(s, data);
    && lo <= cut <= hi
    && (forall i :: lo <= i < cut - 1 ==> !Hit(s, data, lo, i))
    && (if cut < hi then cut > lo && Hit(s, data, lo, cut - 1) else cut == hi)
  }

  function CutFrom(s: Sizes, data: Bytes, i: nat): (cut: nat)
    requires s.Valid() && First(s, data) <= i <= Last(s, data)
    ensures i <= cut <= Last(s, data) && (i < Last(s, data) ==> i < cut)
    decreases Last(s, data) - i
  {
    if i == Last(s, data) then i
    else if Hit(s, data, First(s, data), i) then i + 1
    else CutFrom(s, data, i + 1)
  }

  function CutPoint(s: Sizes, data: Bytes): (cut: nat)
    requires s.Valid()
    ensures cut <= |data| && (data != [] ==> 0 < cut)
  {
    CutFrom(s, data, First(s, data))
  }

  lemma {:induction false} CutFromIsFirst(s: Sizes, data: Bytes, i: nat)
    requires s.Valid() && First(s, data) <= i <= Last(s, data)
    ensures forall j :: i <= j < CutFrom(s, data, i) - 1 ==> !Hit(s, data, First(s, data), j)
    ensures CutFrom(s, data, i) < Last(s, data) ==> Hit(s, data, First(s, data), CutFrom(s, data, i) - 1)
    decreases Last(s, data) - i
  {
    hide Hit;
    if i < Last(s, data) && !Hit(s, data, First(s, data), i) {
      CutFromIsFirst(s, data, i + 1);
    }
  }

  lemma CutPointIsCut(s: Sizes, data: Bytes)
    requires s.Valid()
    ensures IsCut(s, data, CutPoint(s, data))
  {
    CutFromIsFirst(s, data, First(s, data));
    hide Hit;
  }

  /** The first hit, or the forced cut, determines the cut. */
  lemma CutIsUnique(s: Sizes, data: Bytes, c: nat)
    requires s.Valid()
    ensures IsCut(s, data, c) <==> c == CutPoint(s, data)
  {
    hide Hit;
    CutPointIsCut(s, data);
  }

  /** `cut_point`. */
  method FindCut(s: Sizes, data: Bytes) returns (cut: nat)
    requires s.Valid()
    ensures cut == CutPoint(s, data)
  {
    hide HashStep, BitAnd;
    var lo := Min(s.minSize, |data|);
    var max := Min(s.maxSize, |data|);
    var mask := s.Mask();
    var hash := 0;
    var i := lo;
    while i < max
      invariant lo <= i <= max
      invariant hash == HashOf(data, lo, i)
      invariant CutPoint(s, data) == CutFrom(s, data, i)
    {
      hash := HashStep(hash, data[i]);
      if BitAnd(hash, mask) == 0 {
        return i + 1;
      }
      i := i + 1;
    }
    return max;
  }

  /** The contents of the chunks of a non-empty payload. */
  function Split(s: Sizes, data: Bytes): (pieces: seq<Bytes>)
    requires s.Valid()
    decreases |data|
  {
    if data == [] then []
    else
      var cut := CutPoint(s, data);
      [data[..cut]] + Split(s, data[cut..])
  }

  function Join(pieces: seq<Bytes>): Bytes {
    if pieces == [] then [] else pieces[0] + Join(pieces[1..])
  }

  /** Where piece `i` starts. */
  function Offset(pieces: seq<Bytes>, i: nat): nat
    requires i <= |pieces|
  {
    if i == 0 then 0 else |pieces[0]| + Offset(pieces[1..], i - 1)
  }

  lemma {:induction false} OffsetStep(pieces: seq<Bytes>, i: nat)
    requires i < |pieces|
    ensures Offset(pieces, i + 1) == Offset(pieces, i) + |pieces[i]|
  {
    if i > 0 {
      OffsetStep(pieces[1..], i - 1);
    }
  }

  lemma CutInRange(s: Sizes, data: Bytes)
    requires s.Valid()
    ensures CutPoint(s, data) <= s.maxSize && CutPoint(s, data) <= |data|
    ensures CutPoint(s, data) < |data| ==> s.minSize < CutPoint(s, data)
  {
    hide CutFrom, Hit;
    CutPointIsCut(s, data);
  }

  lemma {:induction false} SplitCovers(s: Sizes, data: Bytes)
    requires s.Valid()
    ensures Join(Split(s, data)) == data
    ensures forall i :: 0 <= i < |Split(s, data)| ==> 0 < |Split(s, data)[i]| <= s.maxSize
    ensures forall i :: 0 <= i < |Split(s, data)| - 1 ==> s.minSize < |Split(s, data)[i]|
    ensures data != [] ==> Split(s, data) != []
    decreases |data|
  {
    hide IsCut, CutFrom, Hit, HashOf;
    if data != [] {
      var cut := CutPoint(s, data);
      CutInRange(s, data);
      SplitCovers(s, data[cut..]);
      assert data == data[..cut] + data[cut..];
      assert data[cut..] == [] <==> cut == |data|;
    }
  }

  // ----- The hash test depends on a window -----

  lemma MaskBitsAreLog(s: Sizes)
    requires s.Valid()
    ensures Pow2(s.MaskBits()) <= s.avgSize < Pow2(s.MaskBits() + 1)
    ensures s.MaskBits() < 32
  {
    BitLengthIsLog(s.avgSize);
    Pow2Literals();
    BitLengthBound(s.avgSize, 32);
  }

  /** `c` is the logarithm of `n`, rounded up. */
  ghost predicate RoundedUpLog(n: nat, c: nat) { n <= Pow2(c) && (c > 0 ==> Pow2(c - 1) < n) }

  lemma {:induction false} Pow2Grows(a: nat, b: nat)
    requires a <= b
    ensures Pow2(a) <= Pow2(b)
  {
    if a < b {
      Pow2Grows(a, b - 1);
    }
  }

  /** The source's comment promises one bit less than the rounded-up logarithm; that is so except for powers of two. */
  lemma MaskPromiseIff(s: Sizes, c: nat)
    requires s.Valid() && RoundedUpLog(s.avgSize, c)
    ensures s.MaskBits() == c - 1 <==> !exists k: nat :: s.avgSize == Pow2(k)
  {
    MaskBitsAreLog(s);
    var k := s.MaskBits();
    hide Sizes.MaskBits;
    if c > k + 1 {
      Pow2Grows(k + 1, c - 1);
    } else if c < k {
      Pow2Grows(c, k);
    }
    if l: nat :| s.avgSize == Pow2(l) {
      if l > k {
        Pow2Grows(k + 1, l);
      } else if l < k {
        Pow2Grows(l + 1, k);
      }
    }
  }

  const DEFAULT_SIZES := Sizes(16 * 1024, 64 * 1024, 256 * 1024)

  /** The default average is such a power: its mask keeps 16 bits, not 15. */
  lemma DefaultMask()
    ensures DEFAULT_SIZES.Valid() && RoundedUpLog(DEFAULT_SIZES.avgSize, 16) && DEFAULT_SIZES.MaskBits() == 16
  {
    assert Pow2(16) == DEFAULT_SIZES.avgSize by {
      assert Pow2(4) == 16;
      Pow2Add(4, 4);
      Pow2Add(8, 8);
    }
    MaskBitsAreLog(DEFAULT_SIZES);
    var k := DEFAULT_SIZES.MaskBits();
    hide Sizes.MaskBits;
    if k > 16 {
      Pow2Grows(17, k);
    } else if k < 16 {
      Pow2Grows(k + 1, 16);
    }
  }

  /** Once k bytes past the minimum are hashed, the cut test is a test of the last k bytes. */
  lemma HitIsWindowTest(s: Sizes, data: Bytes, lo: nat, i: nat)
    requires s.Valid() && lo <= i < |data| && s.MaskBits() <= i + 1 - lo
    ensures Hit(s, data, lo, i) <==> WindowSum(data, i + 1, s.MaskBits()) % Pow2(s.MaskBits()) == 0
  {
    MaskBitsAreLog(s);
    LowBitsAreWindow(data, lo, i + 1, s.MaskBits());
    AndMaskIsMod(HashOf(data, lo, i + 1), s.MaskBits());
  }

  /** Equal windows are tested alike, wherever the two chunks started. */
  lemma EqualWindowsHitAlike(s: Sizes, a: Bytes, lo: nat, i: nat, b: Bytes, lo': nat, j: nat)
    requires s.Valid() && lo <= i < |a| && lo' <= j < |b|
    requires var k := s.MaskBits(); k <= i + 1 - lo && k <= j + 1 - lo' && a[i + 1 - k..i + 1] == b[j + 1 - k..j + 1]
    ensures Hit(s, a, lo, i) <==> Hit(s, b, lo', j)
  {
    hide Hit, WindowSum, HashOf;
    HitIsWindowTest(s, a, lo, i);
    HitIsWindowTest(s, b, lo', j);
    WindowOfSameBytes(a, i + 1, b, j + 1, s.MaskBits());
  }

  // ----- Edit locality -----

  /** The first `e` bytes exist in both and agree. */
  predicate SharePrefix(a: Bytes, b: Bytes, e: nat) { e <= |a| && e <= |b| && a[..e] == b[..e] }

  /** A cut before the end of `a` is decided by the bytes up to it. */
  lemma CutSeesOnlyItsChunk(s: Sizes, a: Bytes, b: Bytes)
    requires s.Valid() && CutPoint(s, a) < |a|
    requires SharePrefix(a, b, CutPoint(s, a))
    ensures CutPoint(s, b) == CutPoint(s, a)
  {
    hide CutFrom, CutPoint, HashOf, BitAnd;
    var c, lo := CutPoint(s, a), First(s, a);
    CutPointIsCut(s, a);
    CutInRange(s, a);
    assert lo == s.minSize && First(s, b) == s.minSize;
    forall i | lo <= i < c ensures Hit(s, b, lo, i) <==> Hit(s, a, lo, i) {
      assert a[..i + 1] == a[..c][..i + 1] == b[..i + 1];
      HashOfSameBytes(a, b, lo, i + 1);
    }
    hide Hit;
    CutIsUnique(s, b, c);
  }

  /** The first m chunks stay when they end inside the common prefix, before the end of the payload. */
  lemma {:induction false} PrefixChunksStay(s: Sizes, a: Bytes, b: Bytes, m: nat)
    requires s.Valid() && m <= |Split(s, a)|
    requires var e := Offset(Split(s, a), m); m > 0 ==> e < |a| && SharePrefix(a, b, e)
    ensures m <= |Split(s, b)| && Split(s, b)[..m] == Split(s, a)[..m]
  {
    hide IsCut, CutPoint, Split, Offset, SharePrefix;
    if m > 0 {
      var e, c := Offset(Split(s, a), m), CutPoint(s, a);
      SplitHead(s, a, m);
      SamePrefixes(a, b, e, c);
      CutSeesOnlyItsChunk(s, a, b);
      PrefixChunksStay(s, a[c..], b[c..], m - 1);
      SplitHead(s, b, 1);
      SameHeads(a[..c], Split(s, a[c..]), Split(s, b[c..]), m);
    }
  }

  lemma SameHeads<T>(x: T, rest: seq<T>, rest': seq<T>, m: nat)
    requires 0 < m <= |rest| + 1 && m <= |rest'| + 1 && rest[..m - 1] == rest'[..m - 1]
    ensures ([x] + rest)[..m] == ([x] + rest')[..m]
  {
    assert ([x] + rest)[..m] == [x] + rest[..m - 1];
    assert ([x] + rest')[..m] == [x] + rest'[..m - 1];
  }

  lemma SplitHead(s: Sizes, a: Bytes, m: nat)
    requires s.Valid() && a != [] && 0 < m
    ensures 0 < CutPoint(s, a) <= |a| && Split(s, a) == [a[..CutPoint(s, a)]] + Split(s, a[CutPoint(s, a)..])
    ensures m <= |Split(s, a)| ==> Offset(Split(s, a), m) == CutPoint(s, a) + Offset(Split(s, a[CutPoint(s, a)..]), m - 1)
  {
    assert Split(s, a)[1..] == Split(s, a[CutPoint(s, a)..]);
  }

  lemma SamePrefixes(a: Bytes, b: Bytes, e: nat, c: nat)
    requires SharePrefix(a, b, e) && c <= e
    ensures SharePrefix(a, b, c) && SharePrefix(a[c..], b[c..], e - c) && a[..c] == b[..c]
  {
    assert a[..c] == a[..e][..c] == b[..e][..c] == b[..c];
    assert a[c..][..e - c] == a[..e][c..] == b[..e][c..] == b[c..][..e - c];
  }

  /** The bytes after the first `i` chunks. */
  function Remaining(s: Sizes, a: Bytes, i: nat): Bytes
    requires s.Valid()
    decreases i
  {
    if i == 0 || a == [] then a else Remaining(s, a[CutPoint(s, a)..], i - 1)
  }

  lemma {:induction false} ChunksOfRemaining(s: Sizes, a: Bytes, i: nat)
    requires s.Valid() && i <= |Split(s, a)|
    ensures Split(s, a)[i..] == Split(s, Remaining(s, a, i))
    decreases i
  {
    hide IsCut, CutPoint, Split;
    if i > 0 {
      assert a != [] by { EmptySplit(s); }
      SplitHead(s, a, 1);
      ChunksOfRemaining(s, a[CutPoint(s, a)..], i - 1);
      DropOfCons(a[..CutPoint(s, a)], Split(s, a[CutPoint(s, a)..]), i);
    }
  }

  lemma DropOfCons<T>(x: T, rest: seq<T>, i: nat)
    requires 0 < i <= |rest| + 1
    ensures ([x] + rest)[i..] == rest[i - 1..]
  {
  }

  lemma {:induction false} RemainingIsSuffix(s: Sizes, a: Bytes, i: nat)
    requires s.Valid() && i <= |Split(s, a)|
    ensures Offset(Split(s, a), i) <= |a| && Remaining(s, a, i) == a[Offset(Split(s, a), i)..]
    decreases i
  {
    hide IsCut, CutPoint, Split;
    if i > 0 {
      assert a != [] by { EmptySplit(s); }
      var c := CutPoint(s, a);
      SplitHead(s, a, i);
      RemainingIsSuffix(s, a[c..], i - 1);
    }
  }

  lemma EmptySplit(s: Sizes)
    requires s.Valid()
    ensures Split(s, []) == []
  {
  }

  /** From a boundary on, the chunks are those of the remaining bytes alone. */
  lemma ChunksFromBoundary(s: Sizes, a: Bytes, i: nat)
    requires s.Valid() && i <= |Split(s, a)|
    ensures Offset(Split(s, a), i) <= |a|
    ensures Split(s, a)[i..] == Split(s, a[Offset(Split(s, a), i)..])
  {
    hide Split, Offset, Remaining;
    ChunksOfRemaining(s, a, i);
    RemainingIsSuffix(s, a, i);
  }

  /** A cut found by the hash in `a` is one in `b` where the same window ends, unless `b` is cut before it. */
  lemma CutResyncs(s: Sizes, a: Bytes, b: Bytes, q: nat)
    requires s.Valid() && CutPoint(s, a) < Last(s, a) && q <= CutPoint(s, b)
    requires var (p, k) := (CutPoint(s, a), s.MaskBits());
             && First(s, a) + k <= p && First(s, b) + k <= q && s.minSize < q <= |b|
             && a[p - k..p] == b[q - k..q]
    ensures CutPoint(s, b) == q
  {
    hide CutPoint, CutFrom, Hit, Sizes.MaskBits;
    CutPointIsCut(s, a);
    CutPointIsCut(s, b);
    EqualWindowsHitAlike(s, a, First(s, a), CutPoint(s, a) - 1, b, First(s, b), q - 1);
  }

  /** Piece `i` is cut from the bytes that remain before it. */
  lemma PieceAt(s: Sizes, data: Bytes, i: nat)
    requires s.Valid() && i < |Split(s, data)|
    ensures Offset(Split(s, data), i) <= |data| && Offset(Split(s, data), i + 1) == Offset(Split(s, data), i) + |Split(s, data)[i]|
    ensures |Split(s, data)[i]| == CutPoint(s, data[Offset(Split(s, data), i)..])
  {
    hide CutPoint, Split, Offset;
    ChunksFromBoundary(s, data, i);
    OffsetStep(Split(s, data), i);
    var rest := data[Offset(Split(s, data), i)..];
    assert Split(s, data)[i..][0] == Split(s, data)[i];
    assert rest != [] by { EmptySplit(s); }
    SplitHead(s, rest, 1);
  }

  /** After an edit the chunking meets the old one again at a hash cut of the old one, if a window before that cut lies behind
      the edit, and the new chunk there began early enough and reaches it; from then on all chunks are the old ones. */
  lemma Resynchronises(s: Sizes, pre: Bytes, x: Bytes, y: Bytes, suf: Bytes, i: nat, j: nat)
    requires s.Valid()
    requires var (a, b) := (Split(s, pre + x + suf), Split(s, pre + y + suf));
             && i < |a| && j < |b|
             && var (k, end) := (s.MaskBits(), Offset(a, i + 1) - |pre + x|);
             && k <= end < |suf| && s.minSize + k <= |a[i]| < s.maxSize
             && Offset(b, j) + s.minSize + k <= |pre + y| + end <= Offset(b, j + 1) && Offset(b, j) + s.minSize < |pre + y| + end
    ensures var (a, b) := (Split(s, pre + x + suf), Split(s, pre + y + suf));
            Offset(b, j + 1) - |pre + y| == Offset(a, i + 1) - |pre + x| && b[j + 1..] == a[i + 1..]
  {
    hide Split, Offset, CutPoint, Sizes.MaskBits;
    var da, db := pre + x + suf, pre + y + suf;
    var a, b, k := Split(s, da), Split(s, db), s.MaskBits();
    PieceAt(s, da, i);
    PieceAt(s, db, j);
    var ra, rb := da[Offset(a, i)..], db[Offset(b, j)..];
    var p, end := |a[i]|, Offset(a, i + 1) - |pre + x|;
    var q := |pre + y| + end - Offset(b, j);
    Behind(pre + x, suf, Offset(a, i), end - k, end);
    Behind(pre + y, suf, Offset(b, j), end - k, end);
    CutResyncs(s, ra, rb, q);
    SameTail(s, pre, x, y, suf, i + 1, j + 1);
  }

  /** A window of the suffix, seen from offset `o` of the whole. */
  lemma Behind(before: Bytes, suf: Bytes, o: nat, lo: nat, hi: nat)
    requires lo <= hi <= |suf| && o <= |before| + lo
    ensures (before + suf)[o..][|before| + lo - o..|before| + hi - o] == suf[lo..hi]
  {
    assert (before + suf)[o..][|before| + lo - o..|before| + hi - o] == (before + suf)[|before| + lo..|before| + hi];
  }

  lemma SameTail(s: Sizes, pre: Bytes, x: Bytes, y: Bytes, suf: Bytes, i: nat, j: nat)
    requires s.Valid()
    requires var a, b := Split(s, pre + x + suf), Split(s, pre + y + suf);
             && i <= |a| && j <= |b|
             && Offset(a, i) >= |pre + x| && Offset(b, j) - |pre + y| == Offset(a, i) - |pre + x|
    ensures Split(s, pre + y + suf)[j..] == Split(s, pre + x + suf)[i..]
  {
    hide Split, Offset;
    var da, db := pre + x + suf, pre + y + suf;
    var a, b := Split(s, da), Split(s, db);
    ChunksFromBoundary(s, da, i);
    ChunksFromBoundary(s, db, j);
    var t := Offset(a, i) - |pre + x|;
    SuffixFrom(pre + x, suf, t);
    SuffixFrom(pre + y, suf, t);
  }

  lemma SuffixFrom(before: Bytes, suf: Bytes, t: nat)
    requires t <= |suf|
    ensures (before + suf)[|before| + t..] == suf[t..]
  {
  }

  /** An edit changes only the chunks between the last kept boundary before it and the first shared one after it. */
  lemma EditLocality(s: Sizes, pre: Bytes, x: Bytes, y: Bytes, suf: Bytes, m: nat, i: nat, j: nat)
    requires s.Valid()
    requires var a, b := Split(s, pre + x + suf), Split(s, pre + y + suf);
             && m <= i <= |a| && j <= |b|
             && Offset(a, m) <= |pre| && Offset(a, m) < |pre + x + suf|
             && Offset(a, i) >= |pre + x| && Offset(b, j) - |pre + y| == Offset(a, i) - |pre + x|
    ensures var a, b := Split(s, pre + x + suf), Split(s, pre + y + suf);
            m <= |b| && b[..m] == a[..m] && b[j..] == a[i..]
  {
    hide Split, Offset;
    var da, db := pre + x + suf, pre + y + suf;
    var e := Offset(Split(s, da), m);
    assert da[..e] == pre[..e] == db[..e];
    PrefixChunksStay(s, da, db, m);
    SameTail(s, pre, x, y, suf, i, j);
  }
}
