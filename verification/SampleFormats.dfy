/** Fixed-point formats that meet the laws the codec assumes. */
module SampleFormats {
  import opened Wrappers
  import opened Numbers
  import opened Vectors
  import opened Quantizer
  import opened Q8Codec
  import opened Stores
  import opened CompactPipeline
  import opened PinRegistry
  import opened WeightService

  const FINE := 0.00000000001
  const COARSE := 0.001

  /** The grid point below `x`, cut off at `top`. */
  function Point(x: real, step: real, top: nat): (k: nat)
    requires step > 0.0
    ensures k <= top
  {
    var k := (x / step).Floor;
    if k < 0 then 0 else if k > top then top else k
  }

  function Fine(x: real): (k: nat)
    ensures k < U32_SPAN
  {
    Point(x, FINE, U32_SPAN - 1)
  }

  function FineValue(k: nat): real { k as real * FINE }

  const LARGEST: real := FineValue(U32_SPAN - 1)

  function Round32(x: real): real { FineValue(Fine(x)) }

  /** Shifted so that half of the points are negative. */
  function Coarse(x: real): (k: nat)
    ensures k < 0x1_0000
  {
    Point(x + 32.0, COARSE, 0xFFFF)
  }

  function CoarseValue(k: int): real { k as real * COARSE - 32.0 }

  function Round16(x: real): real { CoarseValue(Coarse(x)) }

  function Bits16(x: real): Bytes { [Coarse(x) % 256, Coarse(x) / 256] }

  function From16(b: Bytes): real { if |b| == 2 then CoarseValue(b[0] as int + 256 * b[1] as int) else 0.0 }

  function U64(n: nat): Bytes { U32(n % U32_SPAN) + U32(n / U32_SPAN) }

  function FromU64(b: Bytes): nat
    requires |b| == 8
  {
    FromU32(b[..4]) + U32_SPAN * FromU32(b[4..])
  }

  function Bit(b: bool): Byte { if b then 1 else 0 }

  function HeaderBytes(h: Header): Bytes { U64(h.dim) + U64(h.memberCount) + [Bit(h.implicitIds), Bit(h.oneScale)] }

  function HeaderFrom(b: Bytes): Option<Header> {
    if |b| != 18 then None
    else Some(Header(FromU64(b[..8]), FromU64(b[8..16]), b[16] == 1, b[17] == 1))
  }

  const FIXED_POINT := Formats(
    LARGEST, Round32, x => U32(Fine(x)), b => FineValue(FromU32(b)),
    32.0, Round16, Bits16, From16,
    HeaderBytes, HeaderFrom)

  lemma U64RoundTrip(n: nat)
    requires n < U64_SPAN
    ensures FromU64(U64(n)) == n
  {
    U32RoundTrip(n % U32_SPAN);
    U32RoundTrip(n / U32_SPAN);
    hide U32, FromU32;
    assert U64(n)[..4] == U32(n % U32_SPAN) && U64(n)[4..] == U32(n / U32_SPAN);
  }

  lemma HeaderRoundTrip(h: Header)
    requires SmallCounts(h)
    ensures HeaderFrom(HeaderBytes(h)) == Some(h) && |HeaderBytes(h)| == 18
  {
    U64RoundTrip(h.dim);
    U64RoundTrip(h.memberCount);
    hide U64, FromU64;
    var b := HeaderBytes(h);
    assert b[..8] == U64(h.dim) && b[8..16] == U64(h.memberCount);
  }

  lemma FineIsMonotone(x: real, y: real)
    requires 0.0 <= x <= y
    ensures Fine(x) <= Fine(y) && (x >= LARGEST ==> Fine(x) == U32_SPAN - 1)
  {
  }

  lemma FineOfPoint(k: nat)
    requires k < U32_SPAN
    ensures Fine(FineValue(k)) == k
  {
  }

  lemma PointsOrdered(k: nat, l: nat)
    requires k <= l
    ensures 0.0 <= FineValue(k) <= FineValue(l) && LARGEST >= TINY
  {
  }

  /** From `FINE` times a thousand on, the grid is within a thousandth. */
  lemma FineError(x: real)
    requires TINY <= x <= LARGEST
    ensures Abs(FineValue(Fine(x)) - x) <= x * 0.001
  {
  }

  lemma FineLaws(x: real, y: real)
    requires 0.0 <= x <= y
    ensures 0.0 <= Round32(x) <= Round32(y) && Fine(Round32(x)) == Fine(x) && Round32(Round32(x)) == Round32(x)
    ensures TINY <= x <= LARGEST ==> Abs(Round32(x) - x) <= x * 0.001
    ensures x >= LARGEST ==> Round32(x) == LARGEST
    ensures LARGEST >= TINY
  {
    FineIsMonotone(x, y);
    FineOfPoint(Fine(x));
    PointsOrdered(Fine(x), Fine(y));
    if TINY <= x <= LARGEST {
      FineError(x);
    }
    hide Fine, FineValue, Abs;
  }

  lemma Round32Repeats()
    ensures Idempotent(Round32, LARGEST)
  {
    hide Fine, FineValue, Abs, LARGEST, Round32;
    forall x, y | 0.0 <= x <= LARGEST && y == Round32(x) ensures Round32(y) == y { FineLaws(x, x); }
  }

  lemma Round32Grows()
    ensures Monotone(Round32, LARGEST)
  {
    hide Fine, FineValue, Abs, LARGEST, Round32;
    forall x, y | 0.0 <= x <= y <= LARGEST ensures 0.0 <= Round32(x) <= Round32(y) { FineLaws(x, y); }
  }

  lemma Round32IsClose()
    ensures Accurate(Round32, LARGEST)
  {
    hide Fine, FineValue, Abs, LARGEST, Round32;
    forall x | TINY <= x <= LARGEST ensures Abs(Round32(x) - x) <= x * 0.001 { FineLaws(x, x); }
  }

  lemma RoundingLaws()
    ensures Rounds(Round32, LARGEST)
  {
    assert LARGEST > 0.0;
    hide Fine, FineValue, Abs, LARGEST, Round32, Idempotent, Monotone, Accurate;
    FineLaws(LARGEST, LARGEST);
    Round32Repeats();
    Round32Grows();
    Round32IsClose();
    forall x | x > LARGEST ensures Round32(x) > 0.0 { FineLaws(x, x); }
  }

  lemma FineBytes(x: real)
    requires 0.0 <= x
    ensures FineValue(FromU32(U32(Fine(x)))) == Round32(x) && Fine(Round32(x)) == Fine(x)
  {
    U32RoundTrip(Fine(x));
    FineLaws(x, x);
  }

  lemma CoarseOfPoint(k: nat)
    requires k < 0x1_0000
    ensures Coarse(CoarseValue(k)) == k
  {
  }

  lemma CoarseWithin(x: real)
    requires -32.0 <= x <= 32.0
    ensures -32.0 <= Round16(x) <= 32.0
  {
  }

  lemma CoarseBytes(x: real)
    ensures |Bits16(x)| == 2 && From16(Bits16(x)) == Round16(x) && Bits16(Round16(x)) == Bits16(x)
  {
    CoarseOfPoint(Coarse(x));
    hide Coarse, CoarseValue;
  }

  /** The assumptions about float32, float16 and JSON can all hold at once. */
  lemma LawsCanBeMet()
    ensures FIXED_POINT.Lawful()
  {
    RoundingLaws();
    var f := FIXED_POINT;
    hide Fine, FineValue, Round32, Round16, Bits16, From16, U32, FromU32, HeaderBytes, HeaderFrom, Rounds;
    forall x | 0.0 <= x ensures f.from32(f.bits32(x)) == f.round32(x) && f.bits32(f.round32(x)) == f.bits32(x) {
      FineBytes(x);
    }
    forall x
      ensures |f.bits16(x)| == 2 && f.from16(f.bits16(x)) == f.round16(x) && f.bits16(f.round16(x)) == f.bits16(x)
      ensures -32.0 <= x <= 32.0 ==> -32.0 <= f.round16(x) <= 32.0
    {
      CoarseBytes(x);
      if -32.0 <= x <= 32.0 {
        CoarseWithin(x);
      }
    }
    forall x ensures |f.bits32(x)| == 4 { FourBytes(Fine(x)); }
    forall h | SmallCounts(h) ensures f.fromJson(f.toJson(h)) == Some(h) && |f.toJson(h)| < U32_SPAN {
      HeaderRoundTrip(h);
    }
  }

  lemma FourBytes(n: nat)
    ensures |U32(n)| == 4
  {
  }

  function Text(b: Blob): string { seq(|b.data|, i requires 0 <= i < |b.data| => b.data[i] as char) }

  const PLAIN := Layers(x => x, x => Some(x), (o, x) => x, (o, x) => Some(x), Text)

  lemma TextIsInjective(x: Blob, y: Blob)
    requires Text(x) == Text(y)
    ensures x == y
  {
    assert forall i :: 0 <= i < |x.data| ==> Text(x)[i] == x.data[i] as char && Text(y)[i] == y.data[i] as char;
    assert x.data == y.data;
  }

  /** And so can those the service is proved from. */
  lemma PipelineLawsCanBeMet()
    ensures FIXED_POINT.Lawful() && Compact(FIXED_POINT, PLAIN).Lawful()
  {
    LawsCanBeMet();
    forall x, y | PLAIN.hash(x) == PLAIN.hash(y) ensures x == y { TextIsInjective(x, y); }
    hide Formats.Lawful, Text, Compact;
    CompactIsLawful(FIXED_POINT, PLAIN);
  }

  /** A stand-in for encryption: the first byte says whose the rest is. */
  function Tag(o: string): Byte { |o| % 256 }

  function Unlock(o: string, b: Bytes): Option<Bytes> { if b != [] && b[0] == Tag(o) then Some(b[1..]) else None }

  const TAGGED := Layers(x => x, x => Some(x), (o, x) => [Tag(o)] + x, Unlock, Text)

  lemma TaggedIsLawful()
    ensures TAGGED.Lawful()
  {
    forall x, y | TAGGED.hash(x) == TAGGED.hash(y) ensures x == y { TextIsInjective(x, y); }
    forall o, x ensures TAGGED.decrypt(o, TAGGED.encrypt(o, x)) == Some(x) {
      assert ([Tag(o)] + x)[1..] == x;
    }
  }

  const POINT := Q8Codec.Cluster([0.0], [], [], 1)

  lemma PointIsStored()
    ensures FIXED_POINT.Lawful() && WellShaped(FIXED_POINT, POINT) && Encode(FIXED_POINT, POINT).Ok?
    ensures DecodedWire(FIXED_POINT, POINT).dim == 1
  {
    LawsCanBeMet();
    hide Formats.Lawful, FIXED_POINT;
    assert FIXED_POINT.max16 == 32.0 by { FloorOfSample(); }
    WireIsConsistent(FIXED_POINT, POINT);
  }

  lemma FloorOfSample()
    ensures FIXED_POINT.max16 == 32.0
  {
  }

  lemma ColdLoad(p: Pipeline, s: State, o: string, id: string, c: Q8Codec.Cluster)
    requires s.entries == map[] && s.maxEntries == 1 && Fetch(p, s.blobs, o, id) == Ok(c)
    ensures !Hot(s, id) && Loaded(p, s, o, id, FrequentUse, Ok(c), s.(entries := map[id := Entry(c, FrequentUse, 1)]))
  {
    hide Fetch;
    var es: Entries := map[];
    assert es - {} == es && Shed(es, {}, Keep(1), {}) && Touched(es, id) == es;
    assert es[id := Entry(c, FrequentUse, 1)] == map[id := Entry(c, FrequentUse, 1)];
    assert Pinned(es, 1, id, c, FrequentUse, map[id := Entry(c, FrequentUse, 1)]);
    hide Pinned;
  }

  lemma OnlyTheOwnerOpens(b: Blob)
    requires Open(FIXED_POINT, TAGGED, "a", b).Some?
    ensures Open(FIXED_POINT, TAGGED, "bb", b) == None
  {
    hide Decoded, FIXED_POINT;
    assert Tag("a") == 1 && Tag("bb") == 2;
  }

  lemma StoredIsDecoded()
    requires FIXED_POINT.Lawful() && WellShaped(FIXED_POINT, POINT)
    ensures Stored(FIXED_POINT, POINT) == DecodedWire(FIXED_POINT, POINT)
  {
    hide FIXED_POINT, Formats.Lawful, WellShaped, DecodedWire;
  }

  /** The case the cluster cache gets wrong does occur: a lawful pipeline, a blob only its owner can open, and a load by the owner. */
  lemma SecondOriginOccurs() returns (p: Pipeline, s: State, id: string, c: Q8Codec.Cluster, s': State)
    ensures p.Lawful() && !Hot(s, id) && c != PLACEHOLDER
    ensures Fetch(p, s.blobs, "a", id) == Ok(c) && Fetch(p, s.blobs, "bb", id) == Err(Undecodable)
    ensures Loaded(p, s, "a", id, FrequentUse, Ok(c), s')
  {
    PointIsStored();
    TaggedIsLawful();
    CompactIsLawful(FIXED_POINT, TAGGED);
    p := Compact(FIXED_POINT, TAGGED);
    assert Seal(FIXED_POINT, TAGGED, "a", POINT).Some?;
    var blob := Seal(FIXED_POINT, TAGGED, "a", POINT).value;
    c := DecodedWire(FIXED_POINT, POINT);
    hide Formats.Lawful, Layers.Lawful, Pipeline.Lawful, Encode, WellShaped, DecodedWire, Text, FIXED_POINT, TAGGED, Seal, Open, Loaded, Fetch, Compact, Stored;
    assert Stored(FIXED_POINT, POINT) == c by { StoredIsDecoded(); }
    SealedOpens(FIXED_POINT, TAGGED, "a", POINT);
    OnlyTheOwnerOpens(blob);
    id := TAGGED.hash(blob);
    s := State(map[], 1, map[id := blob]);
    FetchOpens(FIXED_POINT, TAGGED, "a", blob);
    FetchOpens(FIXED_POINT, TAGGED, "bb", blob);
    ColdLoad(p, s, "a", id, c);
    s' := s.(entries := map[id := Entry(c, FrequentUse, 1)]);
  }
}
