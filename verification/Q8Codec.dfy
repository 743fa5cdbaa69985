/** The compact byte format of a weight cluster. */
module Q8Codec {
  import opened Wrappers
  import opened Numbers
  import opened Vectors
  import opened Quantizer

  datatype Cluster = Cluster(centroid: Vec, ids: seq<nat>, offsets: seq<Vec>, dim: nat)

  datatype Header = Header(dim: nat, memberCount: nat, implicitIds: bool, oneScale: bool)

  datatype Error = ShapeMismatch | EmptyRow | Malformed | NotCompact

  /** float32, float16 and JSON, known by their laws. */
  datatype Formats = Formats(
    max32: real, round32: real -> real, bits32: real -> Bytes, from32: Bytes -> real,
    max16: real, round16: real -> real, bits16: real -> Bytes, from16: Bytes -> real,
    toJson: Header -> Bytes, fromJson: Bytes -> Option<Header>)
  {
    /** Up to the formats' largest values; a zero has one sign, as a real does. `SampleFormats` meets all of this. */
    ghost predicate Lawful() {
      && Rounds(round32, max32)
      && (forall x :: |bits32(x)| == 4)
      && (forall x :: 0.0 <= x <= max32 ==> from32(bits32(x)) == round32(x) && bits32(round32(x)) == bits32(x))
      && (forall x :: |bits16(x)| == 2)
      && (forall x :: -max16 <= x <= max16 ==> -max16 <= round16(x) <= max16 && from16(bits16(x)) == round16(x) && bits16(round16(x)) == bits16(x))
      && (forall h :: SmallCounts(h) ==> fromJson(toJson(h)) == Some(h) && |toJson(h)| < U32_SPAN)
    }
  }

  /** Counts that fit the machine's words. */
  predicate SmallCounts(h: Header) { h.dim < U64_SPAN && h.memberCount < U64_SPAN }

  predicate Within(v: Vec, lo: real, hi: real) { forall i :: 0 <= i < |v| ==> lo <= v[i] <= hi }

  const MAGIC: Bytes := [83, 79, 68, 76, 67, 81, 56, 0]

  // ----- Fixed-width fields -----

  function U32(n: nat): Bytes { [n % 256, n / 256 % 256, n / 65536 % 256, n / 16777216 % 256] }

  /** Little-endian; only asked of four bytes. */
  function FromU32(b: Bytes): nat {
    if |b| != 4 then 0 else (b[0] as int) + 256 * (b[1] as int) + 65536 * (b[2] as int) + 16777216 * (b[3] as int)
  }

  lemma U32RoundTrip(n: nat)
    requires n < U32_SPAN
    ensures FromU32(U32(n)) == n
  {
    assert n / 65536 == n / 256 / 256;
    assert n / 16777216 == n / 65536 / 256;
  }

  function Pack<T>(enc: T -> Bytes, xs: seq<T>): Bytes {
    if xs == [] then [] else enc(xs[0]) + Pack(enc, xs[1..])
  }

  function Unpack<T>(dec: Bytes -> T, width: nat, b: Bytes): seq<T>
    requires width > 0
  {
    if |b| < width then [] else [dec(b[..width])] + Unpack(dec, width, b[width..])
  }

  function Map<S, T>(g: S -> T, xs: seq<S>): (r: seq<T>)
    ensures |r| == |xs|
  {
    seq(|xs|, i requires 0 <= i < |xs| => g(xs[i]))
  }

  lemma {:induction false} PackRoundTrip<T>(enc: T -> Bytes, dec: Bytes -> T, round: T -> T, width: nat, xs: seq<T>)
    requires width > 0 && forall x :: x in xs ==> |enc(x)| == width && dec(enc(x)) == round(x)
    ensures |Pack(enc, xs)| == |xs| * width
    ensures Unpack(dec, width, Pack(enc, xs)) == Map(round, xs)
  {
    if xs != [] {
      PackRoundTrip(enc, dec, round, width, xs[1..]);
      var b := Pack(enc, xs);
      assert b[..width] == enc(xs[0]) && b[width..] == Pack(enc, xs[1..]);
      assert Map(round, xs) == [round(xs[0])] + Map(round, xs[1..]);
    }
  }

  lemma {:induction false} PackRounded<T>(enc: T -> Bytes, round: T -> T, xs: seq<T>)
    requires forall x :: x in xs ==> enc(round(x)) == enc(x)
    ensures Pack(enc, Map(round, xs)) == Pack(enc, xs)
  {
    if xs != [] {
      assert Map(round, xs)[1..] == Map(round, xs[1..]);
      PackRounded(enc, round, xs[1..]);
    }
  }

  // ----- Signed bytes, row by row -----

  function ByteOf(q: int): Byte { if 0 <= q < 128 then q else if -128 <= q < 0 then q + 256 else 0 }

  function FromByte(b: Byte): int { if b < 128 then b else b - 256 }

  function Signed(qs: seq<int>): Bytes { seq(|qs|, i requires 0 <= i < |qs| => ByteOf(qs[i])) }

  function Unsigned(b: Bytes): seq<int> { seq(|b|, i requires 0 <= i < |b| => FromByte(b[i])) }

  ghost predicate Matrix(rows: seq<seq<int>>, n: nat, dim: nat) {
    |rows| == n && forall i :: 0 <= i < n ==> |rows[i]| == dim && Bytewise(rows[i])
  }

  function Flat(rows: seq<seq<int>>): Bytes {
    if rows == [] then [] else Signed(rows[0]) + Flat(rows[1..])
  }

  /** `reshape(n, dim)`; only asked of `n * dim` bytes. */
  function Reshape(b: Bytes, n: nat, dim: nat): seq<seq<int>> {
    if n == 0 || |b| < dim then [] else [Unsigned(b[..dim])] + Reshape(b[dim..], n - 1, dim)
  }

  /** How many bytes `n` rows take. */
  function Area(n: nat, dim: nat): nat { n * dim }

  lemma AreaStep(n: nat, dim: nat)
    ensures n > 0 ==> Area(n, dim) == dim + Area(n - 1, dim)
    ensures Area(0, dim) == 0
  {
  }

  lemma SignedRoundTrip(qs: seq<int>)
    requires Bytewise(qs)
    ensures |Signed(qs)| == |qs| && Unsigned(Signed(qs)) == qs
  {
  }

  lemma {:induction false} FlatRoundTrip(rows: seq<seq<int>>, n: nat, dim: nat)
    requires Matrix(rows, n, dim)
    ensures |Flat(rows)| == Area(n, dim) && Reshape(Flat(rows), n, dim) == rows
  {
    AreaStep(n, dim);
    hide Area;
    if n > 0 {
      FlatRoundTrip(rows[1..], n - 1, dim);
      SignedRoundTrip(rows[0]);
      hide Signed, Unsigned, Bytewise;
      var b := Flat(rows);
      assert b[..dim] == Signed(rows[0]) && b[dim..] == Flat(rows[1..]);
    }
  }

  // ----- The wire form -----

  /** What the header announces, in the order it is written. */
  datatype Wire = Wire(header: Header, ids: seq<nat>, centroid: Vec, scales: Vec, rows: seq<seq<int>>)

  ghost predicate Consistent(f: Formats, w: Wire) {
    var h := w.header;
    && SmallCounts(h) && Within(w.centroid, -f.max16, f.max16) && Within(w.scales, 0.0, f.max32)
    && |w.ids| == (if h.implicitIds then 0 else h.memberCount) && (forall x :: x in w.ids ==> x < U32_SPAN)
    && |w.centroid| == h.dim
    && |w.scales| == (if h.oneScale then 1 else h.memberCount)
    && Matrix(w.rows, h.memberCount, h.dim)
  }

  function Parts(f: Formats, w: Wire): (Bytes, Bytes, Bytes, Bytes, Bytes) {
    (f.toJson(w.header), Pack(U32, w.ids), Pack(f.bits16, w.centroid), Pack(f.bits32, w.scales), Flat(w.rows))
  }

  function Write(f: Formats, w: Wire): Bytes {
    var (header, ids, centroid, scales, rows) := Parts(f, w);
    MAGIC + U32(|header|) + header + ids + centroid + scales + rows
  }

  /** A field of `n` bytes at the cursor. */
  function Field(raw: Bytes, cursor: nat, n: nat): Result<Bytes, Error> {
    if cursor + n <= |raw| then Ok(raw[cursor..cursor + n]) else Err(Malformed)
  }

  /** The fields and the final cursor. */
  function Read(f: Formats, raw: Bytes): Result<(Wire, nat), Error> {
    var size := Field(raw, 8, 4);
    if size.Err? then Err(Malformed)
    else
      var json := Field(raw, 12, FromU32(size.value));
      if json.Err? || f.fromJson(json.value).None? then Err(Malformed)
      else ReadBody(f, raw, 12 + FromU32(size.value), f.fromJson(json.value).value)
  }

  function ReadBody(f: Formats, raw: Bytes, c0: nat, h: Header): Result<(Wire, nat), Error> {
    var n0, n1, n2 := if h.implicitIds then 0 else 4 * h.memberCount, 2 * h.dim, if h.oneScale then 4 else 4 * h.memberCount;
    var ids, centroid, scales := Field(raw, c0, n0), Field(raw, c0 + n0, n1), Field(raw, c0 + n0 + n1, n2);
    var c3, n3 := c0 + n0 + n1 + n2, Area(h.memberCount, h.dim);
    var rows := Field(raw, c3, n3);
    if ids.Err? || centroid.Err? || scales.Err? || rows.Err? then Err(Malformed)
    else Ok((Wire(h, Unpack(FromU32, 4, ids.value), Unpack(f.from16, 2, centroid.value), Unpack(f.from32, 4, scales.value),
                  Reshape(rows.value, h.memberCount, h.dim)), c3 + n3))
  }

  lemma FieldAt(raw: Bytes, before: Bytes, field: Bytes, after: Bytes)
    requires raw == before + field + after
    ensures Field(raw, |before|, |field|) == Ok(field)
  {
  }

  function RoundedWire(f: Formats, w: Wire): Wire {
    w.(centroid := Map(f.round16, w.centroid), scales := Map(f.round32, w.scales))
  }

  lemma FiveFields(raw: Bytes, before: Bytes, a: Bytes, b: Bytes, c: Bytes, d: Bytes)
    requires raw == before + a + b + c + d
    ensures |raw| == |before| + |a| + |b| + |c| + |d|
    ensures Field(raw, |before|, |a|) == Ok(a) && Field(raw, |before| + |a|, |b|) == Ok(b)
    ensures Field(raw, |before| + |a| + |b|, |c|) == Ok(c) && Field(raw, |before| + |a| + |b| + |c|, |d|) == Ok(d)
  {
    hide Field;
    FieldAt(raw, before, a, b + c + d) by { assert raw == before + a + (b + c + d); }
    FieldAt(raw, before + a, b, c + d) by { assert raw == before + a + b + (c + d); }
    FieldAt(raw, before + a + b, c, d);
    FieldAt(raw, before + a + b + c, d, []) by { assert raw == raw + []; }
  }

  lemma PartsRead(f: Formats, w: Wire)
    requires f.Lawful() && Consistent(f, w)
    ensures var (h, (_, ids, centroid, scales, rows)) := (w.header, Parts(f, w));
            && |ids| == (if h.implicitIds then 0 else 4 * h.memberCount) && Unpack(FromU32, 4, ids) == w.ids
            && |centroid| == 2 * h.dim && Unpack(f.from16, 2, centroid) == Map(f.round16, w.centroid)
            && |scales| == (if h.oneScale then 4 else 4 * h.memberCount) && Unpack(f.from32, 4, scales) == Map(f.round32, w.scales)
            && |rows| == Area(h.memberCount, h.dim) && Reshape(rows, h.memberCount, h.dim) == w.rows
  {
    forall x | x in w.ids ensures |U32(x)| == 4 && FromU32(U32(x)) == x { U32RoundTrip(x); }
    assert forall x :: x in w.centroid ==> |f.bits16(x)| == 2 && f.from16(f.bits16(x)) == f.round16(x);
    assert forall x :: x in w.scales ==> |f.bits32(x)| == 4 && f.from32(f.bits32(x)) == f.round32(x);
    PackRoundTrip(U32, FromU32, x => x, 4, w.ids);
    assert Map(x => x, w.ids) == w.ids;
    PackRoundTrip(f.bits16, f.from16, f.round16, 2, w.centroid);
    PackRoundTrip(f.bits32, f.from32, f.round32, 4, w.scales);
    FlatRoundTrip(w.rows, w.header.memberCount, w.header.dim);
    hide Pack, Unpack, Flat, Reshape;
  }

  lemma BodyRoundTrip(f: Formats, w: Wire, raw: Bytes, before: Bytes)
    requires f.Lawful() && Consistent(f, w)
    requires var (_, ids, centroid, scales, rows) := Parts(f, w); raw == before + ids + centroid + scales + rows
    ensures ReadBody(f, raw, |before|, w.header) == Ok((RoundedWire(f, w), |raw|))
  {
    hide Formats.Lawful, Consistent, Parts, Field, Unpack, Reshape, Map;
    var (_, ids, centroid, scales, rows) := Parts(f, w);
    PartsRead(f, w);
    FiveFields(raw, before, ids, centroid, scales, rows);
  }

  lemma SmallHeader(f: Formats, h: Header)
    requires f.Lawful() && SmallCounts(h)
    ensures |f.toJson(h)| < U32_SPAN && f.fromJson(f.toJson(h)) == Some(h)
  {
  }

  lemma HeaderFields(raw: Bytes, size: Bytes, json: Bytes, rest: Bytes)
    requires raw == MAGIC + size + json + rest && |size| == 4
    ensures Field(raw, 8, 4) == Ok(size) && Field(raw, 12, |json|) == Ok(json) && raw[..8] == MAGIC
  {
    hide Field;
    assert |MAGIC| == 8;
    FieldAt(raw, MAGIC, size, json + rest) by { assert raw == MAGIC + size + (json + rest); }
    FieldAt(raw, MAGIC + size, json, rest);
  }

  /** Reading what was written gives the same fields, scales and centroid rounded, and ends at the end of the buffer. */
  lemma WireRoundTrip(f: Formats, w: Wire)
    requires f.Lawful() && Consistent(f, w)
    ensures Read(f, Write(f, w)) == Ok((RoundedWire(f, w), |Write(f, w)|)) && MAGIC <= Write(f, w)
  {
    SmallHeader(f, w.header);
    var raw := Write(f, w);
    var (header, ids, centroid, scales, rows) := Parts(f, w);
    U32RoundTrip(|header|);
    var size := U32(|header|);
    assert |size| == 4 && header == f.toJson(w.header);
    hide Formats.Lawful, Consistent, Parts, ReadBody, Field, U32, FromU32;
    assert raw == MAGIC + size + header + (ids + centroid + scales + rows);
    HeaderFields(raw, size, header, ids + centroid + scales + rows);
    BodyRoundTrip(f, w, raw, MAGIC + size + header);
  }

  // ----- Clusters -----

  function Iota(n: nat): seq<nat> { seq(n, i => i) }

  predicate WellOffset(c: Cluster) { Shaped(c.offsets, |c.ids|, c.dim) }

  function Column(offsets: seq<Vec>): (v: Vec)
    requires forall i :: 0 <= i < |offsets| ==> |offsets[i]| == 1
    ensures |v| == |offsets|
  {
    seq(|offsets|, i requires 0 <= i < |offsets| => offsets[i][0])
  }

  function AsRows<T>(v: seq<T>): seq<seq<T>> { seq(|v|, i requires 0 <= i < |v| => [v[i]]) }

  function HeaderOf(c: Cluster): Header {
    Header(c.dim, |c.ids|, c.ids == Iota(|c.ids|), c.ids != [] && c.dim == 1)
  }

  /** Ids are written only if they are not 0, 1, 2, ... */
  function ListedIds(c: Cluster): seq<nat> { if c.ids == Iota(|c.ids|) then [] else c.ids }

  function RowScale(f: Formats, row: Vec): real { f.round32(RawScale(row)) }

  function RowScales(f: Formats, rows: seq<Vec>): (s: Vec)
    ensures |s| == |rows|
  {
    seq(|rows|, i requires 0 <= i < |rows| => RowScale(f, rows[i]))
  }

  ghost predicate Scaled(f: Formats, rows: seq<Vec>) { forall i :: 0 <= i < |rows| ==> RowScale(f, rows[i]) > 0.0 }

  /** `_scale_to_uint8`; rounding never gives a scale of zero. */
  function RowBytes(f: Formats, rows: seq<Vec>): (qs: seq<seq<int>>)
    requires Scaled(f, rows)
    ensures |qs| == |rows|
  {
    seq(|rows|, i requires 0 <= i < |rows| => Quantized(rows[i], RowScale(f, rows[i])))
  }

  lemma LawfulScales(f: Formats, rows: seq<Vec>)
    requires f.Lawful()
    ensures Scaled(f, rows)
  {
    forall i | 0 <= i < |rows| ensures RowScale(f, rows[i]) > 0.0 {
      RawScaleBounds(rows[i]);
      RoundedScale(f.round32, f.max32, RawScale(rows[i]));
    }
  }

  function ToWire(f: Formats, c: Cluster): Result<Wire, Error>
    requires f.Lawful()
  {
    var h, ids := HeaderOf(c), ListedIds(c);
    if c.ids == [] then Ok(Wire(h, ids, c.centroid, [], []))
    else if !WellOffset(c) then Err(ShapeMismatch)
    else if c.dim == 0 then Err(EmptyRow)
    else if c.dim == 1 then
      var v := Column(c.offsets);
      RawScaleBounds(v);
      Ok(Wire(h, ids, c.centroid, [RawScale(v)], AsRows(Quantized(v, RawScale(v)))))
    else
      LawfulScales(f, c.offsets);
      Ok(Wire(h, ids, c.centroid, RowScales(f, c.offsets), RowBytes(f, c.offsets)))
  }

  function FromWire(w: Wire): Cluster
    requires |w.scales| >= if w.header.oneScale then 1 else |w.rows|
  {
    Cluster(w.centroid, if w.header.implicitIds then Iota(w.header.memberCount) else w.ids,
            seq(|w.rows|, i requires 0 <= i < |w.rows| => Dequantized(w.rows[i], if w.header.oneScale then w.scales[0] else w.scales[i])),
            w.header.dim)
  }

  function Encode(f: Formats, c: Cluster): Result<Bytes, Error>
    requires f.Lawful()
  {
    var w := ToWire(f, c);
    if w.Err? then Err(w.error) else Ok(Write(f, w.value))
  }

  /** No scale overflows float32. */
  predicate ScalesFit(f: Formats, c: Cluster)
    requires WellOffset(c)
  {
    if c.dim == 1 then RawScale(Column(c.offsets)) <= f.max32
    else forall i :: 0 <= i < |c.offsets| ==> RawScale(c.offsets[i]) <= f.max32
  }

  /** A cluster the format is meant for. */
  predicate WellShaped(f: Formats, c: Cluster) {
    && |c.centroid| == c.dim < U64_SPAN && |c.ids| < U64_SPAN && (forall x :: x in c.ids ==> x < U32_SPAN)
    && Within(c.centroid, -f.max16, f.max16)
    && (c.ids != [] ==> WellOffset(c) && c.dim > 0 && ScalesFit(f, c))
  }

  lemma RowsAreStable(f: Formats, rows: seq<Vec>)
    requires f.Lawful() && forall i :: 0 <= i < |rows| ==> rows[i] != [] && RawScale(rows[i]) <= f.max32
    ensures Scaled(f, rows)
    ensures forall i :: 0 <= i < |rows| ==> Bytewise(RowBytes(f, rows)[i]) && |RowBytes(f, rows)[i]| == |rows[i]|
    ensures forall i, j :: 0 <= i < |rows| && 0 <= j < |rows[i]| ==>
              QuantisedWell(rows[i][j], RowBytes(f, rows)[i][j], RowScale(f, rows[i]))
    ensures forall i :: 0 <= i < |rows| ==>
              var s, qs := RowScale(f, rows[i]), RowBytes(f, rows)[i];
              && s <= f.max32 && RawScale(Dequantized(qs, s)) <= f.max32
              && f.round32(s) == s && RowScale(f, Dequantized(qs, s)) == s && Quantized(Dequantized(qs, s), s) == qs
  {
    LawfulScales(f, rows);
    forall i | 0 <= i < |rows| {
      RowIsStable(f.round32, f.max32, rows[i]);
    }
    hide RawScale, Quantized, Dequantized, QuantisedWell, Bytewise;
  }

  /** The stability of a column's one scale, in the cluster's terms. */
  lemma ColumnIsStable(f: Formats, c: Cluster)
    requires f.Lawful() && WellShaped(f, c) && c.ids != [] && c.dim == 1
    ensures var (v, raw) := (Column(c.offsets), RawScale(Column(c.offsets)));
            && 0.0 < raw <= f.max32 && 0.0 < f.round32(raw) <= f.max32 && f.round32(f.round32(raw)) == f.round32(raw)
            && Bytewise(Quantized(v, raw))
            && var again := RawScale(Dequantized(Quantized(v, raw), f.round32(raw)));
            0.0 < again <= f.max32 && f.round32(again) == f.round32(raw)
            && Quantized(Dequantized(Quantized(v, raw), f.round32(raw)), again) == Quantized(v, raw)
  {
    hide Within, RawScale, Quantized, Dequantized, QuantisedWell, Bytewise, Rounds;
    ClusterIsStable(f.round32, f.max32, Column(c.offsets));
    BoundedScale(f.round32, f.max32, Column(c.offsets));
  }

  lemma ColumnQuantised(f: Formats, c: Cluster, i: nat)
    requires f.Lawful() && WellShaped(f, c) && c.ids != [] && c.dim == 1 && i < |c.ids|
    ensures var (v, raw) := (Column(c.offsets), RawScale(Column(c.offsets)));
            raw > 0.0 && QuantisedWell(v[i], Quantized(v, raw)[i], raw)
  {
    hide Within, RawScale, Quantized, Dequantized, QuantisedWell, Bytewise, Rounds;
    ClusterIsStable(f.round32, f.max32, Column(c.offsets));
  }

  lemma ColumnMatrix(qs: seq<int>)
    requires Bytewise(qs)
    ensures Matrix(AsRows(qs), |qs|, 1)
  {
  }

  lemma ColumnToWire(f: Formats, c: Cluster)
    requires f.Lawful() && WellOffset(c) && c.ids != [] && c.dim == 1
    ensures var (v, raw) := (Column(c.offsets), RawScale(Column(c.offsets)));
            raw > 0.0 && ToWire(f, c) == Ok(Wire(HeaderOf(c), ListedIds(c), c.centroid, [raw], AsRows(Quantized(v, raw))))
  {
    RawScaleBounds(Column(c.offsets));
    hide Formats.Lawful, RawScale, Quantized, AsRows, HeaderOf, ListedIds;
  }

  lemma RowsToWire(f: Formats, c: Cluster)
    requires f.Lawful() && WellOffset(c) && c.ids != [] && c.dim > 1
    ensures Scaled(f, c.offsets)
    ensures ToWire(f, c) == Ok(Wire(HeaderOf(c), ListedIds(c), c.centroid, RowScales(f, c.offsets), RowBytes(f, c.offsets)))
  {
    LawfulScales(f, c.offsets);
    hide Formats.Lawful, Scaled, RowScales, RowBytes, HeaderOf, ListedIds;
  }

  lemma ConsistentOf(f: Formats, c: Cluster, scales: Vec, rows: seq<seq<int>>)
    requires WellShaped(f, c) && Within(scales, 0.0, f.max32) && Matrix(rows, |c.ids|, c.dim)
    requires |scales| == if c.ids != [] && c.dim == 1 then 1 else |c.ids|
    ensures Consistent(f, Wire(HeaderOf(c), ListedIds(c), c.centroid, scales, rows))
  {
    hide Within, Matrix, ScalesFit, WellOffset, Iota;
  }

  lemma ColumnWire(f: Formats, c: Cluster)
    requires f.Lawful() && WellShaped(f, c) && c.ids != [] && c.dim == 1
    ensures ToWire(f, c).Ok? && Consistent(f, ToWire(f, c).value)
  {
    ColumnIsStable(f, c);
    ColumnToWire(f, c);
    hide ToWire, RawScale, Quantized, Dequantized, Bytewise, AsRows, ScalesFit, Formats.Lawful, Consistent, HeaderOf, ListedIds, Matrix, Within;
    var v, raw := Column(c.offsets), RawScale(Column(c.offsets));
    ColumnMatrix(Quantized(v, raw));
    WithinOne(raw, f.max32);
    ConsistentOf(f, c, [raw], AsRows(Quantized(v, raw)));
  }

  lemma RowParts(f: Formats, rows: seq<Vec>, dim: nat)
    requires f.Lawful() && forall i :: 0 <= i < |rows| ==> rows[i] != [] && |rows[i]| == dim && RawScale(rows[i]) <= f.max32
    ensures Scaled(f, rows) && Within(RowScales(f, rows), 0.0, f.max32) && Matrix(RowBytes(f, rows), |rows|, dim)
  {
    RowsAreStable(f, rows);
    hide RawScale, Quantized, Dequantized, QuantisedWell, RowScale, Formats.Lawful, Bytewise;
  }

  lemma RowWire(f: Formats, c: Cluster)
    requires f.Lawful() && WellShaped(f, c) && c.ids != [] && c.dim > 1
    ensures ToWire(f, c).Ok? && Consistent(f, ToWire(f, c).value)
  {
    RowsToWire(f, c);
    RowParts(f, c.offsets, c.dim);
    hide ToWire, RawScale, Formats.Lawful, Consistent, HeaderOf, ListedIds, Matrix, Within, RowScales, RowBytes, Scaled;
    ConsistentOf(f, c, RowScales(f, c.offsets), RowBytes(f, c.offsets));
  }

  lemma WireIsConsistent(f: Formats, c: Cluster)
    requires f.Lawful() && WellShaped(f, c)
    ensures ToWire(f, c).Ok? && Consistent(f, ToWire(f, c).value)
  {
    if c.ids != [] {
      if c.dim == 1 {
        ColumnWire(f, c);
      } else {
        RowWire(f, c);
      }
    }
  }

  /** What decoding the encoding gives. */
  function Decoded(f: Formats, raw: Bytes): Result<(Cluster, nat), Error> {
    if !(MAGIC <= raw) then Err(NotCompact)
    else
      var r := Read(f, raw);
      if r.Err? then Err(r.error)
      else if |r.value.0.scales| < (if r.value.0.header.oneScale then 1 else |r.value.0.rows|) then Err(Malformed)
      else Ok((FromWire(r.value.0), r.value.1))
  }

  /** Same dim and ids, the centroid in half precision, every offset within half its scale. */
  ghost predicate Faithful(f: Formats, c: Cluster, d: Cluster) {
    && d.dim == c.dim && d.ids == c.ids && d.centroid == Map(f.round16, c.centroid)
    && |d.offsets| == |c.ids| && (c.ids != [] ==> WellOffset(c) && WellOffset(d))
    && (c.ids != [] && c.dim != 1 ==> forall i, j :: 0 <= i < |c.ids| && 0 <= j < c.dim ==>
          Abs(d.offsets[i][j] - c.offsets[i][j]) <= RowScale(f, c.offsets[i]) / 2.0)
    && (c.ids != [] && c.dim == 1 ==>
          var raw := RawScale(Column(c.offsets));
          forall i :: 0 <= i < |c.ids| ==> Abs(d.offsets[i][0] - c.offsets[i][0]) <= raw / 2.0 + 127.0 * Abs(f.round32(raw) - raw))
  }

  function DecodedWire(f: Formats, c: Cluster): Cluster
    requires f.Lawful() && WellShaped(f, c)
  {
    WireIsConsistent(f, c);
    FromWire(RoundedWire(f, ToWire(f, c).value))
  }

  lemma IdsComeBack(c: Cluster)
    ensures (if HeaderOf(c).implicitIds then Iota(HeaderOf(c).memberCount) else ListedIds(c)) == c.ids
  {
  }

  /** The decoded values when one scale serves all. */
  lemma ColumnValue(f: Formats, c: Cluster)
    requires f.Lawful() && WellShaped(f, c) && c.ids != [] && c.dim == 1
    ensures var raw := RawScale(Column(c.offsets));
            && raw > 0.0
            && var (qs, d) := (Quantized(Column(c.offsets), raw), DecodedWire(f, c));
            && d.dim == 1 && d.ids == c.ids && d.centroid == Map(f.round16, c.centroid) && |d.offsets| == |c.ids| == |qs|
            && forall i :: 0 <= i < |c.ids| ==> d.offsets[i] == [Times(qs[i], f.round32(raw))]
  {
    ColumnToWire(f, c);
    IdsComeBack(c);
    hide ToWire, ListedIds, RawScale, Quantized, Times, Formats.Lawful, Within, ScalesFit;
  }

  lemma ColumnErrorAt(f: Formats, c: Cluster, i: nat)
    requires f.Lawful() && WellShaped(f, c) && c.ids != [] && c.dim == 1 && i < |c.ids|
    ensures var (d, raw) := (DecodedWire(f, c), RawScale(Column(c.offsets)));
            && |d.offsets| == |c.ids| && |d.offsets[i]| == 1
            && Abs(d.offsets[i][0] - c.offsets[i][0]) <= raw / 2.0 + 127.0 * Abs(f.round32(raw) - raw)
  {
    ColumnValue(f, c);
    ColumnQuantised(f, c, i);
    hide DecodedWire, RawScale, Quantized, QuantisedWell, Times, Abs, Formats.Lawful, Within, ScalesFit;
    var v, raw := Column(c.offsets), RawScale(Column(c.offsets));
    ClusterError(v[i], Quantized(v, raw)[i], raw, f.round32(raw));
  }

  lemma ColumnFaithful(f: Formats, c: Cluster)
    requires f.Lawful() && WellShaped(f, c) && c.ids != [] && c.dim == 1
    ensures Faithful(f, c, DecodedWire(f, c))
  {
    ColumnValue(f, c);
    hide DecodedWire, RawScale, Quantized, Times, Abs, Formats.Lawful, Within, ScalesFit, Column, Map;
    var d, raw := DecodedWire(f, c), RawScale(Column(c.offsets));
    forall i | 0 <= i < |c.ids|
      ensures |d.offsets[i]| == 1 && Abs(d.offsets[i][0] - c.offsets[i][0]) <= raw / 2.0 + 127.0 * Abs(f.round32(raw) - raw)
    {
      ColumnErrorAt(f, c, i);
    }
  }

  /** The decoded rows when each has its scale. */
  lemma RowValue(f: Formats, c: Cluster)
    requires f.Lawful() && WellShaped(f, c) && c.ids != [] && c.dim > 1
    ensures Scaled(f, c.offsets)
    ensures var (qs, d) := (RowBytes(f, c.offsets), DecodedWire(f, c));
            && d.dim == c.dim && d.ids == c.ids && d.centroid == Map(f.round16, c.centroid) && |d.offsets| == |c.ids| == |qs|
            && forall i :: 0 <= i < |c.ids| ==> d.offsets[i] == Dequantized(qs[i], RowScale(f, c.offsets[i]))
  {
    RowsToWire(f, c);
    IdsComeBack(c);
    assert forall i :: 0 <= i < |c.offsets| ==> RowScales(f, c.offsets)[i] == RowScale(f, c.offsets[i]) && RowScale(f, c.offsets[i]) > 0.0;
    RoundedTwice(f, c);
    hide ToWire, ListedIds, RowBytes, RowScale, RowScales, Dequantized, Formats.Lawful, Within, ScalesFit, Scaled;
  }

  lemma RoundedTwice(f: Formats, c: Cluster)
    requires f.Lawful() && WellShaped(f, c) && c.ids != [] && c.dim > 1
    ensures forall i :: 0 <= i < |c.offsets| ==> f.round32(RowScale(f, c.offsets[i])) == RowScale(f, c.offsets[i])
  {
    forall i | 0 <= i < |c.offsets| ensures f.round32(RowScale(f, c.offsets[i])) == RowScale(f, c.offsets[i]) {
      BoundedScale(f.round32, f.max32, c.offsets[i]);
    }
  }

  lemma RowElement(f: Formats, rows: seq<Vec>, i: nat, j: nat)
    requires f.Lawful() && (forall k :: 0 <= k < |rows| ==> rows[k] != [] && RawScale(rows[k]) <= f.max32) && i < |rows| && j < |rows[i]|
    ensures Scaled(f, rows) && |RowBytes(f, rows)[i]| == |rows[i]|
    ensures var d := Dequantized(RowBytes(f, rows)[i], RowScale(f, rows[i]));
            Abs(d[j] - rows[i][j]) <= RowScale(f, rows[i]) / 2.0
  {
    RowsAreStable(f, rows);
    hide RowBytes, RowScale, RoundEven, Times, Abs, Formats.Lawful, Bytewise, Quantized;
    assert QuantisedWell(rows[i][j], RowBytes(f, rows)[i][j], RowScale(f, rows[i]));
  }

  lemma RowErrorAt(f: Formats, c: Cluster, i: nat, j: nat)
    requires f.Lawful() && WellShaped(f, c) && c.ids != [] && c.dim > 1 && i < |c.ids| && j < c.dim
    ensures var d := DecodedWire(f, c);
            && |d.offsets| == |c.ids| && |d.offsets[i]| == c.dim
            && Abs(d.offsets[i][j] - c.offsets[i][j]) <= RowScale(f, c.offsets[i]) / 2.0
  {
    RowValue(f, c);
    hide RowBytes, RowScale, DecodedWire, Abs, Formats.Lawful, Dequantized, Within;
    RowElement(f, c.offsets, i, j);
  }

  lemma RowFaithful(f: Formats, c: Cluster)
    requires f.Lawful() && WellShaped(f, c) && c.ids != [] && c.dim > 1
    ensures Faithful(f, c, DecodedWire(f, c))
  {
    hide RowBytes, RowScale, RowScales, DecodedWire, Abs, Formats.Lawful, Dequantized, Within, ScalesFit, Map, Scaled;
    RowsOfDecoded(f, c);
    var d := DecodedWire(f, c);
    forall i, j | 0 <= i < |c.ids| && 0 <= j < c.dim
      ensures Abs(d.offsets[i][j] - c.offsets[i][j]) <= RowScale(f, c.offsets[i]) / 2.0
    {
      RowErrorAt(f, c, i, j);
    }
  }

  /** For every well-shaped cluster, decoding the encoding is faithful and the cursor ends exactly at the buffer's end. */
  lemma RoundTrip(f: Formats, c: Cluster)
    requires f.Lawful() && WellShaped(f, c)
    ensures Encode(f, c).Ok?
    ensures Decoded(f, Encode(f, c).value) == Ok((DecodedWire(f, c), |Encode(f, c).value|))
    ensures Faithful(f, c, DecodedWire(f, c))
  {
    WireIsConsistent(f, c);
    WireRoundTrip(f, ToWire(f, c).value);
    if c.ids != [] {
      if c.dim == 1 {
        ColumnFaithful(f, c);
      } else {
        RowFaithful(f, c);
      }
    }
    hide Formats.Lawful, Faithful, Read, Write;
  }

  /** What encoding a decoded cluster writes, field by field. */
  ghost predicate SameBytes(f: Formats, w: Wire, w': Wire) {
    && w'.header == w.header && w'.ids == w.ids && w'.rows == w.rows
    && w'.centroid == Map(f.round16, w.centroid)
    && Within(w.centroid, -f.max16, f.max16) && Within(w.scales, 0.0, f.max32) && Within(w'.scales, 0.0, f.max32)
    && |w'.scales| == |w.scales| && forall i :: 0 <= i < |w.scales| ==> f.round32(w'.scales[i]) == f.round32(w.scales[i])
  }

  lemma {:induction false} PackAlike(bits: real -> Bytes, a: Vec, b: Vec)
    requires |a| == |b| && forall i :: 0 <= i < |a| ==> bits(a[i]) == bits(b[i])
    ensures Pack(bits, a) == Pack(bits, b)
  {
    if a != [] {
      PackAlike(bits, a[1..], b[1..]);
    }
  }

  lemma SameBytesWrite(f: Formats, w: Wire, w': Wire)
    requires f.Lawful() && SameBytes(f, w, w')
    ensures Write(f, w') == Write(f, w)
  {
    assert forall x :: x in w.centroid ==> f.bits16(f.round16(x)) == f.bits16(x);
    PackRounded(f.bits16, f.round16, w.centroid);
    forall i | 0 <= i < |w.scales| ensures f.bits32(w'.scales[i]) == f.bits32(w.scales[i]) {
      var x, y := w.scales[i], w'.scales[i];
      assert f.bits32(f.round32(x)) == f.bits32(x) && f.bits32(f.round32(y)) == f.bits32(y);
    }
    PackAlike(f.bits32, w'.scales, w.scales);
    hide Pack, Formats.Lawful;
  }

  lemma ColumnOfDecoded(f: Formats, c: Cluster)
    requires f.Lawful() && WellShaped(f, c) && c.ids != [] && c.dim == 1
    ensures RawScale(Column(c.offsets)) > 0.0
    ensures var (v, d) := (Column(c.offsets), DecodedWire(f, c));
            && d.dim == 1 && d.ids == c.ids && d.centroid == Map(f.round16, c.centroid) && WellOffset(d)
            && Column(d.offsets) == Dequantized(Quantized(v, RawScale(v)), f.round32(RawScale(v)))
  {
    ColumnValue(f, c);
    hide DecodedWire, RawScale, Quantized, Times, Formats.Lawful, Within, Map, ScalesFit;
    var v, d := Column(c.offsets), DecodedWire(f, c);
    assert Column(d.offsets) == Dequantized(Quantized(v, RawScale(v)), f.round32(RawScale(v)));
  }

  lemma ColumnAgain(f: Formats, c: Cluster)
    requires f.Lawful() && WellShaped(f, c) && c.ids != [] && c.dim == 1
    ensures var d := DecodedWire(f, c); ToWire(f, c).Ok? && ToWire(f, d).Ok? && SameBytes(f, ToWire(f, c).value, ToWire(f, d).value)
  {
    hide ToWire, DecodedWire, RawScale, Quantized, Bytewise, Formats.Lawful, ScalesFit, Within, AsRows, Dequantized, HeaderOf, ListedIds, Map;
    ColumnOfDecoded(f, c);
    ColumnIsStable(f, c);
    var raw, d := RawScale(Column(c.offsets)), DecodedWire(f, c);
    ColumnToWire(f, c);
    ColumnToWire(f, d);
    WithinOne(raw, f.max32);
    WithinOne(RawScale(Column(d.offsets)), f.max32);
    SameHeader(c, d);
    hide Column, WellOffset;
  }

  lemma SameHeader(c: Cluster, d: Cluster)
    requires d.ids == c.ids && d.dim == c.dim
    ensures HeaderOf(d) == HeaderOf(c) && ListedIds(d) == ListedIds(c)
  {
  }

  lemma WithinOne(x: real, hi: real)
    requires 0.0 <= x <= hi
    ensures Within([x], 0.0, hi)
  {
  }

  lemma RowsAgain(f: Formats, rows: seq<Vec>, decoded: seq<Vec>)
    requires f.Lawful() && (forall k :: 0 <= k < |rows| ==> rows[k] != [] && RawScale(rows[k]) <= f.max32) && |decoded| == |rows| && Scaled(f, rows)
    requires forall i :: 0 <= i < |rows| ==> decoded[i] == Dequantized(RowBytes(f, rows)[i], RowScale(f, rows[i]))
    ensures RowScales(f, decoded) == RowScales(f, rows) && Scaled(f, decoded) && RowBytes(f, decoded) == RowBytes(f, rows)
    ensures forall i :: 0 <= i < |rows| ==> |decoded[i]| == |rows[i]| && f.round32(RowScale(f, rows[i])) == RowScale(f, rows[i])
  {
    RowsAreStable(f, rows);
    hide Quantized, QuantisedWell, RowScale, Formats.Lawful, Dequantized, Bytewise;
    assert forall i :: 0 <= i < |rows| ==> RowScale(f, decoded[i]) == RowScale(f, rows[i]);
    assert RowScales(f, decoded) == RowScales(f, rows);
    assert RowBytes(f, decoded) == RowBytes(f, rows);
  }

  lemma RowsOfDecoded(f: Formats, c: Cluster)
    requires f.Lawful() && WellShaped(f, c) && c.ids != [] && c.dim > 1
    ensures var d := DecodedWire(f, c);
            && d.dim == c.dim && d.ids == c.ids && d.centroid == Map(f.round16, c.centroid) && WellOffset(d)
            && Scaled(f, c.offsets) && Scaled(f, d.offsets)
            && RowScales(f, d.offsets) == RowScales(f, c.offsets) && RowBytes(f, d.offsets) == RowBytes(f, c.offsets)
  {
    RowValue(f, c);
    hide DecodedWire, RawScale, RowScales, RowBytes, RowScale, Formats.Lawful, Dequantized, Within, Map, Scaled;
    RowsAgain(f, c.offsets, DecodedWire(f, c).offsets);
  }

  lemma RowAgain(f: Formats, c: Cluster)
    requires f.Lawful() && WellShaped(f, c) && c.ids != [] && c.dim > 1
    ensures var d := DecodedWire(f, c); ToWire(f, c).Ok? && ToWire(f, d).Ok? && SameBytes(f, ToWire(f, c).value, ToWire(f, d).value)
  {
    hide ToWire, DecodedWire, RawScale, RowScales, RowBytes, RowScale, Formats.Lawful, Dequantized, Within, HeaderOf, ListedIds, Map, Scaled, Matrix;
    RowsOfDecoded(f, c);
    RowParts(f, c.offsets, c.dim);
    hide ScalesFit, WellOffset;
    var d := DecodedWire(f, c);
    RowsToWire(f, c);
    RowsToWire(f, d);
    SameHeader(c, d);
  }

  lemma EmptyAgain(f: Formats, c: Cluster)
    requires f.Lawful() && WellShaped(f, c) && c.ids == []
    ensures var d := DecodedWire(f, c); ToWire(f, c).Ok? && ToWire(f, d).Ok? && SameBytes(f, ToWire(f, c).value, ToWire(f, d).value)
  {
    hide Formats.Lawful;
  }

  /** Encoding a decoded cluster gives identical bytes, the rounding of scales and centroid included. */
  lemma ReencodingIsIdentical(f: Formats, c: Cluster)
    requires f.Lawful() && WellShaped(f, c)
    ensures Encode(f, DecodedWire(f, c)) == Encode(f, c) && Encode(f, c).Ok?
  {
    hide Formats.Lawful, Write, ScalesFit, WellOffset;
    WireIsConsistent(f, c);
    if c.ids == [] {
      EmptyAgain(f, c);
    } else if c.dim == 1 {
      ColumnAgain(f, c);
    } else {
      RowAgain(f, c);
    }
    hide DecodedWire, ToWire, SameBytes, Consistent, WellShaped;
    SameBytesWrite(f, ToWire(f, c).value, ToWire(f, DecodedWire(f, c)).value);
  }

  lemma CentroidStaysWithin(f: Formats, v: Vec)
    requires f.Lawful() && Within(v, -f.max16, f.max16)
    ensures Within(Map(f.round16, v), -f.max16, f.max16)
  {
  }

  lemma AgainWellShaped(f: Formats, c: Cluster, d: Cluster)
    requires f.Lawful() && WellShaped(f, c) && d.dim == c.dim && d.ids == c.ids && d.centroid == Map(f.round16, c.centroid)
    requires c.ids != [] ==> WellOffset(d) && ScalesFit(f, d)
    ensures WellShaped(f, d)
  {
    CentroidStaysWithin(f, c.centroid);
    hide Formats.Lawful, Within, ScalesFit, WellOffset;
  }

  lemma ColumnScales(f: Formats, c: Cluster)
    requires f.Lawful() && WellShaped(f, c) && c.ids != [] && c.dim == 1
    ensures WellOffset(DecodedWire(f, c)) && DecodedWire(f, c).dim == 1 && ScalesFit(f, DecodedWire(f, c))
  {
    ColumnOfDecoded(f, c);
    ColumnIsStable(f, c);
    hide DecodedWire, RawScale, Quantized, Dequantized, QuantisedWell, Bytewise, Formats.Lawful, Within, Map, Abs, Column, WellShaped;
  }

  lemma RowScalesFit(f: Formats, c: Cluster)
    requires f.Lawful() && WellShaped(f, c) && c.ids != [] && c.dim > 1
    ensures WellOffset(DecodedWire(f, c)) && DecodedWire(f, c).dim == c.dim && ScalesFit(f, DecodedWire(f, c))
  {
    RowValue(f, c);
    RowsAreStable(f, c.offsets);
    hide DecodedWire, RawScale, RowBytes, RowScale, Formats.Lawful, Dequantized, Within, QuantisedWell, Bytewise, Quantized, Map;
  }

  /** A decoded cluster is again one the format is meant for, and decodes to itself. */
  lemma DecodedIsFixed(f: Formats, c: Cluster)
    requires f.Lawful() && WellShaped(f, c)
    ensures WellShaped(f, DecodedWire(f, c)) && DecodedWire(f, DecodedWire(f, c)) == DecodedWire(f, c)
  {
    WireIsConsistent(f, c);
    if c.ids != [] {
      if c.dim == 1 {
        ColumnValue(f, c);
        ColumnScales(f, c);
      } else {
        RowValue(f, c);
        RowScalesFit(f, c);
      }
    }
    var d := DecodedWire(f, c);
    AgainWellShaped(f, c, d) by { hide Formats.Lawful, WellShaped, WellOffset, ScalesFit; }
    hide DecodedWire, Formats.Lawful, WellShaped, Encode;
    RoundTrip(f, c);
    RoundTrip(f, d);
    ReencodingIsIdentical(f, c);
  }

  // ----- The decoder -----

  /** `_deserialize_cluster_compact_q8`, advancing a cursor. */
  method Decode(f: Formats, raw: Bytes) returns (r: Result<Cluster, Error>, cursor: nat)
    requires MAGIC <= raw
    ensures r.Ok? <==> Decoded(f, raw).Ok?
    ensures r.Ok? ==> Decoded(f, raw) == Ok((r.value, cursor))
  {
    cursor := |MAGIC|;
    if cursor + 4 > |raw| {
      return Err(Malformed), cursor;
    }
    var headerLen := FromU32(raw[cursor..cursor + 4]);
    cursor := cursor + 4;
    if cursor + headerLen > |raw| {
      return Err(Malformed), cursor;
    }
    var header := f.fromJson(raw[cursor..cursor + headerLen]);
    if header.None? {
      return Err(Malformed), cursor;
    }
    cursor := cursor + headerLen;
    r, cursor := DecodeBody(f, raw, cursor, header.value);
  }

  /** The listed ids, or none. */
  method DecodeIds(raw: Bytes, start: nat, h: Header) returns (ids: Result<seq<nat>, Error>, cursor: nat)
    ensures h.implicitIds ==> ids == Ok([]) && cursor == start
    ensures var bytes := Field(raw, start, 4 * h.memberCount);
            !h.implicitIds ==>
              if bytes.Ok? then ids == Ok(Unpack(FromU32, 4, bytes.value)) && cursor == start + 4 * h.memberCount else ids.Err?
  {
    if h.implicitIds {
      return Ok([]), start;
    }
    hide Unpack, FromU32;
    var bytes := Field(raw, start, 4 * h.memberCount);
    return if bytes.Err? then Err(Malformed) else Ok(Unpack(FromU32, 4, bytes.value)), start + 4 * h.memberCount;
  }

  method DecodeBody(f: Formats, raw: Bytes, start: nat, h: Header) returns (r: Result<Cluster, Error>, cursor: nat)
    ensures var b := ReadBody(f, raw, start, h);
            if b.Ok? && |b.value.0.scales| >= (if h.oneScale then 1 else |b.value.0.rows|)
            then r == Ok(FromWire(b.value.0)) && cursor == b.value.1
            else r.Err?
  {
    var ids: Result<seq<nat>, Error>;
    ids, cursor := DecodeIds(raw, start, h);
    UnpackNothing();
    hide Unpack, Reshape, FromU32, FromWire, Area;
    NoBytes(raw, start, 2 * h.dim);
    hide Field;
    if ids.Err? {
      return Err(Malformed), cursor;
    }
    var centroid := Field(raw, cursor, 2 * h.dim);
    cursor := cursor + 2 * h.dim;
    var scaleBytes := if h.oneScale then 4 else 4 * h.memberCount;
    var scales := Field(raw, cursor, scaleBytes);
    cursor := cursor + scaleBytes;
    var offsetCount := Area(h.memberCount, h.dim);
    var offsets := Field(raw, cursor, offsetCount);
    cursor := cursor + offsetCount;
    if centroid.Err? || scales.Err? || offsets.Err? {
      return Err(Malformed), cursor;
    }
    var w := Wire(h, ids.value, Unpack(f.from16, 2, centroid.value), Unpack(f.from32, 4, scales.value), Reshape(offsets.value, h.memberCount, h.dim));
    if |w.scales| < if h.oneScale then 1 else |w.rows| {
      return Err(Malformed), cursor;
    }
    return Ok(FromWire(w)), cursor;
  }

  lemma NoBytes(raw: Bytes, start: nat, n: nat)
    ensures Field(raw, start, 0).Ok? ==> Field(raw, start, 0).value == []
    ensures Field(raw, start, 0).Err? ==> Field(raw, start, n).Err?
  {
  }

  lemma UnpackNothing()
    ensures Unpack(FromU32, 4, []) == []
  {
  }
}
