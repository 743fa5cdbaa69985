/** Storing a payload in chunks under a manifest, checking the manifest, and putting the payload together again. */
module ChunkPipeline {
  import opened Wrappers
  import opened Numbers
  import opened FastCdc

  datatype HashAlg = Blake3 | Sha256

  /** `alg:hex`. */
  datatype BlobId = BlobId(alg: HashAlg, digest: string)

  datatype ChunkEntry = ChunkEntry(blobId: BlobId, offset: nat, length: nat)

  datatype ChunkManifest = ChunkManifest(version: nat, totalSize: nat, chunkCount: nat, hashAlg: HashAlg, chunks: seq<ChunkEntry>)

  /** The digests and the JSON encoding, known by their laws. */
  datatype Codec = Codec(digest: (HashAlg, Bytes) -> string, toJson: ChunkManifest -> Bytes, fromJson: Bytes -> Option<ChunkManifest>) {
    ghost predicate Lawful() {
      && (forall alg, x, y :: digest(alg, x) == digest(alg, y) ==> x == y)
      && (forall m :: fromJson(toJson(m)) == Some(m))
    }

    function Id(data: Bytes, alg: HashAlg): BlobId { BlobId(alg, digest(alg, data)) }

    predicate Verifies(id: BlobId, data: Bytes) { digest(id.alg, data) == id.digest }
  }

  class MemBlobStore {
    var blobs: map<BlobId, Bytes>

    constructor ()
      ensures blobs == map[]
    {
      blobs := map[];
    }

    method Put(id: BlobId, data: Bytes)
      modifies this
      ensures blobs == old(blobs)[id := data]
    {
      blobs := blobs[id := data];
    }

    method Get(id: BlobId) returns (data: Option<Bytes>)
      ensures data == if id in blobs then Some(blobs[id]) else None
    {
      data := if id in blobs then Some(blobs[id]) else None;
    }
  }

  // ----- The two chunkers -----

  datatype Chunker = Cdc(sizes: Sizes) | Fixed(size: nat) {
    predicate Valid() {
      match this
      case Cdc(s) => s.Valid()
      case Fixed(n) => 0 < n < U32_SPAN
    }
  }

  datatype Descriptor = Descriptor(offset: nat, length: nat, data: Bytes)

  function FixedPieces(size: nat, data: Bytes): seq<Bytes>
    requires size > 0
  {
    if data == [] then []
    else
      var n := Min(size, |data|);
      [data[..n]] + FixedPieces(size, data[n..])
  }

  /** The contents of the chunks; the content-defined chunker gives one empty chunk for no data. */
  function Pieces(ch: Chunker, data: Bytes): seq<Bytes>
    requires ch.Valid()
  {
    match ch
    case Cdc(s) => if data == [] then [[]] else Split(s, data)
    case Fixed(n) => FixedPieces(n, data)
  }

  function Describe(pieces: seq<Bytes>, offset: nat): seq<Descriptor> {
    if pieces == [] then []
    else [Descriptor(offset, |pieces[0]|, pieces[0])] + Describe(pieces[1..], offset + |pieces[0]|)
  }

  lemma MoveOver(done: seq<Descriptor>, next: Descriptor, rest: seq<Descriptor>)
    ensures done + ([next] + rest) == done + [next] + rest
  {
  }

  /** The content-defined chunks from `offset` on. */
  function CdcFrom(s: Sizes, data: Bytes, offset: nat): seq<Descriptor>
    requires s.Valid() && offset <= |data|
  {
    Describe(Split(s, data[offset..]), offset)
  }

  lemma CdcEnds(s: Sizes, data: Bytes)
    requires s.Valid()
    ensures data != [] ==> CdcFrom(s, data, 0) == Describe(Pieces(Cdc(s), data), 0)
    ensures CdcFrom(s, data, |data|) == []
  {
    assert data[0..] == data;
  }

  lemma CdcStep(s: Sizes, data: Bytes, offset: nat)
    requires s.Valid() && offset < |data|
    ensures var rest := data[offset..];
            var cut := CutPoint(s, rest);
            0 < cut <= |rest| && CdcFrom(s, data, offset) == [Descriptor(offset, cut, rest[..cut])] + CdcFrom(s, data, offset + cut)
  {
    hide CutPoint;
    var cut := CutPoint(s, data[offset..]);
    assert data[offset..][cut..] == data[offset + cut..];
  }

  /** The chunks so far and those still to come are all. */
  ghost predicate CdcUpTo(s: Sizes, data: Bytes, chunks: seq<Descriptor>, offset: nat)
    requires s.Valid()
  {
    data != [] && offset <= |data| && Describe(Pieces(Cdc(s), data), 0) == chunks + CdcFrom(s, data, offset)
  }

  lemma CdcUpToEnds(s: Sizes, data: Bytes, chunks: seq<Descriptor>)
    requires s.Valid() && data != []
    ensures CdcUpTo(s, data, [], 0)
    ensures CdcUpTo(s, data, chunks, |data|) ==> chunks == Describe(Pieces(Cdc(s), data), 0)
  {
    CdcEnds(s, data);
    hide CdcFrom, Describe, Pieces;
    assert [] + CdcFrom(s, data, 0) == CdcFrom(s, data, 0);
  }

  lemma CdcUpToStep(s: Sizes, data: Bytes, chunks: seq<Descriptor>, offset: nat)
    requires s.Valid() && CdcUpTo(s, data, chunks, offset) && offset < |data|
    ensures var rest := data[offset..];
            var cut := CutPoint(s, rest);
            0 < cut <= |rest| && CdcUpTo(s, data, chunks + [Descriptor(offset, cut, rest[..cut])], offset + cut)
  {
    hide CdcFrom, Describe, Pieces, CutPoint;
    CdcStep(s, data, offset);
    var cut := CutPoint(s, data[offset..]);
    MoveOver(chunks, Descriptor(offset, cut, data[offset..][..cut]), CdcFrom(s, data, offset + cut));
  }

  method ChunkCdc(s: Sizes, data: Bytes) returns (chunks: seq<Descriptor>)
    requires s.Valid()
    ensures chunks == Describe(Pieces(Cdc(s), data), 0)
  {
    if data == [] {
      return [Descriptor(0, 0, [])];
    }
    hide CutPoint, Describe, Pieces, CdcUpTo;
    chunks := [];
    var offset := 0;
    CdcUpToEnds(s, data, chunks);
    while offset < |data|
      invariant offset <= |data| && CdcUpTo(s, data, chunks, offset)
    {
      CdcUpToStep(s, data, chunks, offset);
      var remaining := data[offset..];
      var cut := FindCut(s, remaining);
      chunks := chunks + [Descriptor(offset, cut, remaining[..cut])];
      offset := offset + cut;
    }
    CdcUpToEnds(s, data, chunks);
  }

  /** The chunks from `offset` on. */
  function FixedFrom(size: nat, data: Bytes, offset: nat): seq<Descriptor>
    requires size > 0 && offset <= |data|
  {
    Describe(FixedPieces(size, data[offset..]), offset)
  }

  lemma FixedEnds(size: nat, data: Bytes)
    requires size > 0
    ensures FixedFrom(size, data, 0) == Describe(FixedPieces(size, data), 0)
    ensures FixedFrom(size, data, |data|) == []
  {
    assert data[0..] == data;
  }

  lemma FixedStep(size: nat, data: Bytes, offset: nat)
    requires size > 0 && offset < |data|
    ensures var end := Min(offset + size, |data|);
            FixedFrom(size, data, offset) == [Descriptor(offset, end - offset, data[offset..end])] + FixedFrom(size, data, end)
  {
    var end := Min(offset + size, |data|);
    assert data[offset..][..end - offset] == data[offset..end];
    assert data[offset..][end - offset..] == data[end..];
  }

  ghost predicate FixedUpTo(size: nat, data: Bytes, chunks: seq<Descriptor>, offset: nat)
    requires size > 0
  {
    offset <= |data| && Describe(FixedPieces(size, data), 0) == chunks + FixedFrom(size, data, offset)
  }

  lemma FixedUpToEnds(size: nat, data: Bytes, chunks: seq<Descriptor>)
    requires size > 0
    ensures FixedUpTo(size, data, [], 0)
    ensures FixedUpTo(size, data, chunks, |data|) ==> chunks == Describe(FixedPieces(size, data), 0)
  {
    FixedEnds(size, data);
    hide FixedFrom, Describe, FixedPieces;
    assert [] + FixedFrom(size, data, 0) == FixedFrom(size, data, 0);
  }

  lemma FixedUpToStep(size: nat, data: Bytes, chunks: seq<Descriptor>, offset: nat)
    requires size > 0 && FixedUpTo(size, data, chunks, offset) && offset < |data|
    ensures var end := Min(offset + size, |data|);
            FixedUpTo(size, data, chunks + [Descriptor(offset, end - offset, data[offset..end])], end)
  {
    hide FixedFrom, Describe, FixedPieces;
    var end := Min(offset + size, |data|);
    FixedStep(size, data, offset);
    MoveOver(chunks, Descriptor(offset, end - offset, data[offset..end]), FixedFrom(size, data, end));
  }

  method ChunkFixed(size: nat, data: Bytes) returns (chunks: seq<Descriptor>)
    requires size > 0
    ensures chunks == Describe(FixedPieces(size, data), 0)
  {
    hide FixedPieces, Describe, FixedUpTo;
    chunks := [];
    var offset := 0;
    FixedUpToEnds(size, data, chunks);
    while offset < |data|
      invariant offset <= |data| && FixedUpTo(size, data, chunks, offset)
    {
      FixedUpToStep(size, data, chunks, offset);
      var end := Min(offset + size, |data|);
      chunks := chunks + [Descriptor(offset, end - offset, data[offset..end])];
      offset := end;
    }
    FixedUpToEnds(size, data, chunks);
  }

  lemma {:induction false} FixedPiecesCover(size: nat, data: Bytes)
    requires size > 0
    ensures Join(FixedPieces(size, data)) == data
    ensures forall i :: 0 <= i < |FixedPieces(size, data)| ==> 0 < |FixedPieces(size, data)[i]| <= size
    ensures forall i :: 0 <= i < |FixedPieces(size, data)| - 1 ==> |FixedPieces(size, data)[i]| == size
    ensures data != [] ==> FixedPieces(size, data) != []
  {
    if data != [] {
      var n := Min(size, |data|);
      FixedPiecesCover(size, data[n..]);
      assert data == data[..n] + data[n..];
    }
  }

  /** What the trait promises of both: exactly the payload, every length in a u32, no empty chunk of a non-empty payload. */
  lemma PiecesCover(ch: Chunker, data: Bytes)
    requires ch.Valid()
    ensures Join(Pieces(ch, data)) == data
    ensures forall p :: p in Pieces(ch, data) ==> |p| < U32_SPAN && (data != [] ==> |p| > 0)
  {
    match ch
    case Cdc(s) =>
      SplitCovers(s, data);
      assert Join([[]]) == [];
    case Fixed(n) => FixedPiecesCover(n, data);
  }

  // ----- Uploading -----

  function Entries(c: Codec, alg: HashAlg, chunks: seq<Descriptor>): seq<ChunkEntry> {
    seq(|chunks|, i requires 0 <= i < |chunks| => ChunkEntry(c.Id(chunks[i].data, alg), chunks[i].offset, chunks[i].length))
  }

  function ChunkIds(c: Codec, alg: HashAlg, pieces: seq<Bytes>): seq<BlobId> {
    seq(|pieces|, i requires 0 <= i < |pieces| => c.Id(pieces[i], alg))
  }

  /** The manifest of `data`; the count is cast to u32. */
  function ManifestFor(c: Codec, alg: HashAlg, ch: Chunker, data: Bytes): ChunkManifest
    requires ch.Valid()
  {
    var chunks := Describe(Pieces(ch, data), 0);
    ChunkManifest(1, |data|, |chunks| % U32_SPAN, alg, Entries(c, alg, chunks))
  }

  /** The store after putting each piece under its id, in order. */
  function PutAll(c: Codec, alg: HashAlg, pieces: seq<Bytes>, blobs: map<BlobId, Bytes>): map<BlobId, Bytes> {
    if pieces == [] then blobs
    else
      var last := pieces[|pieces| - 1];
      PutAll(c, alg, pieces[..|pieces| - 1], blobs)[c.Id(last, alg) := last]
  }

  datatype ChunkedUpload = ChunkedUpload(rootBlob: BlobId, chunkBlobs: seq<BlobId>, totalSize: nat, chunked: bool)

  lemma {:induction false} DescribeData(pieces: seq<Bytes>, offset: nat)
    ensures |Describe(pieces, offset)| == |pieces|
    ensures forall i :: 0 <= i < |pieces| ==>
              Describe(pieces, offset)[i].data == pieces[i] && Describe(pieces, offset)[i].length == |pieces[i]|
  {
    if pieces != [] {
      DescribeData(pieces[1..], offset + |pieces[0]|);
    }
  }

  method Chunk(ch: Chunker, data: Bytes) returns (chunks: seq<Descriptor>)
    requires ch.Valid()
    ensures chunks == Describe(Pieces(ch, data), 0)
  {
    match ch
    case Cdc(s) => chunks := ChunkCdc(s, data);
    case Fixed(n) => chunks := ChunkFixed(n, data);
  }

  /** `compute_chunk_blob_ids`. */
  function ComputeChunkBlobIds(c: Codec, data: Bytes, alg: HashAlg, threshold: nat, ch: Chunker): seq<BlobId>
    requires ch.Valid()
  {
    if |data| <= threshold then [c.Id(data, alg)] else ChunkIds(c, alg, Pieces(ch, data))
  }

  lemma {:induction false} PutAllVerifies(c: Codec, alg: HashAlg, pieces: seq<Bytes>, blobs: map<BlobId, Bytes>)
    ensures forall id :: id in ChunkIds(c, alg, pieces) ==> id in PutAll(c, alg, pieces, blobs) && c.Verifies(id, PutAll(c, alg, pieces, blobs)[id])
  {
    if pieces != [] {
      PutAllVerifies(c, alg, pieces[..|pieces| - 1], blobs);
      assert ChunkIds(c, alg, pieces) == ChunkIds(c, alg, pieces[..|pieces| - 1]) + [c.Id(pieces[|pieces| - 1], alg)];
    }
  }

  /** The bytes stored under the ids, in order. */
  function Joined(blobs: map<BlobId, Bytes>, ids: seq<BlobId>): Bytes
    requires forall id :: id in ids ==> id in blobs
  {
    if ids == [] then [] else blobs[ids[0]] + Joined(blobs, ids[1..])
  }

  ghost predicate Names(blobs: map<BlobId, Bytes>, ids: seq<BlobId>, data: Bytes) {
    (forall id :: id in ids ==> id in blobs) && Joined(blobs, ids) == data
  }

  /** The manifest under `root` lists these ids, in this order, and says how they were hashed and how long the payload is. */
  ghost predicate ListedBy(c: Codec, blobs: map<BlobId, Bytes>, root: BlobId, ids: seq<BlobId>, alg: HashAlg, size: nat) {
    root in blobs &&
    var m := c.fromJson(blobs[root]);
    m.Some? && m.value.hashAlg == alg && m.value.totalSize == size && |m.value.chunks| == |ids| && forall i :: 0 <= i < |ids| ==> m.value.chunks[i].blobId == ids[i]
  }

  lemma {:induction false} PiecesJoin(c: Codec, alg: HashAlg, pieces: seq<Bytes>, blobs: map<BlobId, Bytes>)
    requires forall p :: p in pieces ==> c.Id(p, alg) in blobs && blobs[c.Id(p, alg)] == p
    ensures Names(blobs, ChunkIds(c, alg, pieces), Join(pieces))
  {
    if pieces != [] {
      assert ChunkIds(c, alg, pieces)[1..] == ChunkIds(c, alg, pieces[1..]);
      PiecesJoin(c, alg, pieces[1..], blobs);
    }
  }

  /** The announced ids name the payload's chunks in order, and the manifest lists them so. */
  lemma AnnouncedIds(c: Codec, alg: HashAlg, ch: Chunker, data: Bytes, blobs: map<BlobId, Bytes>)
    requires c.Lawful() && ch.Valid()
    ensures var (json, ids) := (c.toJson(ManifestFor(c, alg, ch, data)), ChunkIds(c, alg, Pieces(ch, data)));
            var stored := PutAll(c, alg, Pieces(ch, data) + [json], blobs);
            Names(stored, ids, data) && ListedBy(c, stored, c.Id(json, alg), ids, alg, |data|)
  {
    var pieces, json := Pieces(ch, data), c.toJson(ManifestFor(c, alg, ch, data));
    var stored := PutAll(c, alg, pieces + [json], blobs);
    PutAllHolds(c, alg, pieces + [json], blobs);
    PiecesCover(ch, data);
    DescribeData(pieces, 0);
    hide Pieces, PutAll, Join, Names, Describe;
    assert json in pieces + [json];
    forall p | p in pieces ensures c.Id(p, alg) in stored && stored[c.Id(p, alg)] == p {
      assert p in pieces + [json];
    }
    PiecesJoin(c, alg, pieces, stored);
  }

  lemma OneName(blobs: map<BlobId, Bytes>, id: BlobId)
    requires id in blobs
    ensures Names(blobs, [id], blobs[id])
  {
    assert Joined(blobs, [id]) == blobs[id] + Joined(blobs, []) == blobs[id];
  }

  lemma PutLast(c: Codec, alg: HashAlg, pieces: seq<Bytes>, last: Bytes, blobs: map<BlobId, Bytes>)
    ensures PutAll(c, alg, pieces + [last], blobs) == PutAll(c, alg, pieces, blobs)[c.Id(last, alg) := last]
  {
    assert (pieces + [last])[..|pieces|] == pieces;
  }

  /** `chunk_and_store`. The stored payload can be read back through the root blob, and the ids that
      `compute_chunk_blob_ids` announces for it are stored. */
  method ChunkAndStore(c: Codec, data: Bytes, store: MemBlobStore, alg: HashAlg, threshold: nat, ch: Chunker) returns (r: ChunkedUpload)
    requires ch.Valid() && |data| < U64_SPAN
    modifies store
    ensures r.chunked <==> |data| > threshold
    ensures r.totalSize == |data|
    ensures !r.chunked ==> store.blobs == old(store.blobs)[c.Id(data, alg) := data] && r.rootBlob == c.Id(data, alg) && r.chunkBlobs == []
    ensures r.chunked ==>
              var json := c.toJson(ManifestFor(c, alg, ch, data));
              && store.blobs == PutAll(c, alg, Pieces(ch, data) + [json], old(store.blobs))
              && r.rootBlob == c.Id(json, alg)
              && r.chunkBlobs == ChunkIds(c, alg, Pieces(ch, data))
    ensures c.Lawful() ==> Readable(c, store.blobs, r.rootBlob, r.chunked, data)
    ensures c.Lawful() ==> Names(store.blobs, ComputeChunkBlobIds(c, data, alg, threshold, ch), data)
    ensures c.Lawful() && r.chunked ==> Names(store.blobs, r.chunkBlobs, data) && ListedBy(c, store.blobs, r.rootBlob, r.chunkBlobs, alg, |data|)
    ensures ComputeChunkBlobIds(c, data, alg, threshold, ch) == if r.chunked then r.chunkBlobs else [r.rootBlob]
    ensures forall id :: id in ComputeChunkBlobIds(c, data, alg, threshold, ch) ==> id in store.blobs && c.Verifies(id, store.blobs[id])
  {
    hide Names, ListedBy, Pieces, Describe, PutAll;
    if |data| <= threshold {
      var id := c.Id(data, alg);
      store.Put(id, data);
      OneName(store.blobs, id);
      return ChunkedUpload(id, [], |data|, false);
    }
    ghost var blobs0 := store.blobs;
    var chunks := Chunk(ch, data);
    DescribeData(Pieces(ch, data), 0);
    hide Readable;
    var entries, ids := StoreChunks(c, Pieces(ch, data), chunks, store, alg);
    var json := c.toJson(ChunkManifest(1, |data|, |entries| % U32_SPAN, alg, entries));
    var root := c.Id(json, alg);
    PutLast(c, alg, Pieces(ch, data), json, blobs0);
    PutAllVerifies(c, alg, Pieces(ch, data), blobs0);
    store.Put(root, json);
    r := ChunkedUpload(root, ids, |data|, true);
    if c.Lawful() {
      RoundTrip(c, alg, ch, data, blobs0);
      AnnouncedIds(c, alg, ch, data, blobs0);
    }
  }

  /** The loop that stores every chunk and collects its manifest entry. */
  method StoreChunks(c: Codec, ghost pieces: seq<Bytes>, chunks: seq<Descriptor>, store: MemBlobStore, alg: HashAlg)
    returns (entries: seq<ChunkEntry>, ids: seq<BlobId>)
    requires |chunks| == |pieces| && forall i :: 0 <= i < |chunks| ==> chunks[i].data == pieces[i]
    modifies store
    ensures store.blobs == PutAll(c, alg, pieces, old(store.blobs))
    ensures entries == Entries(c, alg, chunks) && ids == ChunkIds(c, alg, pieces)
  {
    entries, ids := [], [];
    for i := 0 to |chunks|
      invariant store.blobs == PutAll(c, alg, pieces[..i], old(store.blobs))
      invariant entries == Entries(c, alg, chunks[..i]) && ids == ChunkIds(c, alg, pieces[..i])
    {
      var id := c.Id(chunks[i].data, alg);
      assert pieces[..i + 1][..i] == pieces[..i];
      store.Put(id, chunks[i].data);
      entries := entries + [ChunkEntry(id, chunks[i].offset, chunks[i].length)];
      ids := ids + [id];
    }
    assert pieces[..|chunks|] == pieces && chunks[..|chunks|] == chunks;
  }

  // ----- Checking and reassembling -----

  function LengthSum(chunks: seq<ChunkEntry>): nat {
    if chunks == [] then 0 else LengthSum(chunks[..|chunks| - 1]) + chunks[|chunks| - 1].length
  }

  lemma SumStep(chunks: seq<ChunkEntry>, i: nat)
    requires i < |chunks|
    ensures LengthSum(chunks[..i + 1]) == LengthSum(chunks[..i]) + chunks[i].length
  {
    assert chunks[..i + 1][..i] == chunks[..i];
  }

  /** Where chunk `i` should start, in u64. */
  function Start(chunks: seq<ChunkEntry>, i: nat): nat
    requires i <= |chunks|
  {
    Wrap64(LengthSum(chunks[..i]))
  }

  lemma StartStep(chunks: seq<ChunkEntry>, i: nat)
    requires i < |chunks|
    ensures Start(chunks, 0) == 0
    ensures Start(chunks, i + 1) == Wrap64(Start(chunks, i) + chunks[i].length)
  {
    Wrap64Laws(0, 0);
    SumStep(chunks, i);
    Wrap64Laws(LengthSum(chunks[..i]), chunks[i].length);
  }

  datatype ManifestError = BadVersion | BadCount | BadTotal | OffsetGap

  /** Sums and offsets are u64, counts u32; both wrap. */
  ghost predicate WellFormed(m: ChunkManifest) {
    && m.version == 1
    && m.chunkCount == |m.chunks| % U32_SPAN
    && Wrap64(LengthSum(m.chunks)) == m.totalSize
    && (forall i :: 0 <= i < |m.chunks| ==> m.chunks[i].offset == Start(m.chunks, i))
  }

  /** `validate`: accepts exactly the well-formed manifests, and reports the first failed check. */
  method Validate(m: ChunkManifest) returns (r: Option<ManifestError>)
    ensures r.None? <==> WellFormed(m)
    ensures r == Some(BadVersion) <==> m.version != 1
    ensures r == Some(BadCount) ==> m.version == 1 && m.chunkCount != |m.chunks| % U32_SPAN
    ensures r == Some(BadTotal) ==> m.chunkCount == |m.chunks| % U32_SPAN && Wrap64(LengthSum(m.chunks)) != m.totalSize
    ensures r == Some(OffsetGap) ==> Wrap64(LengthSum(m.chunks)) == m.totalSize
  {
    if m.version != 1 {
      return Some(BadVersion);
    }
    if m.chunkCount != |m.chunks| % U32_SPAN {
      return Some(BadCount);
    }
    var total := TotalLength(m.chunks);
    if total != m.totalSize {
      return Some(BadTotal);
    }
    var contiguous := Contiguous(m.chunks);
    return if contiguous then None else Some(OffsetGap);
  }

  /** Every chunk starts where the one before it ends, the first at zero, and the last ends at the total, all in u64. */
  ghost predicate Tiles(chunks: seq<ChunkEntry>, total: nat) {
    && (chunks != [] ==> chunks[0].offset == 0)
    && (forall i :: 0 <= i < |chunks| - 1 ==> chunks[i + 1].offset == EndOf(chunks[i]))
    && total == if chunks == [] then 0 else EndOf(chunks[|chunks| - 1])
  }

  function EndOf(e: ChunkEntry): nat { (e.offset + e.length) % 0x1_0000_0000_0000_0000 }

  /** The validator accepts exactly the manifests of version 1 that count their chunks and whose chunks tile the payload. */
  lemma WellFormedIffTiles(m: ChunkManifest)
    ensures WellFormed(m) <==> m.version == 1 && m.chunkCount == |m.chunks| % 0x1_0000_0000 && Tiles(m.chunks, m.totalSize)
  {
    var cs := m.chunks;
    assert cs[..|cs|] == cs && Start(cs, |cs|) == Wrap64(LengthSum(cs));
    assert Start(cs, 0) == 0 by { Wrap64Laws(0, 0); }
    forall i | 0 <= i < |cs| && cs[i].offset == Start(cs, i) ensures EndOf(cs[i]) == Start(cs, i + 1) {
      StartStep(cs, i);
      EndIs(cs[i]);
    }
    hide Start, Wrap64, LengthSum, EndOf;
    if Tiles(cs, m.totalSize) {
      TilesStart(cs, m.totalSize, |cs|);
    }
  }

  lemma EndIs(e: ChunkEntry)
    ensures EndOf(e) == Wrap64(e.offset + e.length)
  {
  }

  lemma {:induction false} TilesStart(cs: seq<ChunkEntry>, total: nat, n: nat)
    requires Tiles(cs, total) && n <= |cs|
    ensures forall i :: 0 <= i < n ==> cs[i].offset == Start(cs, i)
  {
    hide Start, EndOf, Wrap64;
    if n > 0 {
      TilesStart(cs, total, n - 1);
      StartStep(cs, 0);
      if n > 1 {
        StartStep(cs, n - 2);
        EndIs(cs[n - 2]);
      }
    }
  }

  method TotalLength(chunks: seq<ChunkEntry>) returns (total: nat)
    ensures total == Wrap64(LengthSum(chunks))
  {
    total := 0;
    Wrap64Laws(0, 0);
    assert chunks[..|chunks|] == chunks;
    assert Start(chunks, |chunks|) == Wrap64(LengthSum(chunks));
    assert Start(chunks, 0) == 0;
    hide Wrap64, Start, LengthSum;
    for i := 0 to |chunks|
      invariant total == Start(chunks, i)
    {
      StartStep(chunks, i);
      total := Wrap64(total + chunks[i].length);
    }
  }

  /** The loop over expected offsets. */
  method Contiguous(chunks: seq<ChunkEntry>) returns (ok: bool)
    ensures ok <==> forall i :: 0 <= i < |chunks| ==> chunks[i].offset == Start(chunks, i)
  {
    hide Start, Wrap64;
    var expected := 0;
    for i := 0 to |chunks|
      invariant i < |chunks| ==> expected == if i == 0 then 0 else Start(chunks, i)
      invariant forall j :: 0 <= j < i ==> chunks[j].offset == Start(chunks, j)
    {
      StartStep(chunks, i);
      if chunks[i].offset != expected {
        return false;
      }
      expected := Wrap64(expected + chunks[i].length);
    }
    return true;
  }

  datatype ReadError = NotFound | Integrity

  function Gather(c: Codec, blobs: map<BlobId, Bytes>, entries: seq<ChunkEntry>, buf: Bytes): Result<Bytes, ReadError> {
    if entries == [] then Ok(buf)
    else
      var e := entries[0];
      if e.blobId !in blobs then Err(NotFound)
      else if !c.Verifies(e.blobId, blobs[e.blobId]) || |blobs[e.blobId]| != e.length then Err(Integrity)
      else Gather(c, blobs, entries[1..], buf + blobs[e.blobId])
  }

  function Reassembled(c: Codec, m: ChunkManifest, blobs: map<BlobId, Bytes>): Result<Bytes, ReadError> {
    var r := Gather(c, blobs, m.chunks, []);
    if r.Ok? && Wrap64(|r.value|) != m.totalSize then Err(Integrity) else r
  }

  method Reassemble(c: Codec, m: ChunkManifest, store: MemBlobStore) returns (r: Result<Bytes, ReadError>)
    ensures r == Reassembled(c, m, store.blobs)
  {
    var buf: Bytes := [];
    assert m.chunks[0..] == m.chunks;
    for i := 0 to |m.chunks|
      invariant Gather(c, store.blobs, m.chunks, []) == Gather(c, store.blobs, m.chunks[i..], buf)
    {
      var e := m.chunks[i];
      var chunk := store.Get(e.blobId);
      assert m.chunks[i..][1..] == m.chunks[i + 1..];
      if chunk.None? {
        return Err(NotFound);
      }
      if !c.Verifies(e.blobId, chunk.value) || |chunk.value| != e.length {
        return Err(Integrity);
      }
      buf := buf + chunk.value;
    }
    if Wrap64(|buf|) != m.totalSize {
      return Err(Integrity);
    }
    return Ok(buf);
  }

  /** Every listed chunk is there, verifies and has its length; their bytes in order make the payload of that size. */
  ghost predicate Intact(c: Codec, m: ChunkManifest, blobs: map<BlobId, Bytes>, data: Bytes) {
    && (forall i :: 0 <= i < |m.chunks| ==> Sound(c, m.chunks[i], blobs))
    && Names(blobs, IdsOf(m.chunks), data)
    && |data| % 0x1_0000_0000_0000_0000 == m.totalSize
  }

  ghost predicate Sound(c: Codec, e: ChunkEntry, blobs: map<BlobId, Bytes>) {
    e.blobId in blobs && c.digest(e.blobId.alg, blobs[e.blobId]) == e.blobId.digest && |blobs[e.blobId]| == e.length
  }

  function IdsOf(chunks: seq<ChunkEntry>): (ids: seq<BlobId>)
    ensures |ids| == |chunks|
  {
    seq(|chunks|, i requires 0 <= i < |chunks| => chunks[i].blobId)
  }

  lemma {:induction false} GatherIff(c: Codec, blobs: map<BlobId, Bytes>, chunks: seq<ChunkEntry>, buf: Bytes)
    ensures Gather(c, blobs, chunks, buf).Ok? <==> forall i :: 0 <= i < |chunks| ==> Sound(c, chunks[i], blobs)
    ensures Gather(c, blobs, chunks, buf).Ok? ==>
              (forall id :: id in IdsOf(chunks) ==> id in blobs) && Gather(c, blobs, chunks, buf).value == buf + Joined(blobs, IdsOf(chunks))
  {
    if chunks == [] {
      assert buf + [] == buf;
    } else {
      var e := chunks[0];
      assert forall i :: 1 <= i < |chunks| ==> chunks[1..][i - 1] == chunks[i];
      assert IdsOf(chunks)[1..] == IdsOf(chunks[1..]);
      if Sound(c, e, blobs) {
        GatherIff(c, blobs, chunks[1..], buf + blobs[e.blobId]);
        if Gather(c, blobs, chunks[1..], buf + blobs[e.blobId]).Ok? {
          var rest := Joined(blobs, IdsOf(chunks[1..]));
          assert buf + blobs[e.blobId] + rest == buf + (blobs[e.blobId] + rest);
        }
      }
    }
  }

  /** Reassembly answers with the payload exactly when every chunk is intact, and with nothing else. */
  lemma ReassembledIff(c: Codec, m: ChunkManifest, blobs: map<BlobId, Bytes>, data: Bytes)
    ensures Reassembled(c, m, blobs) == Ok(data) <==> Intact(c, m, blobs, data)
  {
    GatherIff(c, blobs, m.chunks, []);
    hide Gather, Sound, Joined;
    assert forall x: Bytes :: [] + x == x;
  }

  // ----- Round trip -----

  /** What a reader of the root blob gets. */
  ghost predicate Readable(c: Codec, blobs: map<BlobId, Bytes>, root: BlobId, chunked: bool, data: Bytes) {
    root in blobs &&
    if chunked then
      var m := c.fromJson(blobs[root]);
      m.Some? && WellFormed(m.value) && Reassembled(c, m.value, blobs) == Ok(data)
    else
      blobs[root] == data
  }

  lemma {:induction false} PutAllHolds(c: Codec, alg: HashAlg, pieces: seq<Bytes>, blobs: map<BlobId, Bytes>)
    requires c.Lawful()
    ensures forall p :: p in pieces ==> c.Id(p, alg) in PutAll(c, alg, pieces, blobs) && PutAll(c, alg, pieces, blobs)[c.Id(p, alg)] == p
  {
    if pieces != [] {
      var n := |pieces| - 1;
      PutAllHolds(c, alg, pieces[..n], blobs);
      forall p | p in pieces ensures p in pieces[..n] || p == pieces[n] {}
    }
  }

  lemma {:induction false} GatherJoins(c: Codec, alg: HashAlg, pieces: seq<Bytes>, offset: nat, blobs: map<BlobId, Bytes>, buf: Bytes)
    requires forall p :: p in pieces ==> c.Id(p, alg) in blobs && blobs[c.Id(p, alg)] == p
    ensures Gather(c, blobs, Entries(c, alg, Describe(pieces, offset)), buf) == Ok(buf + Join(pieces))
  {
    if pieces == [] {
      assert buf + [] == buf;
    } else {
      var p := pieces[0];
      var rest := Describe(pieces[1..], offset + |p|);
      assert Entries(c, alg, Describe(pieces, offset))[1..] == Entries(c, alg, rest);
      GatherJoins(c, alg, pieces[1..], offset + |p|, blobs, buf + p);
      assert buf + p + Join(pieces[1..]) == buf + Join(pieces);
    }
  }

  lemma {:induction false} OffsetsAreSums(c: Codec, alg: HashAlg, pieces: seq<Bytes>, i: nat)
    requires i <= |pieces|
    ensures |Describe(pieces, 0)| == |pieces|
    ensures LengthSum(Entries(c, alg, Describe(pieces, 0))[..i]) == Offset(pieces, i)
    ensures i < |pieces| ==> Describe(pieces, 0)[i].offset == Offset(pieces, i)
  {
    DescribeData(pieces, 0);
    DescribeOffsets(pieces, 0);
    var es := Entries(c, alg, Describe(pieces, 0));
    if i > 0 {
      OffsetsAreSums(c, alg, pieces, i - 1);
      assert es[..i][..i - 1] == es[..i - 1];
      OffsetStep(pieces, i - 1);
    }
  }

  lemma {:induction false} DescribeOffsets(pieces: seq<Bytes>, from: nat)
    ensures |Describe(pieces, from)| == |pieces|
    ensures forall i :: 0 <= i < |pieces| ==> Describe(pieces, from)[i].offset == from + Offset(pieces, i)
  {
    if pieces != [] {
      DescribeOffsets(pieces[1..], from + |pieces[0]|);
    }
  }

  lemma {:induction false} OffsetWithinJoin(pieces: seq<Bytes>, i: nat)
    requires i <= |pieces|
    ensures Offset(pieces, i) <= |Join(pieces)|
    ensures i == |pieces| ==> Offset(pieces, i) == |Join(pieces)|
  {
    if i > 0 {
      OffsetWithinJoin(pieces[1..], i - 1);
    }
  }

  /** For either chunker the stored manifest is well-formed and reassembles to the payload. */
  lemma RoundTrip(c: Codec, alg: HashAlg, ch: Chunker, data: Bytes, blobs: map<BlobId, Bytes>)
    requires c.Lawful() && ch.Valid() && |data| < U64_SPAN
    ensures var json := c.toJson(ManifestFor(c, alg, ch, data));
            Readable(c, PutAll(c, alg, Pieces(ch, data) + [json], blobs), c.Id(json, alg), true, data)
  {
    var pieces, m := Pieces(ch, data), ManifestFor(c, alg, ch, data);
    var json := c.toJson(m);
    var stored := PutAll(c, alg, pieces + [json], blobs);
    PutAllHolds(c, alg, pieces + [json], blobs);
    PiecesCover(ch, data);
    ManifestWellFormed(c, alg, ch, data);
    Wrap64Laws(|data|, 0);
    hide Pieces, Wrap64, WellFormed, PutAll;
    assert json in pieces + [json];
    forall p | p in pieces ensures c.Id(p, alg) in stored && stored[c.Id(p, alg)] == p {
      assert p in pieces + [json];
    }
    GatherJoins(c, alg, pieces, 0, stored, []);
    assert [] + Join(pieces) == data;
  }

  lemma ManifestWellFormed(c: Codec, alg: HashAlg, ch: Chunker, data: Bytes)
    requires ch.Valid() && |data| < U64_SPAN
    ensures WellFormed(ManifestFor(c, alg, ch, data))
  {
    var pieces, m := Pieces(ch, data), ManifestFor(c, alg, ch, data);
    PiecesCover(ch, data);
    DescribeData(pieces, 0);
    hide Pieces, Wrap64, LengthSum, Offset, Describe, Join;
    forall i | 0 <= i < |m.chunks| ensures m.chunks[i].offset == Start(m.chunks, i) {
      OffsetsAreSums(c, alg, pieces, i);
      OffsetWithinJoin(pieces, i);
      Wrap64Laws(LengthSum(m.chunks[..i]), 0);
    }
    OffsetsAreSums(c, alg, pieces, |pieces|);
    OffsetWithinJoin(pieces, |pieces|);
    Wrap64Laws(|data|, 0);
    assert m.chunks[..|pieces|] == m.chunks;
  }

  /** Reassembly depends on the manifest alone: any two stores that satisfy it give the same bytes. */
  lemma {:induction false} ManifestFixesBytes(c: Codec, entries: seq<ChunkEntry>, blobs: map<BlobId, Bytes>, blobs': map<BlobId, Bytes>, buf: Bytes)
    requires c.Lawful() && Gather(c, blobs, entries, buf).Ok? && Gather(c, blobs', entries, buf).Ok?
    ensures Gather(c, blobs, entries, buf) == Gather(c, blobs', entries, buf)
  {
    if entries != [] {
      var id := entries[0].blobId;
      assert blobs[id] == blobs'[id];
      ManifestFixesBytes(c, entries[1..], blobs, blobs', buf + blobs[id]);
    }
  }
}
