/** The write-back cache of optimizer-state blocks: a state and the relation of every locked body. */
module OptimizerState {
  import opened Wrappers
  import opened Numbers
  import opened CacheKeys
  import opened Ranking

  /** zstd and blake3, known only by their laws. */
  datatype Codec = Codec(compress: Bytes -> Bytes, decompress: Bytes -> Bytes, blobId: Bytes -> string) {
    ghost predicate Lawful() {
      && (forall x :: decompress(compress(x)) == x)
      && (forall x, y :: blobId(x) == blobId(y) ==> x == y)
    }
  }

  datatype BlockInfo = BlockInfo(step: int, shardKey: Option<string>, metadata: map<string, string>)

  datatype Record = Record(blockId: string, blobId: string, info: BlockInfo, sizeRaw: nat, sizeStored: nat, storedAt: int)

  datatype Entry = Entry(bytes: Bytes, info: BlockInfo, dirty: bool, pinned: bool, lastTouch: int, record: Option<Record>)

  type Manifest = map<string, Record>

  /** Memory (`cache`, `pinned`, the two limits) and disk (`blobs`, and `manifests` by file name). */
  datatype Store = Store(cache: map<string, Entry>, pinned: set<string>, capacity: int, threshold: int,
                         blobs: map<string, Bytes>, manifests: map<string, Manifest>)

  datatype BlockWrite = BlockWrite(block: string, payload: Bytes, info: BlockInfo)

  // ----- What a caller can observe -----

  function ManifestOf(s: Store, o: string): Manifest {
    if SafeName(o) in s.manifests then s.manifests[SafeName(o)] else map[]
  }

  /** The payload that survives on disk. */
  function Durable(c: Codec, s: Store, o: string, b: string): Option<Bytes> {
    var m := ManifestOf(s, o);
    if b in m && m[b].blobId in s.blobs then Some(c.decompress(s.blobs[m[b].blobId])) else None
  }

  /** The payload the store currently answers with. */
  function Live(c: Codec, s: Store, o: string, b: string): Option<Bytes> {
    if CacheKey(o, b) in s.cache then Some(s.cache[CacheKey(o, b)].bytes) else Durable(c, s, o, b)
  }

  ghost predicate SameLive(c: Codec, origins: set<string>, s: Store, s': Store) {
    forall o, b :: o in origins ==> Live(c, s', o, b) == Live(c, s, o, b)
  }

  ghost predicate LiveWritten(c: Codec, origins: set<string>, s: Store, o: string, b: string, p: Bytes, s': Store) {
    forall o', b' :: o' in origins ==>
      Live(c, s', o', b') == if o' == o && b' == b then Some(p) else Live(c, s, o', b')
  }

  function DirtyKeys(s: Store, o: string): set<string> {
    set k | k in s.cache && s.cache[k].dirty && OwnedBy(k, o)
  }

  /** The entries capacity may remove: clean and pinned neither by flag nor by the pinned set. */
  function Candidates(s: Store): (keys: set<string>)
    ensures keys <= s.cache.Keys
  {
    set k | k in s.cache && !s.cache[k].dirty && k !in s.pinned && !s.cache[k].pinned
  }

  // ----- Invariants -----

  ghost predicate KeysSound(origins: set<string>, s: Store) {
    forall k :: k in s.cache ==> Splittable(k) && OriginOf(k) in origins && s.cache[k].pinned == (k in s.pinned)
  }

  /** Blobs are content-addressed and every manifest record names a stored blob. */
  ghost predicate DiskSound(c: Codec, s: Store) {
    && (forall id :: id in s.blobs ==> c.blobId(s.blobs[id]) == id)
    && (forall f, b :: f in s.manifests && b in s.manifests[f] ==> s.manifests[f][b].blobId in s.blobs)
  }

  /** A clean entry can be dropped: disk holds the same payload. */
  ghost predicate CleanSound(c: Codec, origins: set<string>, s: Store) {
    forall o, b :: o in origins && CacheKey(o, b) in s.cache && !s.cache[CacheKey(o, b)].dirty ==>
      Durable(c, s, o, b) == Some(s.cache[CacheKey(o, b)].bytes)
  }

  /** Holds at every point inside an operation too. */
  ghost predicate Consistent(c: Codec, origins: set<string>, s: Store) {
    KeysSound(origins, s) && DiskSound(c, s) && CleanSound(c, origins, s)
  }

  /** Holds between operations. */
  ghost predicate Bounded(origins: set<string>, s: Store) {
    && s.capacity >= 1 && s.threshold >= 1
    && |Candidates(s)| <= s.capacity
    && (forall o :: o in origins ==> |DirtyKeys(s, o)| < s.threshold)
  }

  // ----- The relation of each locked body; `now` is its clock reading -----

  /** The loop drops as many candidates as exceed the capacity, or all, and none more recently touched than one it keeps. */
  ghost predicate Shrunk(cache: map<string, Entry>, candidates: set<string>, capacity: int, cache': map<string, Entry>) {
    && candidates <= cache.Keys && cache'.Keys <= cache.Keys
    && (forall k :: k in cache' ==> cache'[k] == cache[k])
    && var evicted := cache.Keys - cache'.Keys;
    && evicted <= candidates
    && |evicted| == Min(Max(|cache| - capacity, 0), |candidates|)
    && (forall e, k :: e in evicted && k in candidates && k !in evicted ==> cache[e].lastTouch <= cache[k].lastTouch)
  }

  ghost predicate Enforced(s: Store, s': Store) {
    s' == s.(cache := s'.cache) && Shrunk(s.cache, Candidates(s), s.capacity, s'.cache)
  }

  function Stage(s: Store, o: string, w: BlockWrite, now: int): Store {
    var key := CacheKey(o, w.block);
    s.(cache := s.cache[key := Entry(w.payload, w.info, true, key in s.pinned, now, None)])
  }

  function StageAll(s: Store, o: string, ws: seq<BlockWrite>, now: int): Store {
    if ws == [] then s else Stage(StageAll(s, o, ws[..|ws| - 1], now), o, ws[|ws| - 1], now)
  }

  /** The blocks a flush of `ids` has to write. */
  function Targets(s: Store, o: string, ids: set<string>): set<string> {
    set b | b in ids && CacheKey(o, b) in s.cache && s.cache[CacheKey(o, b)].dirty
  }

  function KeysOf(o: string, ids: set<string>): (keys: set<string>)
    ensures forall b :: b in ids ==> CacheKey(o, b) in keys
  {
    set b | b in ids :: CacheKey(o, b)
  }

  function Compressed(c: Codec, s: Store, o: string, b: string): Bytes
    requires CacheKey(o, b) in s.cache
  {
    c.compress(s.cache[CacheKey(o, b)].bytes)
  }

  function RecordFor(c: Codec, s: Store, o: string, b: string, now: int): Record
    requires CacheKey(o, b) in s.cache
  {
    var e, z := s.cache[CacheKey(o, b)], Compressed(c, s, o, b);
    Record(b, c.blobId(z), e.info, |e.bytes|, |z|, now)
  }

  /** Cache, blobs and manifest once the blocks `t` are written. */
  ghost predicate WrittenCache(c: Codec, s: Store, o: string, t: set<string>, now: int, cache: map<string, Entry>)
    requires KeysOf(o, t) <= s.cache.Keys
  {
    && cache.Keys == s.cache.Keys
    && (forall b :: b in t ==>
         cache[CacheKey(o, b)] == s.cache[CacheKey(o, b)].(dirty := false, record := Some(RecordFor(c, s, o, b, now)), lastTouch := now))
    && (forall k :: k in s.cache && k !in KeysOf(o, t) ==> cache[k] == s.cache[k])
  }

  ghost predicate WrittenBlobs(c: Codec, s: Store, o: string, t: set<string>, blobs: map<string, Bytes>)
    requires KeysOf(o, t) <= s.cache.Keys
  {
    && (forall id :: id in s.blobs ==> id in blobs && blobs[id] == s.blobs[id])
    && (forall id :: id in blobs && id !in s.blobs ==> exists b :: b in t && id == c.blobId(Compressed(c, s, o, b)))
    && (forall b :: b in t ==>
         var id := c.blobId(Compressed(c, s, o, b));
         id in blobs && (id !in s.blobs ==> blobs[id] == Compressed(c, s, o, b)))
  }

  function WrittenManifest(c: Codec, s: Store, o: string, t: set<string>, now: int): Manifest
    requires KeysOf(o, t) <= s.cache.Keys
  {
    ManifestOf(s, o) + (map b | b in t :: RecordFor(c, s, o, b, now))
  }

  ghost predicate Written(c: Codec, s: Store, o: string, ids: set<string>, now: int,
                          cache: map<string, Entry>, blobs: map<string, Bytes>, m: Manifest)
  {
    var t := Targets(s, o, ids);
    && WrittenCache(c, s, o, t, now, cache)
    && WrittenBlobs(c, s, o, t, blobs)
    && m == WrittenManifest(c, s, o, t, now)
  }

  ghost predicate Flushed(c: Codec, s: Store, o: string, ids: set<string>, now: int, s': Store) {
    && s' == s.(cache := s'.cache, blobs := s'.blobs, manifests := s.manifests[SafeName(o) := ManifestOf(s', o)])
    && Written(c, s, o, ids, now, s'.cache, s'.blobs, ManifestOf(s', o))
  }

  ghost predicate FlushNext(c: Codec, s: Store, o: string, ids: set<string>, now: int, s': Store) {
    exists s1 :: Flushed(c, s, o, ids, now, s1) && Enforced(s1, s')
  }

  function OwnedBlocks(s: Store, o: string): set<string>
    requires forall k :: k in s.cache ==> Splittable(k)
  {
    set k | k in s.cache && OwnedBy(k, o) :: BlockOf(k)
  }

  ghost predicate StoreNext(c: Codec, s: Store, o: string, ws: seq<BlockWrite>, now: int, s': Store) {
    var s1 := StageAll(s, o, ws, now);
    if |DirtyKeys(s1, o)| >= s.threshold then
      (forall k :: k in s1.cache ==> Splittable(k)) && FlushNext(c, s1, o, OwnedBlocks(s1, o), now, s')
    else
      s' == s1
  }

  ghost predicate LoadNext(c: Codec, s: Store, o: string, b: string, now: int, s': Store) {
    var key := CacheKey(o, b);
    if key in s.cache then
      s' == Touched(s, key, now)
    else if Durable(c, s, o, b).None? then
      s' == s
    else
      Enforced(Fetched(c, s, o, b, now), s')
  }

  function WithPins(s: Store, pinned: set<string>): Store {
    s.(pinned := pinned, cache := map k | k in s.cache :: s.cache[k].(pinned := k in pinned))
  }

  /** Without the evictable ones among `keys`. */
  function Evicted(s: Store, keys: set<string>): Store {
    s.(cache := map k | k in s.cache && !(k in keys && k in Candidates(s)) :: s.cache[k])
  }

  // ----- Every body keeps the invariants and the live view -----

  /** A body that stores nothing: invariants and live view stay, disk only moves towards the live view. */
  ghost predicate Kept(c: Codec, origins: set<string>, s: Store, s': Store) {
    && Consistent(c, origins, s') && Bounded(origins, s') && SameLive(c, origins, s, s')
    && (forall o, b :: o in origins ==> Durable(c, s', o, b) == Durable(c, s, o, b) || Durable(c, s', o, b) == Live(c, s, o, b))
  }

  /** What stays of the candidates fits the capacity. */
  lemma RoomLeft(keys: set<string>, candidates: set<string>, evicted: set<string>, rest: set<string>, capacity: int)
    requires evicted <= candidates <= keys && |evicted| == Min(Max(|keys| - capacity, 0), |candidates|)
    requires rest <= candidates - evicted && capacity >= 0
    ensures |rest| <= capacity
  {
    CountMinus(keys, evicted);
    CountMinus(candidates, evicted);
    CountSubset(candidates - evicted, keys - evicted);
    CountSubset(rest, candidates - evicted);
  }

  lemma EnforcedCounts(s: Store, s': Store)
    requires Enforced(s, s')
    ensures s.capacity >= 0 ==> |Candidates(s')| <= s.capacity
  {
    var evicted := s.cache.Keys - s'.cache.Keys;
    assert Candidates(s') <= Candidates(s) - evicted;
    assert evicted <= Candidates(s) && |evicted| == Min(Max(|s.cache| - s.capacity, 0), |Candidates(s)|);
    assert |s.cache.Keys| == |s.cache|;
    hide Enforced, Shrunk, Candidates;
    if s.capacity >= 0 {
      RoomLeft(s.cache.Keys, Candidates(s), evicted, Candidates(s'), s.capacity);
    }
  }

  lemma CountMinus<T>(a: set<T>, b: set<T>)
    requires b <= a
    ensures |a - b| == |a| - |b|
  {
  }

  lemma EnforcedDirty(s: Store, s': Store)
    requires Enforced(s, s')
    ensures forall k :: k in s.cache && s.cache[k].dirty ==> k in s'.cache
    ensures forall o :: DirtyKeys(s', o) == DirtyKeys(s, o)
  {
    forall k | k in s.cache && k !in s'.cache ensures !s.cache[k].dirty {
      assert k in Candidates(s);
    }
  }

  lemma EnforcedKeeps(c: Codec, origins: set<string>, s: Store, s': Store)
    requires Consistent(c, origins, s) && Enforced(s, s')
    ensures Consistent(c, origins, s') && SameLive(c, origins, s, s')
    ensures forall o, b :: Durable(c, s', o, b) == Durable(c, s, o, b)
    ensures forall o :: DirtyKeys(s', o) == DirtyKeys(s, o)
    ensures s.capacity >= 0 ==> |Candidates(s')| <= s.capacity
  {
    SameDiskSameDurable(c, s, s');
    EnforcedCounts(s, s');
    EnforcedDirty(s, s');
  }

  lemma StageKeeps(c: Codec, origins: set<string>, s: Store, o: string, w: BlockWrite, now: int)
    requires Separated(origins) && Consistent(c, origins, s) && o in origins
    ensures var s' := Stage(s, o, w, now);
            && Consistent(c, origins, s') && LiveWritten(c, origins, s, o, w.block, w.payload, s')
            && (forall o', b :: Durable(c, s', o', b) == Durable(c, s, o', b))
            && Candidates(s') <= Candidates(s)
            && (forall o' :: o' in origins && o' != o ==> DirtyKeys(s', o') == DirtyKeys(s, o'))
  {
    var s', key := Stage(s, o, w, now), CacheKey(o, w.block);
    SameDiskSameDurable(c, s, s');
    SplitRecoversBlock(o, w.block);
    forall o', b' | o' in origins
      ensures CacheKey(o', b') == key <==> o' == o && b' == w.block
      ensures OwnedBy(key, o') <==> o' == o
    {
      KeyIdentifiesBlock(o', b', o, w.block);
    }
    forall o' | o' in origins && o' != o ensures DirtyKeys(s', o') == DirtyKeys(s, o') {
      KeyIdentifiesBlock(o', "", o, w.block);
    }
  }

  lemma TargetKeys(s: Store, origins: set<string>, o: string, ids: set<string>)
    requires Separated(origins) && o in origins
    ensures forall o', b {:trigger CacheKey(o', b)} :: o' in origins ==>
              (CacheKey(o', b) in KeysOf(o, Targets(s, o, ids)) <==> o' == o && b in Targets(s, o, ids))
  {
    var t := Targets(s, o, ids);
    forall o', b {:trigger CacheKey(o', b)} | o' in origins
      ensures CacheKey(o', b) in KeysOf(o, t) <==> o' == o && b in t
    {
      if CacheKey(o', b) in KeysOf(o, t) {
        var b' :| b' in t && CacheKey(o', b) == CacheKey(o, b');
        KeyIdentifiesBlock(o', b, o, b');
      }
    }
  }

  lemma FlushedBlobs(c: Codec, s: Store, o: string, ids: set<string>, now: int, s': Store)
    requires c.Lawful() && DiskSound(c, s) && Flushed(c, s, o, ids, now, s')
    ensures DiskSound(c, s')
    ensures forall b :: b in Targets(s, o, ids) ==>
              var id := c.blobId(Compressed(c, s, o, b)); id in s'.blobs && s'.blobs[id] == Compressed(c, s, o, b)
  {
    var t := Targets(s, o, ids);
    forall id | id in s'.blobs
      ensures c.blobId(s'.blobs[id]) == id
    {
      if id !in s.blobs {
        var b :| b in t && id == c.blobId(Compressed(c, s, o, b));
      }
    }
    forall f, b | f in s'.manifests && b in s'.manifests[f]
      ensures s'.manifests[f][b].blobId in s'.blobs
    {
      if f == SafeName(o) && b !in t {
        assert b in ManifestOf(s, o) && f in s.manifests;
      }
    }
  }

  lemma FlushedDisk(c: Codec, origins: set<string>, s: Store, o: string, ids: set<string>, now: int, s': Store)
    requires Separated(origins) && c.Lawful() && DiskSound(c, s) && o in origins
    requires Flushed(c, s, o, ids, now, s')
    ensures DiskSound(c, s')
    ensures forall o', b :: o' in origins ==>
              Durable(c, s', o', b) == if o' == o && b in Targets(s, o, ids) then Live(c, s, o, b) else Durable(c, s, o', b)
  {
    FlushedBlobs(c, s, o, ids, now, s');
    FlushedManifests(c, origins, s, o, ids, now, s');
    hide CacheKey, SafeName, ManifestOf, Flushed, Separated, DiskSound, Durable, Live, Targets, WrittenManifest, Codec.Lawful;
    forall o', b | o' in origins
      ensures Durable(c, s', o', b) == if o' == o && b in Targets(s, o, ids) then Live(c, s, o, b) else Durable(c, s, o', b)
    {
      if o' == o && b in Targets(s, o, ids) {
        FlushedTarget(c, s, o, ids, now, s', b);
      } else {
        FlushedOther(c, s, o', s', b);
      }
    }
  }

  /** A block that was written reads back its payload. */
  lemma FlushedTarget(c: Codec, s: Store, o: string, ids: set<string>, now: int, s': Store, b: string)
    requires c.Lawful() && b in Targets(s, o, ids) && KeysOf(o, Targets(s, o, ids)) <= s.cache.Keys
    requires ManifestOf(s', o) == WrittenManifest(c, s, o, Targets(s, o, ids), now)
    requires var id := c.blobId(Compressed(c, s, o, b)); id in s'.blobs && s'.blobs[id] == Compressed(c, s, o, b)
    ensures Durable(c, s', o, b) == Live(c, s, o, b)
  {
    hide CacheKey, ManifestOf, KeysOf;
  }

  /** A record that was not replaced still finds its blob. */
  lemma FlushedOther(c: Codec, s: Store, o: string, s': Store, b: string)
    requires (b in ManifestOf(s', o) <==> b in ManifestOf(s, o)) && (b in ManifestOf(s, o) ==> ManifestOf(s', o)[b] == ManifestOf(s, o)[b])
    requires b in ManifestOf(s, o) ==> ManifestOf(s, o)[b].blobId in s.blobs
    requires forall id :: id in s.blobs ==> id in s'.blobs && s'.blobs[id] == s.blobs[id]
    ensures Durable(c, s', o, b) == Durable(c, s, o, b)
  {
    hide ManifestOf;
  }

  /** The manifests after a flush, seen through `ManifestOf`. */
  lemma FlushedManifests(c: Codec, origins: set<string>, s: Store, o: string, ids: set<string>, now: int, s': Store)
    requires Separated(origins) && o in origins && DiskSound(c, s) && Flushed(c, s, o, ids, now, s')
    ensures forall o' :: o' in origins && o' != o ==> ManifestOf(s', o') == ManifestOf(s, o')
    ensures ManifestOf(s', o) == WrittenManifest(c, s, o, Targets(s, o, ids), now)
    ensures forall o', b :: b in ManifestOf(s, o') ==> ManifestOf(s, o')[b].blobId in s.blobs
    ensures forall id :: id in s.blobs ==> id in s'.blobs && s'.blobs[id] == s.blobs[id]
  {
    forall o', b | b in ManifestOf(s, o') ensures ManifestOf(s, o')[b].blobId in s.blobs {
      assert SafeName(o') in s.manifests;
    }
  }

  lemma FlushedKeeps(c: Codec, origins: set<string>, s: Store, o: string, ids: set<string>, now: int, s': Store)
    requires Separated(origins) && c.Lawful() && Consistent(c, origins, s) && o in origins
    requires Flushed(c, s, o, ids, now, s')
    ensures Consistent(c, origins, s') && SameLive(c, origins, s, s')
    ensures forall o', b :: o' in origins ==> Durable(c, s', o', b) == DurableAfterFlush(c, s, o, ids, o', b)
    ensures forall o' :: o' in origins && o' != o ==> DirtyKeys(s', o') == DirtyKeys(s, o')
    ensures DirtyKeys(s', o) == DirtyKeys(s, o) - KeysOf(o, ids)
  {
    FlushedDisk(c, origins, s, o, ids, now, s');
    FlushedEntries(c, origins, s, o, ids, now, s');
    RelabelledKeeps(c, origins, s, o, ids, s');
  }

  /** Only the flushed entries change, and only by becoming clean. */
  ghost predicate Relabelled(origins: set<string>, s: Store, o: string, ids: set<string>, s': Store) {
    && s'.cache.Keys == s.cache.Keys && s'.pinned == s.pinned
    && (forall k :: k in s.cache ==> s'.cache[k].pinned == s.cache[k].pinned)
    && (forall o', b :: o' in origins && CacheKey(o', b) in s.cache ==>
         && s'.cache[CacheKey(o', b)].bytes == s.cache[CacheKey(o', b)].bytes
         && (s'.cache[CacheKey(o', b)].dirty <==> s.cache[CacheKey(o', b)].dirty && !(o' == o && b in ids)))
  }

  lemma FlushedEntries(c: Codec, origins: set<string>, s: Store, o: string, ids: set<string>, now: int, s': Store)
    requires Separated(origins) && o in origins && Flushed(c, s, o, ids, now, s')
    ensures Relabelled(origins, s, o, ids, s')
  {
    TargetKeys(s, origins, o, ids);
    var tk := KeysOf(o, Targets(s, o, ids));
    forall o', b | o' in origins && CacheKey(o', b) in s.cache
      ensures s'.cache[CacheKey(o', b)].bytes == s.cache[CacheKey(o', b)].bytes
      ensures s'.cache[CacheKey(o', b)].dirty <==> s.cache[CacheKey(o', b)].dirty && !(o' == o && b in ids)
    {
      assert CacheKey(o', b) in tk <==> o' == o && b in Targets(s, o, ids);
    }
  }

  lemma RelabelledKeeps(c: Codec, origins: set<string>, s: Store, o: string, ids: set<string>, s': Store)
    requires Separated(origins) && Consistent(c, origins, s) && o in origins
    requires Relabelled(origins, s, o, ids, s') && DiskSound(c, s')
    requires forall o', b :: o' in origins ==>
               Durable(c, s', o', b) == if o' == o && b in Targets(s, o, ids) then Live(c, s, o, b) else Durable(c, s, o', b)
    ensures Consistent(c, origins, s') && SameLive(c, origins, s, s')
    ensures forall o', b :: o' in origins ==> Durable(c, s', o', b) == DurableAfterFlush(c, s, o, ids, o', b)
    ensures forall o' :: o' in origins && o' != o ==> DirtyKeys(s', o') == DirtyKeys(s, o')
    ensures DirtyKeys(s', o) == DirtyKeys(s, o) - KeysOf(o, ids)
  {
    DirtyAfterFlush(origins, s, o, ids, s');
  }

  /** What disk answers after a flush of `ids`: their live payloads, everything else as before. */
  function DurableAfterFlush(c: Codec, s: Store, o: string, ids: set<string>, o': string, b: string): Option<Bytes> {
    if o' == o && b in ids && CacheKey(o, b) in s.cache then Live(c, s, o, b) else Durable(c, s, o', b)
  }

  lemma DirtyAfterFlush(origins: set<string>, s: Store, o: string, ids: set<string>, s': Store)
    requires Separated(origins) && o in origins
    requires forall k :: k in s.cache ==> Splittable(k) && OriginOf(k) in origins
    requires s'.cache.Keys == s.cache.Keys
    requires forall o', b :: o' in origins && CacheKey(o', b) in s.cache ==>
               (s'.cache[CacheKey(o', b)].dirty <==> s.cache[CacheKey(o', b)].dirty && !(o' == o && b in ids))
    ensures forall o' :: o' in origins && o' != o ==> DirtyKeys(s', o') == DirtyKeys(s, o')
    ensures DirtyKeys(s', o) == DirtyKeys(s, o) - KeysOf(o, ids)
  {
    KeysOfSeparated(origins);
    forall k | k in s.cache
      ensures s'.cache[k].dirty <==> s.cache[k].dirty && k !in KeysOf(o, ids)
      ensures k in KeysOf(o, ids) <==> OriginOf(k) == o && BlockOf(k) in ids
    {
      assert k == CacheKey(OriginOf(k), BlockOf(k));
      if k in KeysOf(o, ids) {
        var b :| b in ids && k == CacheKey(o, b);
        KeyIdentifiesBlock(OriginOf(k), BlockOf(k), o, b);
      }
    }
  }

  lemma FlushKeeps(c: Codec, origins: set<string>, s: Store, o: string, ids: set<string>, now: int, s': Store)
    requires Separated(origins) && c.Lawful() && Consistent(c, origins, s) && o in origins
    requires FlushNext(c, s, o, ids, now, s')
    ensures Consistent(c, origins, s') && SameLive(c, origins, s, s')
    ensures forall o', b :: o' in origins ==> Durable(c, s', o', b) == DurableAfterFlush(c, s, o, ids, o', b)
    ensures forall o' :: o' in origins && o' != o ==> DirtyKeys(s', o') == DirtyKeys(s, o')
    ensures DirtyKeys(s', o) == DirtyKeys(s, o) - KeysOf(o, ids)
    ensures s.capacity >= 0 ==> |Candidates(s')| <= s.capacity
    ensures s'.capacity == s.capacity && s'.threshold == s.threshold && s'.pinned == s.pinned
  {
    var s1 :| Flushed(c, s, o, ids, now, s1) && Enforced(s1, s');
    FlushedKeeps(c, origins, s, o, ids, now, s1);
    EnforcedKeeps(c, origins, s1, s');
  }

  /** The record of a flushed block says what was stored of which entry and when, and the file it names holds that. */
  ghost predicate Recorded(c: Codec, s: Store, o: string, b: string, now: int, s': Store)
    requires CacheKey(o, b) in s.cache
  {
    var (e, m) := (s.cache[CacheKey(o, b)], ManifestOf(s', o));
    b in m && m[b].blockId == b && m[b].info == e.info && m[b].sizeRaw == |e.bytes| && m[b].storedAt == now &&
    m[b].blobId == c.blobId(c.compress(e.bytes)) && m[b].sizeStored == |c.compress(e.bytes)| && m[b].blobId in s'.blobs
  }

  lemma RecordIs(c: Codec, s: Store, o: string, b: string, now: int, s': Store)
    requires CacheKey(o, b) in s.cache && b in ManifestOf(s', o) && ManifestOf(s', o)[b] == RecordFor(c, s, o, b, now)
    requires c.blobId(Compressed(c, s, o, b)) in s'.blobs
    ensures Recorded(c, s, o, b, now, s')
  {
    hide ManifestOf, CacheKey;
  }

  lemma FlushRecords(c: Codec, s: Store, o: string, ids: set<string>, now: int, s': Store, b: string)
    requires FlushNext(c, s, o, ids, now, s') && b in ids && CacheKey(o, b) in s.cache && s.cache[CacheKey(o, b)].dirty
    ensures Recorded(c, s, o, b, now, s')
  {
    hide CacheKey, Shrunk, WrittenCache, RecordFor, Compressed, Recorded;
    var s1 :| Flushed(c, s, o, ids, now, s1) && Enforced(s1, s');
    assert b in Targets(s, o, ids);
    assert ManifestOf(s', o) == ManifestOf(s1, o) == WrittenManifest(c, s, o, Targets(s, o, ids), now);
    RecordIs(c, s, o, b, now, s');
  }

  /** A cached block of the origin is among those its flush names. */
  lemma OwnedIsListed(origins: set<string>, s: Store, o: string, b: string)
    requires Separated(origins) && KeysSound(origins, s) && o in origins && CacheKey(o, b) in s.cache
    ensures (forall k :: k in s.cache ==> Splittable(k)) && b in OwnedBlocks(s, o)
  {
    SplitRecoversBlock(o, b);
    KeyIdentifiesBlock(o, b, o, b);
    hide CacheKey, BlockOf, Separated, Splittable, OriginOf;
    assert OwnedBy(CacheKey(o, b), o) && BlockOf(CacheKey(o, b)) == b;
  }

  lemma DirtyIsListed(origins: set<string>, s: Store, o: string)
    requires Separated(origins) && KeysSound(origins, s) && o in origins
    ensures (forall k :: k in s.cache ==> Splittable(k)) && DirtyKeys(s, o) <= KeysOf(o, OwnedBlocks(s, o))
  {
    KeysOfSeparated(origins);
    forall k | k in DirtyKeys(s, o) ensures k in KeysOf(o, OwnedBlocks(s, o)) {
      assert BlockOf(k) in OwnedBlocks(s, o);
    }
  }

  /** After `flush_origin` nothing of that origin is dirty and disk agrees with the live view. */
  lemma FlushOriginMakesDurable(c: Codec, origins: set<string>, s: Store, o: string, now: int, s': Store)
    requires Separated(origins) && c.Lawful() && Consistent(c, origins, s) && o in origins
    requires FlushNext(c, s, o, OwnedBlocks(s, o), now, s')
    ensures DirtyKeys(s', o) == {}
    ensures forall b :: Durable(c, s', o, b) == Live(c, s', o, b) == Live(c, s, o, b)
  {
    DirtyIsListed(origins, s, o);
    hide FlushNext, KeysSound, DiskSound, CleanSound, OwnedBlocks, KeysOf, DirtyKeys, Separated, CacheKey, Durable;
    FlushKeeps(c, origins, s, o, OwnedBlocks(s, o), now, s');
    assert DirtyKeys(s', o) == {};
    forall b ensures Durable(c, s', o, b) == Live(c, s, o, b) {
      if CacheKey(o, b) in s.cache {
        OwnedIsListed(origins, s, o, b);
      }
    }
  }

  lemma {:induction false} StageAllKeeps(c: Codec, origins: set<string>, s: Store, o: string, ws: seq<BlockWrite>, now: int)
    requires Separated(origins) && Consistent(c, origins, s) && o in origins
    ensures var s' := StageAll(s, o, ws, now);
            && Consistent(c, origins, s')
            && (forall o', b :: o' in origins ==>
                 Live(c, s', o', b) == if o' == o && LastWrite(ws, b).Some? then LastWrite(ws, b) else Live(c, s, o', b))
            && (forall o', b :: Durable(c, s', o', b) == Durable(c, s, o', b))
            && Candidates(s') <= Candidates(s)
            && (forall o' :: o' in origins && o' != o ==> DirtyKeys(s', o') == DirtyKeys(s, o'))
            && s' == s.(cache := s'.cache)
  {
    if ws != [] {
      var n := |ws| - 1;
      StageAllKeeps(c, origins, s, o, ws[..n], now);
      StageKeeps(c, origins, StageAll(s, o, ws[..n], now), o, ws[n], now);
    }
  }

  /** The payload a batch leaves for block `b`: the last one it names. */
  function LastWrite(ws: seq<BlockWrite>, b: string): Option<Bytes> {
    if ws == [] then None
    else if ws[|ws| - 1].block == b then Some(ws[|ws| - 1].payload)
    else LastWrite(ws[..|ws| - 1], b)
  }

  lemma StoreKeeps(c: Codec, origins: set<string>, s: Store, o: string, ws: seq<BlockWrite>, now: int, s': Store)
    requires Separated(origins) && c.Lawful() && Consistent(c, origins, s) && Bounded(origins, s) && o in origins
    requires StoreNext(c, s, o, ws, now, s')
    ensures Consistent(c, origins, s') && Bounded(origins, s')
    ensures forall o', b :: o' in origins ==>
              Live(c, s', o', b) == if o' == o && LastWrite(ws, b).Some? then LastWrite(ws, b) else Live(c, s, o', b)
    ensures forall o', b :: o' in origins ==> Durable(c, s', o', b) == Durable(c, s, o', b) || Durable(c, s', o', b) == Live(c, s', o', b)
    ensures |DirtyKeys(StageAll(s, o, ws, now), o)| >= s.threshold ==>
              DirtyKeys(s', o) == {} && forall b :: Durable(c, s', o, b) == Live(c, s', o, b)
    ensures s'.capacity == s.capacity && s'.threshold == s.threshold && s'.pinned == s.pinned
  {
    hide FlushNext, StageAll, LastWrite, CacheKey, Live, Durable, Consistent, Separated, OwnedBlocks, Candidates, DirtyKeys;
    StageAllKeeps(c, origins, s, o, ws, now);
    var s1 := StageAll(s, o, ws, now);
    CountSubset(Candidates(s1), Candidates(s));
    if |DirtyKeys(s1, o)| >= s.threshold {
      FlushOriginMakesDurable(c, origins, s1, o, now, s');
      FlushKeeps(c, origins, s1, o, OwnedBlocks(s1, o), now, s');
    }
  }

  function Fetched(c: Codec, s: Store, o: string, b: string, now: int): Store
    requires Durable(c, s, o, b).Some?
  {
    var key, r := CacheKey(o, b), ManifestOf(s, o)[b];
    s.(cache := s.cache[key := Entry(Durable(c, s, o, b).value, r.info, false, key in s.pinned, now, Some(r))])
  }

  lemma FetchKeeps(c: Codec, origins: set<string>, s: Store, o: string, b: string, now: int)
    requires Separated(origins) && Consistent(c, origins, s) && o in origins
    requires CacheKey(o, b) !in s.cache && Durable(c, s, o, b).Some?
    ensures var s' := Fetched(c, s, o, b, now);
            && Consistent(c, origins, s') && SameLive(c, origins, s, s')
            && (forall o :: DirtyKeys(s', o) == DirtyKeys(s, o))
            && (forall o, b :: Durable(c, s', o, b) == Durable(c, s, o, b))
  {
    var s' := Fetched(c, s, o, b, now);
    SameDiskSameDurable(c, s, s');
    SplitRecoversBlock(o, b);
    forall o', b' | o' in origins
      ensures CacheKey(o', b') == CacheKey(o, b) <==> o' == o && b' == b
    {
      KeyIdentifiesBlock(o', b', o, b);
    }
  }

  lemma LoadKeeps(c: Codec, origins: set<string>, s: Store, o: string, b: string, now: int, s': Store)
    requires Separated(origins) && Consistent(c, origins, s) && Bounded(origins, s) && o in origins
    requires LoadNext(c, s, o, b, now, s')
    ensures Consistent(c, origins, s') && Bounded(origins, s') && SameLive(c, origins, s, s')
    ensures forall o', b' :: Durable(c, s', o', b') == Durable(c, s, o', b')
    ensures s'.capacity == s.capacity && s'.threshold == s.threshold && s'.pinned == s.pinned
  {
    if CacheKey(o, b) in s.cache {
      TouchKeeps(c, origins, s, CacheKey(o, b), now);
    } else if Durable(c, s, o, b).Some? {
      FetchKeeps(c, origins, s, o, b, now);
      EnforcedKeeps(c, origins, Fetched(c, s, o, b, now), s');
    }
  }

  function Touched(s: Store, key: string, now: int): Store
    requires key in s.cache
  {
    s.(cache := s.cache[key := s.cache[key].(lastTouch := now)])
  }

  lemma TouchKeeps(c: Codec, origins: set<string>, s: Store, key: string, now: int)
    requires Consistent(c, origins, s) && key in s.cache
    ensures var s' := Touched(s, key, now);
            && Consistent(c, origins, s') && SameLive(c, origins, s, s')
            && Candidates(s') == Candidates(s)
            && (forall o :: DirtyKeys(s', o) == DirtyKeys(s, o))
            && (forall o, b :: Durable(c, s', o, b) == Durable(c, s, o, b))
  {
    var s' := Touched(s, key, now);
    SameDiskSameDurable(c, s, s');
    assert forall k :: k in s.cache ==> s'.cache[k].(lastTouch := 0) == s.cache[k].(lastTouch := 0);
  }

  lemma SameDiskSameDurable(c: Codec, s: Store, s': Store)
    requires s'.blobs == s.blobs && s'.manifests == s.manifests
    ensures forall o, b :: Durable(c, s', o, b) == Durable(c, s, o, b)
  {
    forall o ensures ManifestOf(s', o) == ManifestOf(s, o) {}
  }

  lemma PinsKeep(c: Codec, origins: set<string>, s: Store, pinned: set<string>)
    requires Separated(origins) && Consistent(c, origins, s)
    ensures var s' := WithPins(s, pinned);
            && Consistent(c, origins, s') && SameLive(c, origins, s, s')
            && (forall o, b :: Durable(c, s', o, b) == Durable(c, s, o, b))
            && (forall o :: DirtyKeys(s', o) == DirtyKeys(s, o))
            && (s.pinned <= pinned ==> |Candidates(s')| <= |Candidates(s)|)
  {
    var s' := WithPins(s, pinned);
    SameDiskSameDurable(c, s, s');
    if s.pinned <= pinned {
      CountSubset(Candidates(s'), Candidates(s));
    }
  }

  lemma EvictKeeps(c: Codec, origins: set<string>, s: Store, keys: set<string>)
    requires Consistent(c, origins, s)
    ensures var s' := Evicted(s, keys);
            && Consistent(c, origins, s') && SameLive(c, origins, s, s')
            && (forall o, b :: Durable(c, s', o, b) == Durable(c, s, o, b))
            && (forall o :: DirtyKeys(s', o) == DirtyKeys(s, o))
            && |Candidates(s')| <= |Candidates(s)|
  {
    var s' := Evicted(s, keys);
    SameDiskSameDurable(c, s, s');
    CountSubset(Candidates(s'), Candidates(s));
  }

  lemma UnpinKeeps(c: Codec, origins: set<string>, s: Store, pinned: set<string>, s': Store)
    requires Separated(origins) && Consistent(c, origins, s) && Bounded(origins, s) && Enforced(WithPins(s, pinned), s')
    ensures Kept(c, origins, s, s') && s'.pinned == pinned
  {
    PinsKeep(c, origins, s, pinned);
    EnforcedKeeps(c, origins, WithPins(s, pinned), s');
  }

  lemma FlushBounded(c: Codec, origins: set<string>, s: Store, o: string, ids: set<string>, now: int, s': Store)
    requires Separated(origins) && c.Lawful() && Consistent(c, origins, s) && Bounded(origins, s) && o in origins
    requires FlushNext(c, s, o, ids, now, s')
    ensures Kept(c, origins, s, s')
  {
    hide FlushNext, Consistent, Separated, CacheKey, Durable, Live;
    FlushKeeps(c, origins, s, o, ids, now, s');
    CountSubset(DirtyKeys(s', o), DirtyKeys(s, o));
  }

  lemma CapacityKeeps(c: Codec, origins: set<string>, s: Store, value: int, s': Store)
    requires Consistent(c, origins, s) && Bounded(origins, s) && Enforced(s.(capacity := Max(1, value)), s')
    ensures Kept(c, origins, s, s')
  {
    LimitsDoNotMatter(c, origins, s, Max(1, value));
    EnforcedKeeps(c, origins, s.(capacity := Max(1, value)), s');
  }

  lemma LimitsDoNotMatter(c: Codec, origins: set<string>, s: Store, capacity: int)
    requires Consistent(c, origins, s)
    ensures var s' := s.(capacity := capacity);
            && Consistent(c, origins, s') && SameLive(c, origins, s, s')
            && (forall o, b :: Durable(c, s', o, b) == Durable(c, s, o, b))
            && (forall o :: DirtyKeys(s', o) == DirtyKeys(s, o))
  {
    SameDiskSameDurable(c, s, s.(capacity := capacity));
  }

  lemma PinsAreKept(c: Codec, origins: set<string>, s: Store, pinned: set<string>)
    requires Separated(origins) && Consistent(c, origins, s) && Bounded(origins, s) && s.pinned <= pinned
    ensures Kept(c, origins, s, WithPins(s, pinned))
  {
    PinsKeep(c, origins, s, pinned);
  }

  lemma EvictedIsKept(c: Codec, origins: set<string>, s: Store, keys: set<string>)
    requires Consistent(c, origins, s) && Bounded(origins, s)
    ensures Kept(c, origins, s, Evicted(s, keys))
  {
    EvictKeeps(c, origins, s, keys);
  }

  lemma KeptTransitive(c: Codec, origins: set<string>, s: Store, s1: Store, s2: Store)
    requires Kept(c, origins, s, s1) && Kept(c, origins, s1, s2)
    ensures Kept(c, origins, s, s2)
  {
    hide Live, Durable, Consistent, Bounded;
  }

  lemma KeptReflexive(c: Codec, origins: set<string>, s: Store)
    requires Consistent(c, origins, s) && Bounded(origins, s)
    ensures Kept(c, origins, s, s)
  {
    hide Live, Durable, Consistent, Bounded;
  }

  /** Disk keeps what it answered or answers as memory now does. */
  ghost predicate CatchesUp(c: Codec, origins: set<string>, s: Store, s': Store) {
    forall o, b :: o in origins ==> Durable(c, s', o, b) == Durable(c, s, o, b) || Durable(c, s', o, b) == Live(c, s', o, b)
  }

  lemma SameLiveTransitive(c: Codec, origins: set<string>, s: Store, s1: Store, s2: Store)
    requires SameLive(c, origins, s, s1) && SameLive(c, origins, s1, s2)
    ensures SameLive(c, origins, s, s2)
  {
    hide Live;
  }
}
