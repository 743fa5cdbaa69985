/** The Python backend itself: the fields its methods update and the relation each body satisfies. */
module OptimizerBackend {
  import opened Wrappers
  import opened Numbers
  import opened CacheKeys
  import opened Ranking
  import opened OptimizerState

  datatype StoreResult = StoreResult(block: string, blobId: Option<string>, flushed: bool, sizeRaw: nat, sizeStored: nat, dirtyBlocks: nat)

  lemma WrittenSkips(c: Codec, s: Store, o: string, ids: set<string>, now: int,
                     cache: map<string, Entry>, blobs: map<string, Bytes>, m: Manifest, b: string)
    requires Written(c, s, o, ids, now, cache, blobs, m)
    requires CacheKey(o, b) !in cache || !cache[CacheKey(o, b)].dirty
    ensures Written(c, s, o, ids + {b}, now, cache, blobs, m)
  {
    SameBlockSameKey(o);
    assert Targets(s, o, ids + {b}) == Targets(s, o, ids);
  }

  lemma SameBlockSameKey(o: string)
    ensures forall b, b' :: CacheKey(o, b) == CacheKey(o, b') ==> b == b'
  {
    forall b, b' | CacheKey(o, b) == CacheKey(o, b') ensures b == b' {
      assert CacheKey(o, b)[|o| + 2..] == b && CacheKey(o, b')[|o| + 2..] == b';
    }
  }

  lemma WrittenOne(c: Codec, s: Store, o: string, ids: set<string>, now: int,
                   cache: map<string, Entry>, blobs: map<string, Bytes>, m: Manifest, b: string)
    requires c.Lawful() && Written(c, s, o, ids, now, cache, blobs, m)
    requires CacheKey(o, b) in cache && cache[CacheKey(o, b)].dirty
    ensures CacheKey(o, b) in s.cache && cache[CacheKey(o, b)] == s.cache[CacheKey(o, b)]
    ensures var r := RecordFor(c, s, o, b, now);
            var e := s.cache[CacheKey(o, b)];
            Written(c, s, o, ids + {b}, now, cache[CacheKey(o, b) := e.(dirty := false, record := Some(r), lastTouch := now)],
                    if r.blobId in blobs then blobs else blobs[r.blobId := c.compress(e.bytes)], m[b := r])
  {
    hide WrittenCache, WrittenBlobs, WrittenManifest, Targets;
    TargetsGrow(c, s, o, ids, now, cache, b);
    CacheStep(c, s, o, Targets(s, o, ids), now, cache, b);
    BlobsStep(c, s, o, Targets(s, o, ids), blobs, b);
    ManifestStep(c, s, o, Targets(s, o, ids), now, b);
  }

  lemma ManifestStep(c: Codec, s: Store, o: string, t: set<string>, now: int, b: string)
    requires KeysOf(o, t + {b}) <= s.cache.Keys && KeysOf(o, t) <= s.cache.Keys && CacheKey(o, b) in s.cache
    ensures WrittenManifest(c, s, o, t, now)[b := RecordFor(c, s, o, b, now)] == WrittenManifest(c, s, o, t + {b}, now)
  {
    hide CacheKey, RecordFor, ManifestOf;
  }

  lemma TargetsGrow(c: Codec, s: Store, o: string, ids: set<string>, now: int, cache: map<string, Entry>, b: string)
    requires WrittenCache(c, s, o, Targets(s, o, ids), now, cache)
    requires CacheKey(o, b) in cache && cache[CacheKey(o, b)].dirty
    ensures CacheKey(o, b) in s.cache && cache[CacheKey(o, b)] == s.cache[CacheKey(o, b)]
    ensures CacheKey(o, b) !in KeysOf(o, Targets(s, o, ids))
    ensures Targets(s, o, ids + {b}) == Targets(s, o, ids) + {b}
    ensures KeysOf(o, Targets(s, o, ids) + {b}) <= s.cache.Keys
  {
    SameBlockSameKey(o);
  }

  lemma CacheStep(c: Codec, s: Store, o: string, t: set<string>, now: int, cache: map<string, Entry>, b: string)
    requires KeysOf(o, t + {b}) <= s.cache.Keys && KeysOf(o, t) <= s.cache.Keys && WrittenCache(c, s, o, t, now, cache)
    requires CacheKey(o, b) !in KeysOf(o, t)
    ensures WrittenCache(c, s, o, t + {b}, now, cache[CacheKey(o, b) :=
              s.cache[CacheKey(o, b)].(dirty := false, record := Some(RecordFor(c, s, o, b, now)), lastTouch := now)])
  {
    assert CacheKey(o, b) in KeysOf(o, t + {b});
    assert KeysOf(o, t + {b}) == KeysOf(o, t) + {CacheKey(o, b)};
  }

  lemma BlobsStep(c: Codec, s: Store, o: string, t: set<string>, blobs: map<string, Bytes>, b: string)
    requires c.Lawful() && KeysOf(o, t + {b}) <= s.cache.Keys && KeysOf(o, t) <= s.cache.Keys && WrittenBlobs(c, s, o, t, blobs)
    requires CacheKey(o, b) in s.cache
    ensures var z := Compressed(c, s, o, b);
            WrittenBlobs(c, s, o, t + {b}, if c.blobId(z) in blobs then blobs else blobs[c.blobId(z) := z])
  {
    var z := Compressed(c, s, o, b);
    var id := c.blobId(z);
    forall x | x in t ensures c.blobId(Compressed(c, s, o, x)) == id ==> Compressed(c, s, o, x) == z {}
    if id in blobs && id !in s.blobs {
      var x :| x in t && id == c.blobId(Compressed(c, s, o, x));
      assert blobs[id] == Compressed(c, s, o, x) == z;
    }
    hide CacheKey, KeysOf, Compressed, Codec.Lawful;
  }

  /** The cache once the first `n` of the sorted candidates are popped. */
  ghost function Popped(s: Store, all: seq<string>, n: nat): map<string, Entry>
    requires n <= |all|
  {
    s.cache - ToSet(all[..n])
  }

  lemma PoppedNone(s: Store, all: seq<string>)
    ensures Popped(s, all, 0) == s.cache
  {
  }

  lemma PopOne(s: Store, all: seq<string>, n: nat)
    requires Distinct(all) && ToSet(all) <= s.cache.Keys && n < |all|
    ensures Popped(s, all, n) - {all[n]} == Popped(s, all, n + 1)
    ensures |Popped(s, all, n + 1)| == |Popped(s, all, n)| - 1
  {
    assert ToSet(all[..n + 1]) == ToSet(all[..n]) + {all[n]};
    assert all[n] in ToSet(all) && all[n] !in ToSet(all[..n]);
    var before, after := Popped(s, all, n), Popped(s, all, n + 1);
    assert after.Keys == before.Keys - {all[n]};
    CountMinus(before.Keys, {all[n]});
    assert |after.Keys| == |after| && |before.Keys| == |before|;
  }

  ghost predicate ByAge(s: Store, all: seq<string>) {
    && (forall k :: k in all ==> k in s.cache)
    && (forall i, j :: 0 <= i < j < |all| ==> s.cache[all[i]].lastTouch <= s.cache[all[j]].lastTouch)
  }

  lemma PoppedIsEnforced(s: Store, all: seq<string>, n: nat)
    requires Distinct(all) && ToSet(all) == Candidates(s) && ByAge(s, all) && n <= |all|
    requires n == Min(Max(|s.cache| - s.capacity, 0), |all|)
    ensures Enforced(s, s.(cache := Popped(s, all, n)))
  {
    hide Candidates, ByAge, Distinct, ToSet, Popped;
    PoppedAreOldest(s, all, n);
    PoppedCount(s, all, n);
    hide Shrunk;
    ShrunkBy(s.cache, Candidates(s), s.capacity, Popped(s, all, n), ToSet(all[..n]));
  }

  lemma ShrunkBy(cache: map<string, Entry>, candidates: set<string>, capacity: int, cache': map<string, Entry>, evicted: set<string>)
    requires candidates <= cache.Keys && cache'.Keys <= cache.Keys && (forall k :: k in cache' ==> cache'[k] == cache[k])
    requires evicted == cache.Keys - cache'.Keys && evicted <= candidates
    requires |evicted| == Min(Max(|cache| - capacity, 0), |candidates|)
    requires forall e, k :: e in evicted && k in candidates && k !in evicted ==> cache[e].lastTouch <= cache[k].lastTouch
    ensures Shrunk(cache, candidates, capacity, cache')
  {
  }

  lemma PoppedCount(s: Store, all: seq<string>, n: nat)
    requires Distinct(all) && ToSet(all) <= s.cache.Keys && n <= |all|
    ensures |ToSet(all)| == |all| && |ToSet(all[..n])| == n
    ensures s.cache.Keys - Popped(s, all, n).Keys == ToSet(all[..n])
    ensures Popped(s, all, n).Keys <= s.cache.Keys && forall k :: k in Popped(s, all, n) ==> Popped(s, all, n)[k] == s.cache[k]
  {
    DistinctCount(all);
    DistinctCount(all[..n]);
    assert forall i :: 0 <= i < n ==> all[..n][i] in ToSet(all);
  }

  lemma PoppedAreOldest(s: Store, all: seq<string>, n: nat)
    requires ByAge(s, all) && n <= |all|
    ensures ToSet(all[..n]) <= ToSet(all) && ToSet(all) <= s.cache.Keys
    ensures forall e, k :: e in ToSet(all[..n]) && k in ToSet(all) && k !in ToSet(all[..n]) ==>
              s.cache[e].lastTouch <= s.cache[k].lastTouch
  {
    forall k | k in ToSet(all[..n]) ensures k in ToSet(all) {
      assert k in all;
    }
    assert forall i :: 0 <= i < n ==> all[..n][i] in ToSet(all[..n]);
    forall e, k | e in ToSet(all[..n]) && k in ToSet(all) && k !in ToSet(all[..n])
      ensures s.cache[e].lastTouch <= s.cache[k].lastTouch
    {
      var i :| 0 <= i < n && all[i] == e;
      var j :| 0 <= j < |all| && all[j] == k;
      assert j >= n;
    }
  }

  lemma NothingToEvict(s: Store)
    requires |s.cache| <= s.capacity
    ensures Enforced(s, s)
  {
    assert s.cache.Keys - s.cache.Keys == {};
  }

  lemma WrittenNone(c: Codec, s: Store, o: string, now: int)
    ensures Written(c, s, o, {}, now, s.cache, s.blobs, ManifestOf(s, o))
  {
    assert Targets(s, o, {}) == {};
  }

  lemma WrittenIsFlushed(c: Codec, s: Store, o: string, ids: set<string>, now: int,
                         cache: map<string, Entry>, blobs: map<string, Bytes>, m: Manifest)
    requires Written(c, s, o, ids, now, cache, blobs, m)
    ensures Flushed(c, s, o, ids, now, s.(cache := cache, blobs := blobs, manifests := s.manifests[SafeName(o) := m]))
  {
  }

  lemma FlushComposes(c: Codec, s: Store, o: string, ids: set<string>, now: int, s1: Store, s': Store)
    requires Flushed(c, s, o, ids, now, s1) && Enforced(s1, s')
    ensures FlushNext(c, s, o, ids, now, s')
    ensures s'.pinned == s.pinned && ManifestOf(s', o) == ManifestOf(s1, o)
  {
    hide Written, SafeName;
  }

  lemma FlushClosing(c: Codec, origins: set<string>, s: Store, o: string, ids: set<string>, now: int, s1: Store, s': Store)
    requires Separated(origins) && c.Lawful() && Consistent(c, origins, s) && o in origins
    requires Flushed(c, s, o, ids, now, s1) && Enforced(s1, s')
    ensures FlushNext(c, s, o, ids, now, s')
    ensures Consistent(c, origins, s') && SameLive(c, origins, s, s')
    ensures Bounded(origins, s) ==> Bounded(origins, s')
    ensures s'.pinned == s.pinned && ManifestOf(s', o) == ManifestOf(s1, o)
  {
    hide Flushed, FlushNext, Enforced, Consistent, Separated, Durable, Live, CacheKey, SafeName, DurableAfterFlush, KeysOf, ManifestOf, DirtyKeys;
    FlushComposes(c, s, o, ids, now, s1, s');
    FlushKeeps(c, origins, s, o, ids, now, s');
    CountSubset(DirtyKeys(s', o), DirtyKeys(s, o));
  }

  /** Every named block answers with the last payload the batch gives it, every other as before. */
  ghost predicate Stored(c: Codec, origins: set<string>, s: Store, o: string, ws: seq<BlockWrite>, s': Store) {
    forall o', b :: o' in origins ==>
      Live(c, s', o', b) == if o' == o && LastWrite(ws, b).Some? then LastWrite(ws, b) else Live(c, s, o', b)
  }

  lemma StoredOne(c: Codec, origins: set<string>, s: Store, o: string, w: BlockWrite, s': Store)
    requires Stored(c, origins, s, o, [w], s') && o in origins
    ensures LiveWritten(c, origins, s, o, w.block, w.payload, s') && Live(c, s', o, w.block) == Some(w.payload)
  {
    assert [w][..0] == [];
    assert forall b :: LastWrite([w], b) == if b == w.block then Some(w.payload) else None;
  }

  /** What the result of write `w` says when `last` is the payload the batch leaves for its block: with a flush it names the
      blob on disk that holds `last`, without one it is staged and names nothing. */
  ghost predicate Reports(c: Codec, s: Store, o: string, w: BlockWrite, last: Bytes, r: StoreResult, flushed: bool) {
    var z := c.compress(last);
    && r.block == w.block && r.sizeRaw == |w.payload| && r.dirtyBlocks == |DirtyKeys(s, o)| && r.flushed == flushed
    && r.blobId == (if flushed then Some(c.blobId(z)) else None)
    && r.sizeStored == (if flushed then |z| else 0)
    && (flushed ==> c.blobId(z) in s.blobs && s.blobs[c.blobId(z)] == z)
  }

  function ResultFor(w: BlockWrite, manifest: Manifest, left: nat): StoreResult {
    if w.block in manifest then
      StoreResult(w.block, Some(manifest[w.block].blobId), true, |w.payload|, manifest[w.block].sizeStored, left)
    else
      StoreResult(w.block, None, false, |w.payload|, 0, left)
  }

  /** A flush records the compressed payload of every block it has to write. */
  ghost predicate Recorded(c: Codec, s: Store, m: Manifest, b: string, payload: Bytes) {
    var z := c.compress(payload);
    b in m && m[b].blobId == c.blobId(z) && m[b].sizeStored == |z| && c.blobId(z) in s.blobs && s.blobs[c.blobId(z)] == z
  }

  lemma FlushedRecord(c: Codec, s: Store, o: string, ids: set<string>, now: int, s1: Store, b: string)
    requires Flushed(c, s, o, ids, now, s1) && b in Targets(s, o, ids)
    ensures b in ManifestOf(s1, o) && ManifestOf(s1, o)[b] == RecordFor(c, s, o, b, now)
  {
    hide CacheKey, SafeName, WrittenCache, WrittenBlobs, RecordFor, ManifestOf;
  }

  lemma FlushRecords(c: Codec, s: Store, o: string, ids: set<string>, now: int, s': Store, b: string)
    requires c.Lawful() && DiskSound(c, s) && FlushNext(c, s, o, ids, now, s') && b in Targets(s, o, ids)
    ensures Recorded(c, s', ManifestOf(s', o), b, s.cache[CacheKey(o, b)].bytes)
  {
    var s1 :| Flushed(c, s, o, ids, now, s1) && Enforced(s1, s');
    FlushedBlobs(c, s, o, ids, now, s1);
    FlushedRecord(c, s, o, ids, now, s1, b);
    assert s'.manifests == s1.manifests && s'.blobs == s1.blobs;
    hide SafeName, CacheKey, DiskSound, Flushed, Enforced, FlushNext;
  }

  lemma {:induction false} StagedEntry(s: Store, o: string, ws: seq<BlockWrite>, now: int, b: string)
    requires LastWrite(ws, b).Some?
    ensures var s1 := StageAll(s, o, ws, now);
            && CacheKey(o, b) in s1.cache && s1.cache[CacheKey(o, b)].dirty
            && s1.cache[CacheKey(o, b)].bytes == LastWrite(ws, b).value
  {
    SameBlockSameKey(o);
    if ws[|ws| - 1].block != b {
      StagedEntry(s, o, ws[..|ws| - 1], now, b);
    }
    hide CacheKey;
  }

  lemma StagedIsTarget(origins: set<string>, s: Store, o: string, ws: seq<BlockWrite>, now: int, b: string)
    requires Separated(origins) && o in origins && LastWrite(ws, b).Some?
    requires forall k :: k in StageAll(s, o, ws, now).cache ==> Splittable(k)
    ensures var s1 := StageAll(s, o, ws, now);
            b in Targets(s1, o, OwnedBlocks(s1, o)) && s1.cache[CacheKey(o, b)].bytes == LastWrite(ws, b).value
  {
    StagedEntry(s, o, ws, now, b);
    SplitRecoversBlock(o, b);
    KeyIdentifiesBlock(o, b, o, b);
    hide StageAll, CacheKey, BlockOf, LastWrite;
  }

  lemma BatchReports(c: Codec, origins: set<string>, s: Store, o: string, ws: seq<BlockWrite>, i: nat, now: int, s': Store, m: Manifest)
    requires Separated(origins) && c.Lawful() && Consistent(c, origins, s) && o in origins && i < |ws|
    requires StoreNext(c, s, o, ws, now, s')
    requires m == if |DirtyKeys(StageAll(s, o, ws, now), o)| >= s.threshold then ManifestOf(s', o) else map[]
    ensures LastWrite(ws, ws[i].block).Some?
    ensures Reports(c, s', o, ws[i], LastWrite(ws, ws[i].block).value, ResultFor(ws[i], m, |DirtyKeys(s', o)|),
                    |DirtyKeys(StageAll(s, o, ws, now), o)| >= s.threshold)
  {
    LastWriteNames(ws, i);
    var s1, b := StageAll(s, o, ws, now), ws[i].block;
    if |DirtyKeys(s1, o)| >= s.threshold {
      StageAllUsable(c, origins, s, o, ws, now);
      StagedIsTarget(origins, s, o, ws, now, b);
      FlushRecords(c, s1, o, OwnedBlocks(s1, o), now, s', b);
    }
    hide StageAll, CacheKey, BlockOf, LastWrite, FlushNext, Separated, Targets, KeysSound, CleanSound, ManifestOf, DirtyKeys;
  }

  lemma {:induction false} LastWriteNames(ws: seq<BlockWrite>, i: nat)
    requires i < |ws|
    ensures LastWrite(ws, ws[i].block).Some?
  {
    if i < |ws| - 1 {
      LastWriteNames(ws[..|ws| - 1], i);
    }
  }

  lemma StageAllUsable(c: Codec, origins: set<string>, s: Store, o: string, ws: seq<BlockWrite>, now: int)
    requires Separated(origins) && Consistent(c, origins, s) && o in origins
    ensures var s' := StageAll(s, o, ws, now);
            Consistent(c, origins, s') && s' == s.(cache := s'.cache) && forall k :: k in s'.cache ==> Splittable(k)
  {
    StageAllKeeps(c, origins, s, o, ws, now);
  }

  lemma StoreClosing(c: Codec, origins: set<string>, s: Store, o: string, ws: seq<BlockWrite>, now: int, s': Store)
    requires Separated(origins) && c.Lawful() && Consistent(c, origins, s) && Bounded(origins, s) && o in origins
    requires StoreNext(c, s, o, ws, now, s')
    ensures Consistent(c, origins, s') && Bounded(origins, s') && Stored(c, origins, s, o, ws, s') && CatchesUp(c, origins, s, s')
  {
    hide StoreNext, Consistent, Bounded, Separated, Live, Durable, LastWrite;
    StoreKeeps(c, origins, s, o, ws, now, s');
  }

  lemma StageOne(s: Store, o: string, w: BlockWrite, now: int)
    ensures StageAll(s, o, [w], now) == Stage(s, o, w, now) && LastWrite([w], w.block) == Some(w.payload)
  {
    assert [w][..0] == [];
  }

  /** Flushed blocks are on disk: dirty ones are written, the others were there already. */
  lemma FlushMakesDurable(c: Codec, origins: set<string>, s: Store, o: string, ids: set<string>, now: int, s': Store)
    requires Separated(origins) && c.Lawful() && Consistent(c, origins, s) && o in origins
    requires FlushNext(c, s, o, ids, now, s')
    ensures forall b :: b in ids ==> Durable(c, s', o, b) == Live(c, s', o, b)
  {
    FlushKeeps(c, origins, s, o, ids, now, s');
    hide FlushNext, Separated, Consistent, CacheKey, Durable, KeysOf;
  }

  function Pins(pinned: set<string>, keys: set<string>, on: bool): set<string> {
    if on then pinned + keys else pinned - keys
  }

  lemma PinsStep(pinned: set<string>, keys: set<string>, key: string, on: bool)
    ensures Pins(Pins(pinned, keys, on), {key}, on) == Pins(pinned, keys + {key}, on)
  {
  }

  lemma PinNone(origins: set<string>, s: Store)
    requires KeysSound(origins, s)
    ensures WithPins(s, s.pinned) == s && forall p :: WithPins(s, p).pinned == p
  {
  }

  lemma PinOne(s: Store, pinned: set<string>, key: string, on: bool)
    ensures var t, pinned' := WithPins(s, pinned), if on then pinned + {key} else pinned - {key};
            WithPins(s, pinned') ==
            t.(pinned := pinned', cache := if key in t.cache then t.cache[key := t.cache[key].(pinned := on)] else t.cache)
  {
  }

  lemma NoKeys(o: string, ids: seq<string>)
    ensures KeysOf(o, ToSet(ids[..0])) == {}
  {
  }

  lemma KeysOfPrefix(o: string, ids: seq<string>, i: nat)
    requires i < |ids|
    ensures KeysOf(o, ToSet(ids[..i + 1])) == KeysOf(o, ToSet(ids[..i])) + {CacheKey(o, ids[i])}
  {
    assert ToSet(ids[..i + 1]) == ToSet(ids[..i]) + {ids[i]};
  }

  lemma EvictNone(s: Store)
    ensures Evicted(s, {}) == s
  {
  }

  lemma EvictOne(s: Store, keys: set<string>, key: string)
    ensures var t := Evicted(s, keys);
            && Evicted(s, keys + {key}) == (if key in Candidates(t) then t.(cache := t.cache - {key}) else t)
            && (key in t.cache ==> |t.cache - {key}| == |t.cache| - 1)
  {
    var t := Evicted(s, keys);
    if key in t.cache {
      assert (t.cache - {key}).Keys == t.cache.Keys - {key};
      CountMinus(t.cache.Keys, {key});
    }
  }

  class OptimizerStateBackend {
    const codec: Codec
    ghost const origins: set<string>
    var cache: map<string, Entry>
    var pinned: set<string>
    var capacity: int
    var threshold: int
    var blobs: map<string, Bytes>
    var manifests: map<string, Manifest>
    var clock: int

    function St(): Store
      reads this
    {
      Store(cache, pinned, capacity, threshold, blobs, manifests)
    }

    ghost predicate Usable()
      reads this
    {
      Separated(origins) && codec.Lawful() && Consistent(codec, origins, St())
    }

    ghost predicate Valid()
      reads this
    {
      Usable() && Bounded(origins, St())
    }

    /** Opens the store over whatever the disk holds. */
    constructor (codec: Codec, ghost origins: set<string>, cacheCapacity: int, writebackThreshold: int,
                 blobs: map<string, Bytes>, manifests: map<string, Manifest>)
      requires Separated(origins) && codec.Lawful() && DiskSound(codec, Store(map[], {}, 1, 1, blobs, manifests))
      ensures Valid() && this.codec == codec && this.origins == origins
      ensures St() == Store(map[], {}, Max(1, cacheCapacity), Max(1, writebackThreshold), blobs, manifests)
    {
      this.codec, this.origins := codec, origins;
      cache, pinned := map[], {};
      capacity, threshold := Max(1, cacheCapacity), Max(1, writebackThreshold);
      this.blobs, this.manifests := blobs, manifests;
      clock := 0;
      new;
      assert Candidates(St()) == {};
      assert forall o :: DirtyKeys(St(), o) == {};
    }

    lemma ValidKeepsItself()
      requires Valid()
      ensures Usable() && Kept(codec, origins, St(), St())
    {
      KeptReflexive(codec, origins, St());
    }

    method Tick() returns (now: int)
      modifies this`clock
      ensures now == old(clock) && clock == old(clock) + 1
    {
      now := clock;
      clock := clock + 1;
    }

    /** The candidates for eviction, least recently touched first. */
    method CandidatesByAge() returns (all: seq<string>)
      ensures Distinct(all) && ToSet(all) == Candidates(St()) && ByAge(St(), all)
    {
      var clean := Candidates(St());
      all := SortBy(clean, map k | k in clean :: cache[k].lastTouch);
    }

    method EnforceCapacity()
      modifies this`cache
      ensures Enforced(old(St()), St())
    {
      ghost var s := St();
      hide Enforced, Candidates, ByAge, Popped;
      if |cache| <= capacity {
        NothingToEvict(s);
        return;
      }
      var candidates := CandidatesByAge();
      ghost var all, n := candidates, 0;
      PoppedNone(s, all);
      while |cache| > capacity && candidates != []
        invariant 0 <= n <= |all| && candidates == all[n..]
        invariant cache == Popped(s, all, n) && |cache| == |s.cache| - n
        invariant |s.cache| - n >= capacity
        decreases |candidates|
      {
        var key := candidates[0];
        candidates := candidates[1..];
        PopOne(s, all, n);
        cache := cache - {key};
        n := n + 1;
      }
      PoppedIsEnforced(s, all, n);
      assert St() == s.(cache := Popped(s, all, n));
    }

    method FlushBlocks(origin: string, blockIds: seq<string>) returns (manifest: Manifest)
      requires Usable() && origin in origins
      modifies this
      ensures FlushNext(codec, old(St()), origin, ToSet(blockIds), old(clock), St())
      ensures manifest == ManifestOf(St(), origin)
      ensures forall b :: b in blockIds ==> Durable(codec, St(), origin, b) == Live(codec, St(), origin, b)
      ensures Usable() && (old(Valid()) ==> Valid()) && SameLive(codec, origins, old(St()), St())
      ensures old(Valid()) ==> Kept(codec, origins, old(St()), St())
      ensures pinned == old(pinned)
    {
      ghost var s := St();
      hide Live, Durable, FlushNext, Written, Flushed, Enforced, Consistent, Bounded, Separated, SameLive, Kept;
      var now := Tick();
      manifest := ManifestOf(St(), origin);
      WrittenNone(codec, s, origin, now);
      assert ToSet(blockIds[..0]) == {};
      for i := 0 to |blockIds|
        invariant pinned == s.pinned && capacity == s.capacity && threshold == s.threshold && manifests == s.manifests
        invariant Written(codec, s, origin, ToSet(blockIds[..i]), now, cache, blobs, manifest)
      {
        var block := blockIds[i];
        var key := CacheKey(origin, block);
        ghost var done := ToSet(blockIds[..i]);
        assert ToSet(blockIds[..i + 1]) == done + {block};
        if key in cache && cache[key].dirty {
          WrittenOne(codec, s, origin, done, now, cache, blobs, manifest, block);
          var entry := cache[key];
          var compressed := codec.compress(entry.bytes);
          var blobId := codec.blobId(compressed);
          if blobId !in blobs {
            blobs := blobs[blobId := compressed];
          }
          var record := Record(block, blobId, entry.info, |entry.bytes|, |compressed|, now);
          manifest := manifest[block := record];
          cache := cache[key := entry.(dirty := false, record := Some(record), lastTouch := now)];
        } else {
          WrittenSkips(codec, s, origin, done, now, cache, blobs, manifest, block);
        }
      }
      assert blockIds[..|blockIds|] == blockIds;
      manifests := manifests[SafeName(origin) := manifest];
      ghost var s1 := St();
      WrittenIsFlushed(codec, s, origin, ToSet(blockIds), now, cache, blobs, manifest);
      EnforceCapacity();
      FlushClosing(codec, origins, s, origin, ToSet(blockIds), now, s1, St());
      FlushMakesDurable(codec, origins, s, origin, ToSet(blockIds), now, St());
      if Bounded(origins, s) {
        FlushBounded(codec, origins, s, origin, ToSet(blockIds), now, St());
      }
      assert forall b :: b in blockIds ==> b in ToSet(blockIds);
    }

    method FlushOrigin(origin: string) returns (manifest: Manifest)
      requires Usable() && origin in origins
      modifies this
      ensures FlushNext(codec, old(St()), origin, OwnedBlocks(old(St()), origin), old(clock), St())
      ensures manifest == ManifestOf(St(), origin)
      ensures Usable() && (old(Valid()) ==> Valid()) && SameLive(codec, origins, old(St()), St())
      ensures DirtyKeys(St(), origin) == {}
      ensures forall b :: Durable(codec, St(), origin, b) == Live(codec, St(), origin, b)
      ensures pinned == old(pinned)
    {
      ghost var s, now := St(), clock;
      var keys := Listing(set k | k in cache && OwnedBy(k, origin));
      assert forall i :: 0 <= i < |keys| ==> keys[i] in ToSet(keys);
      var blocks := seq(|keys|, i requires 0 <= i < |keys| && keys[i] in ToSet(keys) => BlockOf(keys[i]));
      assert ToSet(blocks) == OwnedBlocks(s, origin) by {
        forall b | b in OwnedBlocks(s, origin) ensures b in ToSet(blocks) {
          var k :| k in s.cache && OwnedBy(k, origin) && BlockOf(k) == b;
          assert k in ToSet(keys);
          var i :| 0 <= i < |keys| && keys[i] == k;
          assert blocks[i] == b;
        }
        forall b | b in ToSet(blocks) ensures b in OwnedBlocks(s, origin) {
          var i :| 0 <= i < |blocks| && blocks[i] == b;
          assert keys[i] in ToSet(keys);
        }
      }
      manifest := FlushBlocks(origin, blocks);
      FlushOriginMakesDurable(codec, origins, s, origin, now, St());
    }

    method StoreBlocks(origin: string, writes: seq<BlockWrite>) returns (results: seq<StoreResult>)
      requires Valid() && origin in origins
      modifies this
      ensures StoreNext(codec, old(St()), origin, writes, old(clock), St())
      ensures Valid() && pinned == old(pinned)
      ensures Stored(codec, origins, old(St()), origin, writes, St()) && CatchesUp(codec, origins, old(St()), St())
      ensures |results| == |writes|
      ensures forall i :: 0 <= i < |writes| ==>
                LastWrite(writes, writes[i].block).Some? &&
                Reports(codec, St(), origin, writes[i], LastWrite(writes, writes[i].block).value, results[i],
                        |DirtyKeys(StageAll(old(St()), origin, writes, old(clock)), origin)| >= old(threshold))
    {
      ghost var s := St();
      hide Separated, Consistent, Bounded, FlushNext, Enforced, Live, Durable, Stored, CatchesUp, Reports, SameLive, ResultFor;
      var now := clock;
      for i := 0 to |writes|
        invariant St() == StageAll(s, origin, writes[..i], now) && clock == now
      {
        assert writes[..i + 1][..i] == writes[..i];
        var w := writes[i];
        var key := CacheKey(origin, w.block);
        cache := cache[key := Entry(w.payload, w.info, true, key in pinned, now, None)];
      }
      assert writes[..|writes|] == writes;
      StageAllUsable(codec, origins, s, origin, writes, now);
      var flush := |DirtyKeys(St(), origin)| >= threshold;
      var manifest: Manifest := map[];
      if flush {
        manifest := FlushOrigin(origin);
      } else {
        var _ := Tick();
      }
      StoreClosing(codec, origins, s, origin, writes, now, St());
      results := ResultsOf(origin, writes, manifest, s, now);
    }

    /** The results of a finished batch. */
    method ResultsOf(origin: string, writes: seq<BlockWrite>, manifest: Manifest, ghost s: Store, ghost now: int) returns (results: seq<StoreResult>)
      requires Separated(origins) && codec.Lawful() && Consistent(codec, origins, s) && origin in origins
      requires StoreNext(codec, s, origin, writes, now, St())
      requires manifest == if |DirtyKeys(StageAll(s, origin, writes, now), origin)| >= s.threshold then ManifestOf(St(), origin) else map[]
      ensures |results| == |writes|
      ensures forall i :: 0 <= i < |writes| ==>
                LastWrite(writes, writes[i].block).Some? &&
                Reports(codec, St(), origin, writes[i], LastWrite(writes, writes[i].block).value, results[i],
                        |DirtyKeys(StageAll(s, origin, writes, now), origin)| >= s.threshold)
    {
      hide Separated, Consistent, StoreNext, Reports, ResultFor, StageAll, ManifestOf, DirtyKeys;
      var left := |DirtyKeys(St(), origin)|;
      ghost var flush := |DirtyKeys(StageAll(s, origin, writes, now), origin)| >= s.threshold;
      results := [];
      for i := 0 to |writes|
        invariant |results| == i
        invariant forall j :: 0 <= j < i ==>
          LastWrite(writes, writes[j].block).Some? &&
          Reports(codec, St(), origin, writes[j], LastWrite(writes, writes[j].block).value, results[j], flush)
      {
        BatchReports(codec, origins, s, origin, writes, i, now, St(), manifest);
        results := results + [ResultFor(writes[i], manifest, left)];
      }
    }

    /** `store_block` is the batch of one. */
    method StoreBlock(origin: string, write: BlockWrite) returns (result: StoreResult)
      requires Valid() && origin in origins
      modifies this
      ensures StoreNext(codec, old(St()), origin, [write], old(clock), St())
      ensures Valid() && pinned == old(pinned)
      ensures LiveWritten(codec, origins, old(St()), origin, write.block, write.payload, St()) && CatchesUp(codec, origins, old(St()), St())
      ensures Reports(codec, St(), origin, write, write.payload, result,
                      |DirtyKeys(Stage(old(St()), origin, write, old(clock)), origin)| >= old(threshold))
    {
      ghost var s := St();
      hide Separated, Consistent, Bounded, StoreNext, Live, Durable, LiveWritten, Stored, CatchesUp, Reports, Stage, DirtyKeys;
      StageOne(s, origin, write, clock);
      var results := StoreBlocks(origin, [write]);
      result := results[0];
      StoredOne(codec, origins, s, origin, write, St());
    }

    method LoadBlock(origin: string, block: string) returns (r: Option<Bytes>)
      requires Valid() && origin in origins
      modifies this
      ensures LoadNext(codec, old(St()), origin, block, old(clock), St())
      ensures r == Live(codec, old(St()), origin, block)
      ensures Valid() && pinned == old(pinned)
      ensures Kept(codec, origins, old(St()), St()) && SameLive(codec, origins, old(St()), St())
    {
      ghost var s := St();
      var key := CacheKey(origin, block);
      var now := Tick();
      if key in cache {
        cache := cache[key := cache[key].(lastTouch := now)];
        r := Some(cache[key].bytes);
      } else {
        var manifest := ManifestOf(St(), origin);
        if block !in manifest {
          r := None;
        } else {
          var record := manifest[block];
          assert SafeName(origin) in manifests && record.blobId in blobs;
          var payload := codec.decompress(blobs[record.blobId]);
          cache := cache[key := Entry(payload, record.info, false, key in pinned, now, Some(record))];
          r := Some(payload);
          EnforceCapacity();
        }
      }
      LoadKeeps(codec, origins, s, origin, block, now, St());
    }

    method LoadBlocks(origin: string, blockIds: seq<string>) returns (payloads: map<string, Bytes>)
      requires Valid() && origin in origins
      modifies this
      ensures payloads.Keys <= ToSet(blockIds)
      ensures forall b :: b in blockIds ==>
                Live(codec, old(St()), origin, b) == (if b in payloads then Some(payloads[b]) else None)
      ensures Valid() && SameLive(codec, origins, old(St()), St()) && pinned == old(pinned)
    {
      ghost var s := St();
      hide Separated, Consistent, Bounded, Durable, Live, LoadNext, Kept;
      payloads := map[];
      for i := 0 to |blockIds|
        invariant Valid() && SameLive(codec, origins, s, St()) && pinned == s.pinned
        invariant payloads.Keys <= ToSet(blockIds)
        invariant forall b :: b in payloads ==> Live(codec, s, origin, b) == Some(payloads[b])
        invariant forall j :: 0 <= j < i && blockIds[j] !in payloads ==> Live(codec, s, origin, blockIds[j]) == None
      {
        var r := LoadBlock(origin, blockIds[i]);
        if r.Some? {
          payloads := payloads[blockIds[i] := r.value];
        }
      }
    }

    method PrefetchBlocks(origin: string, blockIds: seq<string>) returns (loaded: nat)
      requires Valid() && origin in origins
      modifies this
      ensures loaded == |Present(codec, old(St()), origin, blockIds)|
      ensures Valid() && SameLive(codec, origins, old(St()), St()) && pinned == old(pinned)
    {
      ghost var s := St();
      hide Separated, Consistent, Bounded, Durable, Live, LoadNext, Kept;
      loaded := 0;
      for i := 0 to |blockIds|
        invariant Valid() && SameLive(codec, origins, s, St()) && pinned == s.pinned
        invariant loaded == |Present(codec, s, origin, blockIds[..i])|
      {
        assert blockIds[..i + 1][..i] == blockIds[..i];
        var r := LoadBlock(origin, blockIds[i]);
        if r.Some? {
          loaded := loaded + 1;
        }
      }
      assert blockIds[..|blockIds|] == blockIds;
    }

    /** The loop `pin_blocks` and `unpin_blocks` share. */
    method SetPins(origin: string, blockIds: seq<string>, on: bool)
      requires KeysSound(origins, St())
      modifies `pinned, `cache
      ensures var keys := KeysOf(origin, ToSet(blockIds));
              St() == WithPins(old(St()), if on then old(pinned) + keys else old(pinned) - keys)
    {
      ghost var s := St();
      hide WithPins, KeysOf, CacheKey, KeysSound;
      PinNone(origins, s);
      NoKeys(origin, blockIds);
      assert s.pinned + {} == s.pinned - {} == s.pinned;
      for i := 0 to |blockIds|
        invariant St() == WithPins(s, Pins(s.pinned, KeysOf(origin, ToSet(blockIds[..i])), on))
      {
        var key := CacheKey(origin, blockIds[i]);
        KeysOfPrefix(origin, blockIds, i);
        PinOne(s, pinned, key, on);
        pinned := if on then pinned + {key} else pinned - {key};
        if key in cache {
          cache := cache[key := cache[key].(pinned := on)];
        }
        PinsStep(s.pinned, KeysOf(origin, ToSet(blockIds[..i])), key, on);
      }
      assert blockIds[..|blockIds|] == blockIds;
    }

    method PinBlocks(origin: string, blockIds: seq<string>)
      requires Valid() && origin in origins
      modifies this
      ensures St() == WithPins(old(St()), old(pinned) + KeysOf(origin, ToSet(blockIds)))
      ensures pinned == old(pinned) + KeysOf(origin, ToSet(blockIds))
      ensures Valid() && Kept(codec, origins, old(St()), St()) && SameLive(codec, origins, old(St()), St())
    {
      ghost var s := St();
      hide Separated, KeysOf, CacheKey, Live, Durable;
      SetPins(origin, blockIds, true);
      PinsAreKept(codec, origins, s, s.pinned + KeysOf(origin, ToSet(blockIds)));
    }

    method UnpinBlocks(origin: string, blockIds: seq<string>)
      requires Valid() && origin in origins
      modifies this
      ensures Enforced(WithPins(old(St()), old(pinned) - KeysOf(origin, ToSet(blockIds))), St())
      ensures pinned == old(pinned) - KeysOf(origin, ToSet(blockIds))
      ensures Valid() && Kept(codec, origins, old(St()), St()) && SameLive(codec, origins, old(St()), St())
    {
      ghost var s := St();
      hide Separated, KeysOf, CacheKey, Live, Durable, Enforced;
      SetPins(origin, blockIds, false);
      EnforceCapacity();
      UnpinKeeps(codec, origins, s, s.pinned - KeysOf(origin, ToSet(blockIds)), St());
    }

    method EvictBlocks(origin: string, blockIds: seq<string>) returns (evicted: nat)
      requires Valid() && origin in origins
      modifies this
      ensures St() == Evicted(old(St()), KeysOf(origin, ToSet(blockIds)))
      ensures evicted == |old(cache)| - |cache|
      ensures Valid() && Kept(codec, origins, old(St()), St()) && SameLive(codec, origins, old(St()), St())
    {
      ghost var s := St();
      EvictNone(s);
      hide Separated, Consistent, Bounded, Evicted, KeysOf, CacheKey;
      assert KeysOf(origin, ToSet(blockIds[..0])) == {} by { NoKeys(origin, blockIds); }
      evicted := 0;
      for i := 0 to |blockIds|
        invariant St() == Evicted(s, KeysOf(origin, ToSet(blockIds[..i]))) && evicted == |s.cache| - |cache|
      {
        var key := CacheKey(origin, blockIds[i]);
        KeysOfPrefix(origin, blockIds, i);
        EvictOne(s, KeysOf(origin, ToSet(blockIds[..i])), key);
        if key in cache && !(cache[key].dirty || cache[key].pinned || key in pinned) {
          cache := cache - {key};
          evicted := evicted + 1;
        }
      }
      assert blockIds[..|blockIds|] == blockIds;
      EvictedIsKept(codec, origins, s, KeysOf(origin, ToSet(blockIds)));
    }

    method SetCacheCapacity(value: int)
      requires Valid()
      modifies this
      ensures Enforced(old(St()).(capacity := Max(1, value)), St())
      ensures Valid() && Kept(codec, origins, old(St()), St()) && SameLive(codec, origins, old(St()), St())
    {
      ghost var s := St();
      capacity := Max(1, value);
      EnforceCapacity();
      CapacityKeeps(codec, origins, s, value, St());
    }
  }

  /** The listed blocks, with repetition, that have a payload. */
  ghost function Present(c: Codec, s: Store, o: string, ids: seq<string>): seq<string> {
    if ids == [] then []
    else
      var last := ids[|ids| - 1];
      Present(c, s, o, ids[..|ids| - 1]) + if Live(c, s, o, last).Some? then [last] else []
  }
}
