/** Runs in which a crash may also leave half-written blob files. */
module OptimizerTorn {
  import opened Wrappers
  import opened Numbers
  import opened CacheKeys
  import opened OptimizerState
  import opened OptimizerRuns

  /** The store as it would be without the files of these digests. */
  function Without(s: Store, torn: set<string>): Store { s.(blobs := s.blobs - torn) }

  ghost predicate Unnamed(s: Store, torn: set<string>) {
    forall f, b :: f in s.manifests && b in s.manifests[f] ==> s.manifests[f][b].blobId !in torn
  }

  /** Memory is lost; files of the digests in `torn` may hold anything. */
  ghost predicate TornCrash(c: Codec, torn: set<string>, s: Store, capacity: int, threshold: int, s': Store) {
    && s' == Store(map[], {}, Max(1, capacity), Max(1, threshold), s'.blobs, s.manifests)
    && (forall id :: id in s.blobs && id !in torn ==> id in s'.blobs && s'.blobs[id] == s.blobs[id])
    && (forall id :: id in s'.blobs && id !in torn ==> c.blobId(s'.blobs[id]) == id)
  }

  /** The flush writes no payload whose file was torn. */
  ghost predicate Avoids(c: Codec, torn: set<string>, s: Store, o: string, ids: set<string>) {
    forall b :: b in Targets(s, o, ids) ==> c.blobId(Compressed(c, s, o, b)) !in torn
  }

  ghost predicate StoreAvoids(c: Codec, torn: set<string>, s: Store, o: string, ws: seq<BlockWrite>, now: int) {
    var s1 := StageAll(s, o, ws, now);
    |DirtyKeys(s1, o)| >= s.threshold && (forall k :: k in s1.cache ==> Splittable(k)) ==> Avoids(c, torn, s1, o, OwnedBlocks(s1, o))
  }

  ghost predicate TornNext(c: Codec, torn: set<string>, s: Store, op: Op, now: int, s': Store) {
    match op
    case Crash(n, t) => TornCrash(c, torn, s, n, t, s')
    case StoreBlocks(o, ws) => StoreNext(c, s, o, ws, now, s') && StoreAvoids(c, torn, s, o, ws, now)
    case Flush(o, ids) => FlushNext(c, s, o, ids, now, s') && Avoids(c, torn, s, o, ids)
    case _ => Next(c, s, op, now, s')
  }

  lemma TornUnseen(c: Codec, s: Store, torn: set<string>)
    requires Unnamed(s, torn)
    ensures forall o, b :: Durable(c, Without(s, torn), o, b) == Durable(c, s, o, b) && Live(c, Without(s, torn), o, b) == Live(c, s, o, b)
  {
    forall o, b ensures Durable(c, Without(s, torn), o, b) == Durable(c, s, o, b) {
      assert ManifestOf(Without(s, torn), o) == ManifestOf(s, o);
    }
  }

  lemma SameMemory(s: Store, o: string, ids: set<string>, torn: set<string>)
    ensures ManifestOf(Without(s, torn), o) == ManifestOf(s, o)
    ensures Targets(Without(s, torn), o, ids) == Targets(s, o, ids)
    ensures Candidates(Without(s, torn)) == Candidates(s)
    ensures DirtyKeys(Without(s, torn), o) == DirtyKeys(s, o)
  {
    hide CacheKey;
  }

  lemma TargetsCached(s: Store, o: string, ids: set<string>)
    ensures KeysOf(o, Targets(s, o, ids)) <= s.cache.Keys
  {
  }

  lemma SameRecords(c: Codec, s: Store, o: string, t: set<string>, now: int, torn: set<string>)
    requires KeysOf(o, t) <= s.cache.Keys
    ensures forall b :: b in t ==>
              RecordFor(c, Without(s, torn), o, b, now) == RecordFor(c, s, o, b, now) && Compressed(c, Without(s, torn), o, b) == Compressed(c, s, o, b)
  {
    hide CacheKey;
  }

  lemma ManifestWithout(c: Codec, s: Store, o: string, t: set<string>, now: int, torn: set<string>)
    requires KeysOf(o, t) <= s.cache.Keys
    ensures WrittenManifest(c, Without(s, torn), o, t, now) == WrittenManifest(c, s, o, t, now)
  {
    SameMemory(s, o, {}, torn);
    SameRecords(c, s, o, t, now, torn);
    hide CacheKey, RecordFor, KeysOf, ManifestOf;
  }

  lemma BlobsWithout(c: Codec, s: Store, o: string, t: set<string>, blobs: map<string, Bytes>, torn: set<string>)
    requires KeysOf(o, t) <= s.cache.Keys && WrittenBlobs(c, s, o, t, blobs)
    requires forall b :: b in t ==> c.blobId(Compressed(c, s, o, b)) !in torn
    ensures WrittenBlobs(c, Without(s, torn), o, t, blobs - torn)
  {
    SameRecords(c, s, o, t, 0, torn);
    hide CacheKey, RecordFor, KeysOf, Compressed;
  }

  lemma CacheWithout(c: Codec, s: Store, o: string, t: set<string>, now: int, cache: map<string, Entry>, torn: set<string>)
    requires KeysOf(o, t) <= s.cache.Keys && WrittenCache(c, s, o, t, now, cache)
    ensures WrittenCache(c, Without(s, torn), o, t, now, cache)
  {
    SameRecords(c, s, o, t, now, torn);
    hide CacheKey, RecordFor, Compressed;
  }

  lemma WrittenWithout(c: Codec, s: Store, o: string, t: set<string>, now: int, cache: map<string, Entry>, blobs: map<string, Bytes>, torn: set<string>)
    requires KeysOf(o, t) <= s.cache.Keys && WrittenCache(c, s, o, t, now, cache) && WrittenBlobs(c, s, o, t, blobs)
    requires forall b :: b in t ==> c.blobId(Compressed(c, s, o, b)) !in torn
    ensures WrittenCache(c, Without(s, torn), o, t, now, cache) && WrittenBlobs(c, Without(s, torn), o, t, blobs - torn)
    ensures WrittenManifest(c, Without(s, torn), o, t, now) == WrittenManifest(c, s, o, t, now)
  {
    hide CacheKey, RecordFor, KeysOf, ManifestOf, Compressed, WrittenCache, WrittenBlobs, WrittenManifest;
    CacheWithout(c, s, o, t, now, cache, torn);
    BlobsWithout(c, s, o, t, blobs, torn);
    ManifestWithout(c, s, o, t, now, torn);
  }

  lemma WrittenUnnamed(c: Codec, s: Store, o: string, t: set<string>, now: int, s': Store, torn: set<string>)
    requires KeysOf(o, t) <= s.cache.Keys && Unnamed(s, torn)
    requires s'.manifests == s.manifests[SafeName(o) := WrittenManifest(c, s, o, t, now)]
    requires forall b :: b in t ==> c.blobId(Compressed(c, s, o, b)) !in torn
    ensures Unnamed(s', torn)
  {
    hide CacheKey, SafeName, KeysOf, Compressed;
  }

  lemma FlushedWithout(c: Codec, s: Store, o: string, ids: set<string>, now: int, s': Store, torn: set<string>)
    requires Flushed(c, s, o, ids, now, s') && Avoids(c, torn, s, o, ids) && Unnamed(s, torn)
    ensures Flushed(c, Without(s, torn), o, ids, now, Without(s', torn)) && Unnamed(s', torn)
  {
    hide CacheKey, SafeName, WrittenCache, WrittenBlobs, WrittenManifest, Unnamed, Compressed, ManifestOf, Targets;
    TargetsCached(s, o, ids);
    SameMemory(s, o, ids, torn);
    SameMemory(s', o, ids, torn);
    WrittenWithout(c, s, o, Targets(s, o, ids), now, s'.cache, s'.blobs, torn);
    WrittenUnnamed(c, s, o, Targets(s, o, ids), now, s', torn);
  }

  lemma EnforcedWithout(s: Store, s': Store, torn: set<string>)
    requires Enforced(s, s') && Unnamed(s, torn)
    ensures Enforced(Without(s, torn), Without(s', torn)) && Unnamed(s', torn)
  {
    assert s' == s.(cache := s'.cache);
    SameMemory(s, "", {}, torn);
    hide Candidates, Unnamed, Shrunk;
    UnnamedAlike(s, s', torn);
  }

  lemma FlushWithout(c: Codec, s: Store, o: string, ids: set<string>, now: int, s': Store, torn: set<string>)
    requires FlushNext(c, s, o, ids, now, s') && Avoids(c, torn, s, o, ids) && Unnamed(s, torn)
    ensures FlushNext(c, Without(s, torn), o, ids, now, Without(s', torn)) && Unnamed(s', torn)
  {
    var s1 :| Flushed(c, s, o, ids, now, s1) && Enforced(s1, s');
    hide Flushed, Enforced, Without, Unnamed, Avoids;
    FlushedWithout(c, s, o, ids, now, s1, torn);
    EnforcedWithout(s1, s', torn);
  }

  lemma {:induction false} StageAllWithout(s: Store, o: string, ws: seq<BlockWrite>, now: int, torn: set<string>)
    ensures StageAll(Without(s, torn), o, ws, now) == Without(StageAll(s, o, ws, now), torn)
    ensures StageAll(s, o, ws, now).manifests == s.manifests
  {
    if ws != [] {
      StageAllWithout(s, o, ws[..|ws| - 1], now, torn);
    }
  }

  lemma UnnamedAlike(s: Store, s1: Store, torn: set<string>)
    requires s1.manifests == s.manifests
    ensures Unnamed(s1, torn) <==> Unnamed(s, torn)
  {
  }

  lemma OwnedAlike(s: Store, s1: Store, o: string)
    requires s1.cache == s.cache && forall k :: k in s.cache ==> Splittable(k)
    ensures (forall k :: k in s1.cache ==> Splittable(k)) && OwnedBlocks(s1, o) == OwnedBlocks(s, o)
  {
    hide OwnedBy, BlockOf, Splittable;
  }

  lemma StoreWithout(c: Codec, s: Store, o: string, ws: seq<BlockWrite>, now: int, s': Store, torn: set<string>)
    requires StoreNext(c, s, o, ws, now, s') && StoreAvoids(c, torn, s, o, ws, now) && Unnamed(s, torn)
    ensures StoreNext(c, Without(s, torn), o, ws, now, Without(s', torn)) && Unnamed(s', torn)
  {
    var s1 := StageAll(s, o, ws, now);
    StageAllWithout(s, o, ws, now, torn);
    SameMemory(s1, o, {}, torn);
    UnnamedAlike(s, s1, torn);
    assert Without(s, torn).threshold == s.threshold && Without(s1, torn).cache == s1.cache;
    hide FlushNext, StageAll, Avoids, DirtyKeys, Unnamed, OwnedBlocks, Splittable, Without;
    if |DirtyKeys(s1, o)| >= s.threshold {
      FlushWithout(c, s1, o, OwnedBlocks(s1, o), now, s', torn);
      OwnedAlike(s1, Without(s1, torn), o);
    }
  }

  lemma LoadWithout(c: Codec, s: Store, o: string, b: string, now: int, s': Store, torn: set<string>)
    requires LoadNext(c, s, o, b, now, s') && Unnamed(s, torn)
    ensures LoadNext(c, Without(s, torn), o, b, now, Without(s', torn)) && Unnamed(s', torn)
  {
    TornUnseen(c, s, torn);
    SameMemory(s, o, {}, torn);
    hide ManifestOf, Durable, Enforced, CacheKey, Unnamed;
    if CacheKey(o, b) in s.cache {
      UnnamedAlike(s, s', torn);
    } else if Durable(c, s, o, b).Some? {
      var fetched := Fetched(c, s, o, b, now);
      UnnamedAlike(s, fetched, torn);
      EnforcedWithout(fetched, s', torn);
      assert Fetched(c, Without(s, torn), o, b, now) == Without(fetched, torn);
    }
  }

  lemma CrashWithout(c: Codec, s: Store, n: int, t: int, s': Store, torn: set<string>)
    requires TornCrash(c, torn, s, n, t, s') && Unnamed(s, torn)
    ensures Crashed(c, Without(s, torn), n, t, Without(s', torn)) && Unnamed(s', torn)
  {
  }

  lemma MemoryWithout(c: Codec, s: Store, op: Op, now: int, s': Store, torn: set<string>)
    requires Next(c, s, op, now, s') && Unnamed(s, torn) && (op.Pin? || op.Unpin? || op.Evict? || op.SetCapacity?)
    ensures Next(c, Without(s, torn), op, now, Without(s', torn)) && Unnamed(s', torn)
  {
    match op
    case Pin(o, ids) =>
    case Unpin(o, ids) => EnforcedWithout(WithPins(s, s.pinned - KeysOf(o, ids)), s', torn);
    case Evict(o, ids) => assert Candidates(Without(s, torn)) == Candidates(s);
    case SetCapacity(n) => EnforcedWithout(s.(capacity := Max(1, n)), s', torn);
  }

  /** As long as no flush writes a torn payload again, the torn files could as well not be there. */
  lemma StepWithout(c: Codec, s: Store, op: Op, now: int, s': Store, torn: set<string>)
    requires TornNext(c, torn, s, op, now, s') && Unnamed(s, torn)
    ensures Next(c, Without(s, torn), op, now, Without(s', torn)) && Unnamed(s', torn)
  {
    hide StoreNext, LoadNext, FlushNext, Enforced, WithPins, Evicted, Crashed, TornCrash, Without, Unnamed, Avoids, StoreAvoids;
    match op
    case StoreBlocks(o, ws) => StoreWithout(c, s, o, ws, now, s', torn);
    case Load(o, b) => LoadWithout(c, s, o, b, now, s', torn);
    case Flush(o, ids) => FlushWithout(c, s, o, ids, now, s', torn);
    case Crash(n, t) => CrashWithout(c, s, n, t, s', torn);
    case _ => MemoryWithout(c, s, op, now, s', torn);
  }

  ghost predicate TornRun(c: Codec, origins: set<string>, torn: set<string>, states: seq<Store>, ops: seq<Op>, times: seq<int>) {
    && |states| == |ops| + 1 && |times| == |ops|
    && states[0] == Fresh(states[0].capacity, states[0].threshold)
    && (forall i :: 0 <= i < |ops| ==> About(ops[i], origins) && TornNext(c, torn, states[i], ops[i], times[i], states[i + 1]))
  }

  function AllWithout(states: seq<Store>, torn: set<string>): (r: seq<Store>)
    ensures |r| == |states|
  {
    seq(|states|, i requires 0 <= i < |states| => Without(states[i], torn))
  }

  lemma {:induction false} NeverNamed(c: Codec, origins: set<string>, torn: set<string>, states: seq<Store>, ops: seq<Op>, times: seq<int>, i: nat)
    requires TornRun(c, origins, torn, states, ops, times) && i <= |ops|
    ensures Unnamed(states[i], torn)
  {
    hide TornNext, Unnamed;
    if i == 0 {
      NoManifests(states[0], torn);
    } else {
      NeverNamed(c, origins, torn, states, ops, times, i - 1);
      StepWithout(c, states[i - 1], ops[i - 1], times[i - 1], states[i], torn);
    }
  }

  lemma NoManifests(s: Store, torn: set<string>)
    requires s.manifests == map[]
    ensures Unnamed(s, torn)
  {
  }

  lemma FreshWithout(s: Store, torn: set<string>)
    requires s == Fresh(s.capacity, s.threshold)
    ensures Without(s, torn) == s
  {
  }

  lemma RunWithout(c: Codec, origins: set<string>, torn: set<string>, states: seq<Store>, ops: seq<Op>, times: seq<int>)
    requires TornRun(c, origins, torn, states, ops, times)
    ensures Run(c, origins, AllWithout(states, torn), ops, times)
  {
    hide Next, TornNext, Without, Unnamed, About;
    var without := AllWithout(states, torn);
    forall i | 0 <= i < |ops| ensures Next(c, without[i], ops[i], times[i], without[i + 1]) {
      NeverNamed(c, origins, torn, states, ops, times, i);
      StepWithout(c, states[i], ops[i], times[i], states[i + 1], torn);
    }
    assert without[0] == Fresh(without[0].capacity, without[0].threshold) by { FreshWithout(states[0], torn); }
  }

  /** Torn files included, any run that never flushes a torn payload again is a run of the plain map. */
  lemma TornRunRefinesMap(c: Codec, origins: set<string>, torn: set<string>, states: seq<Store>, ops: seq<Op>, times: seq<int>)
      returns (specs: seq<Spec>)
    requires Separated(origins) && c.Lawful() && TornRun(c, origins, torn, states, ops, times)
    ensures SpecRun(origins, specs, states, ops)
    ensures forall i :: 0 <= i < |states| ==> Bounded(origins, states[i])
    ensures forall i, o, b :: 0 <= i < |states| && o in origins ==> Live(c, states[i], o, b) == Lookup(specs[i].latest, o, b)
  {
    var without := AllWithout(states, torn);
    RunWithout(c, origins, torn, states, ops, times);
    specs := RunRefinesMap(c, origins, without, ops, times);
    forall i | 0 <= i < |states|
      ensures Bounded(origins, states[i])
      ensures forall o, b :: o in origins ==> Live(c, states[i], o, b) == Lookup(specs[i].latest, o, b)
    {
      NeverNamed(c, origins, torn, states, ops, times, i);
      TornUnseen(c, states[i], torn);
      assert Refines(c, origins, without[i], specs[i]);
      BoundedWithout(origins, states[i], torn);
    }
    hide SpecNext, Run, TornRun, Refines;
  }

  lemma BoundedWithout(origins: set<string>, s: Store, torn: set<string>)
    ensures Bounded(origins, Without(s, torn)) <==> Bounded(origins, s)
  {
    forall o ensures Candidates(Without(s, torn)) == Candidates(s) && DirtyKeys(Without(s, torn), o) == DirtyKeys(s, o) {
      SameMemory(s, o, {}, torn);
    }
  }

  /** A crash inside a put: the puts before it are complete, the file of `id` holds any bytes, no manifest was replaced. */
  lemma CrashInsidePut(c: Codec, s: Store, o: string, done: set<string>, now: int,
                       cache: map<string, Entry>, blobs: map<string, Bytes>, m: Manifest, id: string, bytes: Bytes, n: int, t: int)
    requires c.Lawful() && DiskSound(c, s) && Written(c, s, o, done, now, cache, blobs, m) && id !in blobs
    ensures var s' := Store(map[], {}, Max(1, n), Max(1, t), blobs[id := bytes], s.manifests);
            && TornCrash(c, {id}, s, n, t, s') && Unnamed(s, {id})
            && forall o', b :: Durable(c, s', o', b) == Durable(c, s, o', b)
  {
    MidFlushCrash(c, s, o, done, now, cache, blobs, m, n, t);
    var s' := Store(map[], {}, Max(1, n), Max(1, t), blobs[id := bytes], s.manifests);
    forall o', b ensures Durable(c, s', o', b) == Durable(c, s, o', b) {
      assert ManifestOf(s', o') == ManifestOf(s, o');
      if b in ManifestOf(s, o') {
        assert SafeName(o') in s.manifests;
      }
    }
  }
}
