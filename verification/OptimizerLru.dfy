/** Who leaves the optimizer-state cache: whatever was used least recently. */
module OptimizerLru {
  import opened Wrappers
  import opened Numbers
  import opened CacheKeys
  import opened OptimizerState
  import opened OptimizerRuns

  /** What an operation uses: the block it loads, the blocks it names for a flush, or for a store any block of its origin. */
  ghost predicate Uses(op: Op, k: string) {
    match op
    case StoreBlocks(o, _) => OwnedBy(k, o)
    case Load(o, b) => k == CacheKey(o, b)
    case Flush(o, ids) => exists b :: b in ids && k == CacheKey(o, b)
    case _ => false
  }

  ghost predicate NotAhead(s: Store, now: int) { forall k :: k in s.cache ==> s.cache[k].lastTouch <= now }

  ghost predicate SameTouch(s: Store, k: string, s': Store) { k in s.cache && k in s'.cache && s'.cache[k].lastTouch == s.cache[k].lastTouch }

  /** An entry was there with the same touch, or was used and touched now. */
  ghost predicate Aged(s: Store, op: Op, now: int, s': Store, k: string) {
    k in s'.cache && (SameTouch(s, k, s') || (s'.cache[k].lastTouch == now && Uses(op, k)))
  }

  ghost predicate Ages(s: Store, op: Op, now: int, s': Store) { forall k :: k in s'.cache ==> Aged(s, op, now, s', k) }

  /** A clean entry that no pin holds. */
  ghost predicate MayLeave(s: Store, k: string) { k in s.cache && !s.cache[k].dirty && !s.cache[k].pinned && k !in s.pinned }

  /** Whatever left was used no later than any entry that could have left. */
  ghost predicate OldestWent(s: Store, s': Store) {
    forall e, k :: e in s.cache && e !in s'.cache && MayLeave(s', k) ==> s.cache[e].lastTouch <= s'.cache[k].lastTouch
  }

  /** Between operations no more entries may leave than the capacity. */
  lemma RoomIsMade(origins: set<string>, s: Store)
    requires Bounded(origins, s)
    ensures |set k | k in s.cache && MayLeave(s, k)| <= s.capacity
  {
    assert (set k | k in s.cache && MayLeave(s, k)) == Candidates(s);
  }

  /** A pinned entry stays in the cache until it is unpinned or the process dies. */
  lemma PinnedStays(c: Codec, s: Store, op: Op, now: int, s': Store, k: string)
    requires Next(c, s, op, now, s') && !op.Crash? && k in s.cache && k in s.pinned
    requires op.Unpin? ==> forall b :: b in op.ids ==> k != CacheKey(op.origin, b)
    ensures k in s'.cache && k in s'.pinned
  {
    hide CacheKey, Durable, OwnedBlocks, FlushNext, Enforced;
    match op
    case StoreBlocks(o, ws) =>
      var staged := StageAll(s, o, ws, now);
      StagedStays(s, o, ws, now, k);
      if |DirtyKeys(staged, o)| >= s.threshold {
        FlushLeaves(c, staged, o, OwnedBlocks(staged, o), now, s', k);
      }
    case Load(o, b) =>
      if CacheKey(o, b) !in s.cache && Durable(c, s, o, b).Some? {
        RoomLeaves(Fetched(c, s, o, b, now), s', k);
      }
    case Flush(o, ids) => FlushLeaves(c, s, o, ids, now, s', k);
    case Unpin(o, ids) => RoomLeaves(WithPins(s, s.pinned - KeysOf(o, ids)), s', k);
    case SetCapacity(n) => RoomLeaves(s.(capacity := Max(1, n)), s', k);
    case _ =>
  }

  lemma RoomLeaves(full: Store, s': Store, k: string)
    requires Enforced(full, s') && k in full.cache && k in full.pinned
    ensures k in s'.cache && k in s'.pinned
  {
  }

  lemma FlushLeaves(c: Codec, s: Store, o: string, ids: set<string>, now: int, s': Store, k: string)
    requires FlushNext(c, s, o, ids, now, s') && k in s.cache && k in s.pinned
    ensures k in s'.cache && k in s'.pinned
  {
    hide WrittenBlobs, WrittenManifest, RecordFor, Enforced;
    var full :| Flushed(c, s, o, ids, now, full) && Enforced(full, s');
    RoomLeaves(full, s', k);
  }

  lemma {:induction false} StagedStays(s: Store, o: string, ws: seq<BlockWrite>, now: int, k: string)
    requires k in s.cache && k in s.pinned
    ensures var s' := StageAll(s, o, ws, now); k in s'.cache && s'.pinned == s.pinned
  {
    if ws != [] {
      StagedStays(s, o, ws[..|ws| - 1], now, k);
    }
  }

  lemma AgedOne(s: Store, op: Op, now: int, s': Store, k: string)
    requires Ages(s, op, now, s') && k in s'.cache
    ensures SameTouch(s, k, s') || (s'.cache[k].lastTouch == now && Uses(op, k))
  {
    assert Aged(s, op, now, s', k);
  }

  lemma AgesCompose(s: Store, op: Op, now: int, mid: Store, s': Store)
    requires Ages(s, op, now, mid) && Ages(mid, op, now, s')
    ensures Ages(s, op, now, s')
  {
    hide Uses;
  }

  lemma ThenEnforced(s: Store, op: Op, now: int, full: Store, s': Store)
    requires NotAhead(s, now) && s.cache.Keys <= full.cache.Keys && Ages(s, op, now, full) && Enforced(full, s')
    ensures Ages(s, op, now, s') && OldestWent(s, s')
  {
    hide Uses, Enforced, Candidates;
    EnforcedStays(full, s');
    forall e, k | e in s.cache && e !in s'.cache && MayLeave(s', k) ensures s.cache[e].lastTouch <= s'.cache[k].lastTouch {
      EnforcedDrops(full, s', e, k);
      assert Aged(s, op, now, full, e);
    }
    forall k | k in s'.cache ensures Aged(s, op, now, s', k) {
      assert Aged(s, op, now, full, k) && s'.cache[k] == full.cache[k];
    }
    hide Ages, OldestWent;
  }

  lemma EnforcedStays(full: Store, s': Store)
    requires Enforced(full, s')
    ensures forall k :: k in s'.cache ==> k in full.cache && s'.cache[k] == full.cache[k]
  {
  }

  lemma EnforcedDrops(full: Store, s': Store, e: string, k: string)
    requires Enforced(full, s') && e in full.cache && e !in s'.cache && MayLeave(s', k)
    ensures k in full.cache && full.cache[e].lastTouch <= full.cache[k].lastTouch
  {
    assert k in Candidates(s') && k in Candidates(full);
  }

  lemma {:induction false} StagingAges(s: Store, o: string, ws: seq<BlockWrite>, all: seq<BlockWrite>, now: int)
    ensures var s' := StageAll(s, o, ws, now);
            Ages(s, StoreBlocks(o, all), now, s') && s.cache.Keys <= s'.cache.Keys
  {
    if ws != [] {
      var n := |ws| - 1;
      StagingAges(s, o, ws[..n], all, now);
      var mid := StageAll(s, o, ws[..n], now);
      assert OwnedBy(CacheKey(o, ws[n].block), o);
      assert Ages(mid, StoreBlocks(o, all), now, Stage(mid, o, ws[n], now));
      AgesCompose(s, StoreBlocks(o, all), now, mid, Stage(mid, o, ws[n], now));
    }
  }

  lemma FlushAges(c: Codec, s: Store, op: Op, o: string, ids: set<string>, now: int, s': Store)
    requires Flushed(c, s, o, ids, now, s') && forall b :: b in ids ==> Uses(op, CacheKey(o, b))
    ensures Ages(s, op, now, s') && s'.cache.Keys == s.cache.Keys
  {
    hide Uses, WrittenBlobs, WrittenManifest, RecordFor;
    var t := Targets(s, o, ids);
    forall k | k in s'.cache
      ensures Aged(s, op, now, s', k)
    {
      if k in KeysOf(o, t) {
        var b :| b in t && k == CacheKey(o, b);
      }
    }
  }

  /** Every step but a crash and an explicit eviction removes the least recently used. */
  lemma StepAges(c: Codec, s: Store, op: Op, now: int, s': Store)
    requires Next(c, s, op, now, s') && NotAhead(s, now)
    ensures Ages(s, op, now, s') && NotAhead(s', now)
    ensures !op.Evict? && !op.Crash? ==> OldestWent(s, s')
  {
    match op
    case StoreBlocks(o, ws) => StoreAges(c, s, o, ws, now, s');
    case Load(o, b) => LoadAges(c, s, o, b, now, s');
    case Flush(o, ids) => FlushedAges(c, s, op, o, ids, now, s');
    case Unpin(o, ids) => ThenEnforced(s, op, now, WithPins(s, s.pinned - KeysOf(o, ids)), s');
    case SetCapacity(n) => ThenEnforced(s, op, now, s.(capacity := Max(1, n)), s');
    case _ =>
  }

  lemma FetchedAges(c: Codec, s: Store, o: string, b: string, now: int)
    requires Durable(c, s, o, b).Some?
    ensures var full := Fetched(c, s, o, b, now); Ages(s, Load(o, b), now, full) && s.cache.Keys <= full.cache.Keys
  {
    hide CacheKey, Durable;
  }

  lemma LoadAges(c: Codec, s: Store, o: string, b: string, now: int, s': Store)
    requires LoadNext(c, s, o, b, now, s') && NotAhead(s, now)
    ensures Ages(s, Load(o, b), now, s') && OldestWent(s, s')
  {
    if CacheKey(o, b) !in s.cache && Durable(c, s, o, b).Some? {
      var full := Fetched(c, s, o, b, now);
      FetchedAges(c, s, o, b, now);
      hide Ages, Fetched, CacheKey, Enforced, OldestWent;
      ThenEnforced(s, Load(o, b), now, full, s');
    }
  }

  lemma FlushedAges(c: Codec, s: Store, op: Op, o: string, ids: set<string>, now: int, s': Store)
    requires FlushNext(c, s, o, ids, now, s') && NotAhead(s, now) && forall b :: b in ids ==> Uses(op, CacheKey(o, b))
    ensures Ages(s, op, now, s') && OldestWent(s, s')
  {
    var full :| Flushed(c, s, o, ids, now, full) && Enforced(full, s');
    hide Ages, Uses, Flushed, Enforced, OldestWent;
    FlushAges(c, s, op, o, ids, now, full);
    ThenEnforced(s, op, now, full, s');
  }

  lemma StoreAges(c: Codec, s: Store, o: string, ws: seq<BlockWrite>, now: int, s': Store)
    requires StoreNext(c, s, o, ws, now, s') && NotAhead(s, now)
    ensures Ages(s, StoreBlocks(o, ws), now, s') && OldestWent(s, s')
  {
    var op, staged := StoreBlocks(o, ws), StageAll(s, o, ws, now);
    StagingAges(s, o, ws, ws, now);
    assert OldestWent(s, staged);
    if |DirtyKeys(staged, o)| >= s.threshold {
      StoreFlushAges(c, s, op, staged, o, now, s');
    }
  }

  lemma StoreFlushAges(c: Codec, s: Store, op: Op, staged: Store, o: string, now: int, s': Store)
    requires NotAhead(s, now) && Ages(s, op, now, staged) && s.cache.Keys <= staged.cache.Keys && op.StoreBlocks? && op.origin == o
    requires (forall k :: k in staged.cache ==> Splittable(k)) && FlushNext(c, staged, o, OwnedBlocks(staged, o), now, s')
    ensures Ages(s, op, now, s') && OldestWent(s, s')
  {
    var ids := OwnedBlocks(staged, o);
    forall b ensures Uses(op, CacheKey(o, b)) {
      assert OwnedBy(CacheKey(o, b), o);
    }
    var full :| Flushed(c, staged, o, ids, now, full) && Enforced(full, s');
    hide Ages, Uses, Flushed, Enforced, OldestWent, OwnedBlocks;
    FlushAges(c, staged, op, o, ids, now, full);
    AgesCompose(s, op, now, staged, full);
    ThenEnforced(s, op, now, full, s');
  }

  /** A load that finds its block leaves it in the cache, touched now, unless nothing older could have left instead. */
  lemma LoadStays(c: Codec, s: Store, o: string, b: string, now: int, s': Store)
    requires LoadNext(c, s, o, b, now, s') && NotAhead(s, now) && Live(c, s, o, b).Some?
    ensures CacheKey(o, b) in s'.cache ==> s'.cache[CacheKey(o, b)].lastTouch == now
    ensures CacheKey(o, b) !in s'.cache ==> forall k :: MayLeave(s', k) ==> s'.cache[k].lastTouch == now
  {
    hide CacheKey, Durable, Shrunk;
    if CacheKey(o, b) !in s.cache {
      FetchedStays(Fetched(c, s, o, b, now), s', CacheKey(o, b), now);
    }
  }

  lemma FetchedStays(full: Store, s': Store, key: string, now: int)
    requires Enforced(full, s') && key in full.cache && full.cache[key].lastTouch == now && NotAhead(full, now)
    ensures key in s'.cache ==> s'.cache[key].lastTouch == now
    ensures key !in s'.cache ==> forall k :: MayLeave(s', k) ==> s'.cache[k].lastTouch == now
  {
    hide Enforced, Candidates;
    EnforcedStays(full, s');
    forall k | key !in s'.cache && MayLeave(s', k) ensures s'.cache[k].lastTouch == now {
      EnforcedDrops(full, s', key, k);
    }
  }

  // ----- Whole runs -----

  ghost predicate Rising(times: seq<int>) { forall i, j :: 0 <= i < j < |times| ==> times[i] <= times[j] }

  lemma {:induction false} RunAges(c: Codec, origins: set<string>, states: seq<Store>, ops: seq<Op>, times: seq<int>, n: nat)
    requires Run(c, origins, states, ops, times) && Rising(times) && n < |ops|
    ensures NotAhead(states[n], times[n]) && Ages(states[n], ops[n], times[n], states[n + 1])
    ensures !ops[n].Evict? && !ops[n].Crash? ==> OldestWent(states[n], states[n + 1])
  {
    hide Next, Ages;
    if n > 0 {
      RunAges(c, origins, states, ops, times, n - 1);
      StepAges(c, states[n - 1], ops[n - 1], times[n - 1], states[n]);
    }
    StepAges(c, states[n], ops[n], times[n], states[n + 1]);
  }

  ghost predicate Lengths(states: seq<Store>, ops: seq<Op>, times: seq<int>) { |states| == |ops| + 1 && |times| == |ops| }

  ghost predicate UsedAt(states: seq<Store>, ops: seq<Op>, times: seq<int>, n: nat, k: string, m: nat)
    requires n < |states| && k in states[n].cache
  {
    m < n && m < |ops| && m < |times| && Uses(ops[m], k) && states[n].cache[k].lastTouch == times[m]
  }

  lemma StartsEmpty(c: Codec, origins: set<string>, states: seq<Store>, ops: seq<Op>, times: seq<int>)
    requires Run(c, origins, states, ops, times)
    ensures states != [] && states[0].cache == map[]
  {
    hide Next;
  }

  /** The touch of an entry is the time of an operation that used it. */
  lemma {:induction false} TouchIsUse(c: Codec, origins: set<string>, states: seq<Store>, ops: seq<Op>, times: seq<int>, n: nat, k: string)
    returns (m: nat)
    requires Lengths(states, ops, times) && n < |states| && k in states[n].cache && Rising(times)
    requires Run(c, origins, states, ops, times)
    ensures UsedAt(states, ops, times, n, k, m)
  {
    hide Run, Uses, Rising, Next, Ages, NotAhead, OldestWent;
    StartsEmpty(c, origins, states, ops, times);
    RunAges(c, origins, states, ops, times, n - 1);
    AgedOne(states[n - 1], ops[n - 1], times[n - 1], states[n], k);
    if SameTouch(states[n - 1], k, states[n]) {
      m := TouchIsUse(c, origins, states, ops, times, n - 1, k);
    } else {
      m := n - 1;
    }
  }

  /** While an entry stays, its touch does not go back. */
  lemma {:induction false} TouchRises(c: Codec, origins: set<string>, states: seq<Store>, ops: seq<Op>, times: seq<int>, i: nat, n: nat, k: string)
    requires Lengths(states, ops, times) && Rising(times) && i < n < |states| && InCache(states, k, i, n)
    requires states[i + 1].cache[k].lastTouch == times[i]
    requires Run(c, origins, states, ops, times)
    ensures states[n].cache[k].lastTouch >= times[i]
  {
    hide Run, Ages;
    if n > i + 1 {
      TouchRises(c, origins, states, ops, times, i, n - 1, k);
      RunAges(c, origins, states, ops, times, n - 1);
      TouchStep(states[n - 1], ops[n - 1], times[n - 1], states[n], k, times[i]);
    }
  }

  /** After step `i` the key is in the cache up to state `n`. */
  ghost predicate InCache(states: seq<Store>, k: string, i: nat, n: nat)
    requires n < |states|
  {
    forall x :: i < x <= n ==> k in states[x].cache
  }

  lemma TouchStep(s: Store, op: Op, now: int, s': Store, k: string, t: int)
    requires Ages(s, op, now, s') && k in s.cache && k in s'.cache && s.cache[k].lastTouch >= t && now >= t
    ensures s'.cache[k].lastTouch >= t
  {
    assert Aged(s, op, now, s', k);
  }

  /** When a block that was loaded at step `i` and stayed since leaves to make room, every entry that could have left in its
      place was used by some operation no earlier than that load. */
  lemma LoadedOutlives(c: Codec, origins: set<string>, states: seq<Store>, ops: seq<Op>, times: seq<int>, i: nat, j: nat, o: string, b: string, k: string)
    returns (m: nat)
    requires Lengths(states, ops, times) && Rising(times) && i <= j < |ops|
    requires ops[i] == Load(o, b) && Live(c, states[i], o, b).Some? && !ops[j].Evict? && !ops[j].Crash?
    requires InCache(states, CacheKey(o, b), i, j) && CacheKey(o, b) !in states[j + 1].cache
    requires k in states[j + 1].cache && MayLeave(states[j + 1], k)
    requires Run(c, origins, states, ops, times)
    ensures UsedAt(states, ops, times, j + 1, k, m) && times[m] >= times[i]
  {
    hide Run, Rising, CacheKey, Uses, MayLeave, Ages, Live, LoadNext;
    RunAges(c, origins, states, ops, times, i);
    RunAges(c, origins, states, ops, times, j);
    m := TouchIsUse(c, origins, states, ops, times, j + 1, k);
    LoadAt(c, origins, states, ops, times, i, o, b);
    LoadStays(c, states[i], o, b, times[i], states[i + 1]);
    if j > i {
      TouchRises(c, origins, states, ops, times, i, j, CacheKey(o, b));
    }
  }

  lemma LoadAt(c: Codec, origins: set<string>, states: seq<Store>, ops: seq<Op>, times: seq<int>, i: nat, o: string, b: string)
    requires Run(c, origins, states, ops, times) && i < |ops| && ops[i] == Load(o, b)
    ensures LoadNext(c, states[i], o, b, times[i], states[i + 1])
  {
    assert Next(c, states[i], ops[i], times[i], states[i + 1]);
  }
}
