/** Whole runs of the optimizer-state store, crashes and restarts included, against a plain map. */
module OptimizerRuns {
  import opened Wrappers
  import opened Numbers
  import opened CacheKeys
  import opened OptimizerState
  import opened Ranking

  /** One locked body; a crash is followed by a restart with any two limits. */
  datatype Op =
    | StoreBlocks(origin: string, writes: seq<BlockWrite>)
    | Load(origin: string, block: string)
    | Pin(origin: string, ids: set<string>)
    | Unpin(origin: string, ids: set<string>)
    | Evict(origin: string, ids: set<string>)
    | Flush(origin: string, ids: set<string>)
    | SetCapacity(value: int)
    | Crash(capacity: int, threshold: int)

  predicate About(op: Op, origins: set<string>) {
    op.SetCapacity? || op.Crash? || op.origin in origins
  }

  /** Memory is lost, manifests are as last replaced, and some puts of an unfinished flush may be there. */
  ghost predicate Crashed(c: Codec, s: Store, capacity: int, threshold: int, s': Store) {
    && s' == Store(map[], {}, Max(1, capacity), Max(1, threshold), s'.blobs, s.manifests)
    && (forall id :: id in s.blobs ==> id in s'.blobs && s'.blobs[id] == s.blobs[id])
    && (forall id :: id in s'.blobs ==> c.blobId(s'.blobs[id]) == id)
  }

  ghost predicate Next(c: Codec, s: Store, op: Op, now: int, s': Store) {
    match op
    case StoreBlocks(o, ws) => StoreNext(c, s, o, ws, now, s')
    case Load(o, b) => LoadNext(c, s, o, b, now, s')
    case Pin(o, ids) => s' == WithPins(s, s.pinned + KeysOf(o, ids))
    case Unpin(o, ids) => Enforced(WithPins(s, s.pinned - KeysOf(o, ids)), s')
    case Evict(o, ids) => s' == Evicted(s, KeysOf(o, ids))
    case Flush(o, ids) => FlushNext(c, s, o, ids, now, s')
    case SetCapacity(n) => Enforced(s.(capacity := Max(1, n)), s')
    case Crash(n, t) => Crashed(c, s, n, t, s')
  }

  // ----- The plain map -----

  type Key = (string, string)

  /** The last payload of every block, and every payload a block ever had. */
  datatype Spec = Spec(latest: map<Key, Bytes>, ever: set<(Key, Bytes)>)

  function Lookup(m: map<Key, Bytes>, o: string, b: string): Option<Bytes> {
    if (o, b) in m then Some(m[(o, b)]) else None
  }

  function SpecStore(spec: Spec, o: string, ws: seq<BlockWrite>): Spec {
    if ws == [] then spec
    else
      var before, w := SpecStore(spec, o, ws[..|ws| - 1]), ws[|ws| - 1];
      Spec(before.latest[(o, w.block) := w.payload], before.ever + {((o, w.block), w.payload)})
  }

  /** The blocks of `o` whose newest payload is gone. */
  function Lost(spec: Spec, spec': Spec, o: string): set<string> {
    set k | k in spec.latest && k.0 == o && Lookup(spec'.latest, k.0, k.1) != Some(spec.latest[k]) :: k.1
  }

  ghost predicate SpecNext(origins: set<string>, spec: Spec, op: Op, threshold: int, spec': Spec) {
    match op
    case StoreBlocks(o, ws) => spec' == SpecStore(spec, o, ws)
    case Crash(_, _) =>
      && spec'.ever == spec.ever
      && spec'.latest.Keys <= spec.latest.Keys
      && (forall k :: k in spec'.latest ==> (k, spec'.latest[k]) in spec.ever)
      && (forall o :: o in origins ==> |Lost(spec, spec', o)| < threshold)
    case _ => spec' == spec
  }

  ghost predicate Refines(c: Codec, origins: set<string>, s: Store, spec: Spec) {
    && Consistent(c, origins, s) && Bounded(origins, s)
    && (forall o, b :: o in origins ==> Live(c, s, o, b) == Lookup(spec.latest, o, b))
    && (forall o, b :: o in origins && Durable(c, s, o, b).Some? ==> ((o, b), Durable(c, s, o, b).value) in spec.ever)
    && (forall k :: k in spec.latest ==> k.0 in origins && (k, spec.latest[k]) in spec.ever)
  }

  // ----- One step -----

  lemma {:induction false} SpecStoreLooksUp(spec: Spec, o: string, ws: seq<BlockWrite>)
    ensures forall o', b :: Lookup(SpecStore(spec, o, ws).latest, o', b) ==
                            (if o' == o && LastWrite(ws, b).Some? then LastWrite(ws, b) else Lookup(spec.latest, o', b))
    ensures spec.ever <= SpecStore(spec, o, ws).ever
    ensures forall k :: k in SpecStore(spec, o, ws).latest ==>
              || (k.0 == o && (k, SpecStore(spec, o, ws).latest[k]) in SpecStore(spec, o, ws).ever)
              || (k in spec.latest && SpecStore(spec, o, ws).latest[k] == spec.latest[k])
  {
    if ws != [] {
      var n := |ws| - 1;
      SpecStoreLooksUp(spec, o, ws[..n]);
      var before, after := SpecStore(spec, o, ws[..n]), SpecStore(spec, o, ws);
      assert after.latest == before.latest[(o, ws[n].block) := ws[n].payload];
      forall o', b
        ensures Lookup(after.latest, o', b) == if o' == o && ws[n].block == b then Some(ws[n].payload) else Lookup(before.latest, o', b)
      {
        assert (o', b) == (o, ws[n].block) <==> o' == o && b == ws[n].block;
      }
    }
  }

  lemma StoreSimulates(c: Codec, origins: set<string>, s: Store, spec: Spec, o: string, ws: seq<BlockWrite>, now: int,
                       s': Store)
    requires Separated(origins) && c.Lawful() && Refines(c, origins, s, spec) && o in origins
    requires StoreNext(c, s, o, ws, now, s')
    ensures Refines(c, origins, s', SpecStore(spec, o, ws))
  {
    hide Consistent, Bounded, StoreNext, SpecStore, Live, Durable, Separated, LastWrite;
    var spec' := SpecStore(spec, o, ws);
    StoreKeeps(c, origins, s, o, ws, now, s');
    SpecStoreLooksUp(spec, o, ws);
    forall o', b | o' in origins && Durable(c, s', o', b).Some?
      ensures ((o', b), Durable(c, s', o', b).value) in spec'.ever
    {
      if Durable(c, s', o', b) != Durable(c, s, o', b) {
        assert Live(c, s', o', b) == Lookup(spec'.latest, o', b);
      }
    }
  }

  lemma {:induction false} KeysOfCount(o: string, ids: set<string>)
    ensures |KeysOf(o, ids)| == |ids|
  {
    if ids == {} {
    } else {
      var b :| b in ids;
      KeysOfCount(o, ids - {b});
      forall x | x in ids && CacheKey(o, x) == CacheKey(o, b) ensures x == b {
        assert CacheKey(o, x)[|o| + 2..] == x && CacheKey(o, b)[|o| + 2..] == b;
      }
      assert KeysOf(o, ids) == KeysOf(o, ids - {b}) + {CacheKey(o, b)};
    }
  }

  /** What a restart finds, as a map. */
  ghost function Recovered(c: Codec, s: Store, spec: Spec): Spec {
    Spec(map k | k in spec.latest && Durable(c, s, k.0, k.1).Some? :: Durable(c, s, k.0, k.1).value, spec.ever)
  }

  lemma CrashKeepsDisk(c: Codec, origins: set<string>, s: Store, n: int, t: int, s': Store)
    requires Consistent(c, origins, s) && Crashed(c, s, n, t, s')
    ensures Consistent(c, origins, s') && Bounded(origins, s')
    ensures forall o, b :: Durable(c, s', o, b) == Live(c, s', o, b) == Durable(c, s, o, b)
  {
    forall o, b ensures Durable(c, s', o, b) == Durable(c, s, o, b) {
      assert ManifestOf(s', o) == ManifestOf(s, o);
      if b in ManifestOf(s, o) {
        assert SafeName(o) in s.manifests;
      }
    }
    assert forall o :: DirtyKeys(s', o) == {};
    assert Candidates(s') == {};
  }

  /** Only dirty blocks lose their newest payload, and each origin has fewer of those than the threshold. */
  lemma CrashLosesFew(c: Codec, origins: set<string>, s: Store, spec: Spec, spec': Spec, o: string)
    requires Refines(c, origins, s, spec) && o in origins
    requires forall b :: Lookup(spec'.latest, o, b) == Durable(c, s, o, b)
    ensures |Lost(spec, spec', o)| < s.threshold
  {
    var lost := Lost(spec, spec', o);
    forall k | k in KeysOf(o, lost) ensures k in DirtyKeys(s, o) {
      var b :| b in lost && k == CacheKey(o, b);
      assert Live(c, s, o, b) == Lookup(spec.latest, o, b);
      assert OwnedBy(CacheKey(o, b), o);
    }
    KeysOfCount(o, lost);
    CountSubset(KeysOf(o, lost), DirtyKeys(s, o));
  }

  lemma CrashSimulates(c: Codec, origins: set<string>, s: Store, spec: Spec, n: int, t: int, s': Store)
    requires Refines(c, origins, s, spec) && Crashed(c, s, n, t, s')
    ensures Refines(c, origins, s', Recovered(c, s', spec))
    ensures SpecNext(origins, spec, Crash(n, t), s.threshold, Recovered(c, s', spec))
  {
    var spec' := Recovered(c, s', spec);
    CrashKeepsDisk(c, origins, s, n, t, s');
    forall o, b | o in origins ensures Durable(c, s, o, b) == Lookup(spec'.latest, o, b) {
      assert Live(c, s, o, b) == Lookup(spec.latest, o, b);
      assert Durable(c, s, o, b).Some? ==> Live(c, s, o, b).Some?;
    }
    forall o | o in origins ensures |Lost(spec, spec', o)| < s.threshold {
      CrashLosesFew(c, origins, s, spec, spec', o);
    }
  }

  lemma QuietStep(c: Codec, origins: set<string>, s: Store, op: Op, now: int, s': Store)
    requires Separated(origins) && c.Lawful() && Consistent(c, origins, s) && Bounded(origins, s)
    requires About(op, origins) && !op.StoreBlocks? && !op.Crash? && Next(c, s, op, now, s')
    ensures Kept(c, origins, s, s')
  {
    match op
    case Load(o, b) => LoadKeeps(c, origins, s, o, b, now, s');
    case Pin(o, ids) => PinsAreKept(c, origins, s, s.pinned + KeysOf(o, ids));
    case Unpin(o, ids) => UnpinKeeps(c, origins, s, s.pinned - KeysOf(o, ids), s');
    case Evict(o, ids) => EvictedIsKept(c, origins, s, KeysOf(o, ids));
    case Flush(o, ids) => FlushBounded(c, origins, s, o, ids, now, s');
    case SetCapacity(n) => CapacityKeeps(c, origins, s, n, s');
  }

  lemma KeptRefines(c: Codec, origins: set<string>, s: Store, spec: Spec, s': Store)
    requires Refines(c, origins, s, spec) && Kept(c, origins, s, s')
    ensures Refines(c, origins, s', spec)
  {
    forall o, b | o in origins && Durable(c, s', o, b).Some?
      ensures ((o, b), Durable(c, s', o, b).value) in spec.ever
    {
      assert Live(c, s, o, b) == Lookup(spec.latest, o, b);
    }
  }

  /** Every step of the store is a step of the plain map. */
  lemma StepRefines(c: Codec, origins: set<string>, s: Store, spec: Spec, op: Op, now: int, s': Store)
      returns (spec': Spec)
    requires Separated(origins) && c.Lawful() && Refines(c, origins, s, spec) && About(op, origins)
    requires Next(c, s, op, now, s')
    ensures SpecNext(origins, spec, op, s.threshold, spec') && Refines(c, origins, s', spec')
  {
    match op
    case StoreBlocks(o, ws) =>
      StoreSimulates(c, origins, s, spec, o, ws, now, s');
      spec' := SpecStore(spec, o, ws);
    case Crash(n, t) =>
      CrashSimulates(c, origins, s, spec, n, t, s');
      spec' := Recovered(c, s', spec);
    case _ =>
      QuietStep(c, origins, s, op, now, s');
      KeptRefines(c, origins, s, spec, s');
      spec' := spec;
  }

  // ----- Whole runs -----

  function Fresh(capacity: int, threshold: int): Store {
    Store(map[], {}, Max(1, capacity), Max(1, threshold), map[], map[])
  }

  ghost predicate Run(c: Codec, origins: set<string>, states: seq<Store>, ops: seq<Op>, times: seq<int>) {
    && |states| == |ops| + 1 && |times| == |ops|
    && states[0] == Fresh(states[0].capacity, states[0].threshold)
    && (forall i :: 0 <= i < |ops| ==> About(ops[i], origins) && Next(c, states[i], ops[i], times[i], states[i + 1]))
  }

  ghost predicate SpecRun(origins: set<string>, specs: seq<Spec>, states: seq<Store>, ops: seq<Op>) {
    && |specs| == |states| == |ops| + 1
    && specs[0] == Spec(map[], {})
    && (forall i :: 0 <= i < |ops| ==> SpecNext(origins, specs[i], ops[i], states[i].threshold, specs[i + 1]))
  }

  lemma FreshRefines(c: Codec, origins: set<string>, capacity: int, threshold: int)
    ensures Refines(c, origins, Fresh(capacity, threshold), Spec(map[], {}))
  {
    var s := Fresh(capacity, threshold);
    assert Candidates(s) == {};
    assert forall o :: DirtyKeys(s, o) == {};
  }

  lemma {:induction false} PrefixRefines(c: Codec, origins: set<string>, states: seq<Store>, ops: seq<Op>, times: seq<int>, n: nat)
      returns (specs: seq<Spec>)
    requires Separated(origins) && c.Lawful() && Run(c, origins, states, ops, times) && n <= |ops|
    ensures |specs| == n + 1 && specs[0] == Spec(map[], {})
    ensures forall i :: 0 <= i < n ==> SpecNext(origins, specs[i], ops[i], states[i].threshold, specs[i + 1])
    ensures forall i :: 0 <= i <= n ==> Refines(c, origins, states[i], specs[i])
  {
    hide Refines, Next, SpecNext, Separated;
    if n == 0 {
      specs := [Spec(map[], {})];
      FreshRefines(c, origins, states[0].capacity, states[0].threshold);
    } else {
      var before := PrefixRefines(c, origins, states, ops, times, n - 1);
      var last := StepRefines(c, origins, states[n - 1], before[n - 1], ops[n - 1], times[n - 1], states[n]);
      specs := before + [last];
    }
  }

  /** Any run, with any crashes, is a run of the plain map; every state on the way keeps all invariants. */
  lemma RunRefinesMap(c: Codec, origins: set<string>, states: seq<Store>, ops: seq<Op>, times: seq<int>) returns (specs: seq<Spec>)
    requires Separated(origins) && c.Lawful() && Run(c, origins, states, ops, times)
    ensures SpecRun(origins, specs, states, ops)
    ensures forall i :: 0 <= i < |states| ==> Refines(c, origins, states[i], specs[i])
  {
    specs := PrefixRefines(c, origins, states, ops, times, |ops|);
  }

  /** The payload the last store operation naming the block gave it. */
  function LastStored(ops: seq<Op>, o: string, b: string): Option<Bytes> {
    if ops == [] then None
    else
      var op := ops[|ops| - 1];
      if op.StoreBlocks? && op.origin == o && LastWrite(op.writes, b).Some? then LastWrite(op.writes, b)
      else LastStored(ops[..|ops| - 1], o, b)
  }

  lemma SpecStepLooksUp(origins: set<string>, spec: Spec, op: Op, threshold: int, spec': Spec, o: string, b: string)
    requires SpecNext(origins, spec, op, threshold, spec') && !op.Crash?
    ensures Lookup(spec'.latest, o, b) ==
            if op.StoreBlocks? && op.origin == o && LastWrite(op.writes, b).Some? then LastWrite(op.writes, b) else Lookup(spec.latest, o, b)
  {
    if op.StoreBlocks? {
      SpecStoreLooksUp(spec, op.origin, op.writes);
    }
    hide SpecStore, LastWrite, Lookup;
  }

  lemma LastStoredSnoc(ops: seq<Op>, i: nat, o: string, b: string)
    requires 0 < i <= |ops|
    ensures var op := ops[i - 1];
            LastStored(ops[..i], o, b) ==
            if op.StoreBlocks? && op.origin == o && LastWrite(op.writes, b).Some? then LastWrite(op.writes, b) else LastStored(ops[..i - 1], o, b)
  {
    assert ops[..i][..i - 1] == ops[..i - 1];
    hide LastWrite;
  }

  lemma {:induction false} SpecHoldsLastStored(origins: set<string>, specs: seq<Spec>, states: seq<Store>, ops: seq<Op>, i: nat)
    requires SpecRun(origins, specs, states, ops) && i <= |ops|
    requires forall op :: op in ops ==> !op.Crash?
    ensures forall o, b :: Lookup(specs[i].latest, o, b) == LastStored(ops[..i], o, b)
  {
    if i > 0 {
      hide SpecNext, LastStored, LastWrite;
      SpecHoldsLastStored(origins, specs, states, ops, i - 1);
      assert ops[i - 1] in ops;
      forall o, b ensures Lookup(specs[i].latest, o, b) == LastStored(ops[..i], o, b) {
        SpecStepLooksUp(origins, specs[i - 1], ops[i - 1], states[i - 1].threshold, specs[i], o, b);
        LastStoredSnoc(ops, i, o, b);
      }
    }
  }

  /** Without crashes a load answers with the last payload stored, whatever was evicted, pinned or flushed. */
  lemma LoadReturnsLastStored(c: Codec, origins: set<string>, states: seq<Store>, ops: seq<Op>, times: seq<int>, i: nat)
    requires Separated(origins) && c.Lawful() && Run(c, origins, states, ops, times) && i <= |ops|
    requires forall op :: op in ops ==> !op.Crash?
    ensures forall o, b :: o in origins ==> Live(c, states[i], o, b) == LastStored(ops[..i], o, b)
    ensures Bounded(origins, states[i])
  {
    var specs := RunRefinesMap(c, origins, states, ops, times);
    SpecHoldsLastStored(origins, specs, states, ops, i);
    assert Refines(c, origins, states[i], specs[i]);
  }

  function Singles(o: string, ws: seq<BlockWrite>): seq<Op> {
    seq(|ws|, i requires 0 <= i < |ws| => StoreBlocks(o, [ws[i]]))
  }

  /** `store_blocks` leaves the map that its `store_block` calls in order leave. */
  lemma {:induction false} BatchEqualsSingles(ops: seq<Op>, o: string, ws: seq<BlockWrite>, o': string, b: string)
    ensures LastStored(ops + [StoreBlocks(o, ws)], o', b) == LastStored(ops + Singles(o, ws), o', b)
  {
    assert (ops + [StoreBlocks(o, ws)])[..|ops|] == ops;
    if ws == [] {
      assert ops + Singles(o, ws) == ops;
    } else {
      var n := |ws| - 1;
      BatchEqualsSingles(ops, o, ws[..n], o', b);
      assert (ops + [StoreBlocks(o, ws[..n])])[..|ops|] == ops;
      var all := ops + Singles(o, ws);
      assert all[..|all| - 1] == ops + Singles(o, ws[..n]);
      assert all[|all| - 1] == StoreBlocks(o, [ws[n]]);
      assert [ws[n]][..0] == [];
      assert LastWrite([ws[n]], b) == if ws[n].block == b then Some(ws[n].payload) else None;
    }
  }

  lemma {:induction false} LastStoredAppends(a: seq<Op>, b: seq<Op>, o: string, x: string)
    ensures LastStored(a + b, o, x) == if LastStored(b, o, x).Some? then LastStored(b, o, x) else LastStored(a, o, x)
  {
    if b == [] {
      assert a + b == a;
    } else {
      var n := |b| - 1;
      assert (a + b)[..|a| + n] == a + b[..n] && (a + b)[|a| + n] == b[n];
      LastStoredAppends(a, b[..n], o, x);
      hide LastWrite;
    }
  }

  /** Two crash-free runs, under any limits, clocks and flushes, that differ in storing one batch at once or block by block end
      with every load answering alike. */
  lemma BatchRunsAgree(c: Codec, origins: set<string>, before: seq<Op>, o: string, ws: seq<BlockWrite>, after: seq<Op>,
                       batch: seq<Store>, batchTimes: seq<int>, singles: seq<Store>, singlesTimes: seq<int>)
    requires Separated(origins) && c.Lawful() && o in origins
    requires Run(c, origins, batch, before + [StoreBlocks(o, ws)] + after, batchTimes)
    requires Run(c, origins, singles, before + Singles(o, ws) + after, singlesTimes)
    requires (forall op :: op in before ==> !op.Crash?) && (forall op :: op in after ==> !op.Crash?)
    ensures var s, s' := batch[|batch| - 1], singles[|singles| - 1];
            forall o', b :: o' in origins ==> Live(c, s, o', b) == Live(c, s', o', b)
  {
    var one, many := before + [StoreBlocks(o, ws)] + after, before + Singles(o, ws) + after;
    NoCrash(before, [StoreBlocks(o, ws)], after);
    NoCrash(before, Singles(o, ws), after);
    LoadReturnsLastStored(c, origins, batch, one, batchTimes, |one|);
    LoadReturnsLastStored(c, origins, singles, many, singlesTimes, |many|);
    assert one[..|one|] == one && many[..|many|] == many;
    hide Run, LastStored, Live, Separated, Singles;
    forall o', b | o' in origins ensures LastStored(one, o', b) == LastStored(many, o', b) {
      BatchEqualsSingles(before, o, ws, o', b);
      LastStoredAppends(before + [StoreBlocks(o, ws)], after, o', b);
      LastStoredAppends(before + Singles(o, ws), after, o', b);
    }
  }

  lemma NoCrash(before: seq<Op>, middle: seq<Op>, after: seq<Op>)
    requires (forall op :: op in before ==> !op.Crash?) && (forall op :: op in after ==> !op.Crash?)
    requires forall op :: op in middle ==> !op.Crash?
    ensures forall op :: op in before + middle + after ==> !op.Crash?
  {
  }

  // ----- Crash points inside an operation, and where the guarantees stop -----

  /** A crash after any prefix of a flush's puts, before its manifest is replaced, is a `Crashed` state of the one before. */
  lemma MidFlushCrash(c: Codec, s: Store, o: string, done: set<string>, now: int,
                      cache: map<string, Entry>, blobs: map<string, Bytes>, m: Manifest, n: int, t: int)
    requires c.Lawful() && DiskSound(c, s) && Written(c, s, o, done, now, cache, blobs, m)
    ensures Crashed(c, s, n, t, Store(map[], {}, Max(1, n), Max(1, t), blobs, s.manifests))
  {
    forall id | id in blobs ensures c.blobId(blobs[id]) == id {
      if id !in s.blobs {
        var b :| b in Targets(s, o, done) && id == c.blobId(Compressed(c, s, o, b));
        assert blobs[id] == Compressed(c, s, o, b);
      }
    }
  }

  /** `flush_blocks` skips the put when a file of that name exists, so a torn file stays: exactly then recovery fails. */
  lemma RecoveryNeedsIntactBlob(c: Codec, s: Store, o: string, ids: set<string>, now: int, s': Store, b: string)
    requires c.Lawful() && Flushed(c, s, o, ids, now, s') && b in Targets(s, o, ids)
    ensures var payload := s.cache[CacheKey(o, b)].bytes;
            var id := c.blobId(c.compress(payload));
            Durable(c, s', o, b) == Some(payload) <==> (id in s.blobs ==> c.decompress(s.blobs[id]) == payload)
  {
    assert ManifestOf(s', o)[b] == RecordFor(c, s, o, b, now);
  }

  /** Two origins answer alike on every disk exactly when their manifest file names coincide, as for "a:b" and "a/b". */
  lemma SharedManifestFile(c: Codec, o: string, o': string)
    ensures (forall s, b :: Durable(c, s, o, b) == Durable(c, s, o', b)) <==> SafeName(o) == SafeName(o')
    ensures SafeName("a:b") == SafeName("a/b")
  {
    if SafeName(o) != SafeName(o') {
      var r := Record("b", "id", BlockInfo(0, None, map[]), 0, 0, 0);
      var s := Store(map[], {}, 1, 1, map["id" := []], map[SafeName(o) := map["b" := r]]);
      assert Durable(c, s, o, "b").Some? && Durable(c, s, o', "b").None?;
    } else {
      forall s, b ensures Durable(c, s, o, b) == Durable(c, s, o', b) {
        assert ManifestOf(s, o) == ManifestOf(s, o');
      }
    }
  }
}
