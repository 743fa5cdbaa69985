/** Loading weight clusters through the hot cache. */
module WeightService {
  import opened Wrappers
  import opened Numbers
  import opened Ranking
  import opened Stores
  import opened PinRegistry

  datatype Error = NotFound | Undecodable | Unencodable

  /** Encoding, compression and encryption for an origin, and the digest, known by their laws. Encoding may fail, and may
      lose precision: `stored` is what a cluster becomes, and storing that again gives the same bytes. */
  datatype Pipeline = Pipeline(
    seal: (string, Cluster) -> Option<Blob>,
    open: (string, Blob) -> Option<Cluster>,
    stored: Cluster -> Cluster,
    hash: Blob -> string)
  {
    ghost predicate Lawful() {
      && (forall o, c :: seal(o, c).Some? ==> open(o, seal(o, c).value) == Some(stored(c)) && seal(o, stored(c)) == seal(o, c))
      && (forall x, y :: hash(x) == hash(y) ==> x == y)
    }
  }

  datatype State = State(entries: Entries, maxEntries: int, blobs: map<string, Blob>)

  /** What the blob store alone returns; `verify_integrity` is part of a read. */
  function Fetch(p: Pipeline, blobs: map<string, Blob>, origin: string, id: string): Result<Cluster, Error> {
    if id !in blobs then Err(NotFound)
    else if p.hash(blobs[id]) != id || p.open(origin, blobs[id]).None? then Err(Undecodable)
    else Ok(p.open(origin, blobs[id]).value)
  }

  /** Resident and not a placeholder. */
  predicate Hot(s: State, id: string) { id in s.entries && s.entries[id].cluster != PLACEHOLDER }

  // ----- The operations as steps -----

  datatype Op =
    | Store(origin: string, cluster: Cluster)
    | Load(origin: string, id: string, reason: Reason)
    | PinAs(origin: string, id: string, reason: Reason)
    | Evict(id: string)
    | ShedNonActive(active: set<string>)
    | ShedExcept(named: set<string>, keep: int)
    | Restart(bound: Option<int>)

  /** `load_cluster` and, with reason Prefetch, `prefetch_cluster`. */
  ghost predicate Loaded(p: Pipeline, s: State, o: string, id: string, reason: Reason, r: Result<Cluster, Error>, s': State) {
    var es, f := Touched(s.entries, id), Fetch(p, s.blobs, o, id);
    && s'.maxEntries == s.maxEntries && s'.blobs == s.blobs
    && if Hot(s, id) then r == Ok(s.entries[id].cluster) && s'.entries == es
       else
         && r == f
         && if f.Err? then s'.entries == es
            else if id in es then s'.entries == es[id := es[id].(cluster := f.value)]
            else Pinned(es, s.maxEntries, id, f.value, reason, s'.entries)
  }

  /** `pin_identity_cluster` and `pin_logic_cluster`. */
  ghost predicate PinnedAs(p: Pipeline, s: State, o: string, id: string, reason: Reason, r: Result<Cluster, Error>, s': State) {
    var es := Touched(s.entries, id);
    && s'.maxEntries == s.maxEntries && s'.blobs == s.blobs
    && r == (if Hot(s, id) then Ok(s.entries[id].cluster) else Fetch(p, s.blobs, o, id))
    && if r.Err? then s'.entries == es else Pinned(es, s.maxEntries, id, r.value, reason, s'.entries)
  }

  function Put(p: Pipeline, s: State, o: string, c: Cluster): State {
    var blob := p.seal(o, c);
    if blob.None? || p.hash(blob.value) in s.blobs then s else s.(blobs := s.blobs[p.hash(blob.value) := blob.value])
  }

  function Bound(s: State, bound: Option<int>): int {
    if bound.Some? && bound.value != 0 then bound.value else s.maxEntries
  }

  ghost predicate Step(p: Pipeline, s: State, op: Op, s': State) {
    match op
    case Store(o, c) => s' == Put(p, s, o, c)
    case Load(o, id, reason) => !Protected(reason) && exists r :: Loaded(p, s, o, id, reason, r, s')
    case PinAs(o, id, reason) => Protected(reason) && exists r :: PinnedAs(p, s, o, id, reason, r, s')
    case Evict(id) => s' == if id in s.entries && !Protected(s.entries[id].reason) then s.(entries := s.entries - {id}) else s
    case ShedNonActive(active) => s' == s.(entries := s.entries - Sheddable(s.entries, active))
    case ShedExcept(named, keep) => exists gone :: Shed(s.entries, named, keep, gone) && s' == s.(entries := s.entries - gone)
    case Restart(bound) => s' == State(Restored(s.entries), Bound(s, bound), s.blobs)
  }

  ghost predicate Run(p: Pipeline, s: State, ops: seq<Op>, s': State)
    decreases |ops|
  {
    if ops == [] then s' == s
    else
      var n := |ops| - 1;
      exists mid :: Run(p, s, ops[..n], mid) && Step(p, mid, ops[n], s')
  }

  // ----- Transparency -----

  /** Every blob is asked for under one origin. */
  ghost predicate Owned(owner: string -> string, op: Op) {
    match op
    case Load(o, id, _) => o == owner(id)
    case PinAs(o, id, _) => o == owner(id)
    case _ => true
  }

  /** Every cached cluster is what the store returns under the blob's origin. */
  ghost predicate Truthful(p: Pipeline, owner: string -> string, s: State) {
    forall id :: Hot(s, id) ==> Fetch(p, s.blobs, owner(id), id) == Ok(s.entries[id].cluster)
  }

  lemma PinKeepsTruth(p: Pipeline, owner: string -> string, s: State, id: string, c: Cluster, reason: Reason, s': State)
    requires Truthful(p, owner, s) && s'.blobs == s.blobs && Fetch(p, s.blobs, owner(id), id) == Ok(c)
    requires Pinned(Touched(s.entries, id), s.maxEntries, id, c, reason, s'.entries)
    ensures Truthful(p, owner, s')
  {
    var es := Touched(s.entries, id);
    var gone :| Shed(es, {}, Keep(s.maxEntries), gone) && s'.entries == (es - gone)[id := Entry(c, reason, 1)];
    hide Fetch, Shed;
    forall x | Hot(s', x) ensures Fetch(p, s'.blobs, owner(x), x) == Ok(s'.entries[x].cluster) {
      assert x != id ==> Hot(s, x);
    }
  }

  lemma LoadKeepsTruth(p: Pipeline, owner: string -> string, s: State, id: string, reason: Reason, r: Result<Cluster, Error>, s': State)
    requires Truthful(p, owner, s) && Loaded(p, s, owner(id), id, reason, r, s')
    ensures Truthful(p, owner, s') && r == Fetch(p, s.blobs, owner(id), id)
  {
    hide Fetch, Pinned;
    if !Hot(s, id) && r.Ok? && id !in s.entries {
      PinKeepsTruth(p, owner, s, id, r.value, reason, s');
    } else {
      forall x | Hot(s', x) ensures Fetch(p, s'.blobs, owner(x), x) == Ok(s'.entries[x].cluster) {
        assert x != id || Hot(s, id) ==> Hot(s, x);
      }
    }
  }

  lemma PutKeepsFetch(p: Pipeline, s: State, o: string, c: Cluster, origin: string, id: string)
    ensures id in s.blobs ==> Fetch(p, Put(p, s, o, c).blobs, origin, id) == Fetch(p, s.blobs, origin, id)
  {
  }

  /** Stored blobs stay and read the same. */
  ghost predicate Grown(p: Pipeline, s: State, s': State) {
    && s.blobs.Keys <= s'.blobs.Keys
    && forall o, id :: id in s.blobs ==> Fetch(p, s'.blobs, o, id) == Fetch(p, s.blobs, o, id)
  }

  lemma GrownTwice(p: Pipeline, s: State, mid: State, s': State)
    requires Grown(p, s, mid) && Grown(p, mid, s')
    ensures Grown(p, s, s')
  {
    forall o, id | id in s.blobs ensures Fetch(p, s'.blobs, o, id) == Fetch(p, s.blobs, o, id) {
      assert id in mid.blobs;
      assert Fetch(p, mid.blobs, o, id) == Fetch(p, s.blobs, o, id);
    }
    hide Fetch;
  }

  lemma StepKeepsTruth(p: Pipeline, owner: string -> string, s: State, op: Op, s': State)
    requires Truthful(p, owner, s) && Step(p, s, op, s') && Owned(owner, op)
    ensures Truthful(p, owner, s')
    ensures Grown(p, s, s')
  {
    match op
    case Store(o, c) =>
      forall origin, id | id in s.blobs { PutKeepsFetch(p, s, o, c, origin, id); }
      forall id | Hot(s', id) ensures Fetch(p, s'.blobs, owner(id), id) == Ok(s'.entries[id].cluster) {
        assert Hot(s, id);
      }
    case Load(o, id, reason) =>
      var r :| Loaded(p, s, o, id, reason, r, s');
      LoadKeepsTruth(p, owner, s, id, reason, r, s');
    case PinAs(o, id, reason) =>
      var r :| PinnedAs(p, s, o, id, reason, r, s');
      if r.Ok? {
        PinKeepsTruth(p, owner, s, id, r.value, reason, s');
      } else {
        assert forall x :: Hot(s', x) ==> Hot(s, x) && s'.entries[x].cluster == s.entries[x].cluster;
      }
    case ShedExcept(_, _) =>
      assert forall x :: Hot(s', x) ==> Hot(s, x) && s'.entries[x].cluster == s.entries[x].cluster;
    case Restart(_) =>
      assert forall x :: !Hot(s', x);
    case _ =>
      assert forall x :: Hot(s', x) ==> Hot(s, x) && s'.entries[x].cluster == s.entries[x].cluster;
  }

  lemma {:induction false} RunKeepsTruth(p: Pipeline, owner: string -> string, s: State, ops: seq<Op>, s': State)
    requires Truthful(p, owner, s) && Run(p, s, ops, s') && forall op :: op in ops ==> Owned(owner, op)
    ensures Truthful(p, owner, s')
    ensures Grown(p, s, s')
    decreases |ops|
  {
    if ops != [] {
      var n := |ops| - 1;
      var mid :| Run(p, s, ops[..n], mid) && Step(p, mid, ops[n], s');
      hide Step, Run, Truthful, Fetch, Owned, Grown;
      assert ops[n] in ops;
      RunKeepsTruth(p, owner, s, ops[..n], mid);
      StepKeepsTruth(p, owner, mid, ops[n], s');
      GrownTwice(p, s, mid, s');
    }
  }

  /** After any run from an empty cache, restarts included, a load returns what the blob store would. */
  lemma LoadIsTransparent(p: Pipeline, owner: string -> string, s: State, ops: seq<Op>, s': State, id: string, reason: Reason, r: Result<Cluster, Error>, s2: State)
    requires s.entries == map[] && Run(p, s, ops, s') && forall op :: op in ops ==> Owned(owner, op)
    requires Loaded(p, s', owner(id), id, reason, r, s2)
    ensures r == Fetch(p, s'.blobs, owner(id), id)
    ensures id in s.blobs ==> r == Fetch(p, s.blobs, owner(id), id)
  {
    assert Truthful(p, owner, s);
    RunKeepsTruth(p, owner, s, ops, s');
    hide Run, Fetch;
    LoadKeepsTruth(p, owner, s', id, reason, r, s2);
  }

  ghost predicate Addressed(p: Pipeline, blobs: map<string, Blob>) { forall id :: id in blobs ==> p.hash(blobs[id]) == id }

  lemma {:induction false} RunKeepsDigests(p: Pipeline, s: State, ops: seq<Op>, s': State)
    requires Run(p, s, ops, s') && Addressed(p, s.blobs)
    ensures Addressed(p, s'.blobs)
    decreases |ops|
  {
    if ops != [] {
      var n := |ops| - 1;
      var mid :| Run(p, s, ops[..n], mid) && Step(p, mid, ops[n], s');
      RunKeepsDigests(p, s, ops[..n], mid);
      hide Run, Pinned, Shed, Fetch;
    }
  }

  lemma {:induction false} RunSplits(p: Pipeline, s: State, a: seq<Op>, b: seq<Op>, s': State) returns (mid: State)
    requires Run(p, s, a + b, s')
    ensures Run(p, s, a, mid) && Run(p, mid, b, s')
    decreases |b|
  {
    hide Step;
    if b == [] {
      assert a + b == a;
      mid := s';
    } else {
      var n := |b| - 1;
      var ops := a + b;
      assert ops[..|ops| - 1] == a + b[..n] && ops[|ops| - 1] == b[n];
      var last :| Run(p, s, a + b[..n], last) && Step(p, last, b[n], s');
      mid := RunSplits(p, s, a, b[..n], last);
    }
  }

  lemma RunOne(p: Pipeline, s: State, op: Op, s': State)
    requires Run(p, s, [op], s')
    ensures Step(p, s, op, s')
  {
    assert [op][..0] == [];
    var mid :| Run(p, s, [op][..0], mid) && Step(p, mid, [op][0], s');
    hide Step;
    assert Run(p, s, [], mid);
  }

  /** However long after a cluster was stored, and whatever happened around it, its load returns the stored form of it. */
  lemma LoadReturnsStored(p: Pipeline, owner: string -> string, s: State, before: seq<Op>, c: Cluster, after: seq<Op>, s': State,
                          id: string, reason: Reason, r: Result<Cluster, Error>, s2: State)
    requires p.Lawful() && s.entries == map[] && Addressed(p, s.blobs)
    requires Run(p, s, before + [Store(owner(id), c)] + after, s') && forall op :: op in before + [Store(owner(id), c)] + after ==> Owned(owner, op)
    requires p.seal(owner(id), c).Some? && id == p.hash(p.seal(owner(id), c).value)
    requires Loaded(p, s', owner(id), id, reason, r, s2)
    ensures r == Ok(p.stored(c))
  {
    var store := Store(owner(id), c);
    hide Run, Fetch, Truthful, Loaded, Owned, Grown;
    var s1 := RunSplits(p, s, before + [store], after, s');
    var s0 := RunSplits(p, s, before, [store], s1);
    RunOne(p, s0, store, s1);
    RunKeepsDigests(p, s, before, s0);
    StoredReadsBack(p, s0, owner(id), c);
    assert forall op :: op in before ==> op in before + [store] + after;
    assert forall op :: op in after ==> op in before + [store] + after;
    assert store in before + [store] + after;
    NothingHot(p, owner, s);
    RunKeepsTruth(p, owner, s, before, s0);
    StepKeepsTruth(p, owner, s0, store, s1);
    RunKeepsTruth(p, owner, s1, after, s');
    LoadKeepsTruth(p, owner, s', id, reason, r, s2);
    StillReads(p, s1, s', owner(id), id);
  }

  lemma NothingHot(p: Pipeline, owner: string -> string, s: State)
    requires s.entries == map[]
    ensures Truthful(p, owner, s)
  {
  }

  lemma StillReads(p: Pipeline, s: State, s': State, o: string, id: string)
    requires Grown(p, s, s') && id in s.blobs
    ensures Fetch(p, s'.blobs, o, id) == Fetch(p, s.blobs, o, id)
  {
  }

  /** For any origin: a load agrees with the store exactly when the blob is not hot or both origins read it alike. */
  lemma LoadAgreesIff(p: Pipeline, owner: string -> string, s: State, o: string, id: string, reason: Reason, r: Result<Cluster, Error>, s': State)
    requires Truthful(p, owner, s) && Loaded(p, s, o, id, reason, r, s')
    ensures r == Fetch(p, s.blobs, o, id) <==> (Hot(s, id) ==> Fetch(p, s.blobs, o, id) == Fetch(p, s.blobs, owner(id), id))
  {
    hide Fetch, Pinned;
  }

  /** The cache key leaves the origin out, so a second origin is served what only the first can open. */
  lemma CacheIgnoresOrigin(p: Pipeline, s: State, id: string, o: string, o': string, c: Cluster, r: Result<Cluster, Error>, s': State)
    requires !Hot(s, id) && c != PLACEHOLDER && Fetch(p, s.blobs, o, id) == Ok(c) && Fetch(p, s.blobs, o', id) == Err(Undecodable)
    requires Loaded(p, s, o, id, FrequentUse, r, s')
    ensures forall s2 :: !Loaded(p, s', o', id, FrequentUse, Fetch(p, s'.blobs, o', id), s2)
    ensures Loaded(p, s', o', id, FrequentUse, Ok(c), s'.(entries := Touched(s'.entries, id)))
  {
    hide Fetch, Shed;
  }

  /** A load that succeeds leaves its cluster in the cache: a new entry used once for this reason, or the old one used once more. */
  lemma LoadCaches(p: Pipeline, s: State, o: string, id: string, reason: Reason, r: Result<Cluster, Error>, s': State)
    requires Loaded(p, s, o, id, reason, r, s') && r.Ok?
    ensures id in s'.entries && s'.entries[id] == if id in s.entries then Entry(r.value, s.entries[id].reason, s.entries[id].accessCount + 1)
                                                  else Entry(r.value, reason, 1)
  {
    hide Fetch;
    if !Hot(s, id) && id !in s.entries {
      PinKeeps(s.entries, s.maxEntries, id, r.value, reason, s'.entries);
    }
  }

  /** A restart keeps the blobs and has what loading a saved registry gives; a bound of zero counts as none. */
  lemma RestartLoadsSaved(p: Pipeline, s: State, bound: Option<int>, s': State)
    requires Step(p, s, Restart(bound), s')
    ensures s'.blobs == s.blobs && s'.entries == FromRecords(SnapshotOf(s.entries, s.maxEntries).pins)
    ensures s'.maxEntries == match bound
                             case None => s.maxEntries
                             case Some(n) => if n == 0 then SnapshotOf(s.entries, s.maxEntries).maxEntries else n
  {
    SaveLoadRoundTrip(s.entries, s.maxEntries, {}, 0, {});
  }

  // ----- Residency -----

  ghost predicate Resident(s: State, id: string) { id in s.entries && Protected(s.entries[id].reason) }

  lemma PinKeepsResident(es: Entries, maxEntries: int, id: string, c: Cluster, reason: Reason, es': Entries, x: string)
    requires Pinned(es, maxEntries, id, c, reason, es') && x in es && Protected(es[x].reason) && (x == id ==> Protected(reason))
    ensures x in es' && Protected(es'[x].reason)
  {
    var gone :| Shed(es, {}, Keep(maxEntries), gone) && es' == (es - gone)[id := Entry(c, reason, 1)];
    ShedKeepsProtected(es, {}, Keep(maxEntries), gone, x);
  }

  lemma StepKeepsResident(p: Pipeline, s: State, op: Op, s': State, x: string)
    requires Step(p, s, op, s') && Resident(s, x)
    ensures Resident(s', x)
  {
    hide Fetch, Pinned, Shed;
    match op
    case Load(o, id, reason) =>
      var r :| Loaded(p, s, o, id, reason, r, s');
      if !Hot(s, id) && r.Ok? && id !in s.entries {
        PinKeepsResident(Touched(s.entries, id), s.maxEntries, id, r.value, reason, s'.entries, x);
      }
    case PinAs(o, id, reason) =>
      var r :| PinnedAs(p, s, o, id, reason, r, s');
      if r.Ok? {
        PinKeepsResident(Touched(s.entries, id), s.maxEntries, id, r.value, reason, s'.entries, x);
      }
    case ShedExcept(named, keep) =>
      var gone :| Shed(s.entries, named, keep, gone) && s' == s.(entries := s.entries - gone);
      ShedKeepsProtected(s.entries, named, keep, gone, x);
    case _ =>
  }

  /** Once identity- or logic-pinned, a blob stays resident through every run, whatever is shed, evicted or restarted. */
  lemma {:induction false} PinnedStaysResident(p: Pipeline, s: State, ops: seq<Op>, s': State, x: string)
    requires Run(p, s, ops, s') && Resident(s, x)
    ensures Resident(s', x)
    decreases |ops|
  {
    if ops != [] {
      var n := |ops| - 1;
      var mid :| Run(p, s, ops[..n], mid) && Step(p, mid, ops[n], s');
      hide Step, Run, Resident;
      PinnedStaysResident(p, s, ops[..n], mid, x);
      StepKeepsResident(p, mid, ops[n], s', x);
    }
  }

  lemma PinAsIsResident(p: Pipeline, s: State, o: string, id: string, reason: Reason, r: Result<Cluster, Error>, s': State)
    requires PinnedAs(p, s, o, id, reason, r, s') && Protected(reason)
    ensures r.Ok? ==> Resident(s', id)
  {
  }

  /** A cluster put in the store reads back in its stored form; storing that form again changes nothing. */
  lemma StoredReadsBack(p: Pipeline, s: State, o: string, c: Cluster)
    requires p.Lawful() && Addressed(p, s.blobs) && p.seal(o, c).Some?
    ensures var id, s' := p.hash(p.seal(o, c).value), Put(p, s, o, c);
            id in s'.blobs && Fetch(p, s'.blobs, o, id) == Ok(p.stored(c)) && Addressed(p, s'.blobs) && Put(p, s', o, p.stored(c)) == s'
  {
    var blob := p.seal(o, c).value;
    assert p.open(o, blob) == Some(p.stored(c));
    if p.hash(blob) in s.blobs {
      assert p.hash(s.blobs[p.hash(blob)]) == p.hash(blob);
    }
  }

  // ----- The service -----

  class WeightStoreService {
    const pipeline: Pipeline
    const cache: WeightPinRegistry
    var blobs: map<string, Blob>

    constructor (pipeline: Pipeline, capacity: int)
      ensures this.pipeline == pipeline && fresh(cache)
      ensures St() == State(map[], capacity, map[])
    {
      this.pipeline := pipeline;
      cache := new WeightPinRegistry(capacity);
      blobs := map[];
    }

    function St(): State
      reads this, cache
    {
      State(cache.entries, cache.maxEntries, blobs)
    }

    method StoreCluster(origin: string, c: Cluster) returns (r: Result<(string, bool), Error>)
      modifies this`blobs
      ensures St() == Put(pipeline, old(St()), origin, c)
      ensures var blob := pipeline.seal(origin, c);
              r == if blob.None? then Err(Unencodable) else Ok((pipeline.hash(blob.value), pipeline.hash(blob.value) in old(blobs)))
    {
      var blob := pipeline.seal(origin, c);
      if blob.None? {
        return Err(Unencodable);
      }
      var id := pipeline.hash(blob.value);
      var deduped := id in blobs;
      if !deduped {
        blobs := blobs[id := blob.value];
      }
      return Ok((id, deduped));
    }

    method FetchCluster(origin: string, id: string) returns (r: Result<Cluster, Error>)
      ensures r == Fetch(pipeline, blobs, origin, id)
    {
      if id !in blobs {
        return Err(NotFound);
      }
      if pipeline.hash(blobs[id]) != id {
        return Err(Undecodable);
      }
      var c := pipeline.open(origin, blobs[id]);
      return if c.None? then Err(Undecodable) else Ok(c.value);
    }

    /** Cache first, then the store; a placeholder is hydrated, an absent cluster pinned. */
    method LoadFor(origin: string, id: string, reason: Reason) returns (r: Result<Cluster, Error>)
      modifies cache
      ensures Loaded(pipeline, old(St()), origin, id, reason, r, St())
    {
      hide Pinned, Fetch;
      var cached := cache.Get(id);
      if cached.Some? && cached.value != PLACEHOLDER {
        return Ok(cached.value);
      }
      r := FetchCluster(origin, id);
      if r.Ok? {
        var hydrated := cache.Hydrate(id, r.value);
        if !hydrated {
          cache.Pin(id, r.value, reason);
        }
      }
    }

    method LoadCluster(origin: string, id: string) returns (r: Result<Cluster, Error>)
      modifies cache
      ensures Loaded(pipeline, old(St()), origin, id, FrequentUse, r, St())
    {
      r := LoadFor(origin, id, FrequentUse);
    }

    method PinProtected(origin: string, id: string, reason: Reason) returns (r: Result<Cluster, Error>)
      modifies cache
      ensures PinnedAs(pipeline, old(St()), origin, id, reason, r, St())
    {
      hide Pinned, Fetch;
      var cached := cache.Get(id);
      if cached.None? || cached.value == PLACEHOLDER {
        r := FetchCluster(origin, id);
        if r.Err? {
          return;
        }
      } else {
        r := Ok(cached.value);
      }
      cache.Pin(id, r.value, reason);
    }

    method PinIdentityCluster(origin: string, id: string) returns (r: Result<Cluster, Error>)
      modifies cache
      ensures PinnedAs(pipeline, old(St()), origin, id, Identity, r, St())
      ensures r.Ok? ==> Resident(St(), id)
    {
      r := PinProtected(origin, id, Identity);
      PinAsIsResident(pipeline, old(St()), origin, id, Identity, r, St());
    }

    method PinLogicCluster(origin: string, id: string) returns (r: Result<Cluster, Error>)
      modifies cache
      ensures PinnedAs(pipeline, old(St()), origin, id, Logic, r, St())
      ensures r.Ok? ==> Resident(St(), id)
    {
      r := PinProtected(origin, id, Logic);
      PinAsIsResident(pipeline, old(St()), origin, id, Logic, r, St());
    }

    /** Stops at the first blob that cannot be read; counts those not hot when their turn came. */
    method PrefetchClusters(origin: string, ids: seq<string>) returns (r: Result<nat, Error>, ghost trace: seq<State>)
      modifies cache
      ensures Trace(pipeline, origin, ids, trace) && trace[0] == old(St()) && trace[|trace| - 1] == St()
      ensures Run(pipeline, old(St()), Prefetches(origin, ids[..|trace| - 1]), St())
      ensures r.Ok? ==> |trace| == |ids| + 1 && r.value == Cold(trace, ids)
      ensures r.Err? ==> |trace| > 1 && Fetch(pipeline, blobs, origin, ids[|trace| - 2]) == Err(r.error)
    {
      ghost var s := St();
      var loaded := 0;
      hide Loaded, Fetch, Run, Trace, Cold;
      TraceStarts(pipeline, s, origin, ids);
      trace := [s];
      RunNothing(pipeline, s);
      assert Prefetches(origin, ids[..0]) == [];
      for i := 0 to |ids|
        invariant Trace(pipeline, origin, ids, trace) && |trace| == i + 1 && trace[0] == s && trace[i] == St()
        invariant loaded == Cold(trace, ids)
        invariant Run(pipeline, s, Prefetches(origin, ids[..i]), St())
      {
        ghost var mid := St();
        var hot := ids[i] in cache.entries && cache.entries[ids[i]].cluster != PLACEHOLDER;
        var one := LoadFor(origin, ids[i], Prefetch);
        PrefetchStep(pipeline, s, origin, ids, i, mid, one, St());
        TraceGrows(pipeline, origin, ids, trace, one, St());
        trace := trace + [St()];
        if one.Err? {
          FailedLoad(pipeline, mid, origin, ids[i], Prefetch, one, St());
          return Err(one.error), trace;
        }
        loaded := loaded + if hot then 0 else 1;
      }
      return Ok(loaded), trace;
    }

    method EvictCluster(id: string) returns (r: Result<bool, PinError>)
      modifies cache
      ensures Step(pipeline, old(St()), Evict(id), St())
      ensures r.Err? <==> Resident(old(St()), id)
      ensures cache.entries == if r.Ok? then old(cache.entries) - {id} else old(cache.entries)
    {
      r := cache.Unpin(id);
    }
  }

  /** The states before each prefetch and at the end. */
  ghost predicate Trace(p: Pipeline, o: string, ids: seq<string>, trace: seq<State>) {
    && 0 < |trace| <= |ids| + 1
    && forall i, j :: 0 <= i && j == i + 1 < |trace| ==> Step(p, trace[i], Load(o, ids[i], Prefetch), trace[j])
  }

  lemma TraceGrows(p: Pipeline, o: string, ids: seq<string>, trace: seq<State>, r: Result<Cluster, Error>, s': State)
    requires Trace(p, o, ids, trace) && |trace| <= |ids|
    requires Loaded(p, trace[|trace| - 1], o, ids[|trace| - 1], Prefetch, r, s')
    ensures Trace(p, o, ids, trace + [s'])
    ensures Cold(trace + [s'], ids) == Cold(trace, ids) + if Hot(trace[|trace| - 1], ids[|trace| - 1]) then 0 else 1
  {
    hide Loaded;
    assert Step(p, trace[|trace| - 1], Load(o, ids[|trace| - 1], Prefetch), s');
    assert (trace + [s'])[..|trace|] == trace;
    hide Step, Hot;
  }

  /** How many ids were not hot when their turn came. */
  ghost function Cold(trace: seq<State>, ids: seq<string>): nat
    requires 0 < |trace| <= |ids| + 1
  {
    var n := |trace| - 1;
    if n == 0 then 0 else Cold(trace[..n], ids) + if Hot(trace[n - 1], ids[n - 1]) then 0 else 1
  }

  lemma TraceStarts(p: Pipeline, s: State, o: string, ids: seq<string>)
    ensures Trace(p, o, ids, [s]) && Cold([s], ids) == 0
  {
  }

  lemma RunNothing(p: Pipeline, s: State)
    ensures Run(p, s, [], s)
  {
  }

  function Prefetches(o: string, ids: seq<string>): seq<Op> {
    seq(|ids|, i requires 0 <= i < |ids| => Load(o, ids[i], Prefetch))
  }

  lemma PrefetchStep(p: Pipeline, s: State, o: string, ids: seq<string>, n: nat, mid: State, r: Result<Cluster, Error>, s': State)
    requires n < |ids| && Run(p, s, Prefetches(o, ids[..n]), mid) && Loaded(p, mid, o, ids[n], Prefetch, r, s')
    ensures Run(p, s, Prefetches(o, ids[..n + 1]), s')
  {
    hide Loaded;
    var ops := Prefetches(o, ids[..n + 1]);
    assert ops[..n] == Prefetches(o, ids[..n]) && ops[n] == Load(o, ids[n], Prefetch);
    assert Step(p, mid, ops[n], s');
  }

  lemma FailedLoad(p: Pipeline, s: State, o: string, id: string, reason: Reason, r: Result<Cluster, Error>, s': State)
    requires Loaded(p, s, o, id, reason, r, s') && r.Err?
    ensures s'.blobs == s.blobs && Fetch(p, s.blobs, o, id) == Err(r.error)
  {
  }
}
