/** Replica health, the audit of pinned origins, and the repair of what it finds missing. */
module Replication {
  import opened Wrappers
  import opened Numbers
  import opened Ranking
  import opened Stores

  datatype ReplicaState = Healthy | Unknown | Dead

  datatype ReplicaRecord = ReplicaRecord(state: ReplicaState, lastSeen: int)

  /** Records by blob, then by node. */
  type Replicas = map<string, map<string, ReplicaRecord>>

  /** The health records, and what each mesh node stores. */
  datatype Cluster = Cluster(replicas: Replicas, stores: map<string, map<string, Blob>>)

  datatype RepairItem = RepairItem(blobId: string, required: int, healthy: int, missing: int)

  datatype Error = NotFound

  // ----- Health -----

  const NANOS := 1_000_000_000

  /** `whole_seconds` truncates toward zero. */
  function WholeSeconds(nanos: int): int { if nanos >= 0 then nanos / NANOS else -((-nanos) / NANOS) }

  predicate Fresh(lastSeen: int, stale: int, now: int) { WholeSeconds(now - lastSeen) <= stale }

  /** `list_replicas`. */
  function ListReplicas(r: Replicas, blob: string): map<string, ReplicaRecord> {
    if blob in r then r[blob] else map[]
  }

  function Upsert(r: Replicas, blob: string, node: string, rec: ReplicaRecord): Replicas {
    r[blob := ListReplicas(r, blob)[node := rec]]
  }

  function RecordedHealthy(recs: map<string, ReplicaRecord>): set<string> {
    set n | n in recs && recs[n].state == Healthy
  }

  function FreshHealthy(recs: map<string, ReplicaRecord>, stale: int, now: int): set<string> {
    set n | n in recs && recs[n].state == Healthy && Fresh(recs[n].lastSeen, stale, now)
  }

  function FreshCount(r: Replicas, blob: string, stale: int, now: int): nat {
    |FreshHealthy(ListReplicas(r, blob), stale, now)|
  }

  /** Node `n` counts. */
  predicate Counts(recs: map<string, ReplicaRecord>, n: string, stale: int, now: int)
    requires n in recs
  {
    recs[n].state == Healthy && Fresh(recs[n].lastSeen, stale, now)
  }

  /** How many of the first `i` nodes count. */
  ghost function FoundIn(recs: map<string, ReplicaRecord>, nodes: seq<string>, i: nat, stale: int, now: int): nat
    requires i <= |nodes|
  {
    |FreshHealthy(recs, stale, now) * ToSet(nodes[..i])|
  }

  lemma FoundEnds(recs: map<string, ReplicaRecord>, nodes: seq<string>, stale: int, now: int)
    requires ToSet(nodes) == recs.Keys
    ensures FoundIn(recs, nodes, 0, stale, now) == 0
    ensures FoundIn(recs, nodes, |nodes|, stale, now) == |FreshHealthy(recs, stale, now)|
  {
    EmptyPrefix(nodes);
    hide Fresh, ToSet;
    assert nodes[..|nodes|] == nodes;
    assert FreshHealthy(recs, stale, now) * ToSet(nodes) == FreshHealthy(recs, stale, now);
  }

  lemma FoundStep(recs: map<string, ReplicaRecord>, nodes: seq<string>, i: nat, stale: int, now: int)
    requires Distinct(nodes) && i < |nodes| && ToSet(nodes) <= recs.Keys
    ensures nodes[i] in recs
    ensures FoundIn(recs, nodes, i + 1, stale, now) == FoundIn(recs, nodes, i, stale, now) + if Counts(recs, nodes[i], stale, now) then 1 else 0
  {
    PrefixGrows(nodes, i);
    hide ToSet, Distinct, Fresh;
    var found, node := FreshHealthy(recs, stale, now) * ToSet(nodes[..i]), nodes[i];
    assert node in recs && (node in FreshHealthy(recs, stale, now) <==> Counts(recs, node, stale, now));
    hide FreshHealthy;
    assert FreshHealthy(recs, stale, now) * ToSet(nodes[..i + 1]) == if Counts(recs, node, stale, now) then found + {node} else found;
  }

  /** `healthy_count_with_stale`. */
  method HealthyCountWithStale(r: Replicas, blob: string, stale: int, now: int) returns (n: nat)
    ensures n == FreshCount(r, blob, stale, now)
  {
    n := 0;
    var recs := ListReplicas(r, blob);
    var nodes := Listing(recs.Keys);
    FoundEnds(recs, nodes, stale, now);
    hide ListReplicas, FreshHealthy, FoundIn, ToSet, Distinct, Fresh;
    for i := 0 to |nodes|
      invariant n == FoundIn(recs, nodes, i, stale, now)
    {
      FoundStep(recs, nodes, i, stale, now);
      if recs[nodes[i]].state != Healthy {
        continue;
      }
      if Fresh(recs[nodes[i]].lastSeen, stale, now) {
        n := n + 1;
      }
    }
  }

  // ----- The audit and the durability gate -----

  /** What the auditor and the gate look up. */
  datatype Origins = Origins(pins: Pins, minReplicas: map<string, Option<nat>>, roots: map<string, seq<seq<string>>>)

  /** The root blobs of all representations, in order. */
  function Flatten(reps: seq<seq<string>>): seq<string> {
    if reps == [] then [] else Flatten(reps[..|reps| - 1]) + reps[|reps| - 1]
  }

  function Deficits(r: Replicas, roots: seq<string>, required: int, stale: int, now: int): seq<RepairItem> {
    if roots == [] then []
    else
      var n, b := |roots| - 1, roots[|roots| - 1];
      var healthy := FreshCount(r, b, stale, now);
      Deficits(r, roots[..n], required, stale, now) +
      if healthy < required then [RepairItem(b, required, healthy, required - healthy)] else []
  }

  function Required(o: Origins, origin: string): int
    requires origin in o.minReplicas
  {
    if o.minReplicas[origin].Some? then o.minReplicas[origin].value else 1
  }

  function Audit(o: Origins, r: Replicas, origin: string, stale: int, now: int): Result<seq<RepairItem>, Error> {
    if !AnyActive(o.pins, origin) then Ok([])
    else if origin !in o.minReplicas || origin !in o.roots then Err(NotFound)
    else Ok(Deficits(r, Flatten(o.roots[origin]), Required(o, origin), stale, now))
  }

  function CanDelete(o: Origins, r: Replicas, origin: string, stale: int, now: int): Result<bool, Error> {
    if !AnyActive(o.pins, origin) then Ok(true)
    else if origin !in o.minReplicas || origin !in o.roots then Err(NotFound)
    else Ok(forall b :: b in Flatten(o.roots[origin]) ==> FreshCount(r, b, stale, now) >= Required(o, origin))
  }

  lemma {:induction false} FlattenStep(reps: seq<seq<string>>, i: nat, j: nat)
    requires i < |reps| && j < |reps[i]|
    ensures reps[i][j] in Flatten(reps)
  {
    if i < |reps| - 1 {
      assert reps[..|reps| - 1][i] == reps[i];
      FlattenStep(reps[..|reps| - 1], i, j);
    }
  }

  method AuditOrigin(o: Origins, r: Replicas, origin: string, stale: int, now: int) returns (plan: Result<seq<RepairItem>, Error>)
    ensures plan == Audit(o, r, origin, stale, now)
  {
    if !AnyActive(o.pins, origin) {
      return Ok([]);
    }
    if origin !in o.minReplicas || origin !in o.roots {
      return Err(NotFound);
    }
    var required, reps := Required(o, origin), o.roots[origin];
    var items: seq<RepairItem> := [];
    for i := 0 to |reps|
      invariant items == Deficits(r, Flatten(reps[..i]), required, stale, now)
    {
      assert reps[..i + 1][..i] == reps[..i];
      hide Deficits;
      items := AuditRepresentation(r, Flatten(reps[..i]), reps[i], items, required, stale, now);
    }
    assert reps[..|reps|] == reps;
    return Ok(items);
  }

  lemma DeficitsStep(r: Replicas, before: seq<string>, roots: seq<string>, j: nat, required: int, stale: int, now: int)
    requires j < |roots|
    ensures var healthy := FreshCount(r, roots[j], stale, now);
            Deficits(r, before + roots[..j + 1], required, stale, now) ==
            Deficits(r, before + roots[..j], required, stale, now) +
            if healthy < required then [RepairItem(roots[j], required, healthy, required - healthy)] else []
  {
    hide FreshCount;
    var all := before + roots[..j + 1];
    assert all[..|all| - 1] == before + roots[..j] && all[|all| - 1] == roots[j];
  }

  /** The inner loop over the root blobs of one representation. */
  method AuditRepresentation(r: Replicas, ghost before: seq<string>, roots: seq<string>, items0: seq<RepairItem>, required: int, stale: int, now: int)
    returns (items: seq<RepairItem>)
    requires items0 == Deficits(r, before, required, stale, now)
    ensures items == Deficits(r, before + roots, required, stale, now)
  {
    hide FreshCount, Deficits;
    items := items0;
    assert before + roots[..0] == before;
    for j := 0 to |roots|
      invariant items == Deficits(r, before + roots[..j], required, stale, now)
    {
      var healthy := HealthyCountWithStale(r, roots[j], stale, now);
      DeficitsStep(r, before, roots, j, required, stale, now);
      if healthy < required {
        items := items + [RepairItem(roots[j], required, healthy, required - healthy)];
      }
    }
    assert roots[..|roots|] == roots;
  }

  method CanDeleteOriginBytes(o: Origins, r: Replicas, origin: string, stale: int, now: int) returns (ok: Result<bool, Error>)
    ensures ok == CanDelete(o, r, origin, stale, now)
  {
    if !AnyActive(o.pins, origin) {
      return Ok(true);
    }
    if origin !in o.minReplicas || origin !in o.roots {
      return Err(NotFound);
    }
    var required, reps := Required(o, origin), o.roots[origin];
    for i := 0 to |reps|
      invariant forall b :: b in Flatten(reps[..i]) ==> FreshCount(r, b, stale, now) >= required
    {
      assert reps[..i + 1][..i] == reps[..i];
      for j := 0 to |reps[i]|
        invariant forall b :: b in reps[i][..j] ==> FreshCount(r, b, stale, now) >= required
      {
        var healthy := HealthyCountWithStale(r, reps[i][j], stale, now);
        if healthy < required {
          FlattenStep(reps, i, j);
          return Ok(false);
        }
      }
      assert reps[i][..|reps[i]|] == reps[i];
    }
    assert reps[..|reps|] == reps;
    return Ok(true);
  }

  lemma {:induction false} DeficitsExact(r: Replicas, roots: seq<string>, required: int, stale: int, now: int)
    ensures forall b :: b in roots && FreshCount(r, b, stale, now) < required ==>
              RepairItem(b, required, FreshCount(r, b, stale, now), required - FreshCount(r, b, stale, now))
                in Deficits(r, roots, required, stale, now)
    ensures forall x :: x in Deficits(r, roots, required, stale, now) ==>
              && x.blobId in roots && x.required == required && x.missing == required - x.healthy > 0
              && x.healthy == FreshCount(r, x.blobId, stale, now)
  {
    if roots != [] {
      var n := |roots| - 1;
      DeficitsExact(r, roots[..n], required, stale, now);
      assert forall b :: b in roots <==> b in roots[..n] || b == roots[n];
    }
  }

  /** On every state, errors included, the audit is empty exactly when the gate opens. */
  lemma AuditEmptyIffDeletable(o: Origins, r: Replicas, origin: string, stale: int, now: int)
    ensures Audit(o, r, origin, stale, now) == Ok([]) <==> CanDelete(o, r, origin, stale, now) == Ok(true)
    ensures Audit(o, r, origin, stale, now).Err? <==> CanDelete(o, r, origin, stale, now).Err?
  {
    if origin in o.minReplicas && origin in o.roots {
      var roots, required := Flatten(o.roots[origin]), Required(o, origin);
      DeficitsExact(r, roots, required, stale, now);
      var d := Deficits(r, roots, required, stale, now);
      if d != [] {
        assert d[0] in d;
      }
    }
  }

  // ----- What the gate and the audit promise about the copies themselves -----

  /** Node `n` has a Healthy record of blob `b` that is at most `stale` whole seconds old. */
  ghost predicate LiveCopy(r: Replicas, b: string, n: string, stale: int, now: int) {
    b in r && n in r[b] && r[b][n].state == Healthy &&
    if stale < 0 then now - r[b][n].lastSeen <= stale * 1_000_000_000 else now - r[b][n].lastSeen < (stale + 1) * 1_000_000_000
  }

  ghost predicate Somewhere(r: Replicas, b: string, stale: int, now: int) { exists n :: LiveCopy(r, b, n, stale, now) }

  ghost predicate AllLive(r: Replicas, b: string, nodes: set<string>, stale: int, now: int) {
    forall n :: n in nodes ==> LiveCopy(r, b, n, stale, now)
  }

  ghost predicate AtLeast(r: Replicas, b: string, k: int, stale: int, now: int) {
    exists nodes: set<string> :: |nodes| >= k && AllLive(r, b, nodes, stale, now)
  }

  /** A policy with a minimum asks for so many copies; one without asks for some copy. */
  ghost predicate Backed(o: Origins, r: Replicas, origin: string, b: string, stale: int, now: int)
    requires origin in o.minReplicas
  {
    match o.minReplicas[origin]
    case None => Somewhere(r, b, stale, now)
    case Some(k) => AtLeast(r, b, k, stale, now)
  }

  ghost predicate Pinned(o: Origins, origin: string) { origin in o.pins && exists p :: p in o.pins[origin] && !p.Released? }

  ghost predicate Known(o: Origins, origin: string) { origin in o.minReplicas && origin in o.roots }

  ghost predicate AllBacked(o: Origins, r: Replicas, origin: string, stale: int, now: int)
    requires Known(o, origin)
  {
    forall i, j :: 0 <= i < |o.roots[origin]| && 0 <= j < |o.roots[origin][i]| ==> Backed(o, r, origin, o.roots[origin][i][j], stale, now)
  }

  lemma FreshIff(lastSeen: int, stale: int, now: int)
    ensures Fresh(lastSeen, stale, now) <==>
              if stale < 0 then now - lastSeen <= stale * 1_000_000_000 else now - lastSeen < (stale + 1) * 1_000_000_000
  {
  }

  lemma LiveCopyIff(r: Replicas, b: string, n: string, stale: int, now: int)
    ensures n in FreshHealthy(ListReplicas(r, b), stale, now) <==> LiveCopy(r, b, n, stale, now)
  {
    var recs := ListReplicas(r, b);
    if n in recs {
      FreshIff(recs[n].lastSeen, stale, now);
    }
    hide Fresh;
  }

  lemma CountedIff(r: Replicas, b: string, k: int, stale: int, now: int)
    ensures FreshCount(r, b, stale, now) >= k <==> AtLeast(r, b, k, stale, now)
    ensures FreshCount(r, b, stale, now) >= 1 <==> Somewhere(r, b, stale, now)
  {
    var live := FreshHealthy(ListReplicas(r, b), stale, now);
    forall n ensures n in live <==> LiveCopy(r, b, n, stale, now) {
      LiveCopyIff(r, b, n, stale, now);
    }
    hide LiveCopy, FreshHealthy;
    assert live != {} ==> exists n :: n in live;
    assert |live| >= k ==> AllLive(r, b, live, stale, now);
    if AtLeast(r, b, k, stale, now) {
      var nodes: set<string> :| |nodes| >= k && AllLive(r, b, nodes, stale, now);
      CountSubset(nodes, live);
    }
  }

  lemma {:induction false} FlattenHas(reps: seq<seq<string>>, b: string)
    ensures b in Flatten(reps) <==> exists i, j :: 0 <= i < |reps| && 0 <= j < |reps[i]| && reps[i][j] == b
  {
    if reps != [] {
      var n := |reps| - 1;
      FlattenHas(reps[..n], b);
      assert forall i :: 0 <= i < n ==> reps[..n][i] == reps[i];
      if j :| 0 <= j < |reps[n]| && reps[n][j] == b {
        assert b in reps[n];
      }
    }
  }

  lemma BackedIff(o: Origins, r: Replicas, origin: string, b: string, stale: int, now: int)
    requires origin in o.minReplicas
    ensures FreshCount(r, b, stale, now) >= Required(o, origin) <==> Backed(o, r, origin, b, stale, now)
  {
    hide FreshCount, LiveCopy, AtLeast, Somewhere;
    CountedIff(r, b, Required(o, origin), stale, now);
  }

  /** The gate opens on no pin, or when every root of a known origin has its copies; it fails on a pinned origin it does not know. */
  lemma GateOpensIff(o: Origins, r: Replicas, origin: string, stale: int, now: int)
    ensures CanDelete(o, r, origin, stale, now) == Ok(true) <==>
              !Pinned(o, origin) || (Known(o, origin) && AllBacked(o, r, origin, stale, now))
    ensures CanDelete(o, r, origin, stale, now).Err? <==> Pinned(o, origin) && !Known(o, origin)
  {
    assert Pinned(o, origin) <==> AnyActive(o.pins, origin);
    hide FreshCount, Flatten, Backed, Pinned, AnyActive, Required;
    if Known(o, origin) {
      var reps := o.roots[origin];
      forall b ensures FreshCount(r, b, stale, now) >= Required(o, origin) <==> Backed(o, r, origin, b, stale, now) {
        BackedIff(o, r, origin, b, stale, now);
      }
      forall b ensures b in Flatten(reps) <==> exists i, j :: 0 <= i < |reps| && 0 <= j < |reps[i]| && reps[i][j] == b {
        FlattenHas(reps, b);
      }
    }
  }

  /** An item says how many copies its root has, wants and lacks; only roots without their copies are asked for. */
  ghost predicate AskedRightly(o: Origins, r: Replicas, origin: string, x: RepairItem, stale: int, now: int)
    requires Known(o, origin)
  {
    && !Backed(o, r, origin, x.blobId, stale, now)
    && x.required == (match o.minReplicas[origin] case None => 1 case Some(k) => k)
    && AtLeast(r, x.blobId, x.healthy, stale, now) && !AtLeast(r, x.blobId, x.healthy + 1, stale, now)
    && x.missing == x.required - x.healthy
  }

  lemma AuditAsks(o: Origins, r: Replicas, origin: string, stale: int, now: int)
    requires Pinned(o, origin) && Known(o, origin)
    ensures Audit(o, r, origin, stale, now).Ok?
    ensures forall x :: x in Audit(o, r, origin, stale, now).value ==> AskedRightly(o, r, origin, x, stale, now)
    ensures forall b :: (exists x :: x in Audit(o, r, origin, stale, now).value && x.blobId == b) <==>
              !Backed(o, r, origin, b, stale, now) && exists i, j :: 0 <= i < |o.roots[origin]| && 0 <= j < |o.roots[origin][i]| && o.roots[origin][i][j] == b
  {
    hide FreshCount, Deficits, Flatten, Backed, LiveCopy, AtLeast;
    assert AnyActive(o.pins, origin);
    var roots, required := Flatten(o.roots[origin]), Required(o, origin);
    var items := Deficits(r, roots, required, stale, now);
    DeficitsExact(r, roots, required, stale, now);
    forall b ensures b in roots <==> exists i, j :: 0 <= i < |o.roots[origin]| && 0 <= j < |o.roots[origin][i]| && o.roots[origin][i][j] == b {
      FlattenHas(o.roots[origin], b);
    }
    forall b ensures FreshCount(r, b, stale, now) >= required <==> Backed(o, r, origin, b, stale, now) {
      BackedIff(o, r, origin, b, stale, now);
    }
    forall x | x in items ensures AskedRightly(o, r, origin, x, stale, now) {
      CountedIff(r, x.blobId, x.healthy, stale, now);
      CountedIff(r, x.blobId, x.healthy + 1, stale, now);
    }
  }

  // ----- Repair -----

  predicate Holds(c: Cluster, node: string, blob: string) { node in c.stores && blob in c.stores[node] }

  /** Some mesh node has the blob. */
  ghost predicate Held(c: Cluster, blob: string) { exists m :: Holds(c, m, blob) }

  /** `data` is what some mesh node has under the blob's id. */
  ghost predicate CopyOf(c: Cluster, b: string, data: Blob) { exists m :: Holds(c, m, b) && c.stores[m][b] == data }

  /** The mesh nodes the repairer may copy to: it skips recorded-healthy ones, stale or not. */
  function Free(c: Cluster, blob: string): set<string> { c.stores.Keys - RecordedHealthy(ListReplicas(c.replicas, blob)) }

  /** The mesh nodes without a Healthy record of the blob. */
  ghost function Spare(c: Cluster, blob: string): set<string> {
    set n | n in c.stores && !(blob in c.replicas && n in c.replicas[blob] && c.replicas[blob][n].state == Healthy)
  }

  lemma FreeIsSpare(c: Cluster, blob: string)
    ensures Free(c, blob) == Spare(c, blob)
  {
  }

  function WithRecords(r: Replicas, b: string, t: int, added: set<string>): map<string, ReplicaRecord> {
    ListReplicas(r, b) + (map n | n in added :: ReplicaRecord(Healthy, t))
  }

  function WithCopies(stores: map<string, map<string, Blob>>, b: string, bytes: Blob, added: set<string>): map<string, map<string, Blob>> {
    map n | n in stores :: if n in added && b !in stores[n] then stores[n][b := bytes] else stores[n]
  }

  /** The nodes `added` got the blob `b` (as `bytes`, unless they had it) and a health record of time `t`. */
  ghost predicate Copied(c: Cluster, b: string, bytes: Blob, t: int, added: set<string>, c': Cluster) {
    && (forall b' :: b' != b ==> ListReplicas(c'.replicas, b') == ListReplicas(c.replicas, b'))
    && ListReplicas(c'.replicas, b) == WithRecords(c.replicas, b, t, added)
    && c'.stores == WithCopies(c.stores, b, bytes, added)
  }

  /** One successful repair at time `t` that copied to the nodes `added`. */
  ghost predicate Repaired(c: Cluster, item: RepairItem, t: int, added: set<string>, c': Cluster) {
    && (item.missing > 0 ==> Held(c, item.blobId))
    && added <= Free(c, item.blobId)
    && |added| == Min(Max(item.missing, 0), |Free(c, item.blobId)|)
    && (item.missing <= 0 ==> c' == c)
    && (item.missing > 0 ==> exists bytes :: CopyOf(c, item.blobId, bytes) && Copied(c, item.blobId, bytes, t, added, c'))
  }

  ghost predicate Executed(c: Cluster, items: seq<RepairItem>, t: int, c': Cluster) {
    if items == [] then c' == c
    else
      var n := |items| - 1;
      exists mid, added :: Executed(c, items[..n], t, mid) && Repaired(mid, items[n], t, added, c')
  }

  /** Stopped at the first item whose blob no node holds, with the items before it done. */
  ghost predicate StoppedAt(c: Cluster, items: seq<RepairItem>, t: int, c': Cluster) {
    exists i :: 0 <= i < |items| && Executed(c, items[..i], t, c') && items[i].missing > 0 && !Held(c, items[i].blobId)
                && forall x :: x in items[..i] && x.missing > 0 ==> Held(c, x.blobId)
  }

  lemma CountParts(a: set<string>, b: set<string>, c: set<string>)
    requires a * b == {} && b <= c
    ensures |a + b| == |a| + |b| && |c - b| == |c| - |b|
  {
  }

  lemma FreshGain(recs: map<string, ReplicaRecord>, recs': map<string, ReplicaRecord>, t: int, added: set<string>, stale: int, now: int)
    requires recs' == recs + (map n | n in added :: ReplicaRecord(Healthy, t))
    requires added * RecordedHealthy(recs) == {} && Fresh(t, stale, now)
    ensures FreshHealthy(recs', stale, now) == FreshHealthy(recs, stale, now) + added
  {
    hide Fresh;
  }

  lemma FreshDisjoint(recs: map<string, ReplicaRecord>, added: set<string>, stale: int, now: int)
    requires added * RecordedHealthy(recs) == {}
    ensures FreshHealthy(recs, stale, now) * added == {}
  {
    hide Fresh;
    assert FreshHealthy(recs, stale, now) <= RecordedHealthy(recs);
    hide RecordedHealthy, FreshHealthy;
  }

  lemma HealthyGain(recs: map<string, ReplicaRecord>, recs': map<string, ReplicaRecord>, t: int, added: set<string>)
    requires recs' == recs + (map n | n in added :: ReplicaRecord(Healthy, t))
    ensures RecordedHealthy(recs') == RecordedHealthy(recs) + added
  {
  }

  lemma CopyingCountsFresh(c: Cluster, b: string, bytes: Blob, t: int, added: set<string>, c': Cluster, stale: int, now: int)
    requires Copied(c, b, bytes, t, added, c') && added <= Free(c, b) && Fresh(t, stale, now)
    ensures FreshCount(c'.replicas, b, stale, now) == FreshCount(c.replicas, b, stale, now) + |added|
  {
    var recs, recs' := ListReplicas(c.replicas, b), ListReplicas(c'.replicas, b);
    hide Fresh, RecordedHealthy, FreshHealthy, ListReplicas, WithCopies;
    assert added * RecordedHealthy(recs) == {};
    FreshGain(recs, recs', t, added, stale, now);
    FreshDisjoint(recs, added, stale, now);
    CountParts(FreshHealthy(recs, stale, now), added, added);
  }

  lemma RemainingCount(keys: set<string>, h: set<string>, h': set<string>, added: set<string>)
    requires h' == h + added && added <= keys - h
    ensures |keys - h'| == |keys - h| - |added|
  {
    assert keys - h' == (keys - h) - added;
    CountParts({}, added, keys - h);
  }

  lemma CopiedFrame(c: Cluster, b: string, bytes: Blob, t: int, added: set<string>, c': Cluster)
    requires Copied(c, b, bytes, t, added, c')
    ensures c'.stores.Keys == c.stores.Keys
    ensures RecordedHealthy(ListReplicas(c'.replicas, b)) == RecordedHealthy(ListReplicas(c.replicas, b)) + added
  {
    hide ListReplicas, RecordedHealthy;
    HealthyGain(ListReplicas(c.replicas, b), ListReplicas(c'.replicas, b), t, added);
  }

  lemma CopyingCountsFree(c: Cluster, b: string, bytes: Blob, t: int, added: set<string>, c': Cluster)
    requires Copied(c, b, bytes, t, added, c') && added <= Free(c, b)
    ensures |Free(c', b)| == |Free(c, b)| - |added|
  {
    hide RecordedHealthy, ListReplicas, Copied;
    CopiedFrame(c, b, bytes, t, added, c');
    RemainingCount(c.stores.Keys, RecordedHealthy(ListReplicas(c.replicas, b)), RecordedHealthy(ListReplicas(c'.replicas, b)), added);
  }

  /** How many copies of `blob` a repair of `item` makes. */
  function Gain(c: Cluster, item: RepairItem, blob: string): nat {
    if blob == item.blobId then Min(Max(item.missing, 0), |Free(c, blob)|) else 0
  }

  lemma RepairCounts(c: Cluster, item: RepairItem, t: int, added: set<string>, c': Cluster, blob: string, stale: int, now: int)
    requires Repaired(c, item, t, added, c') && Fresh(t, stale, now)
    ensures FreshCount(c'.replicas, blob, stale, now) == FreshCount(c.replicas, blob, stale, now) + Gain(c, item, blob)
    ensures |Free(c', blob)| == |Free(c, blob)| - Gain(c, item, blob)
  {
    if item.missing > 0 {
      var bytes :| CopyOf(c, item.blobId, bytes) && Copied(c, item.blobId, bytes, t, added, c');
      CopyingCountsFresh(c, item.blobId, bytes, t, added, c', stale, now);
      CopyingCountsFree(c, item.blobId, bytes, t, added, c');
      OthersKeep(c, item.blobId, bytes, t, added, c', blob, stale, now);
      hide Copied, FreshCount, Free;
    }
  }

  lemma OthersKeep(c: Cluster, b: string, bytes: Blob, t: int, added: set<string>, c': Cluster, blob: string, stale: int, now: int)
    requires Copied(c, b, bytes, t, added, c')
    ensures blob != b ==> FreshCount(c'.replicas, blob, stale, now) == FreshCount(c.replicas, blob, stale, now) && Free(c', blob) == Free(c, blob)
  {
    assert c'.stores.Keys == c.stores.Keys;
  }

  /** How many copies of a blob a plan asks for; a root listed twice is asked for twice. */
  function Planned(items: seq<RepairItem>, blob: string): nat {
    if items == [] then 0
    else
      var last := items[|items| - 1];
      Planned(items[..|items| - 1], blob) + if last.blobId == blob then Max(last.missing, 0) else 0
  }

  lemma {:induction false} PlannedAtLeast(items: seq<RepairItem>, x: RepairItem)
    requires x in items
    ensures Planned(items, x.blobId) >= x.missing
  {
    if items[|items| - 1] != x {
      PlannedAtLeast(items[..|items| - 1], x);
    }
  }

  /** An execution makes as many fresh copies of a blob as the plan asks for, or as there are free nodes. */
  lemma {:induction false} ExecutionCounts(c: Cluster, items: seq<RepairItem>, t: int, c': Cluster, stale: int, now: int, blob: string)
    requires Executed(c, items, t, c') && Fresh(t, stale, now)
    ensures var made := Min(Planned(items, blob), |Free(c, blob)|);
            && FreshCount(c'.replicas, blob, stale, now) == FreshCount(c.replicas, blob, stale, now) + made
            && |Free(c', blob)| == |Free(c, blob)| - made
  {
    if items != [] {
      var n := |items| - 1;
      var mid, added :| Executed(c, items[..n], t, mid) && Repaired(mid, items[n], t, added, c');
      hide Executed, Repaired, FreshCount, Free, Fresh, Gain, Min, Planned;
      ExecutionCounts(c, items[..n], t, mid, stale, now, blob);
      RepairCounts(mid, items[n], t, added, c', blob, stale, now);
      PlannedStep(c, mid, items, blob);
    } else {
      hide FreshCount, Free, Fresh;
    }
  }

  lemma PlannedStep(c: Cluster, mid: Cluster, items: seq<RepairItem>, blob: string)
    requires items != []
    requires |Free(mid, blob)| == |Free(c, blob)| - Min(Planned(items[..|items| - 1], blob), |Free(c, blob)|)
    ensures Min(Planned(items, blob), |Free(c, blob)|) ==
            Min(Planned(items[..|items| - 1], blob), |Free(c, blob)|) + Gain(mid, items[|items| - 1], blob)
  {
    hide Free;
  }

  lemma DeficitsEmptyIff(r: Replicas, roots: seq<string>, required: int, stale: int, now: int)
    ensures Deficits(r, roots, required, stale, now) == [] <==> forall b :: b in roots ==> FreshCount(r, b, stale, now) >= required
  {
    DeficitsExact(r, roots, required, stale, now);
    hide FreshCount;
    var d := Deficits(r, roots, required, stale, now);
    hide Deficits;
    if d != [] {
      assert d[0] in d;
    }
  }

  /** After the audit's plan was executed, an audit at any clock at which the new records are fresh is empty exactly when every
      root's old copies that are then still fresh and the copies made for it, as many as planned or as nodes were free, suffice. */
  lemma ReauditIff(o: Origins, c: Cluster, origin: string, stale: int, now: int, items: seq<RepairItem>, t: int, c': Cluster, later: int)
    requires AnyActive(o.pins, origin) && Audit(o, c.replicas, origin, stale, now) == Ok(items)
    requires Executed(c, items, t, c') && Fresh(t, stale, later)
    ensures Audit(o, c'.replicas, origin, stale, later) == Ok([]) <==>
              forall b :: b in Flatten(o.roots[origin]) ==>
                FreshCount(c.replicas, b, stale, later) + Min(Planned(items, b), |Spare(c, b)|) >= Required(o, origin)
  {
    forall b | b in Flatten(o.roots[origin]) ensures Free(c, b) == Spare(c, b) {
      FreeIsSpare(c, b);
    }
    hide Spare;
    hide Executed, FreshCount, Fresh, Free, AnyActive, Flatten, Planned, Deficits;
    var roots := Flatten(o.roots[origin]);
    DeficitsEmptyIff(c'.replicas, roots, Required(o, origin), stale, later);
    forall b | b in roots
      ensures FreshCount(c'.replicas, b, stale, later) == FreshCount(c.replicas, b, stale, later) + Min(Planned(items, b), |Free(c, b)|)
    {
      ExecutionCounts(c, items, t, c', stale, later, b);
    }
  }

  /** Whether root `b` has its copies in the end depends on its deficit and its free nodes alone, if no old copy went stale. */
  lemma RootSettles(r: Replicas, roots: seq<string>, required: int, stale: int, now: int, items: seq<RepairItem>, free: nat, b: string)
    requires items == Deficits(r, roots, required, stale, now) && b in roots
    ensures FreshCount(r, b, stale, now) + Min(Planned(items, b), free) >= required <==>
              forall x :: x in items && x.blobId == b ==> free >= x.missing
  {
    DeficitsExact(r, roots, required, stale, now);
    hide FreshCount, Deficits;
    var h := FreshCount(r, b, stale, now);
    if h < required {
      var x := RepairItem(b, required, h, required - h);
      assert x in items;
      PlannedAtLeast(items, x);
    }
  }

  lemma FreshShrinks(r: Replicas, blob: string, stale: int, now: int, later: int)
    requires now <= later
    ensures FreshCount(r, blob, stale, later) <= FreshCount(r, blob, stale, now)
    ensures StillFresh(r, blob, stale, now, later) ==> FreshCount(r, blob, stale, later) == FreshCount(r, blob, stale, now)
  {
    var recs := ListReplicas(r, blob);
    forall n | n in FreshHealthy(recs, stale, later) ensures n in FreshHealthy(recs, stale, now) {
      FreshEarlier(recs[n].lastSeen, stale, now, later);
    }
    hide FreshHealthy;
    CountSubset(FreshHealthy(recs, stale, later), FreshHealthy(recs, stale, now));
    if StillFresh(r, blob, stale, now, later) {
      CountSubset(FreshHealthy(recs, stale, now), FreshHealthy(recs, stale, later));
    }
  }

  lemma FreshEarlier(lastSeen: int, stale: int, now: int, later: int)
    requires now <= later && Fresh(lastSeen, stale, later)
    ensures Fresh(lastSeen, stale, now)
  {
  }

  /** No copy that counted at `now` has gone stale since. */
  ghost predicate StillFresh(r: Replicas, blob: string, stale: int, now: int, later: int) {
    FreshHealthy(ListReplicas(r, blob), stale, now) <= FreshHealthy(ListReplicas(r, blob), stale, later)
  }

  /** If no old copy of a root has gone stale meanwhile, the later audit is empty exactly when every deficient root has enough
      free nodes. */
  lemma RepairConverges(o: Origins, c: Cluster, origin: string, stale: int, now: int, items: seq<RepairItem>, t: int, c': Cluster, later: int)
    requires Audit(o, c.replicas, origin, stale, now) == Ok(items) && now <= later
    requires Executed(c, items, t, c') && Fresh(t, stale, later)
    requires AnyActive(o.pins, origin) ==> forall b :: b in Flatten(o.roots[origin]) ==> StillFresh(c.replicas, b, stale, now, later)
    ensures Audit(o, c'.replicas, origin, stale, later) == Ok([]) <==> forall x :: x in items ==> |Spare(c, x.blobId)| >= x.missing
  {
    forall x | x in items ensures Free(c, x.blobId) == Spare(c, x.blobId) {
      FreeIsSpare(c, x.blobId);
    }
    hide Spare;
    if AnyActive(o.pins, origin) {
      var roots, required := Flatten(o.roots[origin]), Required(o, origin);
      ReauditIff(o, c, origin, stale, now, items, t, c', later);
      forall b | b in roots ensures Free(c, b) == Spare(c, b) {
        FreeIsSpare(c, b);
      }
      DeficitsExact(c.replicas, roots, required, stale, now);
      hide Deficits, Executed, FreshCount, Fresh, Free, AnyActive, Flatten, Planned, StillFresh;
      forall b | b in roots
        ensures FreshCount(c.replicas, b, stale, later) + Min(Planned(items, b), |Free(c, b)|) >= required <==>
                  forall x :: x in items && x.blobId == b ==> |Free(c, b)| >= x.missing
      {
        FreshShrinks(c.replicas, b, stale, now, later);
        RootSettles(c.replicas, roots, required, stale, now, items, |Free(c, b)|, b);
      }
    }
  }

  /** Health records that changed are true, stored copies stay, and new copies are copies. */
  ghost predicate Truthful(c: Cluster, c': Cluster) {
    && c'.stores.Keys == c.stores.Keys
    && (forall n, b :: Holds(c, n, b) ==> Holds(c', n, b) && c'.stores[n][b] == c.stores[n][b])
    && (forall b, n :: n in ListReplicas(c'.replicas, b) ==>
         (n in ListReplicas(c.replicas, b) && ListReplicas(c'.replicas, b)[n] == ListReplicas(c.replicas, b)[n]) || Holds(c', n, b))
    && (forall n, b :: Holds(c', n, b) ==> CopyOf(c, b, c'.stores[n][b]))
  }

  lemma TruthComposes(c: Cluster, mid: Cluster, c': Cluster)
    requires Truthful(c, mid) && Truthful(mid, c')
    ensures Truthful(c, c')
  {
    hide ListReplicas;
    forall n, b | Holds(c', n, b) ensures CopyOf(c, b, c'.stores[n][b]) {
      var m :| Holds(mid, m, b) && mid.stores[m][b] == c'.stores[n][b];
      assert CopyOf(c, b, mid.stores[m][b]);
    }
  }

  lemma RecordsAt(c: Cluster, b: string, bytes: Blob, t: int, added: set<string>, c': Cluster, b': string, n: string)
    requires Copied(c, b, bytes, t, added, c') && n in ListReplicas(c'.replicas, b')
    ensures (n in ListReplicas(c.replicas, b') && ListReplicas(c'.replicas, b')[n] == ListReplicas(c.replicas, b')[n]) || (b' == b && n in added)
  {
    hide ListReplicas, WithCopies;
  }

  lemma CopyingIsTrue(c: Cluster, b: string, bytes: Blob, t: int, added: set<string>, c': Cluster)
    requires Copied(c, b, bytes, t, added, c') && CopyOf(c, b, bytes) && added <= c.stores.Keys
    ensures Truthful(c, c')
  {
    hide CopyOf, Copied, Holds, ListReplicas;
    StoresAreTrue(c, b, bytes, t, added, c');
    forall b', n | n in ListReplicas(c'.replicas, b')
      ensures (n in ListReplicas(c.replicas, b') && ListReplicas(c'.replicas, b')[n] == ListReplicas(c.replicas, b')[n]) || Holds(c', n, b')
    {
      RecordsAt(c, b, bytes, t, added, c', b', n);
    }
  }

  lemma CopiesAt(stores: map<string, map<string, Blob>>, b: string, bytes: Blob, added: set<string>, n: string)
    requires n in stores
    ensures var s' := WithCopies(stores, b, bytes, added);
            && n in s' && stores[n].Keys <= s'[n].Keys <= stores[n].Keys + {b}
            && (forall b' :: b' in stores[n] ==> s'[n][b'] == stores[n][b'])
            && (b in s'[n] && b !in stores[n] ==> s'[n][b] == bytes)
            && (n in added ==> b in s'[n])
  {
  }

  lemma StoresAreTrue(c: Cluster, b: string, bytes: Blob, t: int, added: set<string>, c': Cluster)
    requires Copied(c, b, bytes, t, added, c') && CopyOf(c, b, bytes) && added <= c.stores.Keys
    ensures c'.stores.Keys == c.stores.Keys
    ensures forall n, b' :: Holds(c, n, b') ==> Holds(c', n, b') && c'.stores[n][b'] == c.stores[n][b']
    ensures forall n :: n in added ==> Holds(c', n, b)
    ensures forall n, b' :: Holds(c', n, b') ==> CopyOf(c, b', c'.stores[n][b'])
  {
    assert c'.stores.Keys == c.stores.Keys;
    hide ListReplicas, WithCopies, WithRecords;
    forall n, b' | Holds(c, n, b') ensures Holds(c', n, b') && c'.stores[n][b'] == c.stores[n][b'] {
      CopiesAt(c.stores, b, bytes, added, n);
    }
    forall n | n in added ensures Holds(c', n, b) {
      CopiesAt(c.stores, b, bytes, added, n);
    }
    forall n, b' | Holds(c', n, b') ensures CopyOf(c, b', c'.stores[n][b']) {
      CopiesAt(c.stores, b, bytes, added, n);
      assert Holds(c, n, b') || b' == b;
    }
  }

  lemma NothingIsTrue(c: Cluster)
    ensures Truthful(c, c)
  {
    forall n, b | Holds(c, n, b) ensures CopyOf(c, b, c.stores[n][b]) {}
  }

  lemma OneRepairIsTrue(c: Cluster, item: RepairItem, t: int, added: set<string>, c': Cluster)
    requires Repaired(c, item, t, added, c')
    ensures Truthful(c, c')
  {
    NothingIsTrue(c);
    hide Truthful, Copied, CopyOf;
    if item.missing > 0 {
      var bytes :| CopyOf(c, item.blobId, bytes) && Copied(c, item.blobId, bytes, t, added, c');
      CopyingIsTrue(c, item.blobId, bytes, t, added, c');
    }
  }

  /** Every health record an execution writes is true: the node holds the blob. Nothing stored is lost. */
  lemma {:induction false} RecordsAreTrue(c: Cluster, items: seq<RepairItem>, t: int, c': Cluster)
    requires Executed(c, items, t, c')
    ensures Truthful(c, c')
  {
    if items == [] {
      NothingIsTrue(c);
    } else {
      var n := |items| - 1;
      var mid, added :| Executed(c, items[..n], t, mid) && Repaired(mid, items[n], t, added, c');
      hide Executed, Repaired, Truthful;
      RecordsAreTrue(c, items[..n], t, mid);
      OneRepairIsTrue(mid, items[n], t, added, c');
      TruthComposes(c, mid, c');
    }
  }

  lemma SameHolders(c: Cluster, c': Cluster, b: string)
    requires Truthful(c, c')
    ensures Held(c, b) <==> Held(c', b)
  {
    if m :| Holds(c', m, b) {
      assert CopyOf(c, b, c'.stores[m][b]);
    }
    if m :| Holds(c, m, b) {
      assert Holds(c', m, b);
    }
  }

  // ----- The executor -----

  lemma NothingCopied(c: Cluster, b: string, bytes: Blob, t: int)
    ensures Copied(c, b, bytes, t, {}, c)
  {
  }

  lemma StoresOne(stores: map<string, map<string, Blob>>, b: string, bytes: Blob, added: set<string>, node: string)
    requires node in stores && node !in added
    ensures var s' := WithCopies(stores, b, bytes, added);
            && node in s' && s'[node] == stores[node]
            && WithCopies(stores, b, bytes, added + {node}) == if b in s'[node] then s' else s'[node := s'[node][b := bytes]]
  {
    var s', s2 := WithCopies(stores, b, bytes, added), WithCopies(stores, b, bytes, added + {node});
    forall n | n in stores && n != node ensures s2[n] == s'[n] {}
  }

  /** The node gets the bytes unless it has them, and a health record. */
  function CopyTo(c: Cluster, b: string, bytes: Blob, t: int, node: string): Cluster
    requires node in c.stores
  {
    Cluster(Upsert(c.replicas, b, node, ReplicaRecord(Healthy, t)),
            if b in c.stores[node] then c.stores else c.stores[node := c.stores[node][b := bytes]])
  }

  lemma CopiesOne(c: Cluster, b: string, bytes: Blob, t: int, added: set<string>, c': Cluster, node: string)
    requires Copied(c, b, bytes, t, added, c') && node in c.stores && node !in added
    ensures node in c'.stores && Copied(c, b, bytes, t, added + {node}, CopyTo(c', b, bytes, t, node))
  {
    StoresOne(c.stores, b, bytes, added, node);
    RecordsOne(c.replicas, c'.replicas, b, t, added, node);
    hide WithCopies, WithRecords, ListReplicas, Upsert;
  }

  lemma RecordsOne(r: Replicas, r': Replicas, b: string, t: int, added: set<string>, node: string)
    requires forall b' :: b' != b ==> ListReplicas(r', b') == ListReplicas(r, b')
    requires ListReplicas(r', b) == WithRecords(r, b, t, added)
    ensures var r2 := Upsert(r', b, node, ReplicaRecord(Healthy, t));
            && (forall b' :: b' != b ==> ListReplicas(r2, b') == ListReplicas(r, b'))
            && ListReplicas(r2, b) == WithRecords(r, b, t, added + {node})
  {
    assert WithRecords(r, b, t, added + {node}) == WithRecords(r, b, t, added)[node := ReplicaRecord(Healthy, t)];
  }

  /** Of the first `i` mesh nodes, those not recorded healthy got a copy, until none is missing. */
  ghost predicate Copying(order: seq<string>, i: nat, healthy: set<string>, now: set<string>, missing: nat, remaining: int, added: set<string>) {
    && i <= |order| && Distinct(order)
    && remaining == missing - |added| && remaining >= 0
    && now == healthy + added
    && added !! healthy && added <= ToSet(order[..i])
    && (remaining > 0 ==> ToSet(order[..i]) <= healthy + added)
  }

  lemma CopyStart(order: seq<string>, healthy: set<string>, missing: nat)
    requires Distinct(order)
    ensures Copying(order, 0, healthy, healthy, missing, missing, {})
  {
    assert healthy + {} == healthy;
    EmptyPrefix(order);
  }

  lemma CopyStep(order: seq<string>, i: nat, healthy: set<string>, now: set<string>, missing: nat, remaining: int, added: set<string>)
    requires Copying(order, i, healthy, now, missing, remaining, added) && i < |order| && remaining > 0
    ensures order[i] in ToSet(order) && order[i] !in added
    ensures order[i] in now ==> Copying(order, i + 1, healthy, now, missing, remaining, added)
    ensures order[i] !in now ==> Copying(order, i + 1, healthy, now + {order[i]}, missing, remaining - 1, added + {order[i]})
  {
    PrefixGrows(order, i);
    hide ToSet, Distinct;
  }

  lemma PrefixWithin(order: seq<string>, i: nat)
    requires i <= |order|
    ensures ToSet(order[..i]) <= ToSet(order)
  {
  }

  lemma CopyStop(order: seq<string>, i: nat, healthy: set<string>, now: set<string>, missing: nat, remaining: int, added: set<string>)
    requires Copying(order, i, healthy, now, missing, remaining, added) && remaining <= 0
    ensures Copying(order, |order|, healthy, now, missing, remaining, added)
  {
    assert order[..|order|] == order;
    PrefixWithin(order, i);
    hide ToSet, Distinct;
  }

  lemma CopyEnd(order: seq<string>, healthy: set<string>, now: set<string>, missing: nat, remaining: int, added: set<string>)
    requires Copying(order, |order|, healthy, now, missing, remaining, added)
    ensures var free := ToSet(order) - healthy; added <= free && |added| == Min(missing, |free|)
  {
    assert order[..|order|] == order;
    hide ToSet, Distinct;
    CountSubset(added, ToSet(order) - healthy);
    assert remaining > 0 ==> added == ToSet(order) - healthy;
  }

  /** `ReplicaStore` and `StoreMesh` behind one executor. */
  class ReplicaExecutor {
    var cluster: Cluster

    constructor (c: Cluster)
      ensures cluster == c
    {
      cluster := c;
    }

    /** The first mesh node, in the order of `node_ids`, that has the blob. */
    method FindSource(blob: string) returns (source: Option<string>)
      ensures source.Some? <==> Held(cluster, blob)
      ensures source.Some? ==> Holds(cluster, source.value, blob)
    {
      var nodes := Listing(cluster.stores.Keys);
      for i := 0 to |nodes|
        invariant forall n :: n in ToSet(nodes[..i]) ==> !Holds(cluster, n, blob)
      {
        assert nodes[i] in ToSet(nodes);
        assert ToSet(nodes[..i + 1]) == ToSet(nodes[..i]) + {nodes[i]};
        if blob in cluster.stores[nodes[i]] {
          assert Holds(cluster, nodes[i], blob);
          return Some(nodes[i]);
        }
      }
      assert nodes[..|nodes|] == nodes;
      return None;
    }

    method CopyToNode(blob: string, bytes: Blob, t: int, node: string)
      requires node in cluster.stores
      modifies this
      ensures cluster == CopyTo(old(cluster), blob, bytes, t, node)
    {
      var stores := cluster.stores;
      if blob !in stores[node] {
        stores := stores[node := stores[node][blob := bytes]];
      }
      cluster := Cluster(Upsert(cluster.replicas, blob, node, ReplicaRecord(Healthy, t)), stores);
    }

    /** The copying loop of `repair_blob`. */
    method Replicate(blob: string, bytes: Blob, missing: nat, t: int) returns (ghost added: set<string>)
      requires missing > 0
      modifies this
      ensures added <= Free(old(cluster), blob) && |added| == Min(missing, |Free(old(cluster), blob)|)
      ensures Copied(old(cluster), blob, bytes, t, added, cluster)
    {
      ghost var c := cluster;
      added := {};
      ghost var healthy := RecordedHealthy(ListReplicas(c.replicas, blob));
      var healthyNodes := RecordedHealthy(ListReplicas(cluster.replicas, blob));
      var remaining := missing;
      var order := Listing(cluster.stores.Keys);
      NothingCopied(c, blob, bytes, t);
      CopyStart(order, healthy, missing);
      hide Copied, CopyTo, ListReplicas, RecordedHealthy, ToSet, Copying;
      ghost var free := Free(c, blob);
      for i := 0 to |order|
        invariant Copying(order, i, healthy, healthyNodes, missing, remaining, added)
        invariant Copied(c, blob, bytes, t, added, cluster)
      {
        if remaining <= 0 {
          CopyStop(order, i, healthy, healthyNodes, missing, remaining, added);
          break;
        }
        CopyStep(order, i, healthy, healthyNodes, missing, remaining, added);
        if order[i] in healthyNodes {
          continue;
        }
        CopiesOne(c, blob, bytes, t, added, cluster, order[i]);
        CopyToNode(blob, bytes, t, order[i]);
        healthyNodes := healthyNodes + {order[i]};
        added := added + {order[i]};
        remaining := remaining - 1;
      }
      CopyEnd(order, healthy, healthyNodes, missing, remaining, added);
    }

    method RepairBlob(item: RepairItem, t: int) returns (r: Result<(), Error>, ghost added: set<string>)
      modifies this
      ensures r.Ok? <==> (item.missing > 0 ==> Held(old(cluster), item.blobId))
      ensures r.Ok? ==> Repaired(old(cluster), item, t, added, cluster)
      ensures r.Err? ==> cluster == old(cluster)
    {
      if item.missing <= 0 {
        return Ok(()), {};
      }
      var source := FindSource(item.blobId);
      if source.None? {
        return Err(NotFound), {};
      }
      var bytes := cluster.stores[source.value][item.blobId];
      assert CopyOf(cluster, item.blobId, bytes);
      hide Copied, Free;
      added := Replicate(item.blobId, bytes, item.missing, t);
      return Ok(()), added;
    }

    /** `execute`: stops at the first item no node holds. */
    method Execute(items: seq<RepairItem>, t: int) returns (r: Result<(), Error>)
      modifies this
      ensures r.Err? ==> StoppedAt(old(cluster), items, t, cluster)
      ensures r.Ok? ==> Executed(old(cluster), items, t, cluster)
      ensures r.Ok? <==> forall x :: x in items && x.missing > 0 ==> Held(old(cluster), x.blobId)
    {
      ghost var c := cluster;
      hide Repaired, Held, Truthful;
      for i := 0 to |items|
        invariant Executed(c, items[..i], t, cluster)
        invariant forall x :: x in items[..i] && x.missing > 0 ==> Held(c, x.blobId)
      {
        ghost var mid := cluster;
        RecordsAreTrue(c, items[..i], t, mid);
        SameHolders(c, mid, items[i].blobId);
        var res, added := RepairBlob(items[i], t);
        if res.Err? {
          assert StoppedAt(c, items, t, cluster);
          return res;
        }
        assert items[..i + 1][..i] == items[..i];
        assert Executed(c, items[..i + 1], t, cluster);
      }
      assert items[..|items|] == items;
      return Ok(());
    }
  }
}
