/** The hot cache of weight clusters, its pins and its shedding. */
module PinRegistry {
  import opened Wrappers
  import opened Numbers
  import opened Ranking
  import Q8Codec

  type Cluster = Q8Codec.Cluster

  datatype Reason = Identity | Logic | FrequentUse | Prefetch

  predicate Protected(r: Reason) { r.Identity? || r.Logic? }

  datatype Entry = Entry(cluster: Cluster, reason: Reason, accessCount: int)

  type Entries = map<string, Entry>

  /** What a restart finds in place of each cluster. */
  const PLACEHOLDER: Cluster := Q8Codec.Cluster([], [], [], 0)

  datatype PinError = ProtectedPin

  function Unprotected(es: Entries): set<string> { set id | id in es && !Protected(es[id].reason) }

  function Counts(es: Entries): map<string, int> { map id | id in es :: es[id].accessCount }

  /** What may be shed: not protected by its pin and not named. */
  function Sheddable(es: Entries, named: set<string>): set<string> { Unprotected(es) - named }

  /** As many of the least used sheddable entries as it takes to get down to `keep`. */
  ghost predicate Shed(es: Entries, named: set<string>, keep: int, gone: set<string>) {
    && gone <= Sheddable(es, named)
    && |gone| == Min(Max(|es| - keep, 0), |Sheddable(es, named)|)
    && forall g, k :: g in gone && k in Sheddable(es, named) - gone ==> es[g].accessCount <= es[k].accessCount
  }

  function Touched(es: Entries, id: string): Entries {
    if id in es then es[id := es[id].(accessCount := es[id].accessCount + 1)] else es
  }

  function Keep(maxEntries: int): int { Max(maxEntries - 1, 0) }

  ghost predicate Pinned(es: Entries, maxEntries: int, id: string, c: Cluster, reason: Reason, es': Entries) {
    exists gone :: Shed(es, {}, Keep(maxEntries), gone) && es' == (es - gone)[id := Entry(c, reason, 1)]
  }

  /** The JSON snapshot: reasons and access counts, no clusters. */
  datatype PinRecord = PinRecord(reason: Reason, accessCount: int)

  datatype Snapshot = Snapshot(maxEntries: int, pins: map<string, PinRecord>)

  function SnapshotOf(es: Entries, maxEntries: int): Snapshot {
    Snapshot(maxEntries, map id | id in es :: PinRecord(es[id].reason, es[id].accessCount))
  }

  function FromRecords(pins: map<string, PinRecord>): Entries {
    map id | id in pins :: Entry(PLACEHOLDER, pins[id].reason, pins[id].accessCount)
  }

  function Restored(es: Entries): Entries { map id | id in es :: es[id].(cluster := PLACEHOLDER) }

  /** Loading a saved registry gives back every pin but its cluster, saving that again gives the same snapshot,
      and the restored registry sheds exactly what the saved one would. */
  lemma SaveLoadRoundTrip(es: Entries, maxEntries: int, named: set<string>, keep: int, gone: set<string>)
    ensures FromRecords(SnapshotOf(es, maxEntries).pins) == Restored(es)
    ensures SnapshotOf(Restored(es), maxEntries) == SnapshotOf(es, maxEntries)
    ensures Shed(Restored(es), named, keep, gone) <==> Shed(es, named, keep, gone)
  {
    assert FromRecords(SnapshotOf(es, maxEntries).pins).Keys == es.Keys == Restored(es).Keys;
    assert |Restored(es).Keys| == |Restored(es)| && |es.Keys| == |es|;
    assert Sheddable(Restored(es), named) == Sheddable(es, named);
  }

  // ----- How many entries a pin leaves -----

  lemma UnprotectedCount(es: Entries)
    ensures |Unprotected(es)| <= |es|
  {
    assert Unprotected(es) <= es.Keys;
    SetSize(Unprotected(es), es.Keys);
  }

  lemma SetSize(a: set<string>, b: set<string>)
    requires a <= b
    ensures |b - a| == |b| - |a| && (|a| == |b| ==> a == b)
  {
    assert b == a + (b - a);
  }

  /** After any pin the unprotected entries number at most max(1, max_entries). */
  lemma PinBoundsUnprotected(es: Entries, maxEntries: int, id: string, c: Cluster, reason: Reason, es': Entries)
    requires Pinned(es, maxEntries, id, c, reason, es')
    ensures |Unprotected(es')| <= Max(1, maxEntries)
  {
    var gone :| Shed(es, {}, Keep(maxEntries), gone) && es' == (es - gone)[id := Entry(c, reason, 1)];
    var u := Unprotected(es);
    UnprotectedCount(es);
    assert Sheddable(es, {}) == u;
    assert Unprotected(es') <= (u - gone) + {id};
    assert gone <= u && |gone| == Min(Max(|es| - Keep(maxEntries), 0), |u|);
    hide Unprotected, Sheddable, Shed;
    SetSize(gone, u);
    SetSize(Unprotected(es'), (u - gone) + {id});
    assert |(u - gone) + {id}| <= |u - gone| + 1;
  }

  lemma SizesAfter(es: Entries, gone: set<string>, id: string, e: Entry)
    requires gone <= es.Keys && id !in es
    ensures |(es - gone)[id := e]| == |es| - |gone| + 1
  {
    var es' := (es - gone)[id := e];
    SetSize(gone, es.Keys);
    assert es'.Keys == (es.Keys - gone) + {id};
    assert |es.Keys| == |es| && |es'.Keys| == |es'|;
  }

  /** A pin sets its own entry, keeps the others it keeps as they were, and loses no protected one. */
  lemma PinKeeps(es: Entries, maxEntries: int, id: string, c: Cluster, reason: Reason, es': Entries)
    requires Pinned(es, maxEntries, id, c, reason, es')
    ensures id in es' && es'[id] == Entry(c, reason, 1)
    ensures forall k :: k in es' && k != id ==> k in es && es'[k] == es[k]
    ensures forall k :: k in es && (es[k].reason == Identity || es[k].reason == Logic) ==> k in es'
  {
  }

  /** A pin below the limit evicts nothing; at the limit it evicts exactly as many unprotected entries as it must, or has. */
  lemma PinEvicts(es: Entries, maxEntries: int, id: string, c: Cluster, reason: Reason, es': Entries)
    requires Pinned(es, maxEntries, id, c, reason, es')
    ensures |es| < maxEntries ==> es' == es[id := Entry(c, reason, 1)]
    ensures id !in es ==>
              var over := if maxEntries > 0 then |es| + 1 - maxEntries else |es|;
              |es'| == |es| + 1 - Min(Max(over, 0), |set k | k in es && es[k].reason != Identity && es[k].reason != Logic|)
  {
    var gone :| Shed(es, {}, Keep(maxEntries), gone) && es' == (es - gone)[id := Entry(c, reason, 1)];
    ShedCount(es, Keep(maxEntries), gone);
    hide Shed, Protected, Unprotected;
    if id !in es {
      SizesAfter(es, gone, id, Entry(c, reason, 1));
    }
  }

  lemma ShedCount(es: Entries, keep: int, gone: set<string>)
    requires Shed(es, {}, keep, gone)
    ensures gone <= es.Keys && |gone| == Min(Max(|es| - keep, 0), |set k | k in es && es[k].reason != Identity && es[k].reason != Logic|)
    ensures |es| <= keep ==> es - gone == es
  {
    assert Sheddable(es, {}) == set k | k in es && es[k].reason != Identity && es[k].reason != Logic;
    assert |gone| == 0 ==> gone == {};
  }

  /** Of two unprotected entries, a pin never evicts the one used more often and keeps the other. */
  lemma UsedMoreOutlives(es: Entries, maxEntries: int, id: string, c: Cluster, reason: Reason, es': Entries, more: string, less: string)
    requires Pinned(es, maxEntries, id, c, reason, es') && more in es && less in es && less != id
    requires !Protected(es[less].reason) && es[more].accessCount > es[less].accessCount
    ensures less in es' ==> more in es'
  {
  }

  /** The entries after these clusters were read, in order. */
  function Read(es: Entries, ids: seq<string>): Entries {
    if ids == [] then es else Touched(Read(es, ids[..|ids| - 1]), ids[|ids| - 1])
  }

  lemma {:induction false} ReadsAreCounted(es: Entries, ids: seq<string>, id: string)
    ensures Read(es, ids).Keys == es.Keys
    ensures id in es ==> Read(es, ids)[id] == es[id].(accessCount := es[id].accessCount + multiset(ids)[id])
  {
    if ids != [] {
      ReadsAreCounted(es, ids[..|ids| - 1], id);
      assert ids == ids[..|ids| - 1] + [ids[|ids| - 1]];
    }
  }

  /** Of two entries used alike so far, the one read more often since outlives the other at the next pin. */
  lemma ReadMoreOutlives(es: Entries, ids: seq<string>, maxEntries: int, id: string, c: Cluster, reason: Reason, es': Entries, more: string, less: string)
    requires Pinned(Read(es, ids), maxEntries, id, c, reason, es') && more in es && less in es && less != id
    requires !Protected(es[less].reason) && es[more].accessCount == es[less].accessCount && multiset(ids)[more] > multiset(ids)[less]
    ensures less in es' ==> more in es'
  {
    ReadsAreCounted(es, ids, more);
    ReadsAreCounted(es, ids, less);
    hide Read, Pinned;
    UsedMoreOutlives(Read(es, ids), maxEntries, id, c, reason, es', more, less);
  }

  /** Shedding never loses an identity or logic pin or a named entry, and keeps what it keeps as it was. */
  lemma ShedKeepsProtected(es: Entries, named: set<string>, keep: int, gone: set<string>, id: string)
    requires Shed(es, named, keep, gone) && id in es && (es[id].reason == Identity || es[id].reason == Logic || id in named)
    ensures id in es - gone && (es - gone)[id] == es[id]
  {
  }

  class WeightPinRegistry {
    var entries: Entries
    var maxEntries: int

    constructor (maxEntries: int)
      ensures entries == map[] && this.maxEntries == maxEntries
    {
      entries, this.maxEntries := map[], maxEntries;
    }

    /** `load`: a missing or zero bound means the stored one. */
    constructor Load(snapshot: Option<Snapshot>, bound: Option<int>)
      ensures snapshot.None? ==> entries == map[]
      ensures snapshot.Some? ==> entries.Keys == snapshot.value.pins.Keys
      ensures snapshot.Some? ==> forall id :: id in entries ==>
                var pin := snapshot.value.pins[id]; entries[id] == Entry(PLACEHOLDER, pin.reason, pin.accessCount)
      ensures maxEntries ==
                if bound.Some? && bound.value != 0 then bound.value
                else if snapshot.Some? then snapshot.value.maxEntries else 256
    {
      if snapshot.None? {
        entries := map[];
        maxEntries := if bound.Some? && bound.value != 0 then bound.value else 256;
      } else {
        entries := FromRecords(snapshot.value.pins);
        maxEntries := if bound.Some? && bound.value != 0 then bound.value else snapshot.value.maxEntries;
      }
    }

    /** `save`: every pin's reason and access count, and the limit; the clusters are left behind. */
    method Save() returns (snapshot: Snapshot)
      ensures snapshot.maxEntries == maxEntries && snapshot.pins.Keys == entries.Keys
      ensures forall id :: id in entries ==>
                snapshot.pins[id].reason == entries[id].reason && snapshot.pins[id].accessCount == entries[id].accessCount
    {
      return SnapshotOf(entries, maxEntries);
    }

    method Get(id: string) returns (c: Option<Cluster>)
      modifies this`entries
      ensures entries == Touched(old(entries), id)
      ensures c == if id in old(entries) then Some(old(entries)[id].cluster) else None
      ensures id in old(entries) ==>
                entries == old(entries)[id := Entry(c.value, old(entries)[id].reason, old(entries)[id].accessCount + 1)]
      ensures id !in old(entries) ==> entries == old(entries)
    {
      if id !in entries {
        return None;
      }
      entries := entries[id := entries[id].(accessCount := entries[id].accessCount + 1)];
      return Some(entries[id].cluster);
    }

    method Hydrate(id: string, c: Cluster) returns (ok: bool)
      modifies this`entries
      ensures ok == (id in old(entries))
      ensures entries == if ok then old(entries)[id := old(entries)[id].(cluster := c)] else old(entries)
    {
      if id !in entries {
        return false;
      }
      entries := entries[id := entries[id].(cluster := c)];
      return true;
    }

    method Unpin(id: string) returns (r: Result<bool, PinError>)
      modifies this`entries
      ensures r == if id !in old(entries) then Ok(false)
                   else if Protected(old(entries)[id].reason) then Err(ProtectedPin) else Ok(true)
      ensures entries == if r == Ok(true) then old(entries) - {id} else old(entries)
    {
      if id !in entries {
        return Ok(false);
      }
      if Protected(entries[id].reason) {
        return Err(ProtectedPin);
      }
      entries := entries - {id};
      return Ok(true);
    }

    /** What remains is exactly the protected and the active entries, unchanged. */
    method ShedNonActive(active: set<string>) returns (evicted: nat)
      modifies this`entries
      ensures forall id :: id in entries <==> id in old(entries) && (Protected(old(entries)[id].reason) || id in active)
      ensures forall id :: id in entries ==> entries[id] == old(entries)[id]
      ensures evicted == |old(entries)| - |entries|
      ensures entries == old(entries) - Sheddable(old(entries), active)
    {
      ghost var es := entries;
      var gone := Sheddable(entries, active);
      entries := entries - gone;
      SetSize(gone, es.Keys);
      assert entries.Keys == es.Keys - gone;
      assert |es.Keys| == |es| && |entries.Keys| == |entries|;
      return |gone|;
    }

    /** Pops candidates from the front until the limit is met or none is left. */
    method PopCandidates(candidates: seq<string>, keep: int) returns (evicted: nat)
      requires Distinct(candidates) && ToSet(candidates) <= entries.Keys && |entries| > keep
      modifies this`entries
      ensures evicted == Min(|old(entries)| - keep, |candidates|)
      ensures entries == old(entries) - ToSet(candidates[..evicted]) && |ToSet(candidates[..evicted])| == evicted
    {
      ghost var es := entries;
      evicted := 0;
      while |entries| > keep && evicted < |candidates|
        invariant evicted <= |candidates| && |ToSet(candidates[..evicted])| == evicted
        invariant entries == es - ToSet(candidates[..evicted])
        invariant |entries| == |es| - evicted >= keep
      {
        PrefixGrows(candidates, evicted);
        var id := candidates[evicted];
        assert id in ToSet(candidates);
        DropOne(es, ToSet(candidates[..evicted]), id);
        entries := entries - {id};
        evicted := evicted + 1;
      }
    }

    method ShedExcept(named: set<string>, keep: int) returns (evicted: nat, ghost gone: set<string>)
      modifies this`entries
      ensures Shed(old(entries), named, keep, gone) && entries == old(entries) - gone
      ensures evicted == |gone|
    {
      ghost var es := entries;
      evicted, gone := 0, {};
      if |entries| <= keep {
        assert entries == es - {};
        return;
      }
      hide Shed;
      var sheddable := Sheddable(entries, named);
      var candidates := SortBy(sheddable, Counts(entries));
      assert ToSet(candidates) == sheddable;
      DistinctCount(candidates);
      evicted := PopCandidates(candidates, keep);
      gone := ToSet(candidates[..evicted]);
      ShedInOrder(es, named, keep, candidates, evicted);
    }

    method Pin(id: string, c: Cluster, reason: Reason)
      modifies this`entries
      ensures Pinned(old(entries), maxEntries, id, c, reason, entries)
    {
      var _, gone := ShedExcept({}, Keep(maxEntries));
      entries := entries[id := Entry(c, reason, 1)];
    }
  }

  lemma DropOne(es: Entries, gone: set<string>, id: string)
    requires id in es && id !in gone
    ensures es - gone - {id} == es - (gone + {id}) && |es - gone - {id}| == |es - gone| - 1
  {
    assert (es - gone).Keys == (es - gone - {id}).Keys + {id};
    assert |(es - gone).Keys| == |es - gone| && |(es - gone - {id}).Keys| == |es - gone - {id}|;
  }

  lemma ShedInOrder(es: Entries, named: set<string>, keep: int, candidates: seq<string>, n: nat)
    requires n <= |candidates| && Distinct(candidates) && ToSet(candidates) == Sheddable(es, named)
    requires |candidates| == |Sheddable(es, named)| && n == Min(Max(|es| - keep, 0), |candidates|) && |ToSet(candidates[..n])| == n
    requires (forall k :: k in candidates ==> k in Counts(es)) && Sorted(candidates, Counts(es))
    ensures Shed(es, named, keep, ToSet(candidates[..n]))
  {
    var gone := ToSet(candidates[..n]);
    assert forall k :: k in Sheddable(es, named) ==> k in es;
    forall g | g in gone ensures g in Sheddable(es, named) {
      var i := PlaceOf(candidates[..n], g);
      assert candidates[i] in ToSet(candidates);
    }
    forall g, k | g in gone && k in Sheddable(es, named) - gone ensures es[g].accessCount <= es[k].accessCount {
      EarlierIsLess(es, candidates, n, g, k);
    }
    hide ToSet, Sheddable, Sorted, Counts;
  }

  lemma PlaceOf(q: seq<string>, x: string) returns (i: nat)
    requires x in ToSet(q)
    ensures i < |q| && q[i] == x
  {
    i :| 0 <= i < |q| && q[i] == x;
  }

  lemma EarlierIsLess(es: Entries, candidates: seq<string>, n: nat, g: string, k: string)
    requires n <= |candidates| && (forall k :: k in candidates ==> k in Counts(es)) && Sorted(candidates, Counts(es))
    requires g in ToSet(candidates[..n]) && k in ToSet(candidates) && k !in ToSet(candidates[..n]) && g in es && k in es
    ensures es[g].accessCount <= es[k].accessCount
  {
    var i := PlaceOf(candidates[..n], g);
    var j := PlaceOf(candidates, k);
    assert forall x :: 0 <= x < n ==> candidates[..n][x] in ToSet(candidates[..n]) && candidates[..n][x] == candidates[x];
    assert j >= n;
    assert Counts(es)[candidates[i]] <= Counts(es)[candidates[j]];
  }
}
