/** Reference counts, the handlers that move them, and the garbage collector that trusts them. */
module RefGc {
  import opened Wrappers
  import opened Numbers
  import opened Ranking
  import opened Stores

  datatype Rep = Rep(name: string, roots: seq<string>)

  datatype Origin = Origin(createdAt: int, reps: seq<Rep>, tombstoned: bool)

  datatype Edge = Edge(origin: string, blob: string, name: string)

  datatype Tombstone = OriginTombstone(origin: string, at: int) | BlobTombstone(blob: string, at: int)

  datatype Error = NotFound | Conflict | BadRequest

  type Counts = map<string, int>

  /** `ttls` is the policy store: the TTL of each origin with a policy. */
  datatype Sys = Sys(
    blobs: map<string, Blob>,
    blobCounts: Counts,
    originCounts: Counts,
    registry: map<string, Origin>,
    ttls: map<string, Option<int>>,
    edges: seq<Edge>)

  // ----- Counters -----

  function Count(m: Counts, k: string): int { if k in m then m[k] else 0 }

  function Inc(m: Counts, k: string): Counts { m[k := Count(m, k) + 1] }

  /** Decrement, clamped at zero. */
  function Dec(m: Counts, k: string): Counts { m[k := Max(Count(m, k) - 1, 0)] }

  function IncAll(m: Counts, ks: seq<string>): Counts {
    if ks == [] then m else Inc(IncAll(m, ks[..|ks| - 1]), ks[|ks| - 1])
  }

  function DecAll(m: Counts, ks: seq<string>): Counts {
    if ks == [] then m else Dec(DecAll(m, ks[..|ks| - 1]), ks[|ks| - 1])
  }

  function Occ(ks: seq<string>, k: string): nat { multiset(ks)[k] }

  lemma OccSnoc(ks: seq<string>, k: string)
    requires ks != []
    ensures Occ(ks, k) == Occ(ks[..|ks| - 1], k) + if ks[|ks| - 1] == k then 1 else 0
  {
    assert ks == ks[..|ks| - 1] + [ks[|ks| - 1]];
  }

  lemma OccAppend(a: seq<string>, b: seq<string>, k: string)
    ensures Occ(a + b, k) == Occ(a, k) + Occ(b, k)
    ensures Occ(a, k) > 0 <==> k in a
  {
  }

  lemma {:induction false} IncAllCounts(m: Counts, ks: seq<string>, k: string)
    ensures Count(IncAll(m, ks), k) == Count(m, k) + Occ(ks, k)
    ensures k in IncAll(m, ks) <==> k in m || k in ks
  {
    if ks != [] {
      IncAllCounts(m, ks[..|ks| - 1], k);
      OccSnoc(ks, k);
      assert k in ks <==> k in ks[..|ks| - 1] || k == ks[|ks| - 1];
    }
  }

  /** Releasing what is held takes off exactly that, and the clamp never fires. */
  lemma {:induction false} DecAllCounts(m: Counts, ks: seq<string>, k: string)
    requires Count(m, k) >= Occ(ks, k)
    ensures Count(DecAll(m, ks), k) == Count(m, k) - Occ(ks, k)
    ensures k in DecAll(m, ks) <==> k in m || k in ks
  {
    if ks != [] {
      OccSnoc(ks, k);
      DecAllCounts(m, ks[..|ks| - 1], k);
      assert k in ks <==> k in ks[..|ks| - 1] || k == ks[|ks| - 1];
    }
  }

  // ----- What the operations do -----

  function Roots(reps: seq<Rep>): seq<string> {
    if reps == [] then [] else Roots(reps[..|reps| - 1]) + reps[|reps| - 1].roots
  }

  function Repeated(o: string, n: nat): seq<string> { seq(n, i => o) }

  function RepEdges(o: string, reps: seq<Rep>): seq<Edge> {
    if reps == [] then []
    else RepEdges(o, reps[..|reps| - 1]) + EdgesTo(o, reps[|reps| - 1].name, reps[|reps| - 1].roots)
  }

  function EdgesTo(o: string, name: string, roots: seq<string>): seq<Edge> {
    seq(|roots|, i requires 0 <= i < |roots| => Edge(o, roots[i], name))
  }

  predicate Present(blobs: map<string, Blob>, rep: Rep) { forall b :: b in rep.roots ==> b in blobs }

  /** How many leading representations are complete; the handler stops at the first that is not. */
  function Complete(blobs: map<string, Blob>, reps: seq<Rep>): (n: nat)
    ensures n <= |reps|
    ensures forall i :: 0 <= i < n ==> Present(blobs, reps[i])
    ensures n < |reps| ==> !Present(blobs, reps[n])
  {
    if reps == [] || !Present(blobs, reps[0]) then 0 else 1 + Complete(blobs, reps[1..])
  }

  lemma {:induction false} CompleteUnique(blobs: map<string, Blob>, reps: seq<Rep>, n: nat)
    requires n <= |reps| && forall i :: 0 <= i < n ==> Present(blobs, reps[i])
    requires n < |reps| ==> !Present(blobs, reps[n])
    ensures Complete(blobs, reps) == n
  {
    hide Present;
    if n > 0 {
      CompleteUnique(blobs, reps[1..], n - 1);
    }
  }

  /** The state once the first `n` representations were counted. */
  function Counted(s: Sys, o: string, reps: seq<Rep>, n: nat): Sys
    requires n <= |reps|
  {
    s.(ttls := s.ttls[o := None],
       originCounts := IncAll(s.originCounts, Repeated(o, n)),
       blobCounts := IncAll(s.blobCounts, Roots(reps[..n])),
       edges := s.edges + RepEdges(o, reps[..n]))
  }

  /** Registered exactly when all representations are complete (and the fresh id is unused). */
  function Created(s: Sys, o: string, reps: seq<Rep>, now: int): Sys {
    var n := Complete(s.blobs, reps);
    var s' := Counted(s, o, reps, n);
    if n == |reps| && o !in s.registry then s'.(registry := s.registry[o := Origin(now, reps, false)]) else s'
  }

  function Ids(hash: Blob -> string, data: seq<Blob>): seq<string> {
    seq(|data|, i requires 0 <= i < |data| => hash(data[i]))
  }

  function PutAll(hash: Blob -> string, blobs: map<string, Blob>, data: seq<Blob>): map<string, Blob> {
    if data == [] then blobs
    else PutAll(hash, blobs, data[..|data| - 1])[hash(data[|data| - 1]) := data[|data| - 1]]
  }

  /** The upload service: store the chunks and the root, register one representation, count root and chunks. */
  function Uploaded(hash: Blob -> string, s: Sys, o: string, root: Blob, chunks: seq<Blob>, ttl: Option<int>, now: int): Sys {
    var s1 := s.(ttls := s.ttls[o := ttl], blobs := PutAll(hash, s.blobs, chunks + [root]));
    if o in s.registry then s1
    else
      s1.(registry := s.registry[o := Origin(now, [Rep("source", [hash(root)])], false)],
          originCounts := Inc(s.originCounts, o),
          blobCounts := IncAll(Inc(s.blobCounts, hash(root)), Ids(hash, chunks)),
          edges := s.edges + [Edge(o, hash(root), "source")])
  }

  /** `tombstone_origin`: the matched release of a registered origin. */
  function Tombstoned(s: Sys, o: string): Sys {
    if o !in s.registry then s
    else
      var rec := s.registry[o];
      s.(originCounts := DecAll(s.originCounts, Repeated(o, |rec.reps|)),
         blobCounts := DecAll(s.blobCounts, Roots(rec.reps)),
         registry := s.registry[o := Origin(rec.createdAt, [], true)])
  }

  function Deleted(s: Sys, b: string): Sys {
    if b in s.blobs && Count(s.blobCounts, b) <= 0 then s.(blobs := s.blobs - {b}) else s
  }

  function BlobStored(hash: Blob -> string, s: Sys, body: Blob, expected: Option<string>): Sys {
    if expected.Some? && expected.value != hash(body) then s
    else if hash(body) in s.blobs then s
    else s.(blobs := s.blobs[hash(body) := body])
  }

  // ----- Planning a collection -----

  /** Unreferenced and unpinned; only these are looked up in the policy store. */
  predicate Idle(s: Sys, pins: Pins, o: string) { Count(s.originCounts, o) == 0 && !AnyActive(pins, o) }

  /** The lookups the planner makes succeed. */
  predicate Plannable(s: Sys, pins: Pins) {
    forall o :: o in s.originCounts && Idle(s, pins, o) ==> o in s.ttls && (s.ttls[o].Some? ==> o in s.registry)
  }

  predicate Expired(s: Sys, o: string, now: int) {
    o in s.ttls && (s.ttls[o].Some? ==> o in s.registry && now >= s.registry[o].createdAt + s.ttls[o].value)
  }

  function DueOrigins(s: Sys, pins: Pins, now: int): set<string> {
    set o | o in s.originCounts && Idle(s, pins, o) && Expired(s, o, now)
  }

  function DueBlobs(s: Sys): set<string> { set b | b in s.blobCounts && s.blobCounts[b] == 0 }

  function Collected(s: Sys, pins: Pins): Sys {
    if Plannable(s, pins) then s.(blobs := s.blobs - DueBlobs(s)) else s
  }

  // ----- What an answer says about the counters -----

  /** How often the representations name blob `b`. */
  function Named(reps: seq<Rep>, b: string): nat {
    if reps == [] then 0 else Named(reps[..|reps| - 1], b) + multiset(reps[|reps| - 1].roots)[b]
  }

  lemma {:induction false} NamedIsOcc(reps: seq<Rep>, b: string)
    ensures Occ(Roots(reps), b) == Named(reps, b)
  {
    if reps != [] {
      NamedIsOcc(reps[..|reps| - 1], b);
      OccAppend(Roots(reps[..|reps| - 1]), reps[|reps| - 1].roots, b);
    }
  }

  /** Each blob's counter rose by how often the representations name it, the origin's by their number; no other origin's changed. */
  ghost predicate CountedUp(before: Sys, after: Sys, o: string, reps: seq<Rep>) {
    && (forall b :: Count(after.blobCounts, b) == Count(before.blobCounts, b) + Named(reps, b))
    && (forall p :: Count(after.originCounts, p) == Count(before.originCounts, p) + if p == o then |reps| else 0)
  }

  /** Each counter that held that much fell by as much. */
  ghost predicate CountedDown(before: Sys, after: Sys, o: string, reps: seq<Rep>) {
    && (forall b :: Count(before.blobCounts, b) >= Named(reps, b) ==> Count(after.blobCounts, b) == Count(before.blobCounts, b) - Named(reps, b))
    && (forall p :: p != o ==> Count(after.originCounts, p) == Count(before.originCounts, p))
    && (Count(before.originCounts, o) >= |reps| ==> Count(after.originCounts, o) == Count(before.originCounts, o) - |reps|)
  }

  /** A creation that succeeds registers the origin and counts it; one that fails registers nothing. */
  ghost predicate CreateAnswers(s: Sys, s': Sys, o: string, reps: seq<Rep>, now: int, ok: bool) {
    && s'.blobs == s.blobs
    && s'.registry == (if ok then s.registry[o := Origin(now, reps, false)] else s.registry)
    && (ok ==> CountedUp(s, s', o, reps) && EdgesAdded(s, s', o, reps))
  }

  /** One edge more for every root of every representation. */
  ghost predicate EdgesAdded(s: Sys, s': Sys, o: string, reps: seq<Rep>) {
    && s.edges <= s'.edges
    && forall e :: e in s'.edges[|s.edges|..] <==> EdgeOf(o, reps, e)
  }

  ghost predicate EdgeOf(o: string, reps: seq<Rep>, e: Edge) {
    exists i, j :: 0 <= i < |reps| && 0 <= j < |reps[i].roots| && e == Edge(o, reps[i].roots[j], reps[i].name)
  }

  lemma {:induction false} EdgesOfReps(o: string, reps: seq<Rep>, e: Edge)
    ensures e in RepEdges(o, reps) <==> EdgeOf(o, reps, e)
  {
    if reps != [] {
      var n := |reps| - 1;
      EdgesOfReps(o, reps[..n], e);
      assert forall i :: 0 <= i < n ==> reps[..n][i] == reps[i];
      if j :| 0 <= j < |reps[n].roots| && e == Edge(o, reps[n].roots[j], reps[n].name) {
        assert EdgesTo(o, reps[n].name, reps[n].roots)[j] == e;
      }
    }
  }

  lemma CreatedEdges(s: Sys, o: string, reps: seq<Rep>, now: int)
    requires Complete(s.blobs, reps) == |reps|
    ensures EdgesAdded(s, Created(s, o, reps, now), o, reps)
  {
    hide Roots, IncAll, RepEdges, EdgeOf, EdgesTo, Repeated;
    assert reps[..|reps|] == reps;
    forall e ensures e in RepEdges(o, reps) <==> EdgeOf(o, reps, e) {
      EdgesOfReps(o, reps, e);
    }
    assert Created(s, o, reps, now).edges == s.edges + RepEdges(o, reps);
    hide Created;
    assert (s.edges + RepEdges(o, reps))[|s.edges|..] == RepEdges(o, reps);
  }

  lemma CreatedAnswers(s: Sys, o: string, reps: seq<Rep>, now: int)
    ensures CreateAnswers(s, Created(s, o, reps, now), o, reps, now, Complete(s.blobs, reps) == |reps| && o !in s.registry)
  {
    if Complete(s.blobs, reps) == |reps| {
      CreatedCounts(s, o, reps, now);
      CreatedEdges(s, o, reps, now);
    }
    hide CountedUp, EdgesAdded, Roots, IncAll, Repeated, RepEdges;
  }

  lemma CreatedCounts(s: Sys, o: string, reps: seq<Rep>, now: int)
    requires Complete(s.blobs, reps) == |reps|
    ensures CountedUp(s, Created(s, o, reps, now), o, reps)
  {
    hide Roots, IncAll, Occ, Named, Repeated, RepEdges, Complete;
    assert reps[..|reps|] == reps;
    var s' := Created(s, o, reps, now);
    assert s'.blobCounts == IncAll(s.blobCounts, Roots(reps)) && s'.originCounts == IncAll(s.originCounts, Repeated(o, |reps|));
    hide Created;
    forall b ensures Count(s'.blobCounts, b) == Count(s.blobCounts, b) + Named(reps, b) {
      BlobsUp(s.blobCounts, reps, b);
    }
    forall p ensures Count(s'.originCounts, p) == Count(s.originCounts, p) + if p == o then |reps| else 0 {
      OriginsUp(s.originCounts, o, |reps|, p);
    }
  }

  lemma BlobsUp(m: Counts, reps: seq<Rep>, b: string)
    ensures Count(IncAll(m, Roots(reps)), b) == Count(m, b) + Named(reps, b)
  {
    hide Roots, IncAll, Occ, Named, Count;
    IncAllCounts(m, Roots(reps), b);
    NamedIsOcc(reps, b);
  }

  lemma OriginsUp(m: Counts, o: string, n: nat, p: string)
    ensures Count(IncAll(m, Repeated(o, n)), p) == Count(m, p) + if p == o then n else 0
  {
    hide IncAll, Occ, Repeated, Count;
    IncAllCounts(m, Repeated(o, n), p);
    OccRepeated(o, n, p);
  }

  lemma TombstonedCounts(s: Sys, o: string)
    requires o in s.registry
    ensures CountedDown(s, Tombstoned(s, o), o, s.registry[o].reps)
  {
    hide Roots, DecAll, Occ, Named, Repeated;
    var reps := s.registry[o].reps;
    forall b | Count(s.blobCounts, b) >= Named(reps, b)
      ensures Count(DecAll(s.blobCounts, Roots(reps)), b) == Count(s.blobCounts, b) - Named(reps, b)
    {
      NamedIsOcc(reps, b);
      DecAllCounts(s.blobCounts, Roots(reps), b);
    }
    forall p | Count(s.originCounts, p) >= if p == o then |reps| else 0
      ensures Count(DecAll(s.originCounts, Repeated(o, |reps|)), p) == Count(s.originCounts, p) - if p == o then |reps| else 0
    {
      OccRepeated(o, |reps|, p);
      DecAllCounts(s.originCounts, Repeated(o, |reps|), p);
    }
    forall p | p != o ensures Count(DecAll(s.originCounts, Repeated(o, |reps|)), p) == Count(s.originCounts, p) {
      OthersUntouched(s.originCounts, o, |reps|, p);
    }
  }

  lemma {:induction false} OthersUntouched(m: Counts, o: string, n: nat, p: string)
    requires p != o
    ensures Count(DecAll(m, Repeated(o, n)), p) == Count(m, p)
  {
    if n > 0 {
      assert Repeated(o, n)[..n - 1] == Repeated(o, n - 1);
      OthersUntouched(m, o, n - 1, p);
    }
  }

  /** An upload counts its root once and every chunk as often as it occurs. */
  ghost predicate UploadCounted(hash: Blob -> string, before: Sys, after: Sys, root: Blob, chunks: seq<Blob>) {
    forall b :: Count(after.blobCounts, b) ==
      Count(before.blobCounts, b) + (if b == hash(root) then 1 else 0) + multiset(Ids(hash, chunks))[b]
  }

  /** Every piece is stored; a new origin is registered with its root as its only representation, and counted. */
  ghost predicate UploadAnswers(hash: Blob -> string, s: Sys, s': Sys, o: string, root: Blob, chunks: seq<Blob>, ttl: Option<int>, now: int, ok: bool) {
    && (forall i :: 0 <= i < |chunks| ==> hash(chunks[i]) in s'.blobs) && hash(root) in s'.blobs
    && s'.registry == (if ok then s.registry[o := Origin(now, [Rep("source", [hash(root)])], false)] else s.registry)
    && s'.ttls == s.ttls[o := ttl]
    && (ok ==> UploadCounted(hash, s, s', root, chunks) && s'.edges == s.edges + [Edge(o, hash(root), "source")])
  }

  lemma {:induction false} PutAllHas(hash: Blob -> string, blobs: map<string, Blob>, data: seq<Blob>)
    ensures forall i :: 0 <= i < |data| ==> hash(data[i]) in PutAll(hash, blobs, data)
  {
    if data != [] {
      PutAllHas(hash, blobs, data[..|data| - 1]);
    }
  }

  lemma UploadedAnswers(hash: Blob -> string, s: Sys, o: string, root: Blob, chunks: seq<Blob>, ttl: Option<int>, now: int)
    ensures UploadAnswers(hash, s, Uploaded(hash, s, o, root, chunks, ttl, now), o, root, chunks, ttl, now, o !in s.registry)
  {
    if o !in s.registry {
      UploadedCounts(hash, s, o, root, chunks, ttl, now);
    }
    var all := chunks + [root];
    PutAllHas(hash, s.blobs, all);
    assert all[|chunks|] == root && forall i :: 0 <= i < |chunks| ==> all[i] == chunks[i];
    hide UploadCounted, PutAll, IncAll;
  }

  lemma UploadedCounts(hash: Blob -> string, s: Sys, o: string, root: Blob, chunks: seq<Blob>, ttl: Option<int>, now: int)
    requires o !in s.registry
    ensures UploadCounted(hash, s, Uploaded(hash, s, o, root, chunks, ttl, now), root, chunks)
  {
    hide PutAll;
    forall b ensures Count(IncAll(Inc(s.blobCounts, hash(root)), Ids(hash, chunks)), b) ==
      Count(s.blobCounts, b) + (if b == hash(root) then 1 else 0) + multiset(Ids(hash, chunks))[b]
    {
      IncAllCounts(Inc(s.blobCounts, hash(root)), Ids(hash, chunks), b);
      hide IncAll;
    }
  }

  /** Tracked, unreferenced, without an active pin, and out of its time to live. */
  ghost predicate DueNow(s: Sys, pins: Pins, now: int, o: string) {
    && o in s.originCounts && s.originCounts[o] == 0
    && !(o in pins && exists p :: p in pins[o] && !p.Released?)
    && o in s.ttls && (s.ttls[o] == None || (o in s.registry && now - s.registry[o].createdAt >= s.ttls[o].value))
  }

  lemma DueIff(s: Sys, pins: Pins, now: int, o: string)
    ensures o in DueOrigins(s, pins, now) <==> DueNow(s, pins, now, o)
  {
  }

  // ----- The accounting invariant -----

  /** References to blob `b` by the representations of registered origins. */
  ghost function Refs(reg: map<string, Origin>, b: string): nat {
    if reg == map[] then 0
    else
      var o :| o in reg;
      Occ(Roots(reg[o].reps), b) + Refs(reg - {o}, b)
  }

  lemma {:induction false} RefsExtract(reg: map<string, Origin>, o: string, b: string)
    requires o in reg
    ensures Refs(reg, b) == Occ(Roots(reg[o].reps), b) + Refs(reg - {o}, b)
    decreases |reg|
  {
    hide Occ, Roots;
    var p :| p in reg && Refs(reg, b) == Occ(Roots(reg[p].reps), b) + Refs(reg - {p}, b);
    if p != o {
      RefsExtract(reg - {p}, o, b);
      RefsExtract(reg - {o}, p, b);
      assert reg - {p} - {o} == reg - {o} - {p};
    }
  }

  lemma RefsSet(reg: map<string, Origin>, o: string, rec: Origin, b: string)
    ensures Refs(reg[o := rec], b) == Refs(reg, b) + Occ(Roots(rec.reps), b) - if o in reg then Occ(Roots(reg[o].reps), b) else 0
  {
    hide Occ, Roots, Refs;
    RefsExtract(reg[o := rec], o, b);
    assert reg[o := rec] - {o} == reg - {o};
    if o in reg {
      RefsExtract(reg, o, b);
    } else {
      assert reg - {o} == reg;
    }
  }

  /** References counted but held by no registered representation. */
  datatype Leak = Leak(blobs: multiset<string>, origins: multiset<string>) {
    function Plus(other: Leak): Leak { Leak(blobs + other.blobs, origins + other.origins) }
  }

  const NO_LEAK := Leak(multiset{}, multiset{})

  function RepCount(s: Sys, o: string): nat { if o in s.registry then |s.registry[o].reps| else 0 }

  /** Counts are outstanding references plus leaks, counted blobs are stored, stored blobs are what their ids say. */
  ghost predicate Inv(hash: Blob -> string, s: Sys, l: Leak) {
    && (forall b :: Count(s.blobCounts, b) == Refs(s.registry, b) + l.blobs[b])
    && (forall o :: Count(s.originCounts, o) == RepCount(s, o) + l.origins[o])
    && (forall b :: Count(s.blobCounts, b) > 0 ==> b in s.blobs)
    && (forall b :: b in s.blobs ==> hash(s.blobs[b]) == b)
    && (forall o :: o in s.originCounts ==> o in s.ttls)
    && (forall o :: o in s.originCounts && o !in s.registry ==> s.originCounts[o] > 0)
  }

  lemma OccRepeated(o: string, n: nat, k: string)
    ensures Occ(Repeated(o, n), k) == if k == o then n else 0
  {
    if n > 0 {
      OccRepeated(o, n - 1, k);
      assert Repeated(o, n) == Repeated(o, n - 1) + [o];
    }
  }

  lemma {:induction false} RootsPresent(blobs: map<string, Blob>, reps: seq<Rep>)
    requires forall i :: 0 <= i < |reps| ==> Present(blobs, reps[i])
    ensures forall b :: b in Roots(reps) ==> b in blobs
  {
    if reps != [] {
      RootsPresent(blobs, reps[..|reps| - 1]);
      assert Present(blobs, reps[|reps| - 1]);
    }
  }

  lemma {:induction false} PutAllStores(hash: Blob -> string, blobs: map<string, Blob>, data: seq<Blob>)
    requires forall b :: b in blobs ==> hash(blobs[b]) == b
    ensures var p := PutAll(hash, blobs, data);
            && blobs.Keys <= p.Keys
            && (forall i :: 0 <= i < |data| ==> hash(data[i]) in p)
            && (forall b :: b in p ==> hash(p[b]) == b)
  {
    if data != [] {
      PutAllStores(hash, blobs, data[..|data| - 1]);
    }
  }

  // ----- Every operation keeps the invariant -----

  /** What a `create_origin` leaves counted without registering it. */
  function CreateLeak(s: Sys, o: string, reps: seq<Rep>): Leak {
    var n := Complete(s.blobs, reps);
    if n == |reps| && o !in s.registry then NO_LEAK
    else Leak(multiset(Roots(reps[..n])), multiset(Repeated(o, n)))
  }

  /** What an upload counts beyond the registered root: one reference for each chunk. */
  function UploadLeak(hash: Blob -> string, s: Sys, o: string, chunks: seq<Blob>): Leak {
    if o in s.registry then NO_LEAK else Leak(multiset(Ids(hash, chunks)), multiset{})
  }

  lemma CreateKeepsBlobCounts(hash: Blob -> string, s: Sys, l: Leak, o: string, reps: seq<Rep>, now: int, b: string)
    requires Inv(hash, s, l)
    ensures var s' := Created(s, o, reps, now);
            && Count(s'.blobCounts, b) == Refs(s'.registry, b) + l.Plus(CreateLeak(s, o, reps)).blobs[b]
            && (Count(s'.blobCounts, b) > 0 ==> b in s'.blobs)
  {
    hide Inv, Refs, IncAll, Roots, Complete, RepEdges, Count, Created, CreateLeak, Leak.Plus;
    var n := Complete(s.blobs, reps);
    CreateMoves(s, o, reps, now, b);
    RootsPresent(s.blobs, reps[..n]);
    OccAppend(Roots(reps[..n]), [], b);
    assert reps[..|reps|] == reps;
    InvAt(hash, s, l, b);
    CreateStores(s, o, reps, now);
    LeakAt(l, CreateLeak(s, o, reps), b);
    CreateLeakAt(s, o, reps, b);
    hide Occ;
  }

  lemma LeakAt(l: Leak, more: Leak, k: string)
    ensures l.Plus(more).blobs[k] == l.blobs[k] + more.blobs[k] && l.Plus(more).origins[k] == l.origins[k] + more.origins[k]
  {
  }

  lemma CreateLeakAt(s: Sys, o: string, reps: seq<Rep>, k: string)
    ensures var (leak, n) := (CreateLeak(s, o, reps), Complete(s.blobs, reps));
            if n == |reps| && o !in s.registry then leak.blobs[k] == 0 && leak.origins[k] == 0
            else leak.blobs[k] == Occ(Roots(reps[..n]), k) && leak.origins[k] == Occ(Repeated(o, n), k)
  {
    hide Complete, Roots, Repeated;
  }

  lemma UploadLeakAt(hash: Blob -> string, s: Sys, o: string, chunks: seq<Blob>, k: string)
    ensures var leak := UploadLeak(hash, s, o, chunks);
            leak.origins[k] == 0 && leak.blobs[k] == if o in s.registry then 0 else Occ(Ids(hash, chunks), k)
  {
    hide Ids;
  }

  lemma InvAt(hash: Blob -> string, s: Sys, l: Leak, b: string)
    requires Inv(hash, s, l)
    ensures Count(s.blobCounts, b) == Refs(s.registry, b) + l.blobs[b] && (Count(s.blobCounts, b) > 0 ==> b in s.blobs)
    ensures forall x :: x in s.blobs ==> hash(s.blobs[x]) == x
  {
  }

  lemma CreateStores(s: Sys, o: string, reps: seq<Rep>, now: int)
    ensures Created(s, o, reps, now).blobs == s.blobs
  {
  }

  lemma CreateKeepsOriginCounts(hash: Blob -> string, s: Sys, l: Leak, o: string, reps: seq<Rep>, now: int, k: string)
    requires Inv(hash, s, l)
    ensures var s' := Created(s, o, reps, now);
            && Count(s'.originCounts, k) == RepCount(s', k) + l.Plus(CreateLeak(s, o, reps)).origins[k]
            && (k in s'.originCounts ==> k in s'.ttls)
            && (k in s'.originCounts && k !in s'.registry ==> s'.originCounts[k] > 0)
  {
    hide Refs, IncAll, Roots, Complete, RepEdges, Repeated, CreateLeak, Leak.Plus;
    var n := Complete(s.blobs, reps);
    IncAllCounts(s.originCounts, Repeated(o, n), k);
    OccRepeated(o, n, k);
    OccAppend(Repeated(o, n), [], k);
    LeakAt(l, CreateLeak(s, o, reps), k);
    CreateLeakAt(s, o, reps, k);
    hide Occ;
  }

  lemma CreateKeeps(hash: Blob -> string, s: Sys, l: Leak, o: string, reps: seq<Rep>, now: int)
    requires Inv(hash, s, l)
    ensures Inv(hash, Created(s, o, reps, now), l.Plus(CreateLeak(s, o, reps)))
  {
    forall b { CreateKeepsBlobCounts(hash, s, l, o, reps, now, b); }
    forall k { CreateKeepsOriginCounts(hash, s, l, o, reps, now, k); }
    hide Refs, IncAll, Roots, Complete, RepEdges, Repeated;
  }

  lemma UploadKeepsBlobCounts(hash: Blob -> string, s: Sys, l: Leak, o: string, root: Blob, chunks: seq<Blob>, ttl: Option<int>, now: int, b: string)
    requires Inv(hash, s, l)
    ensures var s' := Uploaded(hash, s, o, root, chunks, ttl, now);
            && Count(s'.blobCounts, b) == Refs(s'.registry, b) + l.Plus(UploadLeak(hash, s, o, chunks)).blobs[b]
            && (Count(s'.blobCounts, b) > 0 ==> b in s'.blobs)
  {
    hide Inv, Refs, Roots, Ids, Uploaded, UploadLeak, Leak.Plus, UploadReps, Count;
    InvAt(hash, s, l, b);
    LeakAt(l, UploadLeak(hash, s, o, chunks), b);
    UploadLeakAt(hash, s, o, chunks, b);
    UploadStores(hash, s, o, root, chunks, ttl, now, b);
    if o in s.registry {
      UploadSkips(hash, s, o, root, chunks, ttl, now);
    } else {
      UploadMoves(hash, s, o, root, chunks, ttl, now, b);
      RefsSet(s.registry, o, Origin(now, UploadReps(hash, root), false), b);
    }
    hide Occ;
  }

  lemma UploadSkips(hash: Blob -> string, s: Sys, o: string, root: Blob, chunks: seq<Blob>, ttl: Option<int>, now: int)
    requires o in s.registry
    ensures var s' := Uploaded(hash, s, o, root, chunks, ttl, now); s'.registry == s.registry && s'.blobCounts == s.blobCounts
  {
  }

  lemma UploadBlobs(hash: Blob -> string, s: Sys, o: string, root: Blob, chunks: seq<Blob>, ttl: Option<int>, now: int)
    requires forall x :: x in s.blobs ==> hash(s.blobs[x]) == x
    ensures var s' := Uploaded(hash, s, o, root, chunks, ttl, now);
            && s.blobs.Keys <= s'.blobs.Keys
            && forall c :: c in chunks + [root] ==> hash(c) in s'.blobs
  {
    var data := chunks + [root];
    PutAllStores(hash, s.blobs, data);
    hide IncAll, Roots, PutAll;
    forall c | c in data ensures hash(c) in PutAll(hash, s.blobs, data) {
      var i :| 0 <= i < |data| && data[i] == c;
      assert hash(data[i]) in PutAll(hash, s.blobs, data);
    }
  }

  lemma IdOf(hash: Blob -> string, chunks: seq<Blob>, b: string) returns (c: Blob)
    requires b in Ids(hash, chunks)
    ensures c in chunks && hash(c) == b
  {
    var i :| 0 <= i < |Ids(hash, chunks)| && Ids(hash, chunks)[i] == b;
    c := chunks[i];
  }

  lemma RootsOfUpload(hash: Blob -> string, root: Blob)
    ensures Roots(UploadReps(hash, root)) == [hash(root)]
  {
  }

  /** Everything an upload counts, it stores. */
  lemma UploadStores(hash: Blob -> string, s: Sys, o: string, root: Blob, chunks: seq<Blob>, ttl: Option<int>, now: int, b: string)
    requires forall x :: x in s.blobs ==> hash(s.blobs[x]) == x
    ensures var s' := Uploaded(hash, s, o, root, chunks, ttl, now);
            (b in s.blobs || Occ(Roots(UploadReps(hash, root)), b) > 0 || Occ(Ids(hash, chunks), b) > 0) ==> b in s'.blobs
  {
    hide Uploaded, Ids, Roots, UploadReps;
    UploadBlobs(hash, s, o, root, chunks, ttl, now);
    RootsOfUpload(hash, root);
    OccAppend(Ids(hash, chunks), [], b);
    OccAppend([hash(root)], [], b);
    hide Occ;
    assert root in chunks + [root];
    if b in Ids(hash, chunks) {
      var c := IdOf(hash, chunks, b);
      assert c in chunks + [root];
    }
  }

  lemma UploadKeepsOriginCounts(hash: Blob -> string, s: Sys, l: Leak, o: string, root: Blob, chunks: seq<Blob>, ttl: Option<int>, now: int, k: string)
    requires Inv(hash, s, l)
    ensures var s' := Uploaded(hash, s, o, root, chunks, ttl, now);
            && Count(s'.originCounts, k) == RepCount(s', k) + l.Plus(UploadLeak(hash, s, o, chunks)).origins[k]
            && (k in s'.originCounts ==> k in s'.ttls)
            && (k in s'.originCounts && k !in s'.registry ==> s'.originCounts[k] > 0)
  {
    hide Refs, IncAll, Roots, PutAll, Ids;
  }

  lemma UploadVerifies(hash: Blob -> string, s: Sys, o: string, root: Blob, chunks: seq<Blob>, ttl: Option<int>, now: int)
    requires forall b :: b in s.blobs ==> hash(s.blobs[b]) == b
    ensures var s' := Uploaded(hash, s, o, root, chunks, ttl, now); forall b :: b in s'.blobs ==> hash(s'.blobs[b]) == b
  {
    PutAllStores(hash, s.blobs, chunks + [root]);
    hide PutAll, IncAll, Ids;
  }

  lemma UploadKeeps(hash: Blob -> string, s: Sys, l: Leak, o: string, root: Blob, chunks: seq<Blob>, ttl: Option<int>, now: int)
    requires Inv(hash, s, l)
    ensures Inv(hash, Uploaded(hash, s, o, root, chunks, ttl, now), l.Plus(UploadLeak(hash, s, o, chunks)))
  {
    hide Uploaded, UploadLeak, Count, Refs, RepCount, Leak.Plus;
    var s', l' := Uploaded(hash, s, o, root, chunks, ttl, now), l.Plus(UploadLeak(hash, s, o, chunks));
    UploadVerifies(hash, s, o, root, chunks, ttl, now);
    forall b ensures Count(s'.blobCounts, b) == Refs(s'.registry, b) + l'.blobs[b] && (Count(s'.blobCounts, b) > 0 ==> b in s'.blobs) {
      UploadKeepsBlobCounts(hash, s, l, o, root, chunks, ttl, now, b);
    }
    forall k
      ensures Count(s'.originCounts, k) == RepCount(s', k) + l'.origins[k] && (k in s'.originCounts ==> k in s'.ttls)
      ensures k in s'.originCounts && k !in s'.registry ==> s'.originCounts[k] > 0
    {
      UploadKeepsOriginCounts(hash, s, l, o, root, chunks, ttl, now, k);
    }
  }

  lemma TombstoneKeepsCounts(hash: Blob -> string, s: Sys, l: Leak, o: string, b: string)
    requires Inv(hash, s, l) && o in s.registry
    ensures var s' := Tombstoned(s, o);
            && Count(s'.blobCounts, b) == Refs(s'.registry, b) + l.blobs[b]
            && Count(s'.blobCounts, b) == Count(s.blobCounts, b) - Occ(Roots(s.registry[o].reps), b)
            && Count(s'.originCounts, b) == RepCount(s', b) + l.origins[b]
            && (b in s'.originCounts ==> b in s'.ttls)
            && (b in s'.originCounts && b !in s'.registry ==> s'.originCounts[b] > 0)
  {
    var rec := s.registry[o];
    RefsExtract(s.registry, o, b);
    RefsSet(s.registry, o, Origin(rec.createdAt, [], true), b);
    DecAllCounts(s.blobCounts, Roots(rec.reps), b);
    OccRepeated(o, |rec.reps|, b);
    DecAllCounts(s.originCounts, Repeated(o, |rec.reps|), b);
    assert Roots([]) == [];
    hide Refs, DecAll, Roots, Repeated;
    assert b in Repeated(o, |rec.reps|) <==> Occ(Repeated(o, |rec.reps|), b) > 0;
  }

  lemma TombstoneKeeps(hash: Blob -> string, s: Sys, l: Leak, o: string)
    requires Inv(hash, s, l)
    ensures Inv(hash, Tombstoned(s, o), l)
  {
    if o in s.registry {
      forall b { TombstoneKeepsCounts(hash, s, l, o, b); }
    }
    hide Refs, DecAll, Roots, Repeated;
  }

  lemma StoreKeeps(hash: Blob -> string, s: Sys, l: Leak, body: Blob, expected: Option<string>)
    requires Inv(hash, s, l)
    ensures Inv(hash, BlobStored(hash, s, body, expected), l)
  {
    hide Refs;
  }

  lemma DeleteKeeps(hash: Blob -> string, s: Sys, l: Leak, b: string)
    requires Inv(hash, s, l)
    ensures Inv(hash, Deleted(s, b), l)
  {
    hide Refs;
  }

  lemma CollectKeeps(hash: Blob -> string, s: Sys, l: Leak, pins: Pins)
    requires Inv(hash, s, l)
    ensures Inv(hash, Collected(s, pins), l)
  {
    hide Refs, Plannable;
  }

  datatype Op =
    | CreateBlob(body: Blob, expected: Option<string>)
    | CreateOrigin(origin: string, reps: seq<Rep>, now: int)
    | Upload(origin: string, root: Blob, chunks: seq<Blob>, ttl: Option<int>, now: int)
    | TombstoneOrigin(origin: string)
    | DeleteBlob(blob: string)
    | Gc(pins: Pins)

  function Apply(hash: Blob -> string, s: Sys, op: Op): Sys {
    match op
    case CreateBlob(body, expected) => BlobStored(hash, s, body, expected)
    case CreateOrigin(o, reps, now) => Created(s, o, reps, now)
    case Upload(o, root, chunks, ttl, now) => Uploaded(hash, s, o, root, chunks, ttl, now)
    case TombstoneOrigin(o) => Tombstoned(s, o)
    case DeleteBlob(b) => Deleted(s, b)
    case Gc(pins) => Collected(s, pins)
  }

  function LeakOf(hash: Blob -> string, s: Sys, op: Op): Leak {
    match op
    case CreateOrigin(o, reps, _) => CreateLeak(s, o, reps)
    case Upload(o, _, chunks, _, _) => UploadLeak(hash, s, o, chunks)
    case _ => NO_LEAK
  }

  lemma StepKeeps(hash: Blob -> string, s: Sys, l: Leak, op: Op)
    requires Inv(hash, s, l)
    ensures Inv(hash, Apply(hash, s, op), l.Plus(LeakOf(hash, s, op)))
  {
    hide Inv, Created, Uploaded, Tombstoned, BlobStored, Deleted, Collected, CreateLeak, UploadLeak;
    assert l.Plus(NO_LEAK) == l;
    match op
    case CreateOrigin(o, reps, now) => CreateKeeps(hash, s, l, o, reps, now);
    case Upload(o, root, chunks, ttl, now) => UploadKeeps(hash, s, l, o, root, chunks, ttl, now);
    case TombstoneOrigin(o) => TombstoneKeeps(hash, s, l, o);
    case CreateBlob(body, expected) => StoreKeeps(hash, s, l, body, expected);
    case DeleteBlob(b) => DeleteKeeps(hash, s, l, b);
    case Gc(pins) => CollectKeeps(hash, s, l, pins);
  }

  const EMPTY := Sys(map[], map[], map[], map[], map[], [])

  function Run(hash: Blob -> string, s: Sys, ops: seq<Op>): Sys
    decreases |ops|
  {
    if ops == [] then s else Run(hash, Apply(hash, s, ops[0]), ops[1..])
  }

  function RunLeak(hash: Blob -> string, s: Sys, ops: seq<Op>): Leak
    decreases |ops|
  {
    if ops == [] then NO_LEAK else LeakOf(hash, s, ops[0]).Plus(RunLeak(hash, Apply(hash, s, ops[0]), ops[1..]))
  }

  lemma PlusAssociates(a: Leak, b: Leak, c: Leak)
    ensures a.Plus(b).Plus(c) == a.Plus(b.Plus(c))
  {
    assert a.blobs + b.blobs + c.blobs == a.blobs + (b.blobs + c.blobs);
    assert a.origins + b.origins + c.origins == a.origins + (b.origins + c.origins);
  }

  lemma {:induction false} RunKeeps(hash: Blob -> string, s: Sys, l: Leak, ops: seq<Op>)
    requires Inv(hash, s, l)
    ensures Inv(hash, Run(hash, s, ops), l.Plus(RunLeak(hash, s, ops)))
    decreases |ops|
  {
    hide Inv, Apply, LeakOf;
    if ops == [] {
      assert l.Plus(NO_LEAK) == l;
    } else {
      var s1, l1 := Apply(hash, s, ops[0]), LeakOf(hash, s, ops[0]);
      StepKeeps(hash, s, l, ops[0]);
      RunKeeps(hash, s1, l.Plus(l1), ops[1..]);
      PlusAssociates(l, l1, RunLeak(hash, s1, ops[1..]));
    }
  }

  /** Over every run a referenced blob stays stored under its own digest, and counts are references plus leaks. */
  lemma LiveBlobsStay(hash: Blob -> string, ops: seq<Op>, o: string, b: string)
    ensures var s := Run(hash, EMPTY, ops);
            && Count(s.blobCounts, b) == Refs(s.registry, b) + RunLeak(hash, EMPTY, ops).blobs[b]
            && (o in s.registry && Named(s.registry[o].reps, b) > 0 ==> b in s.blobs && hash(s.blobs[b]) == b)
  {
    RunKeeps(hash, EMPTY, NO_LEAK, ops);
    var s := Run(hash, EMPTY, ops);
    hide Run, RunLeak, Refs, Roots, Named;
    if o in s.registry {
      RefsExtract(s.registry, o, b);
      NamedIsOcc(s.registry[o].reps, b);
    }
  }

  /** In reachable states planning never fails. */
  lemma PlanNeverFails(hash: Blob -> string, s: Sys, l: Leak, pins: Pins)
    requires Inv(hash, s, l)
    ensures Plannable(s, pins)
  {
    hide Refs, AnyActive;
  }

  /** A collection deletes exactly the tracked blobs that nothing references and no leak holds. */
  lemma GcDeletesExactly(hash: Blob -> string, ops: seq<Op>, pins: Pins, b: string)
    ensures var s := Run(hash, EMPTY, ops);
            && (Collected(s, pins) == s.(blobs := Collected(s, pins).blobs))
            && (b in Collected(s, pins).blobs <==>
                b in s.blobs && !(b in s.blobCounts && Refs(s.registry, b) == 0 && RunLeak(hash, EMPTY, ops).blobs[b] == 0))
  {
    RunKeeps(hash, EMPTY, NO_LEAK, ops);
    var s, l := Run(hash, EMPTY, ops), NO_LEAK.Plus(RunLeak(hash, EMPTY, ops));
    PlanNeverFails(hash, s, l, pins);
    hide Run, RunLeak, Refs, Plannable;
    assert Count(s.blobCounts, b) == Refs(s.registry, b) + l.blobs[b];
  }

  /** What a create does to the counts and the references. */
  lemma CreateMoves(s: Sys, o: string, reps: seq<Rep>, now: int, b: string)
    ensures var (s', n) := (Created(s, o, reps, now), Complete(s.blobs, reps));
            && Count(s'.blobCounts, b) == Count(s.blobCounts, b) + Occ(Roots(reps[..n]), b)
            && Refs(s'.registry, b) == Refs(s.registry, b) + if n == |reps| && o !in s.registry then Occ(Roots(reps), b) else 0
  {
    var n := Complete(s.blobs, reps);
    IncAllCounts(s.blobCounts, Roots(reps[..n]), b);
    RefsSet(s.registry, o, Origin(now, reps, false), b);
    hide Refs, IncAll, Roots, Complete, RepEdges, Repeated, Occ;
  }

  /** `create_origin` widens the gap between a blob's count and its references exactly when the request will fail
      (the id is taken or a representation is incomplete) and a representation before the failing one has that root. */
  lemma CreateLeaksIff(s: Sys, o: string, reps: seq<Rep>, now: int, b: string)
    ensures var (s', n) := (Created(s, o, reps, now), Complete(s.blobs, reps));
            Count(s'.blobCounts, b) - Refs(s'.registry, b) > Count(s.blobCounts, b) - Refs(s.registry, b) <==>
              (o in s.registry || n < |reps|) && exists i :: 0 <= i < n && b in reps[i].roots
  {
    hide Complete, Roots, Refs, Created, Occ;
    CreateMoves(s, o, reps, now, b);
    RootsOfPrefix(reps, Complete(s.blobs, reps), b);
    assert reps[..|reps|] == reps;
  }

  /** One of the first `n` representations has this root. */
  ghost predicate Rooted(reps: seq<Rep>, n: nat, b: string)
    requires n <= |reps|
  {
    exists i :: 0 <= i < n && b in reps[i].roots
  }

  lemma RootedStep(reps: seq<Rep>, n: nat, b: string)
    requires 0 < n <= |reps|
    ensures Rooted(reps, n, b) <==> Rooted(reps, n - 1, b) || b in reps[n - 1].roots
  {
    if i :| 0 <= i < n && b in reps[i].roots {
      assert i < n - 1 || i == n - 1;
    }
  }

  lemma {:induction false} RootsOfPrefix(reps: seq<Rep>, n: nat, b: string)
    requires n <= |reps|
    ensures Occ(Roots(reps[..n]), b) > 0 <==> Rooted(reps, n, b)
  {
    if n > 0 {
      hide Roots, Occ, Rooted;
      RootsOfPrefix(reps, n - 1, b);
      RootsStep(reps, n - 1);
      RootedStep(reps, n, b);
      OccAppend(Roots(reps[..n - 1]), reps[n - 1].roots, b);
      OccAppend(reps[n - 1].roots, [], b);
    }
  }

  /** A leaked blob outlives every later run: no release, delete or collection can remove it. */
  lemma LeakedForever(hash: Blob -> string, s: Sys, l: Leak, ops: seq<Op>, b: string)
    requires Inv(hash, s, l) && l.blobs[b] > 0
    ensures b in Run(hash, s, ops).blobs
  {
    RunKeeps(hash, s, l, ops);
    hide Run, RunLeak, Refs;
    var s', l' := Run(hash, s, ops), l.Plus(RunLeak(hash, s, ops));
    assert l'.blobs[b] >= l.blobs[b];
    assert Count(s'.blobCounts, b) > 0;
  }

  function UploadReps(hash: Blob -> string, root: Blob): seq<Rep> { [Rep("source", [hash(root)])] }

  lemma UploadMoves(hash: Blob -> string, s: Sys, o: string, root: Blob, chunks: seq<Blob>, ttl: Option<int>, now: int, b: string)
    requires o !in s.registry
    ensures var s' := Uploaded(hash, s, o, root, chunks, ttl, now);
            && s'.registry == s.registry[o := Origin(now, UploadReps(hash, root), false)]
            && Count(s'.blobCounts, b) == Count(s.blobCounts, b) + Occ(Roots(UploadReps(hash, root)), b) + Occ(Ids(hash, chunks), b)
  {
    IncAllCounts(Inc(s.blobCounts, hash(root)), Ids(hash, chunks), b);
    assert Roots(UploadReps(hash, root)) == [hash(root)];
    hide Roots, IncAll, Ids, PutAll;
  }

  lemma TombstoneMoves(s: Sys, o: string, b: string)
    requires o in s.registry && Count(s.blobCounts, b) >= Occ(Roots(s.registry[o].reps), b)
    ensures Count(Tombstoned(s, o).blobCounts, b) == Count(s.blobCounts, b) - Occ(Roots(s.registry[o].reps), b)
    ensures Refs(Tombstoned(s, o).registry, b) == Refs(s.registry, b) - Occ(Roots(s.registry[o].reps), b)
  {
    DecAllCounts(s.blobCounts, Roots(s.registry[o].reps), b);
    assert Roots([]) == [] by { NoRoots(); }
    hide Roots, DecAll, Refs, Repeated;
    RefsSet(s.registry, o, Origin(s.registry[o].createdAt, [], true), b);
  }

  lemma CountNotNegative(hash: Blob -> string, s: Sys, l: Leak, b: string)
    requires Inv(hash, s, l)
    ensures Count(s.blobCounts, b) >= 0
  {
  }

  /** An upload and the deletion of its origin: the root's reference is given back, each chunk's is not. */
  lemma UploadResidue(hash: Blob -> string, s: Sys, l: Leak, o: string, root: Blob, chunks: seq<Blob>, ttl: Option<int>, now: int, b: string)
    requires Inv(hash, s, l) && o !in s.registry
    ensures var s' := Tombstoned(Uploaded(hash, s, o, root, chunks, ttl, now), o);
            && Count(s'.blobCounts, b) == Count(s.blobCounts, b) + Occ(Ids(hash, chunks), b)
            && Refs(s'.registry, b) == Refs(s.registry, b)
  {
    CountNotNegative(hash, s, l, b);
    hide Inv, Count, Refs, Uploaded, Tombstoned, Roots, Ids, UploadReps, Occ;
    UploadMoves(hash, s, o, root, chunks, ttl, now, b);
    RefsSet(s.registry, o, Origin(now, UploadReps(hash, root), false), b);
    TombstoneMoves(Uploaded(hash, s, o, root, chunks, ttl, now), o, b);
  }

  lemma NoRoots()
    ensures Roots([]) == []
  {
  }

  lemma ChunksLeak(hash: Blob -> string, s: Sys, l: Leak, o: string, chunks: seq<Blob>, c: Blob)
    requires o !in s.registry && c in chunks
    ensures l.Plus(UploadLeak(hash, s, o, chunks)).blobs[hash(c)] > 0
  {
    var i :| 0 <= i < |chunks| && chunks[i] == c;
    assert Ids(hash, chunks)[i] == hash(c);
    OccAppend(Ids(hash, chunks), [], hash(c));
  }

  /** So the chunks of a deleted upload stay stored through every later run. */
  lemma ChunksOutliveTheirOrigin(hash: Blob -> string, s: Sys, l: Leak, o: string, root: Blob, chunks: seq<Blob>, ttl: Option<int>, now: int, ops: seq<Op>, c: Blob)
    requires Inv(hash, s, l) && o !in s.registry && c in chunks
    ensures hash(c) in Run(hash, Tombstoned(Uploaded(hash, s, o, root, chunks, ttl, now), o), ops).blobs
  {
    hide Inv, Run, Uploaded, Tombstoned, UploadLeak, Leak.Plus;
    var s1, l1 := Uploaded(hash, s, o, root, chunks, ttl, now), l.Plus(UploadLeak(hash, s, o, chunks));
    UploadKeeps(hash, s, l, o, root, chunks, ttl, now);
    TombstoneKeeps(hash, s1, l1, o);
    ChunksLeak(hash, s, l, o, chunks, c);
    LeakedForever(hash, Tombstoned(s1, o), l1, ops, hash(c));
  }

  /** A blob just stored is gone after the next collection exactly when its counter is tracked at zero, left by an earlier life. */
  lemma StoredSurvivesIff(hash: Blob -> string, s: Sys, l: Leak, body: Blob, pins: Pins)
    requires Inv(hash, s, l)
    ensures hash(body) in Collected(BlobStored(hash, s, body, None), pins).blobs <==>
              !(hash(body) in s.blobCounts && s.blobCounts[hash(body)] == 0)
  {
    StoreKeeps(hash, s, l, body, None);
    PlanNeverFails(hash, BlobStored(hash, s, body, None), l, pins);
    hide Inv, Plannable;
  }

  /** Releasing an origin twice releases it once. */
  lemma TombstoneIsIdempotent(s: Sys, o: string)
    ensures Tombstoned(Tombstoned(s, o), o) == Tombstoned(s, o)
  {
    assert Roots([]) == [] && Repeated(o, 0) == [];
    hide Roots, Repeated;
    var s1 := Tombstoned(s, o);
    if o in s.registry {
      assert s1.registry[o := s1.registry[o]] == s1.registry;
    }
  }

  // ----- The server -----

  lemma RootsStep(reps: seq<Rep>, i: nat)
    requires i < |reps|
    ensures Roots(reps[..i + 1]) == Roots(reps[..i]) + reps[i].roots
    ensures forall o :: RepEdges(o, reps[..i + 1]) == RepEdges(o, reps[..i]) + EdgesTo(o, reps[i].name, reps[i].roots)
    ensures forall o :: Repeated(o, i + 1) == Repeated(o, i) + [o]
  {
    assert reps[..i + 1][..i] == reps[..i];
  }

  lemma AllStep(m: Counts, before: seq<string>, ks: seq<string>, j: nat)
    requires j < |ks|
    ensures IncAll(m, before + ks[..j + 1]) == Inc(IncAll(m, before + ks[..j]), ks[j])
    ensures DecAll(m, before + ks[..j + 1]) == Dec(DecAll(m, before + ks[..j]), ks[j])
  {
    var all := before + ks[..j + 1];
    assert all[..|all| - 1] == before + ks[..j];
  }

  lemma CountedStart(s: Sys, o: string, reps: seq<Rep>)
    ensures Counted(s, o, reps, 0) == s.(ttls := s.ttls[o := None])
  {
    assert reps[..0] == [] && Repeated(o, 0) == [];
  }

  lemma CountedStep(s: Sys, o: string, reps: seq<Rep>, i: nat)
    requires i < |reps|
    ensures var c := Counted(s, o, reps, i);
            && c.blobs == s.blobs && c.registry == s.registry
            && c.blobCounts == IncAll(s.blobCounts, Roots(reps[..i]))
            && Counted(s, o, reps, i + 1) ==
               c.(originCounts := Inc(c.originCounts, o),
                  blobCounts := IncAll(s.blobCounts, Roots(reps[..i]) + reps[i].roots),
                  edges := c.edges + EdgesTo(o, reps[i].name, reps[i].roots))
  {
    RootsStep(reps, i);
    assert (Repeated(o, i) + [o])[..i] == Repeated(o, i);
    hide Roots, RepEdges, EdgesTo, Repeated;
    assert Repeated(o, i + 1) == Repeated(o, i) + [o];
  }

  lemma CountedKeeps(s: Sys, o: string, reps: seq<Rep>)
    ensures var c := Counted(s, o, reps, |reps|); c.registry == s.registry && c.blobs == s.blobs
  {
  }

  function Tombs(os: seq<string>, bs: seq<string>, now: int): seq<Tombstone> {
    seq(|os|, i requires 0 <= i < |os| => OriginTombstone(os[i], now)) + seq(|bs|, i requires 0 <= i < |bs| => BlobTombstone(bs[i], now))
  }

  /** One tombstone of this moment for every item, the origins' first. */
  ghost predicate Recorded(before: seq<Tombstone>, after: seq<Tombstone>, os: seq<string>, bs: seq<string>, now: int) {
    && |after| == |before| + |os| + |bs| && after[..|before|] == before
    && (forall i :: 0 <= i < |os| ==> after[|before| + i] == OriginTombstone(os[i], now))
    && (forall i :: 0 <= i < |bs| ==> after[|before| + |os| + i] == BlobTombstone(bs[i], now))
  }

  lemma TombsRecorded(before: seq<Tombstone>, os: seq<string>, bs: seq<string>, now: int)
    ensures Recorded(before, before + Tombs(os, bs, now), os, bs, now)
  {
  }

  lemma DistinctAppend(q: seq<string>, x: string)
    ensures ToSet(q + [x]) == ToSet(q) + {x}
    ensures Distinct(q) && x !in ToSet(q) ==> Distinct(q + [x])
  {
    assert forall i :: 0 <= i < |q| ==> q[i] in ToSet(q);
  }

  class Server {
    const hash: Blob -> string
    var blobs: map<string, Blob>
    var blobCounts: Counts
    var originCounts: Counts
    var registry: map<string, Origin>
    var ttls: map<string, Option<int>>
    var edges: seq<Edge>
    var tombstones: seq<Tombstone>

    constructor (hash: Blob -> string)
      ensures this.hash == hash && St() == EMPTY && tombstones == []
    {
      this.hash := hash;
      blobs, blobCounts, originCounts, registry, ttls, edges, tombstones := map[], map[], map[], map[], map[], [], [];
    }

    function St(): Sys
      reads this
    {
      Sys(blobs, blobCounts, originCounts, registry, ttls, edges)
    }

    /** POST /v1/blobs */
    method CreateBlob(body: Blob, expected: Option<string>) returns (r: Result<bool, Error>)
      modifies this
      ensures St() == BlobStored(hash, old(St()), body, expected) && tombstones == old(tombstones)
      ensures r == if expected.Some? && expected.value != hash(body) then Err(BadRequest) else Ok(hash(body) in old(blobs))
      ensures blobs == if r == Ok(false) then old(blobs)[hash(body) := body] else old(blobs)
    {
      var id := hash(body);
      if expected.Some? {
        if expected.value != id {
          return Err(BadRequest);
        }
      }
      var existed := id in blobs;
      if !existed {
        blobs := blobs[id := body];
      }
      return Ok(existed);
    }

    /** DELETE /v1/blobs/:id */
    method DeleteBlob(b: string) returns (r: Result<(), Error>)
      modifies this
      ensures St() == Deleted(old(St()), b) && tombstones == old(tombstones)
      ensures r == if b !in old(blobs) then Err(NotFound) else if Count(old(blobCounts), b) > 0 then Err(Conflict) else Ok(())
      ensures blobs == if r.Ok? then old(blobs) - {b} else old(blobs)
    {
      if b !in blobs {
        return Err(NotFound);
      }
      if Count(blobCounts, b) > 0 {
        return Err(Conflict);
      }
      blobs := blobs - {b};
      return Ok(());
    }

    /** The loop over the root blobs of one representation. */
    method CountRoots(o: string, rep: Rep, ghost m: Counts, ghost before: seq<string>)
      requires blobCounts == IncAll(m, before)
      modifies this`blobCounts, this`edges
      ensures blobCounts == IncAll(m, before + rep.roots)
      ensures edges == old(edges) + EdgesTo(o, rep.name, rep.roots)
    {
      assert before + rep.roots[..0] == before;
      for j := 0 to |rep.roots|
        invariant blobCounts == IncAll(m, before + rep.roots[..j])
        invariant edges == old(edges) + EdgesTo(o, rep.name, rep.roots[..j])
      {
        AllStep(m, before, rep.roots, j);
        blobCounts := Inc(blobCounts, rep.roots[j]);
        edges := edges + [Edge(o, rep.roots[j], rep.name)];
      }
      assert rep.roots[..|rep.roots|] == rep.roots;
    }

    method AllPresent(rep: Rep) returns (ok: bool)
      ensures ok == Present(blobs, rep)
    {
      for j := 0 to |rep.roots|
        invariant forall b :: b in rep.roots[..j] ==> b in blobs
      {
        if rep.roots[j] !in blobs {
          return false;
        }
      }
      return true;
    }

    /** POST /v1/origins: counts representation by representation, and registers only at the end. */
    method CreateOrigin(o: string, reps: seq<Rep>, now: int) returns (r: Result<(), Error>)
      modifies this
      ensures St() == Created(old(St()), o, reps, now) && tombstones == old(tombstones)
      ensures r == if Complete(old(blobs), reps) < |reps| then Err(NotFound)
                   else if o in old(registry) then Err(Conflict) else Ok(())
      ensures CreateAnswers(old(St()), St(), o, reps, now, r.Ok?)
    {
      CreatedAnswers(St(), o, reps, now);
      hide CreateAnswers;
      hide Counted, Complete, Present, IncAll, Roots, EdgesTo;
      ghost var s := St();
      ttls := ttls[o := None];
      CountedStart(s, o, reps);
      for i := 0 to |reps|
        invariant St() == Counted(s, o, reps, i) && tombstones == old(tombstones)
        invariant forall k :: 0 <= k < i ==> Present(s.blobs, reps[k])
      {
        CountedStep(s, o, reps, i);
        assert St().blobs == s.blobs && St().blobCounts == blobCounts;
        var ok := AllPresent(reps[i]);
        if !ok {
          CompleteUnique(s.blobs, reps, i);
          return Err(NotFound);
        }
        originCounts := Inc(originCounts, o);
        CountRoots(o, reps[i], s.blobCounts, Roots(reps[..i]));
      }
      CompleteUnique(s.blobs, reps, |reps|);
      assert registry == s.registry by { CountedKeeps(s, o, reps); }
      if o in registry {
        return Err(Conflict);
      }
      registry := registry[o := Origin(now, reps, false)];
      return Ok(());
    }

    /** The chunks and the root, each put under its digest. */
    method PutBlobs(data: seq<Blob>)
      modifies this`blobs
      ensures blobs == PutAll(hash, old(blobs), data)
    {
      for i := 0 to |data|
        invariant blobs == PutAll(hash, old(blobs), data[..i])
      {
        assert data[..i + 1][..i] == data[..i];
        blobs := blobs[hash(data[i]) := data[i]];
      }
      assert data[..|data|] == data;
    }

    method CountAll(data: seq<Blob>)
      modifies this`blobCounts
      ensures blobCounts == IncAll(old(blobCounts), Ids(hash, data))
    {
      ghost var m, ids := blobCounts, Ids(hash, data);
      assert [] + ids[..0] == [];
      for j := 0 to |data|
        invariant blobCounts == IncAll(m, [] + ids[..j])
      {
        AllStep(m, [], ids, j);
        blobCounts := Inc(blobCounts, hash(data[j]));
      }
      assert [] + ids[..|data|] == ids;
    }

    /** The upload service behind POST /v1/upload, from the stored pieces on. */
    method Upload(o: string, root: Blob, chunks: seq<Blob>, ttl: Option<int>, now: int) returns (r: Result<(), Error>)
      modifies this
      ensures St() == Uploaded(hash, old(St()), o, root, chunks, ttl, now) && tombstones == old(tombstones)
      ensures r == if o in old(registry) then Err(Conflict) else Ok(())
      ensures UploadAnswers(hash, old(St()), St(), o, root, chunks, ttl, now, r.Ok?)
    {
      UploadedAnswers(hash, St(), o, root, chunks, ttl, now);
      hide UploadAnswers, PutAll, IncAll;
      ttls := ttls[o := ttl];
      PutBlobs(chunks + [root]);
      if o in registry {
        return Err(Conflict);
      }
      registry := registry[o := Origin(now, [Rep("source", [hash(root)])], false)];
      originCounts := Inc(originCounts, o);
      blobCounts := Inc(blobCounts, hash(root));
      CountAll(chunks);
      edges := edges + [Edge(o, hash(root), "source")];
      return Ok(());
    }

    /** DELETE /v1/origins/:id */
    method TombstoneOrigin(o: string) returns (r: Result<(), Error>)
      modifies this
      ensures St() == Tombstoned(old(St()), o) && tombstones == old(tombstones)
      ensures r == if o in old(registry) then Ok(()) else Err(NotFound)
      ensures r.Ok? ==> registry == old(registry)[o := Origin(old(registry)[o].createdAt, [], true)]
                        && CountedDown(old(St()), St(), o, old(registry)[o].reps)
    {
      if o in registry {
        TombstonedCounts(St(), o);
      }
      hide CountedDown;
      if o !in registry {
        return Err(NotFound);
      }
      var rec := registry[o];
      ReleaseReps(o, rec.reps);
      registry := registry[o := Origin(rec.createdAt, [], true)];
      return Ok(());
    }

    method ReleaseReps(o: string, reps: seq<Rep>)
      modifies this`originCounts, this`blobCounts
      ensures originCounts == DecAll(old(originCounts), Repeated(o, |reps|))
      ensures blobCounts == DecAll(old(blobCounts), Roots(reps))
    {
      ghost var mo, mb, os := originCounts, blobCounts, Repeated(o, |reps|);
      assert reps[..0] == [] && [] + os[..0] == [];
      for i := 0 to |reps|
        invariant originCounts == DecAll(mo, [] + os[..i])
        invariant blobCounts == DecAll(mb, Roots(reps[..i]))
      {
        AllStep(mo, [], os, i);
        RootsStep(reps, i);
        hide DecAll, Roots, RepEdges, IncAll;
        originCounts := Dec(originCounts, o);
        ReleaseRoots(reps[i].roots, mb, Roots(reps[..i]));
      }
      assert reps[..|reps|] == reps && [] + os[..|reps|] == os;
    }

    method ReleaseRoots(roots: seq<string>, ghost m: Counts, ghost before: seq<string>)
      requires blobCounts == DecAll(m, before)
      modifies this`blobCounts
      ensures blobCounts == DecAll(m, before + roots)
    {
      assert before + roots[..0] == before;
      for j := 0 to |roots|
        invariant blobCounts == DecAll(m, before + roots[..j])
      {
        AllStep(m, before, roots, j);
        blobCounts := Dec(blobCounts, roots[j]);
      }
      assert roots[..|roots|] == roots;
    }

    /** `GcPlanner::plan`: a failing lookup aborts the whole plan. */
    method Plan(pins: Pins, now: int) returns (plan: Result<(seq<string>, seq<string>), Error>)
      ensures plan.Ok? <==> Plannable(St(), pins)
      ensures plan.Ok? ==> Distinct(plan.value.0) && ToSet(plan.value.0) == DueOrigins(St(), pins, now)
      ensures plan.Ok? ==> Distinct(plan.value.1) && ToSet(plan.value.1) == DueBlobs(St())
      ensures plan.Ok? ==> forall o :: o in plan.value.0 <==> DueNow(St(), pins, now, o)
      ensures plan.Ok? ==> forall b :: b in plan.value.1 <==> b in blobCounts && blobCounts[b] == 0
    {
      forall o ensures o in DueOrigins(St(), pins, now) <==> DueNow(St(), pins, now, o) {
        DueIff(St(), pins, now, o);
      }
      assert forall b :: b in DueBlobs(St()) <==> b in blobCounts && blobCounts[b] == 0;
      hide DueNow, DueOrigins, DueBlobs, Distinct, Plannable;
      var os := PlanOrigins(pins, now);
      if os.Err? {
        return Err(os.error);
      }
      var bs := PlanBlobs();
      return Ok((os.value, bs));
    }

    method PlanOrigins(pins: Pins, now: int) returns (r: Result<seq<string>, Error>)
      ensures r.Ok? <==> Plannable(St(), pins)
      ensures r.Ok? ==> Distinct(r.value) && ToSet(r.value) == DueOrigins(St(), pins, now)
    {
      var tracked := Listing(originCounts.Keys);
      var due: seq<string> := [];
      ghost var s := St();
      hide AnyActive;
      for i := 0 to |tracked|
        invariant Distinct(due) && ToSet(due) == DueOrigins(s, pins, now) * ToSet(tracked[..i])
        invariant forall o :: o in ToSet(tracked[..i]) && Idle(s, pins, o) ==> o in ttls && (ttls[o].Some? ==> o in registry)
      {
        var o := tracked[i];
        PrefixGrows(tracked, i);
        hide ToSet, Distinct;
        if Count(originCounts, o) != 0 {
          continue;
        }
        if AnyActive(pins, o) {
          continue;
        }
        if o !in ttls {
          return Err(NotFound);
        }
        if ttls[o].Some? {
          if o !in registry {
            return Err(NotFound);
          }
          if now < registry[o].createdAt + ttls[o].value {
            continue;
          }
        }
        DistinctAppend(due, o);
        due := due + [o];
      }
      assert tracked[..|tracked|] == tracked;
      return Ok(due);
    }

    method PlanBlobs() returns (due: seq<string>)
      ensures Distinct(due) && ToSet(due) == DueBlobs(St())
    {
      var tracked := Listing(blobCounts.Keys);
      due := [];
      ghost var s := St();
      for i := 0 to |tracked|
        invariant Distinct(due) && ToSet(due) == DueBlobs(s) * ToSet(tracked[..i])
      {
        PrefixGrows(tracked, i);
        hide ToSet, Distinct;
        if Count(blobCounts, tracked[i]) == 0 {
          DistinctAppend(due, tracked[i]);
          due := due + [tracked[i]];
        }
      }
      assert tracked[..|tracked|] == tracked;
    }

    /** `GcExecutor::execute`: a tombstone for everything planned; deletion errors are ignored. */
    method Execute(os: seq<string>, bs: seq<string>, now: int)
      modifies this`tombstones, this`blobs
      ensures blobs == old(blobs) - ToSet(bs)
      ensures tombstones == old(tombstones) + Tombs(os, bs, now)
    {
      for i := 0 to |os|
        invariant tombstones == old(tombstones) + Tombs(os[..i], [], now)
        invariant blobs == old(blobs)
      {
        tombstones := tombstones + [OriginTombstone(os[i], now)];
      }
      assert os[..|os|] == os;
      for i := 0 to |bs|
        invariant tombstones == old(tombstones) + Tombs(os, bs[..i], now)
        invariant blobs == old(blobs) - ToSet(bs[..i])
      {
        tombstones := tombstones + [BlobTombstone(bs[i], now)];
        assert ToSet(bs[..i + 1]) == ToSet(bs[..i]) + {bs[i]};
        blobs := blobs - {bs[i]};
      }
      assert bs[..|bs|] == bs;
    }

    /** Plan and execute in one step. */
    method GcRound(pins: Pins, now: int) returns (r: Result<(), Error>, ghost os: seq<string>, ghost bs: seq<string>)
      modifies this
      ensures St() == Collected(old(St()), pins)
      ensures r.Ok? <==> Plannable(old(St()), pins)
      ensures r.Err? ==> tombstones == old(tombstones)
      ensures r.Ok? ==> tombstones == old(tombstones) + Tombs(os, bs, now) && Recorded(old(tombstones), tombstones, os, bs, now)
                        && Distinct(os) && ToSet(os) == DueOrigins(old(St()), pins, now)
                        && Distinct(bs) && ToSet(bs) == DueBlobs(old(St()))
    {
      os, bs := [], [];
      var plan := Plan(pins, now);
      if plan.Err? {
        return Err(plan.error), os, bs;
      }
      os, bs := plan.value.0, plan.value.1;
      hide Plannable, ToSet, Distinct, DueOrigins, DueBlobs, Tombs;
      TombsRecorded(tombstones, os, bs, now);
      hide Recorded;
      Execute(plan.value.0, plan.value.1, now);
      return Ok(()), os, bs;
    }
  }
}
