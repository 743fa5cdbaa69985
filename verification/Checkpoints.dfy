/** Checkpoint registries with retention, the collection of their blobs, and lineage. */
module Checkpoints {
  import CacheKeys
  import opened Wrappers
  import opened Numbers
  import opened Ranking
  import opened Stores

  datatype Record = Record(id: string, blobId: string, origin: string, step: int, parent: Option<string>)

  datatype Error = NotFound | Corrupt

  /** zstd and the digest, known by their laws. */
  datatype Codec = Codec(compress: Blob -> Blob, decompress: Blob -> Option<Blob>, hash: Blob -> string) {
    ghost predicate Lawful() {
      && (forall x :: decompress(compress(x)) == Some(x))
      && (forall x, y :: hash(x) == hash(y) ==> x == y)
      && (forall x :: hash(x) != "")
    }
  }

  /** Registries by file name, and the blob store. */
  datatype State = State(registries: map<string, seq<Record>>, blobs: map<string, Blob>)

  const EMPTY := State(map[], map[])

  /** `_registry_path`: origins that differ only in `:`, `/` and `_` share a file. */
  function FileOf(origin: string): string { CacheKeys.SafeName(origin) }

  function Registry(s: State, origin: string): seq<Record> {
    if FileOf(origin) in s.registries then s.registries[FileOf(origin)] else []
  }

  function BlobIds(rs: seq<Record>): set<string> { set r | r in rs && r.blobId != "" :: r.blobId }

  /** Every blob id any registry names. */
  function Referenced(registries: map<string, seq<Record>>): set<string> {
    set f, r | f in registries && r in registries[f] && r.blobId != "" :: r.blobId
  }

  /** Python's `rs[-max:]`, if there are more than `max` and `max` is positive. */
  function Retained(rs: seq<Record>, max: int): seq<Record> { if 0 < max < |rs| then rs[|rs| - max..] else rs }

  function EvictedBy(rs: seq<Record>, max: int): seq<Record> { if 0 < max < |rs| then rs[..|rs| - max] else [] }

  /** Replace a registry and delete the blobs of the removed records that no registry names any more. */
  function Replaced(s: State, file: string, rs: seq<Record>, removed: seq<Record>): State {
    var registries := s.registries[file := rs];
    State(registries, s.blobs - (BlobIds(removed) - Referenced(registries)))
  }

  datatype Op =
    | Save(origin: string, raw: Blob, step: int, parent: Option<string>, id: string)
    | Delete(origin: string, id: string)

  function NewRecord(c: Codec, op: Op): Record
    requires op.Save?
  {
    Record(op.id, c.hash(c.compress(op.raw)), op.origin, op.step, op.parent)
  }

  function Without(rs: seq<Record>, id: string): seq<Record> {
    if rs == [] then []
    else Without(rs[..|rs| - 1], id) + if rs[|rs| - 1].id == id then [] else [rs[|rs| - 1]]
  }

  function WithId(rs: seq<Record>, id: string): seq<Record> {
    if rs == [] then []
    else WithId(rs[..|rs| - 1], id) + if rs[|rs| - 1].id == id then [rs[|rs| - 1]] else []
  }

  function Apply(c: Codec, max: int, s: State, op: Op): State {
    match op
    case Save(origin, raw, _, _, _) =>
      var r := NewRecord(c, op);
      var rs := Registry(s, origin) + [r];
      Replaced(s.(blobs := s.blobs[r.blobId := c.compress(raw)]), FileOf(origin), Retained(rs, max), EvictedBy(rs, max))
    case Delete(origin, id) =>
      var rs := Registry(s, origin);
      if |Without(rs, id)| < |rs| then Replaced(s, FileOf(origin), Without(rs, id), WithId(rs, id)) else s
  }

  /** The last of the records: all if the limit is not positive, else at most so many. */
  function Newest(rs: seq<Record>, limit: int): seq<Record> {
    var n := if limit > 0 then Min(limit, |rs|) else |rs|;
    rs[|rs| - n..]
  }

  lemma RetainedIsNewest(rs: seq<Record>, max: int)
    ensures Retained(rs, max) == Newest(rs, max)
  {
  }

  lemma NewestGrows(rs: seq<Record>, r: Record, max: int)
    ensures Newest(Newest(rs, max) + [r], max) == Newest(rs + [r], max)
    ensures r in Newest(rs + [r], max)
  {
    var kept := Newest(rs + [r], max);
    assert kept[|kept| - 1] == r;
  }

  lemma RegistryReplaced(s: State, origin: string, rs: seq<Record>, removed: seq<Record>, other: string)
    ensures Registry(Replaced(s, FileOf(origin), rs, removed), other) == if FileOf(other) == FileOf(origin) then rs else Registry(s, other)
    ensures forall r :: r in rs && r.blobId != "" && r.blobId in s.blobs ==>
              var s' := Replaced(s, FileOf(origin), rs, removed); r.blobId in s'.blobs && s'.blobs[r.blobId] == s.blobs[r.blobId]
  {
    hide BlobIds, FileOf;
    assert s.registries[FileOf(origin) := rs][FileOf(origin)] == rs;
  }

  /** A save leaves the newest records, as many as there are or as the limit allows, and the new one's blob. */
  lemma NewestIsSaved(c: Codec, max: int, s: State, op: Op)
    requires op.Save?
    ensures var r := Record(op.id, c.hash(c.compress(op.raw)), op.origin, op.step, op.parent);
            var s' := Apply(c, max, s, op);
            && Registry(s', op.origin) == Newest(Registry(s, op.origin) + [r], max)
            && (r.blobId != "" ==> r.blobId in s'.blobs && s'.blobs[r.blobId] == c.compress(op.raw))
            && forall o :: FileOf(o) != FileOf(op.origin) ==> Registry(s', o) == Registry(s, o)
  {
    var r := NewRecord(c, op);
    var rs := Registry(s, op.origin) + [r];
    RetainedIsNewest(rs, max);
    NewestGrows(Registry(s, op.origin), r, max);
    var stored := s.(blobs := s.blobs[r.blobId := c.compress(op.raw)]);
    assert Apply(c, max, s, op) == Replaced(stored, FileOf(op.origin), Retained(rs, max), EvictedBy(rs, max));
    forall o ensures Registry(Apply(c, max, s, op), o) == if FileOf(o) == FileOf(op.origin) then Retained(rs, max) else Registry(s, o) {
      RegistryReplaced(stored, op.origin, Retained(rs, max), EvictedBy(rs, max), o);
    }
    RegistryReplaced(stored, op.origin, Retained(rs, max), EvictedBy(rs, max), op.origin);
    hide Replaced, Retained, EvictedBy, Newest, FileOf, Apply, BlobIds, Referenced;
  }

  // ----- Invariants of every run -----

  /** What was saved under each id so far. */
  function Saved(ops: seq<Op>): map<string, Blob> {
    if ops == [] then map[]
    else
      var op := ops[|ops| - 1];
      if op.Save? then Saved(ops[..|ops| - 1])[op.id := op.raw] else Saved(ops[..|ops| - 1])
  }

  function Run(c: Codec, max: int, ops: seq<Op>): State {
    if ops == [] then EMPTY else Apply(c, max, Run(c, max, ops[..|ops| - 1]), ops[|ops| - 1])
  }

  /** The records of all saves to `file`, in order. */
  function SavesTo(c: Codec, ops: seq<Op>, file: string): seq<Record> {
    if ops == [] then []
    else
      var op := ops[|ops| - 1];
      SavesTo(c, ops[..|ops| - 1], file) + if op.Save? && FileOf(op.origin) == file then [NewRecord(c, op)] else []
  }

  ghost predicate NeverDeleted(ops: seq<Op>, file: string) { forall op :: op in ops && op.Delete? ==> FileOf(op.origin) != file }

  /** Without deletions, a registry is the newest of all records ever saved to its file, as many as the limit allows. */
  lemma {:induction false} RegistryIsNewest(c: Codec, max: int, ops: seq<Op>, origin: string)
    requires NeverDeleted(ops, FileOf(origin))
    ensures Registry(Run(c, max, ops), origin) == Newest(SavesTo(c, ops, FileOf(origin)), max)
  {
    hide Newest, Apply, Registry, FileOf, Run, SavesTo;
    if ops == [] {
      StartsEmpty(c, max, origin);
    } else {
      var n := |ops| - 1;
      assert ops[n] in ops && NeverDeleted(ops[..n], FileOf(origin));
      RegistryIsNewest(c, max, ops[..n], origin);
      hide NeverDeleted;
      StepNewest(c, max, ops, origin);
    }
  }

  lemma StartsEmpty(c: Codec, max: int, origin: string)
    ensures Registry(Run(c, max, []), origin) == Newest(SavesTo(c, [], FileOf(origin)), max)
  {
  }

  lemma StepNewest(c: Codec, max: int, ops: seq<Op>, origin: string)
    requires ops != [] && var op := ops[|ops| - 1]; op.Delete? ==> FileOf(op.origin) != FileOf(origin)
    requires var before := ops[..|ops| - 1];
             Registry(Run(c, max, before), origin) == Newest(SavesTo(c, before, FileOf(origin)), max)
    ensures Registry(Run(c, max, ops), origin) == Newest(SavesTo(c, ops, FileOf(origin)), max)
  {
    hide Newest, Apply, FileOf, Run, Registry, SavesTo, NewRecord;
    var op, before := ops[|ops| - 1], ops[..|ops| - 1];
    RunStep(c, max, ops);
    SavesToStep(c, ops, FileOf(origin));
    if op.Save? {
      NewestGrows(SavesTo(c, before, FileOf(origin)), NewRecord(c, op), max);
      SavedTo(c, max, Run(c, max, before), op, origin);
    } else {
      DeleteElsewhere(c, max, Run(c, max, before), op, origin);
    }
  }

  lemma SavesToStep(c: Codec, ops: seq<Op>, file: string)
    requires ops != []
    ensures var op, before := ops[|ops| - 1], SavesTo(c, ops[..|ops| - 1], file);
            SavesTo(c, ops, file) == if op.Save? && FileOf(op.origin) == file then before + [NewRecord(c, op)] else before
  {
  }

  lemma SavedTo(c: Codec, max: int, s: State, op: Op, origin: string)
    requires op.Save?
    ensures Registry(Apply(c, max, s, op), origin) ==
            if FileOf(op.origin) == FileOf(origin) then Newest(Registry(s, origin) + [NewRecord(c, op)], max) else Registry(s, origin)
  {
    NewestIsSaved(c, max, s, op);
    hide Newest, Apply, FileOf;
  }

  lemma DeleteElsewhere(c: Codec, max: int, s: State, op: Op, origin: string)
    requires op.Delete? && FileOf(op.origin) != FileOf(origin)
    ensures Registry(Apply(c, max, s, op), origin) == Registry(s, origin)
  {
    hide Without, WithId, BlobIds, Referenced, FileOf;
  }

  lemma RunStep(c: Codec, max: int, ops: seq<Op>)
    requires ops != []
    ensures Run(c, max, ops) == Apply(c, max, Run(c, max, ops[..|ops| - 1]), ops[|ops| - 1])
  {
  }

  /** Checkpoint ids are new: never saved before, and not named as a parent by a record at hand. */
  ghost predicate FreshIds(c: Codec, max: int, ops: seq<Op>) {
    ops == [] ||
    var n := |ops| - 1;
    && FreshIds(c, max, ops[..n])
    && (ops[n].Save? ==>
         && ops[n].id != "" && ops[n].id !in Saved(ops[..n]) && ops[n].parent != Some(ops[n].id)
         && forall f, r :: f in Run(c, max, ops[..n]).registries && r in Run(c, max, ops[..n]).registries[f] ==> r.parent != Some(ops[n].id))
  }

  /** Ids are unique and a present parent comes before its child. */
  ghost predicate Ordered(rs: seq<Record>) {
    && (forall i, j :: 0 <= i < j < |rs| ==> rs[i].id != rs[j].id)
    && (forall i, j :: 0 <= i < |rs| && 0 <= j < |rs| && rs[i].parent == Some(rs[j].id) ==> j < i)
  }

  ghost predicate Truthful(c: Codec, s: State, saved: map<string, Blob>) {
    forall f, r :: f in s.registries && r in s.registries[f] ==>
      r.id in saved && r.blobId == c.hash(c.compress(saved[r.id]))
  }

  ghost predicate AllOrdered(s: State) { forall f :: f in s.registries ==> Ordered(s.registries[f]) }

  /** The stored blobs are exactly the referenced ones, each under its digest. */
  ghost predicate Exact(c: Codec, s: State) {
    s.blobs.Keys == Referenced(s.registries) && forall b :: b in s.blobs ==> c.hash(s.blobs[b]) == b
  }

  lemma {:induction false} WithoutCounts(rs: seq<Record>, id: string)
    ensures |Without(rs, id)| + |WithId(rs, id)| == |rs|
  {
    if rs != [] {
      WithoutCounts(rs[..|rs| - 1], id);
    }
  }

  lemma {:induction false} WithoutLaws(rs: seq<Record>, id: string)
    ensures forall r :: r in Without(rs, id) <==> r in rs && r.id != id
    ensures forall r :: r in WithId(rs, id) <==> r in rs && r.id == id
    ensures |Without(rs, id)| + |WithId(rs, id)| == |rs|
  {
    WithoutCounts(rs, id);
    if rs != [] {
      var n := |rs| - 1;
      WithoutLaws(rs[..n], id);
      assert forall r :: r in rs <==> r in rs[..n] || r == rs[n];
    }
  }

  lemma {:induction false} WithoutOrdered(rs: seq<Record>, id: string)
    requires Ordered(rs)
    ensures Ordered(Without(rs, id))
  {
    if rs != [] {
      var n := |rs| - 1;
      assert Ordered(rs[..n]);
      WithoutOrdered(rs[..n], id);
      WithoutLaws(rs[..n], id);
      AppendOrdered(rs, Without(rs[..n], id), n);
      hide Ordered;
      assert Without(rs[..n], id) + [] == Without(rs[..n], id);
    }
  }

  lemma AppendOrdered(rs: seq<Record>, kept: seq<Record>, n: nat)
    requires Ordered(rs) && n < |rs| && Ordered(kept) && forall r :: r in kept ==> r in rs[..n]
    ensures Ordered(kept + [rs[n]])
  {
    forall i | 0 <= i < |kept| ensures kept[i].id != rs[n].id && kept[i].parent != Some(rs[n].id) {
      assert kept[i] in kept;
      var k :| 0 <= k < n && rs[k] == kept[i];
    }
    assert rs[n].parent != Some(rs[n].id);
  }

  lemma ReplacedIsExact(c: Codec, s: State, file: string, rs: seq<Record>, removed: seq<Record>)
    requires forall b :: b in s.blobs ==> c.hash(s.blobs[b]) == b
    requires Referenced(s.registries[file := rs]) <= s.blobs.Keys <= Referenced(s.registries[file := rs]) + BlobIds(removed)
    ensures Exact(c, Replaced(s, file, rs, removed))
  {
    hide Referenced, BlobIds;
  }

  lemma ReferencedSet(registries: map<string, seq<Record>>, file: string, rs: seq<Record>, old_: seq<Record>)
    requires old_ == if file in registries then registries[file] else []
    ensures Referenced(registries[file := rs]) <= Referenced(registries) + BlobIds(rs)
    ensures Referenced(registries) <= Referenced(registries[file := rs]) + BlobIds(old_)
    ensures BlobIds(rs) <= Referenced(registries[file := rs])
  {
    forall b | b in Referenced(registries) ensures b in Referenced(registries[file := rs]) + BlobIds(old_) {
      var f, r :| f in registries && r in registries[f] && r.blobId != "" && r.blobId == b;
      if f != file {
        assert r in registries[file := rs][f];
      }
    }
    forall b | b in BlobIds(rs) ensures b in Referenced(registries[file := rs]) {
      var r :| r in rs && r.blobId != "" && r.blobId == b;
      assert r in registries[file := rs][file];
    }
  }

  lemma SaveIsExact(c: Codec, max: int, s: State, op: Op)
    requires c.Lawful() && Exact(c, s) && op.Save?
    ensures Exact(c, Apply(c, max, s, op))
  {
    var file, r := FileOf(op.origin), NewRecord(c, op);
    var rs := Registry(s, op.origin) + [r];
    var kept, gone := Retained(rs, max), EvictedBy(rs, max);
    assert rs == gone + kept;
    assert BlobIds(rs) == BlobIds(gone) + BlobIds(kept);
    assert BlobIds(rs) == BlobIds(Registry(s, op.origin)) + {r.blobId};
    ReferencedSet(s.registries, file, kept, Registry(s, op.origin));
    hide Referenced, BlobIds, Retained, EvictedBy;
    assert BlobIds(Registry(s, op.origin)) <= Referenced(s.registries) by { OwnIds(s, op.origin); }
    ReplacedIsExact(c, s.(blobs := s.blobs[r.blobId := c.compress(op.raw)]), file, kept, gone);
  }

  lemma OwnIds(s: State, origin: string)
    ensures BlobIds(Registry(s, origin)) <= Referenced(s.registries)
  {
    forall b | b in BlobIds(Registry(s, origin)) ensures b in Referenced(s.registries) {
      var r :| r in Registry(s, origin) && r.blobId != "" && r.blobId == b;
      assert r in s.registries[FileOf(origin)];
    }
  }

  lemma DeleteIsExact(c: Codec, max: int, s: State, op: Op)
    requires Exact(c, s) && op.Delete?
    ensures Exact(c, Apply(c, max, s, op))
  {
    var rs := Registry(s, op.origin);
    WithoutLaws(rs, op.id);
    var kept, gone := Without(rs, op.id), WithId(rs, op.id);
    if |kept| < |rs| {
      assert BlobIds(rs) == BlobIds(gone) + BlobIds(kept);
      ReferencedSet(s.registries, FileOf(op.origin), kept, rs);
      OwnIds(s, op.origin);
      hide Referenced, BlobIds, Without, WithId;
      ReplacedIsExact(c, s, FileOf(op.origin), kept, gone);
    }
  }

  lemma RetainedOrdered(rs: seq<Record>, max: int)
    requires Ordered(rs)
    ensures Ordered(Retained(rs, max)) && forall r :: r in Retained(rs, max) ==> r in rs
  {
  }

  lemma NewestOrdered(rs: seq<Record>, r: Record)
    requires Ordered(rs) && r.parent != Some(r.id) && forall x :: x in rs ==> x.id != r.id && x.parent != Some(r.id)
    ensures Ordered(rs + [r])
  {
    assert forall i :: 0 <= i < |rs| ==> rs[i] in rs;
  }

  lemma RegistryOrdered(s: State, origin: string)
    requires AllOrdered(s)
    ensures Ordered(Registry(s, origin))
  {
  }

  ghost predicate AllTruthful(c: Codec, rs: seq<Record>, saved: map<string, Blob>) {
    forall r :: r in rs ==> r.id in saved && r.blobId == c.hash(c.compress(saved[r.id]))
  }

  /** Replacing a registry by an ordered, truthful one keeps all registries so. */
  lemma ReplacedKeeps(c: Codec, s: State, file: string, rs: seq<Record>, removed: seq<Record>, saved: map<string, Blob>)
    requires AllOrdered(s) && Truthful(c, s, saved) && Ordered(rs) && AllTruthful(c, rs, saved)
    ensures AllOrdered(Replaced(s, file, rs, removed)) && Truthful(c, Replaced(s, file, rs, removed), saved)
  {
    hide Ordered, Referenced, BlobIds;
  }

  lemma RegistryTruthful(c: Codec, s: State, o: string, saved: map<string, Blob>)
    requires Truthful(c, s, saved)
    ensures AllTruthful(c, Registry(s, o), saved)
  {
  }

  lemma SaveKeeps(c: Codec, max: int, s: State, saved: map<string, Blob>, op: Op)
    requires AllOrdered(s) && Truthful(c, s, saved) && op.Save? && op.id !in saved && op.parent != Some(op.id)
    requires forall f, r :: f in s.registries && r in s.registries[f] ==> r.parent != Some(op.id)
    ensures AllOrdered(Apply(c, max, s, op)) && Truthful(c, Apply(c, max, s, op), saved[op.id := op.raw])
  {
    var rs, r, saved' := Registry(s, op.origin), NewRecord(c, op), saved[op.id := op.raw];
    RegistryOrdered(s, op.origin);
    assert forall x :: x in rs ==> x in s.registries[FileOf(op.origin)];
    NewestOrdered(rs, r);
    RetainedOrdered(rs + [r], max);
    RegistryTruthful(c, s, op.origin, saved);
    assert AllTruthful(c, Retained(rs + [r], max), saved');
    var s1 := s.(blobs := s.blobs[r.blobId := c.compress(op.raw)]);
    assert AllOrdered(s1) && Truthful(c, s1, saved');
    hide Ordered, Retained, EvictedBy, AllOrdered, Truthful, AllTruthful, Replaced;
    ReplacedKeeps(c, s1, FileOf(op.origin), Retained(rs + [r], max), EvictedBy(rs + [r], max), saved');
  }

  lemma DeleteKeeps(c: Codec, max: int, s: State, saved: map<string, Blob>, op: Op)
    requires AllOrdered(s) && Truthful(c, s, saved) && op.Delete?
    ensures AllOrdered(Apply(c, max, s, op)) && Truthful(c, Apply(c, max, s, op), saved)
  {
    var rs := Registry(s, op.origin);
    RegistryOrdered(s, op.origin);
    WithoutOrdered(rs, op.id);
    WithoutLaws(rs, op.id);
    RegistryTruthful(c, s, op.origin, saved);
    assert AllTruthful(c, Without(rs, op.id), saved);
    hide Ordered, Without, WithId, AllOrdered, Truthful, AllTruthful, Replaced;
    ReplacedKeeps(c, s, FileOf(op.origin), Without(rs, op.id), WithId(rs, op.id), saved);
  }

  /** One operation with a fresh id keeps every registry ordered and every record true to what was saved. */
  lemma StepKeeps(c: Codec, max: int, s: State, saved: map<string, Blob>, op: Op)
    requires AllOrdered(s) && Truthful(c, s, saved)
    requires op.Save? ==> op.id !in saved && op.parent != Some(op.id)
                          && forall f, r :: f in s.registries && r in s.registries[f] ==> r.parent != Some(op.id)
    ensures AllOrdered(Apply(c, max, s, op))
    ensures Truthful(c, Apply(c, max, s, op), if op.Save? then saved[op.id := op.raw] else saved)
  {
    hide AllOrdered, Truthful, Apply;
    if op.Save? {
      SaveKeeps(c, max, s, saved, op);
    } else {
      DeleteKeeps(c, max, s, saved, op);
    }
  }

  lemma {:induction false} RunKeeps(c: Codec, max: int, ops: seq<Op>)
    requires c.Lawful() && FreshIds(c, max, ops)
    ensures var s := Run(c, max, ops); Exact(c, s) && AllOrdered(s) && Truthful(c, s, Saved(ops))
  {
    if ops == [] {
      assert Referenced(map[]) == {};
    } else {
      var n := |ops| - 1;
      RunKeeps(c, max, ops[..n]);
      hide Exact, Truthful, AllOrdered, Apply;
      StepKeeps(c, max, Run(c, max, ops[..n]), Saved(ops[..n]), ops[n]);
      if ops[n].Save? {
        SaveIsExact(c, max, Run(c, max, ops[..n]), ops[n]);
      } else {
        DeleteIsExact(c, max, Run(c, max, ops[..n]), ops[n]);
      }
    }
  }

  /** What reading a record gives. */
  function Load(c: Codec, s: State, r: Record): Result<Blob, Error> {
    if r.blobId !in s.blobs then Err(NotFound)
    else if c.decompress(s.blobs[r.blobId]).None? then Err(Corrupt)
    else Ok(c.decompress(s.blobs[r.blobId]).value)
  }

  /** Over every run, deduplicated blobs and shared registry files included, each record loads exactly what was saved under its id. */
  lemma RecordsLoad(c: Codec, max: int, ops: seq<Op>, file: string, r: Record)
    requires c.Lawful() && FreshIds(c, max, ops)
    requires file in Run(c, max, ops).registries && r in Run(c, max, ops).registries[file]
    ensures r.id in Saved(ops) && Load(c, Run(c, max, ops), r) == Ok(Saved(ops)[r.id])
  {
    RunKeeps(c, max, ops);
    var s := Run(c, max, ops);
    hide Run, Saved;
    assert r.blobId != "" && r.blobId in Referenced(s.registries);
    assert c.hash(s.blobs[r.blobId]) == c.hash(c.compress(Saved(ops)[r.id]));
  }

  /** Nothing else is kept: a blob is stored exactly while some registry names it. */
  lemma StoredIffReferenced(c: Codec, max: int, ops: seq<Op>, b: string)
    requires c.Lawful() && FreshIds(c, max, ops)
    ensures b in Run(c, max, ops).blobs <==> b in Referenced(Run(c, max, ops).registries)
  {
    RunKeeps(c, max, ops);
  }

  /** An operation on `o` leaves the registry of `o'` alone in every state exactly when their files differ: a save... */
  lemma SavesApartIff(c: Codec, max: int, o: string, o': string, raw: Blob, step: int, parent: Option<string>, id: string)
    ensures (forall s :: Registry(Apply(c, max, s, Save(o, raw, step, parent, id)), o') == Registry(s, o')) <==> FileOf(o) != FileOf(o')
  {
    var op := Save(o, raw, step, parent, id);
    hide FileOf, Referenced, BlobIds;
    if FileOf(o) == FileOf(o') {
      assert Registry(EMPTY, o') == [];
      assert Retained([NewRecord(c, op)], max) == [NewRecord(c, op)];
      assert Registry(Apply(c, max, EMPTY, op), o') == [NewRecord(c, op)];
    }
  }

  /** ...or a delete. */
  lemma DeletesApartIff(c: Codec, max: int, o: string, o': string, id: string)
    ensures (forall s :: Registry(Apply(c, max, s, Delete(o, id)), o') == Registry(s, o')) <==> FileOf(o) != FileOf(o')
  {
    hide FileOf, Referenced, BlobIds;
    if FileOf(o) == FileOf(o') {
      var r := Record(id, "", o, 0, None);
      var s := State(map[FileOf(o) := [r]], map[]);
      assert Registry(s, o) == [r] && Without([r][..0], id) == [];
      assert Registry(Apply(c, max, s, Delete(o, id)), o') == [];
      assert Registry(s, o') == [r];
    }
  }

  /** Such a pair: with one retention for both, saving for the second evicts the first's only checkpoint. */
  lemma SharedFileEvicts(c: Codec, x: Blob, y: Blob)
    ensures var s := Run(c, 1, [Save("a:b", x, 0, None, "1"), Save("a_b", y, 0, None, "2")]);
            forall r :: r in Registry(s, "a:b") ==> r.origin == "a_b"
  {
    var first, second := Save("a:b", x, 0, None, "1"), Save("a_b", y, 0, None, "2");
    assert FileOf("a:b") == FileOf("a_b") == "a_b";
    hide FileOf, Referenced, BlobIds;
    assert [first, second][..1] == [first];
    assert Run(c, 1, [first]) == Apply(c, 1, Run(c, 1, [first][..0]), first);
    assert Registry(Run(c, 1, [first]), "a_b") == [NewRecord(c, first)];
  }

  // ----- Lineage -----

  /** The record of id `id`. */
  ghost predicate IsAt(rs: seq<Record>, id: string, i: int) { 0 <= i < |rs| && rs[i].id == id }

  /** No parent to climb to: none named, or not in the registry. */
  ghost predicate Root(rs: seq<Record>, r: Record) {
    r.parent.None? || r.parent.value == "" || forall i :: 0 <= i < |rs| ==> rs[i].id != r.parent.value
  }

  predicate Child(parent: Record, r: Record) { r.parent == Some(parent.id) && parent.id != "" }

  /** Root first, target last, each the parent of the next, no record twice. */
  ghost predicate Lineage(rs: seq<Record>, chain: seq<Record>, target: Record) {
    && chain != [] && chain[|chain| - 1] == target && Root(rs, chain[0])
    && (forall i :: 0 <= i < |chain| ==> chain[i] in rs)
    && (forall i, j :: 0 <= i < |chain| && j == i + 1 < |chain| ==> Child(chain[i], chain[j]))
    && (forall i, j :: 0 <= i < j < |chain| ==> chain[i].id != chain[j].id)
  }

  /** Part of a lineage, newest first, whose last record stands at position `at`. */
  ghost predicate Climbing(rs: seq<Record>, climb: seq<Record>, target: Record, at: nat) {
    && at < |rs| && climb != [] && climb[0] == target && climb[|climb| - 1] == rs[at]
    && (forall i :: 0 <= i < |climb| ==> climb[i] in rs[at..])
    && (forall i, j :: 0 <= i < |climb| && j == i + 1 < |climb| ==> Child(climb[j], climb[i]))
    && (forall i, j :: 0 <= i < j < |climb| ==> climb[i].id != climb[j].id)
  }

  lemma NotAbove(rs: seq<Record>, at: nat, next: nat, r: Record)
    requires Ordered(rs) && next < at < |rs| && r in rs[at..]
    ensures r in rs[next..] && r.id != rs[next].id
  {
    var k :| 0 <= k < |rs[at..]| && rs[at..][k] == r;
    assert rs[next..][at - next + k] == r;
  }

  lemma ClimbStep(rs: seq<Record>, climb: seq<Record>, target: Record, at: nat, next: nat)
    requires Ordered(rs) && Climbing(rs, climb, target, at) && next < |rs| && Child(rs[next], rs[at])
    ensures next < at && Climbing(rs, climb + [rs[next]], target, next)
  {
    assert next < at;
    forall i | 0 <= i < |climb| ensures climb[i].id != rs[next].id && climb[i] in rs[next..] {
      NotAbove(rs, at, next, climb[i]);
    }
    assert rs[next..][0] == rs[next];
    hide Ordered;
  }

  function Reverse(s: seq<Record>): (r: seq<Record>)
    ensures |r| == |s| && forall i :: 0 <= i < |s| ==> r[i] == s[|s| - 1 - i]
  {
    seq(|s|, i requires 0 <= i < |s| => s[|s| - 1 - i])
  }

  lemma ClimbEnd(rs: seq<Record>, climb: seq<Record>, target: Record, at: nat)
    requires Climbing(rs, climb, target, at) && Root(rs, rs[at])
    ensures Lineage(rs, Reverse(climb), target)
  {
    var chain := Reverse(climb);
    forall i, j | 0 <= i < |chain| && j == i + 1 < |chain| ensures Child(chain[i], chain[j]) {
      assert Child(climb[|climb| - 1 - i], climb[|climb| - 1 - j]);
    }
  }

  /** `record_by_id.get`: the last record of that id. */
  method Find(rs: seq<Record>, id: string) returns (at: Option<nat>)
    ensures at.Some? ==> IsAt(rs, id, at.value)
    ensures at.None? ==> forall i :: 0 <= i < |rs| ==> rs[i].id != id
  {
    var i := |rs|;
    while i > 0
      invariant 0 <= i <= |rs| && forall k :: i <= k < |rs| ==> rs[k].id != id
    {
      i := i - 1;
      if rs[i].id == id {
        return Some(i);
      }
    }
    return None;
  }

  /** The loop of `get_lineage`: on an ordered registry it ends, with the lineage of the target. */
  method Climb(rs: seq<Record>, start: nat) returns (lineage: seq<Record>)
    requires Ordered(rs) && start < |rs|
    ensures Lineage(rs, lineage, rs[start])
  {
    var at := start;
    var climb := [rs[at]];
    hide Ordered;
    while true
      invariant at < |rs| && Climbing(rs, climb, rs[start], at)
      decreases at
    {
      if rs[at].parent.None? || rs[at].parent.value == "" {
        break;
      }
      var next := Find(rs, rs[at].parent.value);
      if next.None? {
        break;
      }
      ClimbStep(rs, climb, rs[start], at, next.value);
      hide Climbing;
      at := next.value;
      climb := climb + [rs[at]];
    }
    ClimbEnd(rs, climb, rs[start], at);
    return Reverse(climb);
  }

  /** The lineage of a target is unique. */
  lemma {:induction false} LineageUnique(rs: seq<Record>, a: seq<Record>, b: seq<Record>, target: Record)
    requires Ordered(rs) && Lineage(rs, a, target) && Lineage(rs, b, target)
    ensures a == b
    decreases |a|
  {
    var m, n := |a| - 1, |b| - 1;
    if m > 0 {
      HasParent(rs, a, target);
    }
    if n > 0 {
      HasParent(rs, b, target);
    }
    if m > 0 && n > 0 {
      SameIdSameRecord(rs, a[m - 1], b[n - 1]);
      LineagePrefix(rs, a, target);
      LineagePrefix(rs, b, target);
      LineageUnique(rs, a[..m], b[..n], a[m - 1]);
      assert a == a[..m] + [a[m]] && b == b[..n] + [b[n]];
    }
  }

  lemma HasParent(rs: seq<Record>, a: seq<Record>, target: Record)
    requires Lineage(rs, a, target) && |a| > 1
    ensures !Root(rs, target) && a[|a| - 2] in rs && target.parent == Some(a[|a| - 2].id)
  {
    assert Child(a[|a| - 2], a[|a| - 1]);
  }

  lemma SameIdSameRecord(rs: seq<Record>, a: Record, b: Record)
    requires Ordered(rs) && a in rs && b in rs && a.id == b.id
    ensures a == b
  {
  }

  lemma LineagePrefix(rs: seq<Record>, a: seq<Record>, target: Record)
    requires Lineage(rs, a, target) && |a| > 1
    ensures Lineage(rs, a[..|a| - 1], a[|a| - 2])
  {
  }

  ghost predicate UniqueIds(rs: seq<Record>) { forall i, j :: 0 <= i < j < |rs| ==> rs[i].id != rs[j].id }

  lemma SameId(rs: seq<Record>, a: Record, b: Record)
    requires UniqueIds(rs) && a in rs && b in rs && a.id == b.id
    ensures a == b
  {
  }

  ghost predicate HasParentIn(c: set<Record>, r: Record) { exists p :: p in c && Child(p, r) }

  /** Records of the registry whose parents are all among themselves. */
  ghost predicate Rootless(rs: seq<Record>, c: set<Record>) { forall r :: r in c ==> r in rs && HasParentIn(c, r) }

  lemma NoRootIn(rs: seq<Record>, c: set<Record>, r: Record)
    requires Rootless(rs, c) && r in c
    ensures !Root(rs, r)
  {
    var p :| p in c && Child(p, r);
    hide HasParentIn;
    var i :| 0 <= i < |rs| && rs[i] == p;
  }

  lemma ParentIn(rs: seq<Record>, c: set<Record>, p: Record, r: Record)
    requires UniqueIds(rs) && Rootless(rs, c) && r in c && p in rs && Child(p, r)
    ensures p in c
  {
    var q :| q in c && Child(q, r);
    hide HasParentIn;
    SameId(rs, p, q);
  }

  lemma Link(rs: seq<Record>, chain: seq<Record>, target: Record, i: nat)
    requires Lineage(rs, chain, target) && i < |chain|
    ensures chain[i] in rs && chain[|chain| - 1] == target && Root(rs, chain[0])
    ensures i + 1 < |chain| ==> Child(chain[i], chain[i + 1])
  {
    hide Root, Child;
  }

  /** Climbing from such a record never reaches a root, so the loop cannot end with a lineage of it. */
  lemma RootlessHasNoLineage(rs: seq<Record>, c: set<Record>, chain: seq<Record>, target: Record)
    requires UniqueIds(rs) && Rootless(rs, c) && target in c
    ensures !Lineage(rs, chain, target)
  {
    if Lineage(rs, chain, target) {
      assert chain != [];
      hide Lineage, Root, Rootless, Child, UniqueIds;
      StaysRootless(rs, c, chain, target, 0);
      Link(rs, chain, target, 0);
      NoRootIn(rs, c, chain[0]);
    }
  }

  lemma {:induction false} StaysRootless(rs: seq<Record>, c: set<Record>, chain: seq<Record>, target: Record, i: nat)
    requires UniqueIds(rs) && Rootless(rs, c) && target in c && Lineage(rs, chain, target) && i < |chain|
    ensures chain[i] in c
    decreases |chain| - i
  {
    hide Lineage, Root, Rootless, Child, UniqueIds;
    Link(rs, chain, target, i);
    if i + 1 < |chain| {
      StaysRootless(rs, c, chain, target, i + 1);
      ParentIn(rs, c, chain[i], chain[i + 1]);
    }
  }

  /** In particular parents that form a cycle of any length; `save_checkpoint` builds none, as its ids are new. */
  lemma CycleHasNoLineage(rs: seq<Record>, cycle: seq<Record>, chain: seq<Record>, target: Record)
    requires UniqueIds(rs) && target in cycle && forall r :: r in cycle ==> r in rs
    requires forall i, j :: 0 <= i < |cycle| && j == (if i + 1 < |cycle| then i + 1 else 0) ==> Child(cycle[j], cycle[i])
    ensures !Lineage(rs, chain, target)
  {
    var c := set r | r in cycle;
    forall r | r in c ensures r in rs && HasParentIn(c, r) {
      var i :| 0 <= i < |cycle| && cycle[i] == r;
      var j := if i + 1 < |cycle| then i + 1 else 0;
      assert cycle[j] in c && Child(cycle[j], r);
    }
    hide Lineage;
    RootlessHasNoLineage(rs, c, chain, target);
  }

  // ----- The manager -----

  class CheckpointManager {
    const codec: Codec
    const maxCheckpoints: int
    var registries: map<string, seq<Record>>
    var blobs: map<string, Blob>

    constructor (codec: Codec, maxCheckpoints: int)
      ensures this.codec == codec && this.maxCheckpoints == maxCheckpoints && St() == EMPTY
    {
      this.codec, this.maxCheckpoints := codec, maxCheckpoints;
      registries, blobs := map[], map[];
    }

    function St(): State
      reads this
    {
      State(registries, blobs)
    }

    /** `_gc_checkpoint_blobs`: a blob already gone is skipped. */
    method CollectBlobs(removed: seq<Record>)
      modifies this`blobs
      ensures blobs == old(blobs) - (BlobIds(removed) - Referenced(registries))
    {
      if removed == [] {
        return;
      }
      var live := Referenced(registries);
      var ids := Listing(BlobIds(removed));
      hide BlobIds, Referenced;
      for i := 0 to |ids|
        invariant blobs == old(blobs) - (ToSet(ids[..i]) - live)
      {
        PrefixGrows(ids, i);
        hide ToSet, Distinct;
        if ids[i] in live {
          continue;
        }
        blobs := blobs - {ids[i]};
      }
      assert ids[..|ids|] == ids;
    }

    /** `save_checkpoint`, from the serialised bytes on. */
    method SaveCheckpoint(origin: string, raw: Blob, step: int, parent: Option<string>, id: string)
      modifies this
      ensures St() == Apply(codec, maxCheckpoints, old(St()), Save(origin, raw, step, parent, id))
      ensures var record := Record(id, codec.hash(codec.compress(raw)), origin, step, parent);
              && Registry(St(), origin) == Newest(Registry(old(St()), origin) + [record], maxCheckpoints)
              && (record.blobId != "" ==> record.blobId in blobs && blobs[record.blobId] == codec.compress(raw))
    {
      NewestIsSaved(codec, maxCheckpoints, St(), Save(origin, raw, step, parent, id));
      hide Newest, BlobIds, Referenced, FileOf;
      var compressed := codec.compress(raw);
      var blobId := codec.hash(compressed);
      var record := Record(id, blobId, origin, step, parent);
      var records := Registry(St(), origin) + [record];
      blobs := blobs[blobId := compressed];
      var evicted: seq<Record> := [];
      if maxCheckpoints > 0 && |records| > maxCheckpoints {
        evicted := records[..|records| - maxCheckpoints];
        records := records[|records| - maxCheckpoints..];
      }
      registries := registries[FileOf(origin) := records];
      CollectBlobs(evicted);
    }

    method DeleteCheckpoint(origin: string, id: string) returns (found: bool)
      modifies this
      ensures St() == Apply(codec, maxCheckpoints, old(St()), Delete(origin, id))
      ensures found <==> exists i :: IsAt(Registry(old(St()), origin), id, i)
      ensures forall r :: r in Registry(St(), origin) <==> r in Registry(old(St()), origin) && r.id != id
    {
      var records := Registry(St(), origin);
      var kept := Without(records, id);
      WithoutLaws(records, id);
      FoundIff(records, id);
      found := |kept| < |records|;
      hide Without, WithId, Referenced, BlobIds;
      if found {
        registries := registries[FileOf(origin) := kept];
        CollectBlobs(WithId(records, id));
      }
    }

    /** The named checkpoint, or the latest. */
    method LoadCheckpoint(origin: string, id: Option<string>) returns (r: Result<Blob, Error>)
      ensures var rs := Registry(St(), origin);
              if id.Some? && id.value != "" then
                (if exists i :: IsAt(rs, id.value, i) then exists i :: IsAt(rs, id.value, i) && r == Load(codec, St(), rs[i]) else r == Err(NotFound))
              else r == if rs == [] then Err(NotFound) else Load(codec, St(), rs[|rs| - 1])
    {
      var rs := Registry(St(), origin);
      var at := |rs| - 1;
      if id.Some? && id.value != "" {
        at := 0;
        while at < |rs| && rs[at].id != id.value
          invariant 0 <= at <= |rs| && forall k :: 0 <= k < at ==> rs[k].id != id.value
        {
          at := at + 1;
        }
        if at == |rs| {
          return Err(NotFound);
        }
        assert IsAt(rs, id.value, at);
      } else if rs == [] {
        return Err(NotFound);
      }
      if rs[at].blobId !in blobs {
        return Err(NotFound);
      }
      var raw := codec.decompress(blobs[rs[at].blobId]);
      return if raw.None? then Err(Corrupt) else Ok(raw.value);
    }

    /** From the root to the named checkpoint, or to the latest. */
    method GetLineage(origin: string, id: Option<string>) returns (r: Result<seq<Record>, Error>)
      requires Ordered(Registry(St(), origin))
      ensures var rs := Registry(St(), origin);
              if rs == [] then r == Ok([])
              else if id.Some? && id.value != "" then
                if r.Ok? then exists i :: IsAt(rs, id.value, i) && Lineage(rs, r.value, rs[i])
                else forall i :: 0 <= i < |rs| ==> rs[i].id != id.value
              else r.Ok? && Lineage(rs, r.value, rs[|rs| - 1])
    {
      var rs := Registry(St(), origin);
      hide Ordered, Lineage;
      if rs == [] {
        return Ok([]);
      }
      var start := |rs| - 1;
      if id.Some? && id.value != "" {
        var at := Find(rs, id.value);
        if at.None? {
          return Err(NotFound);
        }
        start := at.value;
      }
      var chain := Climb(rs, start);
      return Ok(chain);
    }
  }

  lemma FoundIff(rs: seq<Record>, id: string)
    ensures |Without(rs, id)| < |rs| <==> exists i :: IsAt(rs, id, i)
  {
    WithoutLaws(rs, id);
    if i :| IsAt(rs, id, i) {
      assert rs[i] in WithId(rs, id);
    }
    if WithId(rs, id) != [] {
      assert WithId(rs, id)[0] in WithId(rs, id);
      var i :| 0 <= i < |rs| && rs[i] == WithId(rs, id)[0];
      assert IsAt(rs, id, i);
    }
  }
}
