/** Search over a sharded vector index: cut each shard to its best, then merge. */
module VectorIndex {
  import opened Wrappers
  import opened Numbers
  import opened Vectors
  import opened Cosine
  import opened Ranking

  datatype Error = BadShape | BadIds | BadMetadata | BadMetric | ZeroShardSize

  /** A JSON object; `None` is null. */
  type Metadata = map<string, Option<string>>

  datatype Record = Record(itemId: string, metadata: Metadata)

  datatype Shard = Shard(id: nat, vectors: seq<Vec>, records: seq<Record>)

  datatype Manifest = Manifest(metric: string, dim: nat, totalVectors: nat, shards: seq<Shard>)

  datatype Hit = Hit(record: Record, score: real, shardId: nat)

  datatype Entry = Entry(vector: Vec, record: Record, shardId: nat)

  /** `metadata.get(key)`: a missing key reads as null. */
  function Get(m: Metadata, key: string): Option<string> { if key in m then m[key] else None }

  /** No filter is the empty one. */
  predicate Matches(r: Record, filter: Metadata) { forall key :: key in filter ==> Get(r.metadata, key) == filter[key] }

  /** A key more narrows a filter by that key alone; null also asks for a missing key. */
  lemma FilterLaws(r: Record, filter: Metadata, key: string, value: Option<string>)
    requires key !in filter
    ensures Matches(r, map[])
    ensures Matches(r, filter[key := value]) <==>
              Matches(r, filter) && if key in r.metadata then r.metadata[key] == value else value == None
  {
    assert forall k :: k in filter ==> k in filter[key := value] && filter[key := value][k] == filter[k];
    assert filter[key := value][key] == value;
  }

  predicate ValidShard(s: Shard, dim: nat) { |s.vectors| == |s.records| && Shaped(s.vectors, |s.vectors|, dim) }

  ghost predicate AllValid(shards: seq<Shard>, dim: nat) { forall s :: s in shards ==> ValidShard(s, dim) }

  function ShardEntries(s: Shard): seq<Entry>
    requires |s.vectors| == |s.records|
  {
    seq(|s.vectors|, i requires 0 <= i < |s.vectors| => Entry(s.vectors[i], s.records[i], s.id))
  }

  /** Every vector of the index with its record; a position in this sequence names an item. */
  function Entries(shards: seq<Shard>, dim: nat): (es: seq<Entry>)
    requires forall s :: s in shards ==> ValidShard(s, dim)
    ensures forall e :: e in es ==> |e.vector| == dim
  {
    if shards == [] then []
    else
      var n := |shards| - 1;
      assert shards[n] in shards && ValidShard(shards[n], dim);
      Entries(shards[..n], dim) + ShardEntries(shards[n])
  }

  function Scores(es: seq<Entry>, q: Vec): (r: seq<real>)
    requires forall e :: e in es ==> |e.vector| == |q|
    ensures |r| == |es|
  {
    seq(|es|, i requires 0 <= i < |es| => Dot(es[i].vector, q))
  }

  function HitAt(es: seq<Entry>, scores: seq<real>, p: nat): Hit
    requires p < |es| == |scores|
  {
    Hit(es[p].record, scores[p], es[p].shardId)
  }

  // ----- Building -----

  ghost predicate WellSharded(m: Manifest, working: seq<Vec>, records: seq<Record>, dim: nat, size: nat) {
    && (forall s :: s in m.shards ==> ValidShard(s, dim))
    && (forall k :: 0 <= k < |m.shards| ==> m.shards[k].id == k && 0 < |m.shards[k].vectors| <= size)
    && (forall k :: 0 <= k < |m.shards| - 1 ==> |m.shards[k].vectors| == size)
    && Covers(Entries(m.shards, dim), working, records, |working|)
  }

  /** The entries are the first `n` vectors and records, in order. */
  ghost predicate Covers(es: seq<Entry>, working: seq<Vec>, records: seq<Record>, n: nat)
    requires n <= |working|
  {
    |es| == n && |records| == |working| && forall i :: 0 <= i < n ==> es[i].vector == working[i] && es[i].record == records[i]
  }

  lemma EntriesSnoc(shards: seq<Shard>, s: Shard, dim: nat)
    requires (forall x :: x in shards ==> ValidShard(x, dim)) && ValidShard(s, dim)
    ensures Entries(shards + [s], dim) == Entries(shards, dim) + ShardEntries(s)
  {
    assert (shards + [s])[..|shards|] == shards;
  }

  function Prepared(sqrt: real -> real, metric: string, vectors: seq<Vec>): seq<Vec> {
    seq(|vectors|, i requires 0 <= i < |vectors| => if metric == "cosine" then Normalize(sqrt, vectors[i]) else vectors[i])
  }

  /** `vec:i` stands for the default names. */
  method Build(sqrt: real -> real, defaultId: nat -> string, vectors: seq<Vec>, dim: nat, ids: Option<seq<string>>,
               metadata: Option<seq<Metadata>>, metric: string, shardSize: int) returns (r: Result<Manifest, Error>)
    requires Shaped(vectors, |vectors|, dim)
    ensures r.Ok? <==> Fits(ids, |vectors|) && Fits(metadata, |vectors|) && metric in {"cosine", "dot"} && shardSize != 0
    ensures r == Err(BadIds) <==> !Fits(ids, |vectors|)
    ensures r == Err(BadMetadata) <==> Fits(ids, |vectors|) && !Fits(metadata, |vectors|)
    ensures r.Ok? ==> r.value.metric == metric && r.value.dim == dim && r.value.totalVectors == |vectors|
    ensures r.Ok? && shardSize > 0 ==>
              WellSharded(r.value, Prepared(sqrt, metric, vectors), Records(defaultId, ids, metadata, |vectors|), dim, shardSize)
    ensures r.Ok? && shardSize < 0 ==> r.value.shards == []
  {
    if ids.Some? && |ids.value| != |vectors| {
      return Err(BadIds);
    }
    if metadata.Some? && |metadata.value| != |vectors| {
      return Err(BadMetadata);
    }
    if metric !in {"cosine", "dot"} {
      return Err(BadMetric);
    }
    if shardSize == 0 {
      return Err(ZeroShardSize);
    }
    var working, records := Prepared(sqrt, metric, vectors), Records(defaultId, ids, metadata, |vectors|);
    var shards: seq<Shard> := [];
    if shardSize > 0 {
      shards := Cut(working, records, dim, shardSize);
    }
    return Ok(Manifest(metric, dim, |vectors|, shards));
  }

  /** Given or not, as long as the vectors are many. */
  predicate Fits<T>(given: Option<seq<T>>, n: nat) { given.Some? ==> |given.value| == n }

  /** The ids and metadata given, or the defaults; an empty list counts as none given. */
  function Records(defaultId: nat -> string, ids: Option<seq<string>>, metadata: Option<seq<Metadata>>, n: nat): (r: seq<Record>)
    requires Fits(ids, n) && Fits(metadata, n)
    ensures |r| == n
  {
    seq(n, i requires 0 <= i < n =>
      Record(if ids.Some? then ids.value[i] else defaultId(i), if metadata.Some? then metadata.value[i] else map[]))
  }

  /** The shards hold the first `start` items; all but the last are full. */
  ghost predicate ShardedTo(shards: seq<Shard>, working: seq<Vec>, records: seq<Record>, dim: nat, size: nat, start: nat) {
    && start <= |working| && AllValid(shards, dim)
    && (forall k :: 0 <= k < |shards| ==> shards[k].id == k && 0 < |shards[k].vectors| <= size)
    && (forall k :: 0 <= k < |shards| && (start < |working| || k < |shards| - 1) ==> |shards[k].vectors| == size)
    && Covers(Entries(shards, dim), working, records, start)
  }

  lemma ShardedStep(shards: seq<Shard>, working: seq<Vec>, records: seq<Record>, dim: nat, size: nat, start: nat)
    requires size > 0 && |records| == |working| && Shaped(working, |working|, dim)
    requires ShardedTo(shards, working, records, dim, size, start) && start < |working|
    ensures var end := Min(start + size, |working|);
            ShardedTo(shards + [Shard(|shards|, working[start..end], records[start..end])], working, records, dim, size, end)
  {
    var end := Min(start + size, |working|);
    var s := Shard(|shards|, working[start..end], records[start..end]);
    assert ValidShard(s, dim);
    EntriesSnoc(shards, s, dim);
    CoversMore(Entries(shards, dim), working, records, start, end, |shards|);
    hide Entries, ShardEntries, ValidShard, Covers, Shaped;
  }

  lemma CoversMore(es: seq<Entry>, working: seq<Vec>, records: seq<Record>, start: nat, end: nat, id: nat)
    requires start <= end <= |working| && Covers(es, working, records, start)
    ensures Covers(es + ShardEntries(Shard(id, working[start..end], records[start..end])), working, records, end)
  {
  }

  /** The loop over `range(0, total, shard_size)`. */
  method Cut(working: seq<Vec>, records: seq<Record>, dim: nat, size: nat) returns (shards: seq<Shard>)
    requires size > 0 && |records| == |working| && Shaped(working, |working|, dim)
    ensures forall m: Manifest :: m.shards == shards ==> WellSharded(m, working, records, dim, size)
  {
    shards := [];
    var start := 0;
    while start < |working|
      invariant ShardedTo(shards, working, records, dim, size, start)
    {
      hide ShardedTo, Shaped;
      ShardedStep(shards, working, records, dim, size, start);
      var end := Min(start + size, |working|);
      assert start < end <= |working| by { ShardedWithin(shards, working, records, dim, size, start); }
      shards := shards + [Shard(|shards|, working[start..end], records[start..end])];
      start := end;
    }
    ShardedWithin(shards, working, records, dim, size, start);
    hide Entries, ValidShard, Covers;
  }

  lemma ShardedWithin(shards: seq<Shard>, working: seq<Vec>, records: seq<Record>, dim: nat, size: nat, start: nat)
    requires ShardedTo(shards, working, records, dim, size, start)
    ensures start <= |working|
  {
  }

  // ----- Ordering by score -----

  /** Best first. */
  ghost predicate Descending(p: seq<nat>, scores: seq<real>) {
    && (forall i :: 0 <= i < |p| ==> p[i] < |scores|)
    && (forall i, j :: 0 <= i < j < |p| ==> scores[p[i]] >= scores[p[j]])
  }

  function Range(n: nat): (r: set<nat>)
    ensures |r| == n && forall i: nat :: i in r <==> i < n
  {
    if n == 0 then {} else Range(n - 1) + {n - 1}
  }

  lemma {:induction false} BestExists(rest: set<nat>, scores: seq<real>) returns (best: nat)
    requires rest != {} && forall i :: i in rest ==> i < |scores|
    ensures best in rest && forall i :: i in rest ==> scores[best] >= scores[i]
  {
    best :| best in rest;
    if rest != {best} {
      var other := BestExists(rest - {best}, scores);
      best := if scores[best] >= scores[other] then best else other;
    }
  }

  /** `order` is the best part of all positions, best first. */
  ghost predicate Ordering(order: seq<nat>, rest: set<nat>, scores: seq<real>) {
    && Distinct(order) && Descending(order, scores) && rest <= Range(|scores|) && ToSet(order) == Range(|scores|) - rest
    && forall i, k :: 0 <= i < |order| && k in rest ==> scores[order[i]] >= scores[k]
  }

  lemma OrderingStep(order: seq<nat>, rest: set<nat>, scores: seq<real>, best: nat)
    requires Ordering(order, rest, scores) && best in rest && forall k :: k in rest ==> scores[best] >= scores[k]
    ensures Ordering(order + [best], rest - {best}, scores)
  {
    assert best < |scores|;
    AppendOne(order, best);
    AppendWorse(order, scores, best);
    hide Distinct, Descending, ToSet, Range;
    var order', rest' := order + [best], rest - {best};
    assert ToSet(order') == Range(|scores|) - rest';
    forall i, k | 0 <= i < |order'| && k in rest' ensures scores[order'[i]] >= scores[k] {
      assert i < |order| ==> order'[i] == order[i];
    }
  }

  lemma AppendWorse(order: seq<nat>, scores: seq<real>, x: nat)
    requires Descending(order, scores) && x < |scores| && forall i :: 0 <= i < |order| ==> scores[order[i]] >= scores[x]
    ensures Descending(order + [x], scores)
  {
  }

  lemma AppendOne(order: seq<nat>, x: nat)
    requires Distinct(order) && x !in ToSet(order)
    ensures Distinct(order + [x]) && ToSet(order + [x]) == ToSet(order) + {x}
  {
    InsertDistinct(order, x, |order|);
    assert order[..|order|] + [x] + order[|order|..] == order + [x];
  }

  lemma OrderingEnd(order: seq<nat>, scores: seq<real>)
    requires Ordering(order, {}, scores)
    ensures |order| == |scores| && forall i: nat :: i < |scores| ==> i in order
  {
    DistinctCount(order);
    forall i: nat | i < |scores| ensures i in order {
      assert i in ToSet(order);
    }
  }

  /** `np.argsort(scores)[::-1]`: ties in any order. */
  method ArgSortDescending(scores: seq<real>) returns (order: seq<nat>)
    ensures Distinct(order) && |order| == |scores| && Descending(order, scores)
    ensures forall i: nat :: i < |scores| ==> i in order
  {
    order := [];
    var rest := Range(|scores|);
    while rest != {}
      invariant rest <= Range(|scores|) && Ordering(order, rest, scores)
      decreases |rest|
    {
      ghost var known := BestExists(rest, scores);
      var best :| best in rest && forall i :: i in rest ==> scores[best] >= scores[i];
      OrderingStep(order, rest, scores, best);
      hide Ordering;
      order, rest := order + [best], rest - {best};
    }
    OrderingEnd(order, scores);
  }

  /** Python's `s[:k]`. */
  function Head<T>(s: seq<T>, k: int): seq<T> {
    if k >= 0 then s[..Min(k, |s|)] else s[..Max(|s| + k, 0)]
  }

  // ----- Top-k through shards -----

  /** If enough entries of `a` reach `v`, and `b` is best-first and never worse than an `a` it leaves out, `b[i]` reaches `v`. */
  lemma Pigeonhole(scores: seq<real>, a: seq<nat>, b: seq<nat>, i: nat, v: real)
    requires Distinct(a) && |a| > i && i < |b| && Descending(b, scores)
    requires forall x :: x in a ==> x < |scores| && scores[x] >= v
    requires forall x :: x in a && x !in b ==> scores[x] <= scores[b[i]]
    ensures scores[b[i]] >= v
  {
    if scores[b[i]] < v {
      assert ToSet(a) <= ToSet(b[..i]) by {
        forall x | x in a ensures x in b[..i] {
          assert x in b;
          var j :| 0 <= j < |b| && b[j] == x;
          assert j < i;
          assert b[..i][j] == x;
        }
      }
      DistinctCount(a);
      SizeAtMost(b[..i]);
      CountSubset(ToSet(a), ToSet(b[..i]));
      assert false;
    }
  }

  lemma {:induction false} SizeAtMost(s: seq<nat>)
    ensures |ToSet(s)| <= |s|
  {
    if s != [] {
      var n := |s| - 1;
      SizeAtMost(s[..n]);
      assert ToSet(s) == ToSet(s[..n]) + {s[n]};
    }
  }

  /** `top` is the answer to a top-k query over `n` items. */
  ghost predicate TopK(top: seq<nat>, scores: seq<real>, k: nat) {
    && Distinct(top) && Descending(top, scores) && |top| == Min(k, |scores|)
    && forall x: nat, i :: x < |scores| && x !in top && 0 <= i < |top| ==> scores[x] <= scores[top[i]]
  }

  /** The score sequence is the first k of the globally sorted scores, for every way of sorting them. */
  lemma TopKIsGlobalPrefix(top: seq<nat>, scores: seq<real>, k: nat, sorted: seq<nat>)
    requires TopK(top, scores, k)
    requires Distinct(sorted) && Descending(sorted, scores) && |sorted| == |scores| && forall x: nat :: x < |scores| ==> x in sorted
    ensures forall i :: 0 <= i < |top| ==> scores[top[i]] == scores[sorted[i]]
  {
    forall i | 0 <= i < |top| ensures scores[top[i]] == scores[sorted[i]] {
      Pigeonhole(scores, sorted[..i + 1], top, i, scores[sorted[i]]);
      Pigeonhole(scores, top[..i + 1], sorted, i, scores[top[i]]);
    }
  }

  /** `x` is cut only where `k` candidates at least as good were kept. */
  ghost predicate Beaten(x: nat, kept: seq<nat>, scores: seq<real>, k: nat) {
    exists a: seq<nat> :: Beats(a, x, kept, scores, k)
  }

  ghost predicate Beats(a: seq<nat>, x: nat, kept: seq<nat>, scores: seq<real>, k: nat) {
    && Distinct(a) && |a| == k && x < |scores|
    && forall y :: y in a ==> y in kept && y < |scores| && scores[y] >= scores[x]
  }

  /** What the candidates of the first shards, `n` items in all, satisfy. */
  ghost predicate Candidates(kept: seq<nat>, scores: seq<real>, n: nat, k: nat) {
    && n <= |scores| && Distinct(kept) && (forall x :: x in kept ==> x < n)
    && forall x: nat :: x < n && x !in kept ==> Beaten(x, kept, scores, k)
  }

  /** A candidate that did not make it is no better than any that did. */
  lemma KeptButCut(merged: seq<nat>, scores: seq<real>, k: nat, x: nat)
    requires Descending(merged, scores) && x in merged && x !in merged[..Min(k, |merged|)]
    ensures x < |scores| && forall i :: 0 <= i < Min(k, |merged|) ==> scores[x] <= scores[merged[i]]
  {
    var top := merged[..Min(k, |merged|)];
    var j :| 0 <= j < |merged| && merged[j] == x;
    assert forall i :: 0 <= i < |top| ==> top[i] == merged[i] && top[i] in top;
    assert j >= |top|;
  }

  /** Nor is an item that is no candidate. */
  lemma NeverKept(kept: seq<nat>, merged: seq<nat>, scores: seq<real>, k: nat, x: nat)
    requires Candidates(kept, scores, |scores|, k) && x < |scores| && x !in kept && k > 0
    requires Descending(merged, scores) && |merged| == |kept| && forall y :: y in merged <==> y in kept
    ensures |kept| >= k && forall i :: 0 <= i < k ==> scores[x] <= scores[merged[i]]
  {
    var a: seq<nat> :| Beats(a, x, kept, scores, k);
    assert forall y :: y in a ==> y in kept && y < |scores| && scores[y] >= scores[x];
    assert Distinct(a) && |a| == k;
    SmallerThanKept(a, kept);
    hide Candidates, Beats, Distinct;
    var top := merged[..k];
    forall y | y in a && y !in top ensures scores[y] <= scores[top[k - 1]] {
      KeptButCut(merged, scores, k, y);
    }
    assert Descending(top, scores);
    Pigeonhole(scores, a, top, k - 1, scores[x]);
  }

  lemma SmallerThanKept(a: seq<nat>, kept: seq<nat>)
    requires Distinct(a) && forall y :: y in a ==> y in kept
    ensures |a| <= |kept|
  {
    DistinctCount(a);
    SizeAtMost(kept);
    CountSubset(ToSet(a), ToSet(kept));
  }

  /** Sorting the candidates and cutting them at k gives the global top-k. */
  lemma MergeIsTopK(kept: seq<nat>, merged: seq<nat>, scores: seq<real>, k: nat)
    requires Candidates(kept, scores, |scores|, k)
    requires Distinct(merged) && Descending(merged, scores) && |merged| == |kept| && forall y :: y in merged <==> y in kept
    ensures TopK(merged[..Min(k, |merged|)], scores, k)
  {
    var top := merged[..Min(k, |merged|)];
    EnoughCandidates(kept, scores, k);
    hide Candidates;
    forall x: nat, i | x < |scores| && x !in top && 0 <= i < |top| ensures scores[x] <= scores[top[i]] {
      if x in merged {
        KeptButCut(merged, scores, k, x);
      } else {
        NeverKept(kept, merged, scores, k, x);
      }
    }
  }

  lemma EnoughCandidates(kept: seq<nat>, scores: seq<real>, k: nat)
    requires Candidates(kept, scores, |scores|, k)
    ensures Min(k, |kept|) == Min(k, |scores|)
  {
    if x: nat :| x < |scores| && x !in kept {
      var a: seq<nat> :| Beats(a, x, kept, scores, k);
      SmallerThanKept(a, kept);
    } else {
      assert Range(|scores|) == ToSet(kept);
      DistinctCount(kept);
    }
    DistinctCount(kept);
    CountSubset(ToSet(kept), Range(|scores|));
  }

  function Rebased(cut: seq<nat>, n: nat): (r: seq<nat>)
    ensures |r| == |cut|
  {
    seq(|cut|, i requires 0 <= i < |cut| => n + cut[i])
  }

  /** Scores `local` are those of the items from `n` on. */
  ghost predicate Continues(scores: seq<real>, n: nat, local: seq<real>) {
    n + |local| <= |scores| && forall i :: 0 <= i < |local| ==> scores[n + i] == local[i]
  }

  lemma RebasedLaws(cut: seq<nat>, n: nat, m: nat)
    requires forall y :: y in cut ==> y < m
    ensures forall z :: z in Rebased(cut, n) ==> n <= z < n + m
    ensures Distinct(cut) ==> Distinct(Rebased(cut, n))
  {
    forall z | z in Rebased(cut, n) ensures n <= z < n + m {
      var i := RebasedFrom(cut, n, z);
      assert cut[i] in cut;
    }
  }

  lemma RebasedFrom(cut: seq<nat>, n: nat, z: nat) returns (i: nat)
    requires z in Rebased(cut, n)
    ensures i < |cut| && z == n + cut[i]
  {
    i :| 0 <= i < |cut| && Rebased(cut, n)[i] == z;
  }

  lemma RebasedHas(cut: seq<nat>, n: nat, y: nat)
    ensures y in cut <==> n + y in Rebased(cut, n)
  {
    if y in cut {
      var i :| 0 <= i < |cut| && cut[i] == y;
      assert Rebased(cut, n)[i] == n + y;
    }
    if n + y in Rebased(cut, n) {
      var i := RebasedFrom(cut, n, n + y);
    }
  }

  lemma StaysBeaten(x: nat, kept: seq<nat>, more: seq<nat>, scores: seq<real>, k: nat)
    requires Beaten(x, kept, scores, k)
    ensures Beaten(x, kept + more, scores, k)
  {
    var a: seq<nat> :| Beats(a, x, kept, scores, k);
    assert Beats(a, x, kept + more, scores, k);
  }

  /** `cut` is what a shard with scores `local` keeps: k entries no worse than any it drops, or all. */
  ghost predicate ShardCut(local: seq<real>, cut: seq<nat>, k: int) {
    && Distinct(cut) && (forall y :: y in cut ==> y < |local|)
    && (k >= 0 ==> |cut| <= k)
    && (k >= 0 ==> forall y: nat :: y < |local| && y !in cut ==> |cut| == k && forall z :: z in cut ==> local[z] >= local[y])
  }

  /** A shard keeps all its items exactly when it has at most `k`. */
  lemma CutKeepsAllIff(local: seq<real>, cut: seq<nat>, k: nat)
    requires ShardCut(local, cut, k)
    ensures AllKept(cut, |local|) <==> |local| <= k
  {
    DistinctCount(cut);
    assert forall y :: y in cut <==> y in ToSet(cut);
    assert ToSet(cut) <= Range(|local|);
    if y: nat :| y < |local| && y !in cut {
      assert |cut| == k;
      CountSubset(ToSet(cut) + {y}, Range(|local|));
    } else {
      CountSubset(Range(|local|), ToSet(cut));
    }
  }

  /** The first `n` positions are all kept. */
  ghost predicate AllKept(kept: seq<nat>, n: nat) { forall x: nat :: x < n ==> x in kept }

  lemma HeadIsShardCut(local: seq<real>, order: seq<nat>, k: int)
    requires Distinct(order) && Descending(order, local) && |order| == |local| && forall i: nat :: i < |local| ==> i in order
    ensures ShardCut(local, Head<nat>(order, k), k)
  {
    var cut: seq<nat> := Head<nat>(order, k);
    assert forall i :: 0 <= i < |cut| ==> cut[i] == order[i] && cut[i] in cut;
    assert Distinct(cut);
    if k >= 0 {
      forall y: nat | y < |local| && y !in cut ensures |cut| == k && forall z :: z in cut ==> local[z] >= local[y] {
        assert y in order;
        var j :| 0 <= j < |order| && order[j] == y;
      }
    }
  }

  lemma KeptIsBetter(scores: seq<real>, n: nat, k: nat, local: seq<real>, cut: seq<nat>, y: nat, z: nat)
    requires Continues(scores, n, local) && ShardCut(local, cut, k) && y < |local| && y !in cut && z in Rebased(cut, n)
    ensures z < |scores| && scores[z] >= scores[n + y]
  {
    var i := RebasedFrom(cut, n, z);
    assert cut[i] in cut;
  }

  lemma NewIsBeaten(kept: seq<nat>, scores: seq<real>, n: nat, k: nat, local: seq<real>, cut: seq<nat>, y: nat)
    requires Continues(scores, n, local) && ShardCut(local, cut, k) && y < |local| && y !in cut
    ensures Beaten(n + y, kept + Rebased(cut, n), scores, k)
  {
    var more: seq<nat> := Rebased(cut, n);
    RebasedLaws(cut, n, |local|);
    assert |more| == k && n + y < |scores|;
    hide Continues, ShardCut, Distinct, Rebased;
    forall z | z in more ensures z < |scores| && scores[z] >= scores[n + y] {
      KeptIsBetter(scores, n, k, local, cut, y, z);
    }
    assert Beats(more, n + y, kept + more, scores, k);
  }

  /** One shard's cut extends the candidates. */
  lemma CandidatesStep(kept: seq<nat>, scores: seq<real>, n: nat, k: nat, local: seq<real>, cut: seq<nat>)
    requires Candidates(kept, scores, n, k) && Continues(scores, n, local) && ShardCut(local, cut, k)
    ensures Candidates(kept + Rebased(cut, n), scores, n + |local|, k)
  {
    var more: seq<nat> := Rebased(cut, n);
    RebasedLaws(cut, n, |local|);
    AppendDistinct(kept, more, n);
    assert n + |local| <= |scores|;
    hide Beaten, Distinct, Rebased, Continues, ShardCut;
    forall x: nat | x < n + |local| && x !in kept + more ensures Beaten(x, kept + more, scores, k) {
      if x < n {
        assert x !in kept;
        StaysBeaten(x, kept, more, scores, k);
      } else {
        RebasedHas(cut, n, x - n);
        NewIsBeaten(kept, scores, n, k, local, cut, x - n);
      }
    }
  }

  // ----- Querying -----

  /** The hits are those of the items at `positions`. */
  ghost predicate HitsAt(hits: seq<Hit>, positions: seq<nat>, es: seq<Entry>, scores: seq<real>)
    requires |es| == |scores|
  {
    |hits| == |positions| && forall i :: 0 <= i < |hits| ==> positions[i] < |es| && hits[i] == HitAt(es, scores, positions[i])
  }

  lemma {:induction false} EntriesPrefix(shards: seq<Shard>, k: nat, dim: nat)
    requires k < |shards| && forall s :: s in shards ==> ValidShard(s, dim)
    ensures ValidShard(shards[k], dim) && (forall s :: s in shards[..k] ==> ValidShard(s, dim))
    ensures Entries(shards[..k + 1], dim) == Entries(shards[..k], dim) + ShardEntries(shards[k])
    ensures Entries(shards[..k + 1], dim) <= Entries(shards, dim)
    decreases |shards| - k
  {
    assert shards[k] in shards;
    assert shards[..k + 1][..k] == shards[..k];
    if k + 1 < |shards| {
      EntriesPrefix(shards, k + 1, dim);
    } else {
      assert shards[..k + 1] == shards;
    }
  }

  predicate Below(q: seq<nat>, n: nat) { forall i :: 0 <= i < |q| ==> q[i] < n }

  lemma BelowMembers(q: seq<nat>, n: nat)
    ensures Below(q, n) <==> forall x :: x in q ==> x < n
  {
    assert forall i :: 0 <= i < |q| ==> q[i] in q;
  }

  /** The positions among `kept` whose record matches. */
  function Selected(kept: seq<nat>, es: seq<Entry>, filter: Metadata): (r: seq<nat>)
    requires Below(kept, |es|)
  {
    if kept == [] then []
    else
      var n := |kept| - 1;
      Selected(kept[..n], es, filter) + if Matches(es[kept[n]].record, filter) then [kept[n]] else []
  }

  lemma {:induction false} SelectedMembers(kept: seq<nat>, es: seq<Entry>, filter: Metadata)
    requires Below(kept, |es|)
    ensures forall x :: x in Selected(kept, es, filter) <==> x in kept && x < |es| && Matches(es[x].record, filter)
  {
    if kept != [] {
      var n := |kept| - 1;
      SelectedMembers(kept[..n], es, filter);
      hide Matches;
      assert forall x :: x in kept <==> x in kept[..n] || x == kept[n];
    }
  }

  lemma {:induction false} SelectedDistinct(kept: seq<nat>, es: seq<Entry>, filter: Metadata)
    requires Below(kept, |es|) && Distinct(kept)
    ensures Distinct(Selected(kept, es, filter))
  {
    if kept != [] {
      var n := |kept| - 1;
      SelectedDistinct(kept[..n], es, filter);
      SelectedMembers(kept[..n], es, filter);
      var before := Selected(kept[..n], es, filter);
      assert forall i :: 0 <= i < |before| ==> before[i] in before;
      assert kept[n] !in kept[..n];
      hide Matches, Selected, Below;
    }
  }

  lemma {:induction false} SelectedAll(kept: seq<nat>, es: seq<Entry>)
    requires Below(kept, |es|)
    ensures Selected(kept, es, map[]) == kept
  {
    if kept != [] {
      SelectedAll(kept[..|kept| - 1], es);
    }
  }

  /** What the loop body keeps of one shard. */
  method SearchShard(s: Shard, q: Vec, topK: int, filter: Metadata) returns (hits: seq<Hit>, ghost local: seq<real>, ghost cut: seq<nat>)
    requires ValidShard(s, |q|)
    ensures local == Scores(ShardEntries(s), q) && ShardCut(local, cut, topK) && Below(cut, |local|)
    ensures HitsAt(hits, Selected(cut, ShardEntries(s), filter), ShardEntries(s), local)
  {
    var scores := seq(|s.vectors|, i requires 0 <= i < |s.vectors| => Dot(s.vectors[i], q));
    assert scores == Scores(ShardEntries(s), q);
    var order := ArgSortDescending(scores);
    HeadIsShardCut(scores, order, topK);
    hide Distinct, Descending, Scores, Dot;
    var head: seq<nat> := Head<nat>(order, topK);
    assert forall j :: 0 <= j < |head| ==> head[j] in head;
    local, cut := scores, head;
    hits := PickHits(s, scores, head, filter);
  }

  method PickHits(s: Shard, local: seq<real>, cut: seq<nat>, filter: Metadata) returns (hits: seq<Hit>)
    requires |s.vectors| == |s.records| == |local| && Below(cut, |local|)
    ensures HitsAt(hits, Selected(cut, ShardEntries(s), filter), ShardEntries(s), local)
  {
    hits := [];
    for j := 0 to |cut|
      invariant HitsAt(hits, Selected(cut[..j], ShardEntries(s), filter), ShardEntries(s), local)
    {
      assert cut[..j + 1][..j] == cut[..j];
      var record := s.records[cut[j]];
      if Matches(record, filter) {
        hits := hits + [Hit(record, local[cut[j]], s.id)];
      }
    }
    assert cut[..|cut|] == cut;
  }

  /** `local` stands in `es` from position `n` on. */
  ghost predicate Placed(es: seq<Entry>, n: nat, local: seq<Entry>) {
    n + |local| <= |es| && forall i :: 0 <= i < |local| ==> es[n + i] == local[i]
  }

  lemma ShardContinues(es: seq<Entry>, before: seq<Entry>, s: Shard, q: Vec, cut: seq<nat>, hits: seq<Hit>)
    requires ValidShard(s, |q|) && (forall e :: e in es ==> |e.vector| == |q|) && before + ShardEntries(s) <= es
    requires HitsAt(hits, cut, ShardEntries(s), Scores(ShardEntries(s), q))
    ensures Continues(Scores(es, q), |before|, Scores(ShardEntries(s), q))
    ensures Placed(es, |before|, ShardEntries(s))
    ensures HitsAt(hits, Rebased(cut, |before|), es, Scores(es, q))
  {
    var n, local := |before|, ShardEntries(s);
    assert forall i :: 0 <= i < |local| ==> es[n + i] == local[i];
  }

  /** Behind every hit that is not worse. */
  method Slot(sorted: seq<Hit>, hit: Hit, ghost merged: seq<nat>, ghost p: nat, ghost es: seq<Entry>, ghost scores: seq<real>) returns (at: nat)
    requires |es| == |scores| && HitsAt(sorted, merged, es, scores) && p < |es| && hit == HitAt(es, scores, p)
    ensures at <= |sorted|
    ensures forall j :: at <= j < |sorted| ==> scores[merged[j]] < scores[p]
    ensures at > 0 ==> scores[merged[at - 1]] >= scores[p]
  {
    at := |sorted|;
    while at > 0 && sorted[at - 1].score < hit.score
      invariant at <= |sorted|
      invariant forall j :: at <= j < |sorted| ==> scores[merged[j]] < scores[p]
    {
      at := at - 1;
    }
  }

  method InsertHit(sorted: seq<Hit>, hit: Hit, at: nat, ghost merged: seq<nat>, ghost p: nat, ghost es: seq<Entry>, ghost scores: seq<real>)
    returns (r: seq<Hit>)
    requires |es| == |scores| && HitsAt(sorted, merged, es, scores) && p < |es| && hit == HitAt(es, scores, p) && at <= |sorted|
    ensures multiset(r) == multiset(sorted) + multiset{hit}
    ensures HitsAt(r, merged[..at] + [p] + merged[at..], es, scores)
  {
    assert sorted == sorted[..at] + sorted[at..];
    r := sorted[..at] + [hit] + sorted[at..];
  }

  /** Python's stable `sort(key=score, reverse=True)`. */
  method SortHits(hits: seq<Hit>, ghost positions: seq<nat>, ghost es: seq<Entry>, ghost scores: seq<real>)
    returns (sorted: seq<Hit>, ghost merged: seq<nat>)
    requires |es| == |scores| && HitsAt(hits, positions, es, scores) && Distinct(positions)
    ensures multiset(sorted) == multiset(hits) && forall i, j :: 0 <= i < j < |sorted| ==> sorted[i].score >= sorted[j].score
    ensures HitsAt(sorted, merged, es, scores)
    ensures Distinct(merged) && Descending(merged, scores) && |merged| == |positions| && ToSet(merged) == ToSet(positions)
  {
    sorted, merged := [], [];
    assert positions[..|hits|] == positions && hits[..|hits|] == hits;
    EmptyPrefix(positions);
    for i := 0 to |hits|
      invariant HitsAt(sorted, merged, es, scores) && |merged| == i
      invariant multiset(sorted) == multiset(hits[..i])
      invariant Distinct(merged) && Descending(merged, scores) && ToSet(merged) == ToSet(positions[..i])
    {
      var at := Slot(sorted, hits[i], merged, positions[i], es, scores);
      InsertLaws(merged, positions, i, at, scores);
      assert hits[..i + 1] == hits[..i] + [hits[i]];
      hide Distinct, Descending, ToSet, HitAt, HitsAt;
      sorted := InsertHit(sorted, hits[i], at, merged, positions[i], es, scores);
      merged := merged[..at] + [positions[i]] + merged[at..];
    }
  }

  lemma InsertLaws(merged: seq<nat>, positions: seq<nat>, i: nat, at: nat, scores: seq<real>)
    requires Distinct(positions) && Distinct(merged) && i < |positions| && at <= |merged| && positions[i] < |scores|
    requires Descending(merged, scores) && ToSet(merged) == ToSet(positions[..i])
    requires forall j :: at <= j < |merged| ==> scores[merged[j]] < scores[positions[i]]
    requires at > 0 ==> scores[merged[at - 1]] >= scores[positions[i]]
    ensures var r := merged[..at] + [positions[i]] + merged[at..];
            Distinct(r) && Descending(r, scores) && ToSet(r) == ToSet(positions[..i + 1])
  {
    PrefixGrows(positions, i);
    InsertDistinct(merged, positions[i], at);
    hide Distinct, ToSet;
  }

  lemma InsertDistinct(merged: seq<nat>, x: nat, at: nat)
    requires Distinct(merged) && at <= |merged| && x !in ToSet(merged)
    ensures var r := merged[..at] + [x] + merged[at..]; Distinct(r) && ToSet(r) == ToSet(merged) + {x}
  {
    assert forall j :: 0 <= j < |merged| ==> merged[j] in ToSet(merged);
    var r := merged[..at] + [x] + merged[at..];
    assert merged == merged[..at] + merged[at..];
    assert ToSet(r) == ToSet(merged) + {x};
  }

  /** What the loop over shards maintains: the hits are at the matching ones of the kept positions. */
  ghost predicate Gathered(hits: seq<Hit>, kept: seq<nat>, es: seq<Entry>, scores: seq<real>, n: nat, topK: int, filter: Metadata)
    requires |es| == |scores|
  {
    && n <= |es| && Distinct(kept) && Below(kept, n)
    && HitsAt(hits, Selected(kept, es, filter), es, scores)
    && (topK >= 0 ==> Candidates(kept, scores, n, topK))
  }

  lemma GatherStart(es: seq<Entry>, scores: seq<real>, topK: int, filter: Metadata)
    requires |es| == |scores|
    ensures Gathered([], [], es, scores, 0, topK, filter)
  {
  }

  function One(p: nat, es: seq<Entry>, filter: Metadata): seq<nat>
    requires p < |es|
  {
    if Matches(es[p].record, filter) then [p] else []
  }

  lemma SelectedSnoc(q: seq<nat>, p: nat, es: seq<Entry>, filter: Metadata)
    requires Below(q, |es|) && p < |es|
    ensures Below(q + [p], |es|) && Selected(q + [p], es, filter) == Selected(q, es, filter) + One(p, es, filter)
  {
    assert (q + [p])[..|q|] == q;
    hide Matches;
  }

  lemma {:induction false} SelectedAppends(a: seq<nat>, b: seq<nat>, es: seq<Entry>, filter: Metadata)
    requires Below(a, |es|) && Below(b, |es|) && Below(a + b, |es|)
    ensures Selected(a + b, es, filter) == Selected(a, es, filter) + Selected(b, es, filter)
  {
    if b == [] {
      assert a + b == a;
    } else {
      var init, last := b[..|b| - 1], b[|b| - 1];
      LastOf(b);
      Associates(a, init, [last]);
      BelowSplits(a, init, last, |es|);
      hide Selected, Below, One;
      SelectedAppends(a, init, es, filter);
      SelectedSnoc(init, last, es, filter);
      SelectedSnoc(a + init, last, es, filter);
      Associates(Selected(a, es, filter), Selected(init, es, filter), One(last, es, filter));
    }
  }

  lemma LastOf(b: seq<nat>)
    requires b != []
    ensures b == b[..|b| - 1] + [b[|b| - 1]]
  {
  }

  lemma Associates(a: seq<nat>, b: seq<nat>, c: seq<nat>)
    ensures a + (b + c) == a + b + c
  {
  }

  lemma BelowSplits(a: seq<nat>, b: seq<nat>, last: nat, n: nat)
    requires Below(a, n) && Below(b + [last], n)
    ensures last < n && Below(b, n) && Below(a + b, n)
  {
    assert (b + [last])[|b|] == last;
    assert forall i :: 0 <= i < |b| ==> (b + [last])[i] == b[i];
  }

  lemma RebasedSnoc(q: seq<nat>, p: seq<nat>, n: nat)
    ensures Rebased(q + p, n) == Rebased(q, n) + Rebased(p, n)
  {
  }

  lemma OneRebases(p: nat, local: seq<Entry>, es: seq<Entry>, n: nat, filter: Metadata)
    requires Placed(es, n, local) && p < |local|
    ensures n + p < |es| && One(n + p, es, filter) == Rebased(One(p, local, filter), n) && Rebased([p], n) == [n + p]
  {
    hide Matches;
  }

  lemma {:induction false} SelectedRebases(cut: seq<nat>, local: seq<Entry>, es: seq<Entry>, n: nat, filter: Metadata)
    requires Below(cut, |local|) && Placed(es, n, local)
    ensures Below(Rebased(cut, n), n + |local|) && Below(Rebased(cut, n), |es|)
    ensures Selected(Rebased(cut, n), es, filter) == Rebased(Selected(cut, local, filter), n)
  {
    assert n + |local| <= |es|;
    if cut != [] {
      var init, last := cut[..|cut| - 1], cut[|cut| - 1];
      LastOf(cut);
      BelowSplits([], init, last, |local|);
      SelectedRebases(init, local, es, n, filter);
      OneRebases(last, local, es, n, filter);
      hide Selected, One, Placed, Rebased;
      RebasedSnoc(init, [last], n);
      RebasedSnoc(Selected(init, local, filter), One(last, local, filter), n);
      SelectedSnoc(init, last, local, filter);
      SelectedSnoc(Rebased(init, n), n + last, es, filter);
    }
  }

  lemma GatherStep(hits: seq<Hit>, kept: seq<nat>, es: seq<Entry>, scores: seq<real>, n: nat, topK: int, filter: Metadata,
                   more: seq<Hit>, shard: seq<Entry>, local: seq<real>, cut: seq<nat>)
    requires |es| == |scores| && Gathered(hits, kept, es, scores, n, topK, filter) && |shard| == |local|
    requires Continues(scores, n, local) && Placed(es, n, shard)
    requires ShardCut(local, cut, topK) && Below(cut, |local|)
    requires HitsAt(more, Rebased(Selected(cut, shard, filter), n), es, scores)
    ensures Gathered(hits + more, kept + Rebased(cut, n), es, scores, n + |local|, topK, filter)
  {
    RebasedLaws(cut, n, |local|);
    SelectedRebases(cut, shard, es, n, filter);
    BelowMembers(kept, n);
    AppendDistinct(kept, Rebased(cut, n), n);
    assert n + |local| <= |es|;
    BelowAppend(kept, Rebased(cut, n), n, n + |local|);
    BelowLarger(kept, Rebased(cut, n), n, n + |local|, |es|);
    BelowLarger(kept + Rebased(cut, n), [], n + |local|, 0, |es|);
    hide Candidates, Continues, Placed, HitsAt, Below, Distinct, Selected, Rebased, ShardCut;
    SelectedAppends(kept, Rebased(cut, n), es, filter);
    HitsAppend(hits, Selected(kept, es, filter), more, Selected(Rebased(cut, n), es, filter), es, scores);
    if topK >= 0 {
      CandidatesStep(kept, scores, n, topK, local, cut);
    }
  }

  lemma BelowLarger(a: seq<nat>, b: seq<nat>, n: nat, m: nat, end: nat)
    requires Below(a, n) && Below(b, m) && n <= end && m <= end
    ensures Below(a, end) && Below(b, end)
  {
  }

  lemma AllKeptStep(kept: seq<nat>, n: nat, m: nat, cut: seq<nat>)
    requires Below(kept, n)
    ensures AllKept(kept + Rebased(cut, n), n + m) <==> AllKept(kept, n) && AllKept(cut, m)
  {
    var all := kept + Rebased(cut, n);
    if AllKept(kept, n) && AllKept(cut, m) {
      forall x: nat | x < n + m ensures x in all {
        if x >= n {
          RebasedHas(cut, n, x - n);
        }
      }
    }
    if AllKept(all, n + m) {
      forall x: nat | x < n ensures x in kept {
        assert x in all;
        if x in Rebased(cut, n) {
          var i := RebasedFrom(cut, n, x);
        }
      }
      forall y: nat | y < m ensures y in cut {
        assert n + y in all;
        RebasedHas(cut, n, y);
        BelowMembers(kept, n);
      }
    }
  }

  /** No shard is cut. */
  predicate SmallShards(shards: seq<Shard>, topK: int) { forall s :: s in shards ==> |s.vectors| <= topK }

  /** All positions so far are kept exactly when no shard so far was cut. */
  ghost predicate SmallKept(shards: seq<Shard>, topK: int, kept: seq<nat>, n: nat) {
    topK >= 0 ==> (SmallShards(shards, topK) <==> AllKept(kept, n))
  }

  lemma SmallKeptStep(shards: seq<Shard>, k: nat, topK: int, q: Vec, kept: seq<nat>, n: nat, local: seq<real>, cut: seq<nat>)
    requires k < |shards| && ValidShard(shards[k], |q|) && SmallKept(shards[..k], topK, kept, n) && Below(kept, n)
    requires local == Scores(ShardEntries(shards[k]), q) && ShardCut(local, cut, topK)
    ensures SmallKept(shards[..k + 1], topK, kept + Rebased(cut, n), n + |local|)
  {
    if topK >= 0 {
      assert |local| == |shards[k].vectors|;
      assert SmallShards(shards[..k + 1], topK) <==> SmallShards(shards[..k], topK) && |local| <= topK by {
        assert forall s :: s in shards[..k + 1] <==> s in shards[..k] || s == shards[k];
      }
      hide ShardCut, Rebased, AllKept, SmallShards, Below;
      CutKeepsAllIff(local, cut, topK);
      AllKeptStep(kept, n, |local|, cut);
    }
  }

  /** The best of the matching kept positions. */
  ghost predicate FilteredTop(top: seq<nat>, kept: seq<nat>, es: seq<Entry>, scores: seq<real>, filter: Metadata, k: nat)
    requires |es| == |scores| && Below(kept, |es|)
  {
    && Distinct(top) && Descending(top, scores) && |top| == Min(k, |Selected(kept, es, filter)|)
    && (forall x :: x in top ==> x in Selected(kept, es, filter))
    && (forall x, i :: x in Selected(kept, es, filter) && x < |es| && x !in top && 0 <= i < |top| ==> scores[x] <= scores[top[i]])
  }

  function Matching(es: seq<Entry>, filter: Metadata): set<nat> {
    set x | x in Range(|es|) && Matches(es[x].record, filter)
  }

  /** The answer to a top-k query over the matching items. */
  ghost predicate MatchTopK(top: seq<nat>, es: seq<Entry>, scores: seq<real>, filter: Metadata, k: nat)
    requires |es| == |scores|
  {
    && Distinct(top) && Descending(top, scores) && |top| == Min(k, |Matching(es, filter)|)
    && (forall x :: x in top ==> x in Matching(es, filter))
    && (forall x, i :: x in Matching(es, filter) && x !in top && 0 <= i < |top| ==> scores[x] <= scores[top[i]])
  }

  lemma HeadIsFilteredTop(kept: seq<nat>, merged: seq<nat>, es: seq<Entry>, scores: seq<real>, filter: Metadata, k: nat)
    requires |es| == |scores| && Below(kept, |es|)
    requires Distinct(merged) && Descending(merged, scores) && |merged| == |Selected(kept, es, filter)|
    requires forall x :: x in merged <==> x in Selected(kept, es, filter)
    ensures FilteredTop(merged[..Min(k, |merged|)], kept, es, scores, filter, k)
  {
    hide Matches, Selected;
    var top := merged[..Min(k, |merged|)];
    assert forall x :: x in top ==> x in merged;
    assert Distinct(top) && Descending(top, scores);
    forall x, i | x in merged && x < |es| && x !in top && 0 <= i < |top| ensures scores[x] <= scores[top[i]] {
      KeptButCut(merged, scores, k, x);
    }
    hide Distinct, Descending;
  }

  lemma FilteredIsMatchTopK(top: seq<nat>, kept: seq<nat>, es: seq<Entry>, scores: seq<real>, filter: Metadata, k: nat)
    requires |es| == |scores| && Distinct(kept) && Below(kept, |es|) && AllKept(kept, |es|)
    requires FilteredTop(top, kept, es, scores, filter, k)
    ensures MatchTopK(top, es, scores, filter, k)
  {
    SelectedDistinct(kept, es, filter);
    SelectedMembers(kept, es, filter);
    var selected := Selected(kept, es, filter);
    assert forall x :: x in selected <==> x in Matching(es, filter);
    assert ToSet(selected) == Matching(es, filter);
    DistinctCount(selected);
    hide Matches, Selected, Distinct, Descending, Below, AllKept, Matching, ToSet;
  }

  /** Some metadata key tells all records apart. */
  ghost predicate Keyed(es: seq<Entry>, key: string) {
    forall i, j :: 0 <= i < j < |es| ==> Get(es[i].record.metadata, key) != Get(es[j].record.metadata, key)
  }

  /** The filter runs after the shards' cuts: if a key tells the records apart, every filter gets the exact top-k of its
      matches exactly when every position was kept. */
  lemma FiltersExactIff(kept: seq<nat>, es: seq<Entry>, scores: seq<real>, key: string, k: nat)
    requires |es| == |scores| && Distinct(kept) && Below(kept, |es|) && Keyed(es, key) && k > 0
    ensures (forall filter, top :: FilteredTop(top, kept, es, scores, filter, k) ==> MatchTopK(top, es, scores, filter, k)) <==>
              AllKept(kept, |es|)
  {
    if AllKept(kept, |es|) {
      forall filter, top | FilteredTop(top, kept, es, scores, filter, k) ensures MatchTopK(top, es, scores, filter, k) {
        FilteredIsMatchTopK(top, kept, es, scores, filter, k);
      }
    } else {
      var x: nat :| x < |es| && x !in kept;
      var filter: Metadata := map[key := Get(es[x].record.metadata, key)];
      LostMatch(kept, es, scores, key, k, x);
      assert FilteredTop([], kept, es, scores, filter, k) && !MatchTopK([], es, scores, filter, k);
    }
  }

  /** A filter that only a cut item matches finds nothing. */
  lemma LostMatch(kept: seq<nat>, es: seq<Entry>, scores: seq<real>, key: string, k: nat, x: nat)
    requires |es| == |scores| && Below(kept, |es|) && Keyed(es, key) && k > 0 && x < |es| && x !in kept
    ensures var filter: Metadata := map[key := Get(es[x].record.metadata, key)];
            FilteredTop([], kept, es, scores, filter, k) && !MatchTopK([], es, scores, filter, k)
  {
    var filter: Metadata := map[key := Get(es[x].record.metadata, key)];
    forall i | 0 <= i < |kept| ensures !Matches(es[kept[i]].record, filter) {
      assert kept[i] in kept;
      KeyTells(es, key, x, kept[i]);
      assert Get(es[kept[i]].record.metadata, key) != filter[key];
    }
    SelectedNone(kept, es, filter);
    assert Matches(es[x].record, filter);
    assert x in Matching(es, filter);
  }

  lemma {:induction false} SelectedNone(kept: seq<nat>, es: seq<Entry>, filter: Metadata)
    requires Below(kept, |es|) && forall i :: 0 <= i < |kept| ==> !Matches(es[kept[i]].record, filter)
    ensures Selected(kept, es, filter) == []
  {
    hide Matches;
    if kept != [] {
      SelectedNone(kept[..|kept| - 1], es, filter);
    }
  }

  lemma KeyTells(es: seq<Entry>, key: string, x: nat, y: nat)
    requires Keyed(es, key) && x < |es| && y < |es| && x != y
    ensures Get(es[x].record.metadata, key) != Get(es[y].record.metadata, key)
  {
  }

  /** Sorting all hits and cutting the list. */
  method Merge(hits: seq<Hit>, ghost kept: seq<nat>, ghost es: seq<Entry>, ghost scores: seq<real>, topK: int, ghost filter: Metadata)
    returns (best: seq<Hit>, ghost top: seq<nat>)
    requires |es| == |scores| && Gathered(hits, kept, es, scores, |scores|, topK, filter)
    ensures topK >= 0 ==> HitsAt(best, top, es, scores) && FilteredTop(top, kept, es, scores, filter, topK)
    ensures topK >= 0 && filter == map[] ==> TopK(top, scores, topK)
    ensures topK >= 0 && AllKept(kept, |es|) ==> MatchTopK(top, es, scores, filter, topK)
  {
    SelectedDistinct(kept, es, filter);
    hide Distinct, Descending, Candidates, TopK, HitsAt, ToSet, Below, FilteredTop, MatchTopK, Selected, AllKept, Head;
    var sorted, merged := SortHits(hits, Selected(kept, es, filter), es, scores);
    if topK >= 0 {
      MergedTop(kept, merged, es, scores, topK, filter);
      HeadHits(sorted, merged, es, scores, topK);
    }
    return Head(sorted, topK), Head<nat>(merged, topK);
  }

  lemma HeadHits(sorted: seq<Hit>, merged: seq<nat>, es: seq<Entry>, scores: seq<real>, k: nat)
    requires |es| == |scores| && HitsAt(sorted, merged, es, scores)
    ensures Head<nat>(merged, k) == merged[..Min(k, |merged|)] && HitsAt(Head(sorted, k), Head<nat>(merged, k), es, scores)
  {
    hide HitAt;
  }

  lemma HitsAppend(a: seq<Hit>, p: seq<nat>, b: seq<Hit>, q: seq<nat>, es: seq<Entry>, scores: seq<real>)
    requires |es| == |scores| && HitsAt(a, p, es, scores) && HitsAt(b, q, es, scores)
    ensures HitsAt(a + b, p + q, es, scores)
  {
    hide HitAt;
  }

  lemma BelowAppend(a: seq<nat>, b: seq<nat>, n: nat, m: nat)
    requires Below(a, n) && Below(b, m) && n <= m
    ensures Below(a + b, m)
  {
  }

  lemma MergedTop(kept: seq<nat>, merged: seq<nat>, es: seq<Entry>, scores: seq<real>, k: nat, filter: Metadata)
    requires |es| == |scores| && Below(kept, |es|) && Distinct(kept) && Candidates(kept, scores, |scores|, k)
    requires Distinct(merged) && Descending(merged, scores)
    requires |merged| == |Selected(kept, es, filter)| && ToSet(merged) == ToSet(Selected(kept, es, filter))
    ensures FilteredTop(merged[..Min(k, |merged|)], kept, es, scores, filter, k)
    ensures filter == map[] ==> TopK(merged[..Min(k, |merged|)], scores, k)
    ensures AllKept(kept, |es|) ==> MatchTopK(merged[..Min(k, |merged|)], es, scores, filter, k)
  {
    SelectedAll(kept, es);
    SameMembers(merged, Selected(kept, es, filter));
    hide Distinct, Descending, Candidates, TopK, Below, FilteredTop, MatchTopK, Selected, AllKept;
    HeadIsFilteredTop(kept, merged, es, scores, filter, k);
    if filter == map[] {
      MergeIsTopK(kept, merged, scores, k);
    }
    if AllKept(kept, |es|) {
      FilteredIsMatchTopK(merged[..Min(k, |merged|)], kept, es, scores, filter, k);
    }
  }

  lemma SameMembers(a: seq<nat>, b: seq<nat>)
    requires ToSet(a) == ToSet(b)
    ensures forall x :: x in a <==> x in b
  {
    assert forall x :: x in a <==> x in ToSet(a);
    assert forall x :: x in b <==> x in ToSet(b);
  }

  lemma AppendDistinct(a: seq<nat>, b: seq<nat>, n: nat)
    requires Distinct(a) && Distinct(b) && (forall x :: x in a ==> x < n) && (forall x :: x in b ==> x >= n)
    ensures Distinct(a + b)
  {
    assert forall i :: 0 <= i < |a| ==> a[i] in a;
    assert forall i :: 0 <= i < |b| ==> b[i] in b;
  }

  /** What searching shard `k` adds to the hits. */
  lemma ShardJoins(shards: seq<Shard>, k: nat, q: Vec, topK: int, filter: Metadata, hits: seq<Hit>, kept: seq<nat>,
                   more: seq<Hit>, local: seq<real>, cut: seq<nat>)
    requires AllValid(shards, |q|) && k < |shards| && AllValid(shards[..k], |q|) && ValidShard(shards[k], |q|)
    requires var (es, n) := (Entries(shards, |q|), |Entries(shards[..k], |q|)|);
             Gathered(hits, kept, es, Scores(es, q), n, topK, filter)
    requires local == Scores(ShardEntries(shards[k]), q) && ShardCut(local, cut, topK) && Below(cut, |local|)
    requires HitsAt(more, Selected(cut, ShardEntries(shards[k]), filter), ShardEntries(shards[k]), local)
    ensures AllValid(shards[..k + 1], |q|) && |Entries(shards[..k + 1], |q|)| == |Entries(shards[..k], |q|)| + |local|
    ensures var (es, n) := (Entries(shards, |q|), |Entries(shards[..k + 1], |q|)|);
            Gathered(hits + more, kept + Rebased(cut, |Entries(shards[..k], |q|)|), es, Scores(es, q), n, topK, filter)
  {
    EntriesPrefix(shards, k, |q|);
    var es, before, shard := Entries(shards, |q|), Entries(shards[..k], |q|), ShardEntries(shards[k]);
    ValidPrefix(shards, k, |q|);
    hide Entries, ShardEntries, Gathered, ShardCut, Rebased, HitsAt, Continues, Placed, Selected, AllValid, ValidShard, Below, Scores;
    ShardContinues(es, before, shards[k], q, Selected(cut, shard, filter), more);
    GatherStep(hits, kept, es, Scores(es, q), |before|, topK, filter, more, shard, local, cut);
  }

  lemma ValidPrefix(shards: seq<Shard>, k: nat, dim: nat)
    requires AllValid(shards, dim) && k < |shards|
    ensures AllValid(shards[..k + 1], dim)
  {
    hide ValidShard;
  }

  lemma GatheredBelow(hits: seq<Hit>, kept: seq<nat>, es: seq<Entry>, scores: seq<real>, n: nat, topK: int, filter: Metadata)
    requires |es| == |scores| && Gathered(hits, kept, es, scores, n, topK, filter)
    ensures Below(kept, n)
  {
  }

  /** One shard after the other. */
  method Gather(shards: seq<Shard>, q: Vec, topK: int, filter: Metadata) returns (hits: seq<Hit>, ghost kept: seq<nat>)
    requires AllValid(shards, |q|)
    ensures var es := Entries(shards, |q|);
            Gathered(hits, kept, es, Scores(es, q), |es|, topK, filter) && SmallKept(shards, topK, kept, |es|)
  {
    ghost var es := Entries(shards, |q|);
    ghost var scores := Scores(es, q);
    hits, kept := [], [];
    GatherStart(es, scores, topK, filter);
    assert shards[..|shards|] == shards;
    assert SmallKept(shards[..0], topK, kept, 0);
    hide Entries, ShardEntries, Scores, Gathered, ShardCut, Rebased, HitsAt, Selected, SmallKept, Below;
    ghost var n := 0;
    for k := 0 to |shards|
      invariant AllValid(shards[..k], |q|)
      invariant n == |Entries(shards[..k], |q|)|
      invariant Gathered(hits, kept, es, scores, n, topK, filter)
      invariant SmallKept(shards[..k], topK, kept, n)
    {
      assert shards[k] in shards;
      var more, local, cut := SearchShard(shards[k], q, topK, filter);
      GatheredBelow(hits, kept, es, scores, n, topK, filter);
      SmallKeptStep(shards, k, topK, q, kept, n, local, cut);
      ShardJoins(shards, k, q, topK, filter, hits, kept, more, local, cut);
      hits := hits + more;
      kept := kept + Rebased(cut, n);
      n := n + |local|;
    }
  }

  function Probe(sqrt: real -> real, metric: string, query: Vec): (r: Vec)
    ensures |r| == |query|
  {
    if metric == "cosine" then Normalize(sqrt, query) else query
  }

  ghost predicate Stretched(vectors: seq<Vec>, factors: seq<real>, vectors': seq<Vec>) {
    |vectors| == |factors| == |vectors'| && forall i :: 0 <= i < |vectors| ==> factors[i] > 0.0 && vectors'[i] == Scale(factors[i], vectors[i])
  }

  /** With cosine, stretching rows or the query by positive factors changes neither what is indexed nor what is probed, hence no
      answer; with dot, rows and query are taken as they are. */
  lemma CosineIgnoresLength(sqrt: real -> real, vectors: seq<Vec>, factors: seq<real>, vectors': seq<Vec>, query: Vec, k: real)
    requires IsRoot(sqrt) && Stretched(vectors, factors, vectors') && k > 0.0
    ensures Prepared(sqrt, "cosine", vectors') == Prepared(sqrt, "cosine", vectors)
    ensures Probe(sqrt, "cosine", Scale(k, query)) == Probe(sqrt, "cosine", query)
    ensures Prepared(sqrt, "dot", vectors) == vectors && Probe(sqrt, "dot", query) == query
  {
    hide IsRoot, Normalize, Scale;
    forall i | 0 <= i < |vectors| ensures Normalize(sqrt, vectors'[i]) == Normalize(sqrt, vectors[i]) {
      NormalizeIgnoresLength(sqrt, factors[i], vectors[i]);
    }
    NormalizeIgnoresLength(sqrt, k, query);
  }

  /** With cosine every score lies in -1 .. 1, and it is 1 exactly for a row that is a positive multiple of the query. */
  lemma CosineScores(sqrt: real -> real, es: seq<Entry>, vectors: seq<Vec>, query: Vec, i: nat)
    requires IsRoot(sqrt) && i < |es| == |vectors| && Shaped(vectors, |vectors|, |query|)
    requires forall j :: 0 <= j < |es| ==> es[j].vector == Prepared(sqrt, "cosine", vectors)[j]
    requires !IsZero(query) && !IsZero(vectors[i])
    ensures (forall e :: e in es ==> |e.vector| == |query|)
            && var s := Scores(es, Probe(sqrt, "cosine", query))[i];
               -1.0 <= s <= 1.0 && (s == 1.0 <==> exists k :: k > 0.0 && query == Scale(k, vectors[i]))
  {
    hide IsRoot, Normalize, Scale, IsZero, Dot;
    CosineLaws(sqrt, vectors[i], query);
  }

  /** `query`, for any shards: the best of the matching items that survive their shard's cut. Without a filter that is the exact
      top-k of all items; with one, the exact top-k of the matching items if no shard is larger than `top_k`, which is exactly
      when nothing is cut. */
  method Query(sqrt: real -> real, m: Manifest, query: Vec, topK: int, filter: Metadata)
    returns (r: Result<seq<Hit>, Error>, ghost positions: seq<nat>, ghost kept: seq<nat>)
    requires forall s :: s in m.shards ==> ValidShard(s, m.dim)
    ensures r.Err? <==> |query| != m.dim
    ensures r.Ok? && topK >= 0 ==>
              var es, q := Entries(m.shards, m.dim), Probe(sqrt, m.metric, query);
              && Candidates(kept, Scores(es, q), |es|, topK) && Below(kept, |es|)
              && (SmallShards(m.shards, topK) <==> AllKept(kept, |es|))
              && FilteredTop(positions, kept, es, Scores(es, q), filter, topK) && HitsAt(r.value, positions, es, Scores(es, q))
              && (filter == map[] ==> TopK(positions, Scores(es, q), topK))
              && (SmallShards(m.shards, topK) ==> MatchTopK(positions, es, Scores(es, q), filter, topK))
  {
    if |query| != m.dim {
      return Err(BadShape), [], [];
    }
    var q := Probe(sqrt, m.metric, query);
    var hits, found := Gather(m.shards, q, topK, filter);
    ghost var es := Entries(m.shards, m.dim);
    GatheredCandidates(hits, found, es, Scores(es, q), topK, filter);
    hide Entries, Scores, Gathered, TopK, HitsAt, Candidates, FilteredTop, MatchTopK, AllKept, SmallShards, Below;
    var best, top := Merge(hits, found, es, Scores(es, q), topK, filter);
    return Ok(best), top, found;
  }

  lemma GatheredCandidates(hits: seq<Hit>, kept: seq<nat>, es: seq<Entry>, scores: seq<real>, topK: int, filter: Metadata)
    requires |es| == |scores| && Gathered(hits, kept, es, scores, |es|, topK, filter)
    ensures topK >= 0 ==> Candidates(kept, scores, |es|, topK)
    ensures Below(kept, |es|)
  {
  }
}
