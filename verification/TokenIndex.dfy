/** The token index: the layout of the last build or adaptation, and the snapshot of the last export. */
module TokenIndex {
  import opened Wrappers
  import opened Numbers
  import opened Vectors
  import opened TokenLayout
  import R = TokenRebalance
  import opened TokenExport

  datatype Error = ShapeMismatch

  datatype Delta = Delta(id: nat, members: seq<nat>, centroidDelta: Vec, offsetDeltas: seq<Vec>)

  datatype IncrementalExport = IncrementalExport(
    changedTokens: seq<nat>, changedClusters: seq<nat>, unchangedClusters: seq<nat>,
    clusters: seq<WeightCluster>, deltas: seq<Delta>)

  // ----- Assigning rows to centroids -----

  /** `np.argmin` of the squared distances to the first `n` centroids. */
  function Closest(centroids: seq<Vec>, v: Vec, n: nat): (c: nat)
    requires 0 < n <= |centroids| && Shaped(centroids, |centroids|, |v|)
    ensures c < n && forall i :: 0 <= i < n ==> SquaredDistance(v, centroids[c]) <= SquaredDistance(v, centroids[i])
    ensures forall i :: 0 <= i < c ==> SquaredDistance(v, centroids[c]) < SquaredDistance(v, centroids[i])
  {
    if n == 1 then 0
    else
      var c := Closest(centroids, v, n - 1);
      if SquaredDistance(v, centroids[n - 1]) < SquaredDistance(v, centroids[c]) then n - 1 else c
  }

  function Assigned(centroids: seq<Vec>, data: seq<Vec>, dim: nat): (labels: seq<nat>)
    requires centroids != [] && Shaped(centroids, |centroids|, dim) && Shaped(data, |data|, dim)
    ensures |labels| == |data| && Below(labels, |centroids|)
  {
    seq(|data|, t requires 0 <= t < |data| => Closest(centroids, data[t], |centroids|))
  }

  /** `data - centroids[labels]` */
  function Residuals(data: seq<Vec>, l: R.Layout, dim: nat): (offsets: seq<Vec>)
    requires R.Good(data, l, dim)
    ensures Shaped(offsets, |data|, dim)
  {
    seq(|data|, t requires 0 <= t < |data| => Sub(data[t], l.centroids[l.labels[t]]))
  }

  /** What centroids and offsets together stand for. */
  function Rebuilt(offsets: seq<Vec>, l: R.Layout, dim: nat): (data: seq<Vec>)
    requires R.Good(offsets, l, dim)
    ensures Shaped(data, |offsets|, dim)
  {
    seq(|offsets|, t requires 0 <= t < |offsets| => Add(l.centroids[l.labels[t]], offsets[t]))
  }

  lemma ResidualsRebuild(data: seq<Vec>, l: R.Layout, dim: nat)
    requires R.Good(data, l, dim)
    ensures R.Good(Residuals(data, l, dim), l, dim) && Rebuilt(Residuals(data, l, dim), l, dim) == data
  {
    forall t | 0 <= t < |data| {
      AddSub(l.centroids[l.labels[t]], data[t]);
    }
  }

  // ----- Deltas -----

  function DeltaOf(l: R.Layout, previous: seq<Vec>, data: seq<Vec>, c: nat, dim: nat): Delta
    requires R.Good(data, l, dim) && Shaped(previous, |data|, dim) && c < |l.centroids|
  {
    assert c in l.labels;
    var now, before := Points(data, l.labels, c), Points(previous, l.labels, c);
    var m, m0 := Mean(now, dim), Mean(before, dim);
    WhereLaws(l.labels, c, |l.labels|);
    Delta(c, Members(l.labels, c), Sub(m, m0),
          seq(|now|, j requires 0 <= j < |now| => Sub(Sub(now[j], m), Sub(before[j], m0))))
  }

  /** Previous row, centroid delta and offset delta add up to the new row. */
  lemma DeltaReplays(l: R.Layout, previous: seq<Vec>, data: seq<Vec>, c: nat, j: nat, dim: nat)
    requires R.Good(data, l, dim) && Shaped(previous, |data|, dim) && c < |l.centroids| && j < |Members(l.labels, c)|
    ensures var d := DeltaOf(l, previous, data, c, dim);
            && |d.offsetDeltas| == |d.members| == |Members(l.labels, c)| && d.members[j] < |data|
            && |d.centroidDelta| == |d.offsetDeltas[j]| == dim
            && Add(Add(previous[d.members[j]], d.centroidDelta), d.offsetDeltas[j]) == data[d.members[j]]
            && d.id == c && d.members == Members(l.labels, c)
            && exists m, m0 :: Balances(data, l.labels, c, m, dim) && Balances(previous, l.labels, c, m0, dim) && d.centroidDelta == Sub(m, m0)
  {
    WhereLaws(l.labels, c, |l.labels|);
    assert c in l.labels;
    MeansBalance(data, l.labels, c, dim);
    MeansBalance(previous, l.labels, c, dim);
    hide Mean, Where, Balances;
    var now, before := Points(data, l.labels, c), Points(previous, l.labels, c);
    Telescopes(previous[Members(l.labels, c)[j]], data[Members(l.labels, c)[j]], Mean(before, dim), Mean(now, dim));
  }

  lemma Telescopes(x: Vec, y: Vec, m0: Vec, m: Vec)
    requires |x| == |y| == |m0| == |m|
    ensures Add(Add(x, Sub(m, m0)), Sub(Sub(y, m), Sub(x, m0))) == y
  {
  }

  function Deltas(l: R.Layout, previous: Option<seq<Vec>>, data: seq<Vec>, ids: seq<nat>, dim: nat): seq<Delta>
    requires R.Good(data, l, dim) && (previous.Some? ==> Shaped(previous.value, |data|, dim)) && Below(ids, |l.centroids|)
  {
    if previous.None? then []
    else seq(|ids|, i requires 0 <= i < |ids| => DeltaOf(l, previous.value, data, ids[i], dim))
  }

  /** Ascending ids of the clusters not in `ids`. */
  function Others(ids: seq<nat>, k: nat): seq<nat> {
    if k == 0 then [] else Others(ids, k - 1) + if k - 1 in ids then [] else [k - 1]
  }

  lemma {:induction false} OthersLaws(ids: seq<nat>, k: nat)
    ensures Increasing(Others(ids, k)) && forall c: nat :: c in Others(ids, k) <==> c < k && c !in ids
    ensures forall i :: 0 <= i < |Others(ids, k)| ==> Others(ids, k)[i] < k
  {
    if k > 0 {
      OthersLaws(ids, k - 1);
      AppendIncreases(Others(ids, k - 1), k - 1);
    }
  }

  class TokenHashIndex {
    const rows: nat
    const dim: nat
    var layout: R.Layout
    var offsets: seq<Vec>
    var members: map<nat, seq<nat>>
    var lastExport: Option<seq<Vec>>

    /** The member table is the one of the labels, so `MemberTableInverts` applies to it. */
    ghost predicate Valid()
      reads this
    {
      && |offsets| == rows && R.Good(offsets, layout, dim)
      && members == MemberTable(layout.labels, |layout.centroids|)
      && (lastExport.Some? ==> Shaped(lastExport.value, rows, dim))
    }

    /** The embeddings the layout was taken from. */
    ghost function Base(): seq<Vec>
      reads this
      requires Valid()
    {
      Rebuilt(offsets, layout, dim)
    }

    /** The tail of `build`, after k-means proposed `fit`. */
    constructor (data: seq<Vec>, dim: nat, fit: R.Layout, p: R.Params, adaptive: bool)
      requires data != [] && R.Input(p, data, fit, dim)
      ensures Valid() && Base() == data && lastExport == None
      ensures this.rows == |data| && this.dim == dim
      ensures adaptive ==> var (stop, n) := R.Loop(p, data, R.Started(p, data, fit, dim), dim, 0);
                           R.Good(data, stop, dim) && layout == R.Averaged(data, stop, dim)
      ensures !adaptive ==> layout == R.Started(p, data, fit, dim)
    {
      var r := R.Rebalance(p, data, fit, dim, adaptive);
      var l := r.value.0;
      RebalancedIsGood(p, data, fit, dim);
      ResidualsRebuild(data, l, dim);
      this.rows, this.dim := |data|, dim;
      layout, offsets := l, Residuals(data, l, dim);
      members := MemberTable(l.labels, |l.centroids|);
      lastExport := None;
    }

    /** `adapt`: reassign every row to its closest centroid, then rebalance. The export snapshot stays. */
    method Adapt(data: seq<Vec>, p: R.Params) returns (r: Result<nat, Error>)
      requires Valid() && p.Lawful(dim)
      modifies this
      ensures Valid() && lastExport == old(lastExport)
      ensures r.Err? <==> !Shaped(data, rows, dim)
      ensures r.Err? ==> layout == old(layout) && offsets == old(offsets)
      ensures r.Ok? ==>
                && Base() == data
                && old(layout).centroids != [] && Shaped(old(layout).centroids, |old(layout).centroids|, dim)
                && var fit := R.Layout(old(layout).centroids, Assigned(old(layout).centroids, data, dim));
                && R.Input(p, data, fit, dim)
                && var (stop, n) := R.Loop(p, data, R.Started(p, data, fit, dim), dim, 0);
                R.Good(data, stop, dim) && layout == R.Averaged(data, stop, dim) && r.value == n
    {
      if !Shaped(data, rows, dim) {
        return Err(ShapeMismatch);
      }
      assert layout.labels[0] < |layout.centroids|;
      var fit := R.Layout(layout.centroids, Assigned(layout.centroids, data, dim));
      var b := R.Rebalance(p, data, fit, dim, true);
      var l := b.value.0;
      RebalancedIsGood(p, data, fit, dim);
      ResidualsRebuild(data, l, dim);
      layout, offsets := l, Residuals(data, l, dim);
      members := MemberTable(l.labels, |l.centroids|);
      return Ok(b.value.1);
    }

    method MarkExportSnapshot(data: seq<Vec>) returns (r: Result<(), Error>)
      requires Valid()
      modifies this`lastExport
      ensures Valid()
      ensures r.Ok? <==> Shaped(data, rows, dim)
      ensures lastExport == if r.Ok? then Some(data) else old(lastExport)
    {
      if !Shaped(data, rows, dim) {
        return Err(ShapeMismatch);
      }
      lastExport := Some(data);
      return Ok(());
    }

    /** What an export without `embeddings` stands for. */
    ghost function Exported(embeddings: Option<seq<Vec>>): seq<Vec>
      reads this
      requires Valid()
    {
      if embeddings.Some? then embeddings.value else Base()
    }

    method ExportCluster(embeddings: Option<seq<Vec>>, c: nat) returns (w: WeightCluster)
      requires Valid() && c < |layout.centroids| && (embeddings.Some? ==> Shaped(embeddings.value, rows, dim))
      ensures R.Good(Exported(embeddings), layout, dim) && w == ExportOne(layout, Exported(embeddings), c, dim)
    {
      assert c in layout.labels;
      var ms, centroid := members[c], layout.centroids[c];
      assert ms == Members(layout.labels, c);
      WhereLaws(layout.labels, c, rows);
      OffsetsMatch(offsets, layout, c, dim);
      hide Where, Rebuilt, Members;
      var os := if embeddings.None? then Rows(offsets, ms)
                else seq(|ms|, j requires 0 <= j < |ms| => Sub(embeddings.value[ms[j]], centroid));
      assert os == ExportOne(layout, Exported(embeddings), c, dim).offsets;
      return WeightCluster(c, centroid, ms, os);
    }

    /** The clusters named, as often as they are named (all once by default), ascending, from `embeddings` or from the stored offsets. */
    method ExportWeightClusters(embeddings: Option<seq<Vec>>, ids: Option<seq<nat>>) returns (r: Result<seq<WeightCluster>, Error>)
      requires Valid()
      ensures r.Err? <==> embeddings.Some? && !Shaped(embeddings.value, rows, dim)
      ensures r.Ok? ==>
                var selected := Selection(ids, layout);
                && R.Good(Exported(embeddings), layout, dim) && Below(selected, |layout.centroids|)
                && r.value == Export(layout, Exported(embeddings), selected, dim)
    {
      if embeddings.Some? {
        if !Shaped(embeddings.value, rows, dim) {
          return Err(ShapeMismatch);
        }
      }
      var selected := Selection(ids, layout);
      SelectionBelow(ids, layout);
      ghost var data := Exported(embeddings);
      assert R.Good(data, layout, dim);
      var clusters: seq<WeightCluster> := [];
      hide Selection, Exported, Valid, ExportOne, R.Good;
      for i := 0 to |selected|
        invariant clusters == Export(layout, data, selected[..i], dim)
      {
        var w := ExportCluster(embeddings, selected[i]);
        assert selected[..i + 1][..i] == selected[..i];
        ExportSnoc(layout, data, selected[..i + 1], dim);
        clusters := clusters + [w];
      }
      assert selected[..|selected|] == selected;
      return Ok(clusters);
    }

    /** `changed_token_ids`: exactly the tokens that moved since the last export, in ascending order. */
    method ChangedTokenIds(data: seq<Vec>, tol: Tolerance) returns (r: Result<seq<nat>, Error>)
      requires Valid()
      ensures r.Ok? <==> Shaped(data, rows, dim)
      ensures r.Ok? ==> Comparable(data, lastExport, |data|, dim) && r.value == ChangedTokens(data, lastExport, tol)
      ensures r.Ok? ==> forall t: nat :: t in r.value <==> t < |data| && OutOfTolerance(data, lastExport, t, tol)
      ensures r.Ok? ==> forall i, j :: 0 <= i < j < |r.value| ==> r.value[i] < r.value[j]
    {
      if !Shaped(data, rows, dim) {
        return Err(ShapeMismatch);
      }
      assert Comparable(data, lastExport, |data|, dim);
      ChangedLaws(data, lastExport, tol, |data|);
      ChangedAscend(data, lastExport, tol, |data|);
      forall t: nat | t < |data| ensures Moved(data, lastExport, t, tol) <==> OutOfTolerance(data, lastExport, t, tol) {
        MovedIff(data, lastExport, t, tol);
      }
      hide OutOfTolerance, Moved;
      return Ok(ChangedTokens(data, lastExport, tol));
    }

    /** `export_incremental_clusters`: one round, and its deltas against the previous snapshot. */
    method ExportIncrementalClusters(data: seq<Vec>, tol: Tolerance, markSnapshot: bool) returns (r: Result<IncrementalExport, Error>)
      requires Valid()
      modifies this`lastExport
      ensures Valid()
      ensures r.Ok? <==> Shaped(data, rows, dim)
      ensures lastExport == if r.Ok? && markSnapshot then Some(data) else old(lastExport)
      ensures r.Ok? ==>
                && R.Good(data, layout, dim) && Comparable(data, old(lastExport), |data|, dim)
                && var ids := ChangedClusters(layout, data, old(lastExport), tol);
                && Below(ids, |layout.centroids|)
                && r.value.changedTokens == ChangedTokens(data, old(lastExport), tol)
                && r.value.changedClusters == ids
                && Increasing(r.value.unchangedClusters)
                && (forall c: nat :: c in r.value.unchangedClusters <==> c < |layout.centroids| && c !in ids)
                && r.value.clusters == Export(layout, data, ids, dim)
                && r.value.deltas == Deltas(layout, old(lastExport), data, ids, dim)
    {
      var changed := ChangedTokenIds(data, tol);
      if changed.Err? {
        return Err(changed.error);
      }
      assert R.Good(data, layout, dim);
      var ids := ChangedClusters(layout, data, lastExport, tol);
      ChangedClustersLaws(layout, data, lastExport, tol, dim);
      var clusters := ExportWeightClusters(Some(data), Some(ids));
      ChangedLaws(data, lastExport, tol, |data|);
      SortedOfUnique(LabelsOf(layout.labels, changed.value), |layout.centroids|);
      hide R.Good, Unique, SortedIds, ChangedClusters, ChangedTokens, Export, Others, Increasing, Deltas;
      OthersLaws(ids, |layout.centroids|);
      var deltas := Deltas(layout, lastExport, data, ids, dim);
      if markSnapshot {
        var _ := MarkExportSnapshot(data);
      }
      return Ok(IncrementalExport(changed.value, ids, Others(ids, |layout.centroids|), clusters.value, deltas));
    }
  }

  /** `sorted(ids)` without the ids of no cluster, which export nothing. */
  function SortedIds(ids: seq<nat>, k: nat): seq<nat> {
    if k == 0 then [] else SortedIds(ids, k - 1) + seq(multiset(ids)[k - 1], _ => k - 1)
  }

  function Selection(ids: Option<seq<nat>>, l: R.Layout): seq<nat> {
    if ids.Some? then SortedIds(ids.value, |l.centroids|) else Unique(l.labels, |l.centroids|)
  }

  lemma {:induction false} CountCopies(x: nat, n: nat, y: nat)
    ensures multiset(seq(n, _ => x))[y] == if y == x then n else 0
  {
    if n > 0 {
      CountCopies(x, n - 1, y);
      assert seq(n, _ => x) == seq(n - 1, _ => x) + [x];
    }
  }

  lemma {:induction false} SortedIdsAscend(ids: seq<nat>, k: nat)
    ensures var r := SortedIds(ids, k); Below(r, k) && forall i, j :: 0 <= i < j < |r| ==> r[i] <= r[j]
  {
    if k > 0 {
      SortedIdsAscend(ids, k - 1);
    }
  }

  /** Ascending, and each existing cluster as often as it was named. */
  lemma SortedIdsLaws(ids: seq<nat>, k: nat, x: nat)
    ensures var r := SortedIds(ids, k);
            && (forall i, j :: 0 <= i < j < |r| ==> r[i] <= r[j])
            && multiset(r)[x] == if x < k then multiset(ids)[x] else 0
  {
    SortedIdsAscend(ids, k);
    SortedIdsCount(ids, k, x);
    hide SortedIds;
  }

  lemma {:induction false} SortedIdsCount(ids: seq<nat>, k: nat, x: nat)
    ensures multiset(SortedIds(ids, k))[x] == if x < k then multiset(ids)[x] else 0
  {
    if k > 0 {
      SortedIdsCount(ids, k - 1, x);
      CountCopies(k - 1, multiset(ids)[k - 1], x);
    }
  }

  lemma SelectionBelow(ids: Option<seq<nat>>, l: R.Layout)
    ensures Below(Selection(ids, l), |l.centroids|)
  {
    if ids.Some? {
      SortedIdsAscend(ids.value, |l.centroids|);
    } else {
      UniqueLaws(l.labels, |l.centroids|);
    }
  }

  lemma {:induction false} UniqueCounts(labels: seq<nat>, n: nat, x: nat)
    ensures multiset(Unique(labels, n))[x] == if x < n && x in labels then 1 else 0
  {
    if n > 0 {
      UniqueCounts(labels, n - 1, x);
    }
  }

  lemma {:induction false} SortedOfCounts(ids: seq<nat>, labels: seq<nat>, n: nat)
    requires forall x: nat :: x < n ==> multiset(ids)[x] == if x in labels then 1 else 0
    ensures SortedIds(ids, n) == Unique(labels, n)
  {
    if n > 0 {
      SortedOfCounts(ids, labels, n - 1);
    }
  }

  lemma SortedOfUnique(labels: seq<nat>, k: nat)
    ensures SortedIds(Unique(labels, k), k) == Unique(labels, k)
  {
    forall x: nat | x < k ensures multiset(Unique(labels, k))[x] == if x in labels then 1 else 0 {
      UniqueCounts(labels, k, x);
    }
    SortedOfCounts(Unique(labels, k), labels, k);
  }

  lemma RebalancedIsGood(p: R.Params, data: seq<Vec>, fit: R.Layout, dim: nat)
    requires R.Input(p, data, fit, dim)
    ensures var (stop, n) := R.Loop(p, data, R.Started(p, data, fit, dim), dim, 0);
            R.Good(data, stop, dim) && R.Good(data, R.Averaged(data, stop, dim), dim)
  {
    R.LoopLaws(p, data, R.Started(p, data, fit, dim), dim, 0);
    var (stop, n) := R.Loop(p, data, R.Started(p, data, fit, dim), dim, 0);
    R.AveragedLaws(data, stop, dim);
    R.RenumberKeeps(R.Layout(Means(data, stop.labels, |stop.centroids|, dim), stop.labels), dim);
  }

  lemma OffsetsMatch(offsets: seq<Vec>, l: R.Layout, c: nat, dim: nat)
    requires R.Good(offsets, l, dim) && c < |l.centroids|
    ensures forall j :: 0 <= j < |Members(l.labels, c)| ==>
              var t := Members(l.labels, c)[j];
              t < |offsets| && Sub(Rebuilt(offsets, l, dim)[t], l.centroids[c]) == offsets[t]
  {
    WhereLaws(l.labels, c, |l.labels|);
    var ms := Members(l.labels, c);
    forall j | 0 <= j < |ms|
      ensures ms[j] < |offsets| && Sub(Rebuilt(offsets, l, dim)[ms[j]], l.centroids[c]) == offsets[ms[j]]
    {
      assert ms[j] in ms;
      SubAdd(l.centroids[c], offsets[ms[j]]);
    }
  }

  lemma SubAdd(c: Vec, x: Vec)
    requires |c| == |x|
    ensures Sub(Add(c, x), c) == x
  {
  }
}
