/** Clusters of token rows: renumbering, splitting and merging, and the member table. */
module TokenLayout {
  import opened Wrappers
  import opened Numbers
  import opened Vectors

  // ----- Renumbering -----

  /** `sorted(np.unique(labels))` for labels below `bound`. */
  function Unique(labels: seq<nat>, bound: nat): seq<nat> {
    if bound == 0 then []
    else Unique(labels, bound - 1) + if bound - 1 in labels then [bound - 1] else []
  }

  ghost predicate Increasing(ids: seq<nat>) { forall i, j :: 0 <= i < j < |ids| ==> ids[i] < ids[j] }

  lemma AppendIncreases(ids: seq<nat>, x: nat)
    requires Increasing(ids) && forall i :: 0 <= i < |ids| ==> ids[i] < x
    ensures Increasing(ids + [x])
  {
  }

  lemma {:induction false} UniqueLaws(labels: seq<nat>, bound: nat)
    ensures Increasing(Unique(labels, bound))
    ensures forall x: nat :: x in Unique(labels, bound) <==> x in labels && x < bound
    ensures forall i :: 0 <= i < |Unique(labels, bound)| ==> Unique(labels, bound)[i] < bound
    ensures |Unique(labels, bound)| <= bound
  {
    if bound > 0 {
      UniqueLaws(labels, bound - 1);
      AppendIncreases(Unique(labels, bound - 1), bound - 1);
    }
  }

  function Position(ids: seq<nat>, x: nat): (n: nat)
    requires x in ids
    ensures n < |ids| && ids[n] == x
  {
    if ids[|ids| - 1] == x then |ids| - 1 else Position(ids[..|ids| - 1], x)
  }

  predicate Below(labels: seq<nat>, k: nat) { forall i :: 0 <= i < |labels| ==> labels[i] < k }

  function Renumbered(labels: seq<nat>, k: nat): seq<nat>
    requires Below(labels, k)
  {
    UniqueLaws(labels, k);
    seq(|labels|, i requires 0 <= i < |labels| => Position(Unique(labels, k), labels[i]))
  }

  function Kept<T>(centroids: seq<T>, labels: seq<nat>): seq<T> {
    UniqueLaws(labels, |centroids|);
    var ids := Unique(labels, |centroids|);
    seq(|ids|, n requires 0 <= n < |ids| => centroids[ids[n]])
  }

  /** The labels are exactly `0 .. k - 1`, so no cluster is empty. */
  ghost predicate Onto(labels: seq<nat>, k: nat) { Below(labels, k) && forall c :: 0 <= c < k ==> c in labels }

  ghost predicate SamePartition(a: seq<nat>, b: seq<nat>) {
    |a| == |b| && forall i, j :: 0 <= i < |a| && 0 <= j < |a| ==> (a[i] == a[j] <==> b[i] == b[j])
  }

  lemma RenumberedAt(labels: seq<nat>, k: nat)
    requires Below(labels, k)
    ensures var ids, l' := Unique(labels, k), Renumbered(labels, k);
            |l'| == |labels| && forall i :: 0 <= i < |labels| ==> labels[i] in ids && l'[i] < |ids| && ids[l'[i]] == labels[i]
  {
    UniqueLaws(labels, k);
    hide Unique;
  }

  lemma RenumberedOnto(labels: seq<nat>, k: nat)
    requires Below(labels, k)
    ensures Onto(Renumbered(labels, k), |Unique(labels, k)|)
  {
    var ids, l' := Unique(labels, k), Renumbered(labels, k);
    RenumberedAt(labels, k);
    UniqueLaws(labels, k);
    hide Unique, Renumbered;
    forall c | 0 <= c < |ids| ensures c in l' {
      assert ids[c] in labels;
      var i :| 0 <= i < |labels| && labels[i] == ids[c];
      assert ids[l'[i]] == ids[c];
      assert l'[i] == c;
    }
  }

  lemma KeptAt<T>(centroids: seq<T>, labels: seq<nat>)
    requires Below(labels, |centroids|)
    ensures var ids := Unique(labels, |centroids|);
            |Kept(centroids, labels)| == |ids| && forall n :: 0 <= n < |ids| ==> ids[n] < |centroids| && Kept(centroids, labels)[n] == centroids[ids[n]]
  {
    UniqueLaws(labels, |centroids|);
    hide Unique;
  }

  /** Renumbering closes the gaps, keeps the partition and its order, and carries each centroid along. */
  lemma RenumberLaws<T>(centroids: seq<T>, labels: seq<nat>)
    requires Below(labels, |centroids|)
    ensures var l', c' := Renumbered(labels, |centroids|), Kept(centroids, labels);
            && Onto(l', |c'|)
            && SamePartition(labels, l')
            && (forall i, j :: 0 <= i < |labels| && 0 <= j < |labels| ==> (labels[i] < labels[j] <==> l'[i] < l'[j]))
            && (forall i :: 0 <= i < |labels| ==> c'[l'[i]] == centroids[labels[i]])
  {
    var k := |centroids|;
    var ids, l' := Unique(labels, k), Renumbered(labels, k);
    UniqueLaws(labels, k);
    RenumberedAt(labels, k);
    RenumberedOnto(labels, k);
    KeptAt(centroids, labels);
    hide Unique, Renumbered, Kept, Onto, Below;
    forall i, j | 0 <= i < |labels| && 0 <= j < |labels|
      ensures labels[i] < labels[j] <==> l'[i] < l'[j]
      ensures labels[i] == labels[j] <==> l'[i] == l'[j]
    {
      assert ids[l'[i]] == labels[i] && ids[l'[j]] == labels[j];
    }
  }

  /** Gap-free labels are their own renumbering. */
  lemma RenumberFixes(labels: seq<nat>, k: nat)
    requires Onto(labels, k)
    ensures Renumbered(labels, k) == labels && |Unique(labels, k)| == k
  {
    UniqueAll(labels, k, k);
    UniqueLaws(labels, k);
  }

  lemma {:induction false} UniqueAll(labels: seq<nat>, k: nat, n: nat)
    requires Onto(labels, k) && n <= k
    ensures Unique(labels, n) == seq(n, i => i)
  {
    if n > 0 {
      UniqueAll(labels, k, n - 1);
      assert n - 1 in labels;
    }
  }

  // ----- Members -----

  /** `np.where(labels == c)[0]`, below `n`. */
  function Where(labels: seq<nat>, c: nat, n: nat): seq<nat>
    requires n <= |labels|
  {
    if n == 0 then [] else Where(labels, c, n - 1) + if labels[n - 1] == c then [n - 1] else []
  }

  function Members(labels: seq<nat>, c: nat): seq<nat> { Where(labels, c, |labels|) }

  lemma {:induction false} WhereLaws(labels: seq<nat>, c: nat, n: nat)
    requires n <= |labels|
    ensures forall t: nat :: t in Where(labels, c, n) <==> t < n && labels[t] == c
    ensures forall i :: 0 <= i < |Where(labels, c, n)| ==> Where(labels, c, n)[i] < n
    ensures Increasing(Where(labels, c, n))
  {
    if n > 0 {
      WhereLaws(labels, c, n - 1);
      AppendIncreases(Where(labels, c, n - 1), n - 1);
    }
  }

  function Rows(data: seq<Vec>, idx: seq<nat>): seq<Vec>
    requires forall j :: 0 <= j < |idx| ==> idx[j] < |data|
  {
    seq(|idx|, j requires 0 <= j < |idx| => data[idx[j]])
  }

  /** The rows of cluster `c`. */
  function Points(data: seq<Vec>, labels: seq<nat>, c: nat): (r: seq<Vec>)
    requires |data| == |labels|
    ensures forall dim :: Shaped(data, |data|, dim) ==> forall p :: p in r ==> |p| == dim
    ensures c in labels <==> r != []
  {
    WhereLaws(labels, c, |labels|);
    assert c in labels ==> exists t :: 0 <= t < |labels| && labels[t] == c && t in Members(labels, c);
    assert Members(labels, c) != [] ==> Members(labels, c)[0] in Members(labels, c);
    Rows(data, Members(labels, c))
  }

  /** The sum, in column `d`, of the offsets from `m` of the tokens of cluster `c` below `n`. */
  function OffsetSum(data: seq<Vec>, labels: seq<nat>, c: nat, m: Vec, d: nat, n: nat): real
    requires n <= |labels| && Shaped(data, |labels|, |m|) && d < |m|
  {
    if n == 0 then 0.0
    else OffsetSum(data, labels, c, m, d, n - 1) + if labels[n - 1] == c then data[n - 1][d] - m[d] else 0.0
  }

  function Times(n: nat, x: real): real { n as real * x }

  lemma {:induction false} OffsetSumIs(data: seq<Vec>, labels: seq<nat>, c: nat, m: Vec, d: nat, n: nat)
    requires n <= |labels| && Shaped(data, |labels|, |m|) && d < |m|
    requires forall j :: 0 <= j < |Where(labels, c, n)| ==> Where(labels, c, n)[j] < |labels|
    ensures OffsetSum(data, labels, c, m, d, n)
         == ColumnSum(Rows(data, Where(labels, c, n)), d) - Times(|Where(labels, c, n)|, m[d])
  {
    hide Times, ColumnSum, Rows;
    if n == 0 {
      NoTimes(m[d]);
      NoRows(data, d);
    } else {
      WhereLaws(labels, c, n - 1);
      OffsetSumIs(data, labels, c, m, d, n - 1);
      var ids := Where(labels, c, n - 1);
      if labels[n - 1] == c {
        RowsSnoc(data, ids, n - 1, d);
        OneMore(|ids|, m[d]);
      } else {
        assert Where(labels, c, n) == ids;
      }
    }
  }

  lemma NoRows(data: seq<Vec>, d: nat)
    requires forall i :: 0 <= i < |data| ==> d < |data[i]|
    ensures ColumnSum(Rows(data, []), d) == 0.0
  {
  }

  lemma RowsSnoc(data: seq<Vec>, ids: seq<nat>, t: nat, d: nat)
    requires t < |data| && (forall j :: 0 <= j < |ids| ==> ids[j] < |data|) && forall i :: 0 <= i < |data| ==> d < |data[i]|
    ensures ColumnSum(Rows(data, ids + [t]), d) == ColumnSum(Rows(data, ids), d) + data[t][d]
  {
    var rows := Rows(data, ids + [t]);
    assert rows[..|rows| - 1] == Rows(data, ids);
  }

  lemma OneMore(n: nat, x: real)
    ensures Times(n + 1, x) == Times(n, x) + x
  {
    assert (n + 1) as real == n as real + 1.0;
  }

  lemma NoTimes(x: real)
    ensures Times(0, x) == 0.0
  {
  }

  lemma Divided(x: real, n: nat)
    requires n > 0
    ensures Times(n, x / (n as real)) == x
  {
  }

  /** The offsets of a cluster's rows from their mean add up to zero in every column. */
  lemma MeanBalances(data: seq<Vec>, labels: seq<nat>, c: nat, dim: nat, d: nat)
    requires Shaped(data, |labels|, dim) && c in labels && d < dim
    ensures OffsetSum(data, labels, c, Mean(Points(data, labels, c), dim), d, |labels|) == 0.0
  {
    var points := Points(data, labels, c);
    var m := Mean(points, dim);
    WhereLaws(labels, c, |labels|);
    OffsetSumIs(data, labels, c, m, d, |labels|);
    Divided(ColumnSum(points, d), |points|);
    assert m[d] == ColumnSum(points, d) / (|points| as real) && points == Rows(data, Members(labels, c));
    hide ColumnSum, Rows, Mean, Points, OffsetSum, Where, Times;
  }

  /** `m` is the balance point of cluster `c`. */
  ghost predicate Balances(data: seq<Vec>, labels: seq<nat>, c: nat, m: Vec, dim: nat)
    requires Shaped(data, |labels|, dim)
  {
    |m| == dim && forall d: nat :: d < dim ==> OffsetSum(data, labels, c, m, d, |labels|) == 0.0
  }

  lemma MeansBalance(data: seq<Vec>, labels: seq<nat>, c: nat, dim: nat)
    requires Shaped(data, |labels|, dim) && c in labels
    ensures Balances(data, labels, c, Mean(Points(data, labels, c), dim), dim)
  {
    hide Mean, Points, OffsetSum;
    forall d: nat | d < dim ensures OffsetSum(data, labels, c, Mean(Points(data, labels, c), dim), d, |labels|) == 0.0 {
      MeanBalances(data, labels, c, dim, d);
    }
  }

  /** `_recompute_centroids` on gap-free labels. */
  function Means(data: seq<Vec>, labels: seq<nat>, k: nat, dim: nat): (r: seq<Vec>)
    requires Shaped(data, |labels|, dim) && Onto(labels, k)
    ensures |r| == k && Shaped(r, k, dim)
    ensures forall c :: 0 <= c < k ==> r[c] == Mean(Points(data, labels, c), dim)
  {
    seq(k, c requires 0 <= c < k => assert c in labels; Mean(Points(data, labels, c), dim))
  }

  /** The member table; the loop leaves out empty clusters. */
  function MemberTable(labels: seq<nat>, k: nat): map<nat, seq<nat>> {
    map c: nat | c < k && c in labels :: Members(labels, c)
  }

  /** The table is the exact inverse of the labels: each token is listed once, under its own label. */
  lemma MemberTableInverts(labels: seq<nat>, k: nat)
    requires Onto(labels, k)
    ensures var m := MemberTable(labels, k);
            && |m| == k && (forall c: nat :: c in m <==> c < k)
            && (forall c :: c in m ==> m[c] != [] && Increasing(m[c]))
            && (forall c: nat, t: nat :: c in m ==> (t in m[c] <==> t < |labels| && labels[t] == c))
            && (forall t :: 0 <= t < |labels| ==> labels[t] in m && t in m[labels[t]])
  {
    var m := MemberTable(labels, k);
    forall c: nat {
      WhereLaws(labels, c, |labels|);
    }
    KeyCount(m, k);
    assert forall t :: 0 <= t < |labels| ==> labels[t] in labels;
    forall c | c in m ensures m[c] != [] {
      var t :| 0 <= t < |labels| && labels[t] == c;
      assert t in m[c];
    }
  }

  lemma {:induction false} KeyCount<T>(m: map<nat, T>, k: nat)
    requires forall c: nat :: c in m <==> c < k
    ensures |m| == k
  {
    if k > 0 {
      KeyCount(m - {k - 1}, k - 1);
      assert m.Keys == (m - {k - 1}).Keys + {k - 1};
      assert |m.Keys| == |m| && |(m - {k - 1}).Keys| == |m - {k - 1}|;
    } else {
      assert m.Keys == {};
    }
  }
}
