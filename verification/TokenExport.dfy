/** Exporting the clusters that moved since the last export, and what a receiver that overlays them holds. */
module TokenExport {
  import opened Wrappers
  import opened Numbers
  import opened Vectors
  import opened TokenLayout
  import opened TokenRebalance

  datatype WeightCluster = WeightCluster(id: nat, centroid: Vec, members: seq<nat>, offsets: seq<Vec>)

  datatype Tolerance = Tolerance(atol: real, rtol: real)

  // ----- Which tokens and clusters changed -----

  /** `np.isclose(a, b)`: the tolerance scales with the second operand. */
  predicate Close(a: real, b: real, tol: Tolerance) { Abs(a - b) <= Allowance(b, tol) }

  function Allowance(b: real, tol: Tolerance): real { tol.atol + tol.rtol * Abs(b) }

  predicate RowClose(a: Vec, b: Vec, tol: Tolerance)
    requires |a| == |b|
  {
    forall d :: 0 <= d < |a| ==> Close(a[d], b[d], tol)
  }

  predicate Moved(data: seq<Vec>, last: Option<seq<Vec>>, t: nat, tol: Tolerance)
    requires t < |data| && (last.Some? ==> |last.value| == |data| && |data[t]| == |last.value[t]|)
  {
    last.None? || !RowClose(data[t], last.value[t], tol)
  }

  /** The two values are further apart than `atol` plus `rtol` times the size of the second. */
  ghost predicate FarApart(a: real, b: real, tol: Tolerance) {
    var room := tol.atol + tol.rtol * (if b >= 0.0 then b else 0.0 - b);
    a - b > room || b - a > room
  }

  /** There was no export yet, or some column of the row left the tolerance around the exported one. */
  ghost predicate OutOfTolerance(data: seq<Vec>, last: Option<seq<Vec>>, t: nat, tol: Tolerance)
    requires t < |data| && (last.Some? ==> |last.value| == |data| && |data[t]| == |last.value[t]|)
  {
    last == None || exists d :: 0 <= d < |data[t]| && FarApart(data[t][d], last.value[t][d], tol)
  }

  lemma MovedIff(data: seq<Vec>, last: Option<seq<Vec>>, t: nat, tol: Tolerance)
    requires t < |data| && (last.Some? ==> |last.value| == |data| && |data[t]| == |last.value[t]|)
    ensures Moved(data, last, t, tol) <==> OutOfTolerance(data, last, t, tol)
  {
    if last.Some? {
      forall d | 0 <= d < |data[t]| ensures FarApart(data[t][d], last.value[t][d], tol) <==> !Close(data[t][d], last.value[t][d], tol) {
        FarIff(data[t][d], last.value[t][d], tol);
      }
      hide FarApart, Close;
    }
  }

  lemma FarIff(a: real, b: real, tol: Tolerance)
    ensures FarApart(a, b, tol) <==> !Close(a, b, tol)
  {
  }

  ghost predicate Comparable(data: seq<Vec>, last: Option<seq<Vec>>, rows: nat, dim: nat) {
    Shaped(data, rows, dim) && (last.Some? ==> Shaped(last.value, rows, dim))
  }

  /** The changed tokens below `n`, ascending. */
  function ChangedBelow(data: seq<Vec>, last: Option<seq<Vec>>, tol: Tolerance, n: nat): seq<nat>
    requires exists dim :: Comparable(data, last, |data|, dim)
    requires n <= |data|
  {
    if n == 0 then []
    else ChangedBelow(data, last, tol, n - 1) + if Moved(data, last, n - 1, tol) then [n - 1] else []
  }

  function ChangedTokens(data: seq<Vec>, last: Option<seq<Vec>>, tol: Tolerance): seq<nat>
    requires exists dim :: Comparable(data, last, |data|, dim)
  {
    ChangedBelow(data, last, tol, |data|)
  }

  lemma {:induction false} ChangedLaws(data: seq<Vec>, last: Option<seq<Vec>>, tol: Tolerance, n: nat)
    requires exists dim :: Comparable(data, last, |data|, dim)
    requires n <= |data|
    ensures forall t: nat :: t in ChangedBelow(data, last, tol, n) <==> t < n && Moved(data, last, t, tol)
    ensures forall i :: 0 <= i < |ChangedBelow(data, last, tol, n)| ==> ChangedBelow(data, last, tol, n)[i] < n
  {
    if n > 0 {
      ChangedLaws(data, last, tol, n - 1);
    }
  }

  lemma {:induction false} ChangedAscend(data: seq<Vec>, last: Option<seq<Vec>>, tol: Tolerance, n: nat)
    requires exists dim :: Comparable(data, last, |data|, dim)
    requires n <= |data|
    ensures forall i, j :: 0 <= i < j < |ChangedBelow(data, last, tol, n)| ==> ChangedBelow(data, last, tol, n)[i] < ChangedBelow(data, last, tol, n)[j]
  {
    if n > 0 {
      ChangedAscend(data, last, tol, n - 1);
      ChangedLaws(data, last, tol, n - 1);
      hide Moved;
    }
  }

  function LabelsOf(labels: seq<nat>, tokens: seq<nat>): seq<nat>
    requires Below(tokens, |labels|)
  {
    seq(|tokens|, i requires 0 <= i < |tokens| => labels[tokens[i]])
  }

  /** `sorted` set of the labels of the changed tokens. */
  function ChangedClusters(l: Layout, data: seq<Vec>, last: Option<seq<Vec>>, tol: Tolerance): seq<nat>
    requires |l.labels| == |data| && exists dim :: Comparable(data, last, |data|, dim)
  {
    ChangedLaws(data, last, tol, |data|);
    Unique(LabelsOf(l.labels, ChangedTokens(data, last, tol)), |l.centroids|)
  }

  /** A cluster is exported exactly when one of its tokens moved. */
  lemma ChangedClustersLaws(l: Layout, data: seq<Vec>, last: Option<seq<Vec>>, tol: Tolerance, dim: nat)
    requires Good(data, l, dim) && Comparable(data, last, |data|, dim)
    ensures forall c: nat :: c in ChangedClusters(l, data, last, tol) <==>
              exists t: nat :: t < |data| && l.labels[t] == c && Moved(data, last, t, tol)
    ensures Below(ChangedClusters(l, data, last, tol), |l.centroids|)
  {
    var ts := ChangedTokens(data, last, tol);
    ChangedLaws(data, last, tol, |data|);
    var ls := LabelsOf(l.labels, ts);
    UniqueLaws(ls, |l.centroids|);
    hide Moved, ChangedBelow, Unique;
    forall c: nat
      ensures c in ls <==> exists t: nat :: t < |data| && l.labels[t] == c && Moved(data, last, t, tol)
    {
      if c in ls {
        var i :| 0 <= i < |ls| && ls[i] == c;
        assert ts[i] in ts;
      }
      if t: nat :| t < |data| && l.labels[t] == c && Moved(data, last, t, tol) {
        assert t in ts;
        var i :| 0 <= i < |ts| && ts[i] == t;
        assert ls[i] == c;
      }
    }
  }

  // ----- Export and overlay -----

  function ExportOne(l: Layout, data: seq<Vec>, c: nat, dim: nat): WeightCluster
    requires Good(data, l, dim) && c < |l.centroids|
  {
    var ms := Members(l.labels, c);
    WhereLaws(l.labels, c, |l.labels|);
    WeightCluster(c, l.centroids[c], ms, seq(|ms|, j requires 0 <= j < |ms| => Sub(data[ms[j]], l.centroids[c])))
  }

  /** An exported cluster names itself and its centroid, lists the tokens with its label in order, and gives each one's offset. */
  lemma ExportOneLaws(l: Layout, data: seq<Vec>, c: nat, dim: nat)
    requires Good(data, l, dim) && c < |l.centroids|
    ensures var w := ExportOne(l, data, c, dim);
            && w.id == c && w.centroid == l.centroids[c] && |w.offsets| == |w.members|
            && Increasing(w.members) && (forall t: nat :: t in w.members <==> t < |data| && l.labels[t] == c)
            && forall j, d :: 0 <= j < |w.members| && 0 <= d < dim ==>
                 w.members[j] < |data| && |w.offsets[j]| == dim && w.offsets[j][d] == data[w.members[j]][d] - l.centroids[c][d]
  {
    WhereLaws(l.labels, c, |l.labels|);
    hide Where, Increasing;
  }

  /** `export_weight_clusters` of existing clusters. */
  function Export(l: Layout, data: seq<Vec>, ids: seq<nat>, dim: nat): seq<WeightCluster>
    requires Good(data, l, dim) && Below(ids, |l.centroids|)
  {
    seq(|ids|, i requires 0 <= i < |ids| => ExportOne(l, data, ids[i], dim))
  }

  predicate Fits(w: WeightCluster, rows: nat, dim: nat) {
    |w.members| == |w.offsets| && |w.centroid| == dim && Shaped(w.offsets, |w.offsets|, dim) && Below(w.members, rows)
  }

  /** A receiver writes centroid plus offset into the row of each member. */
  function Overlay(recon: seq<Vec>, w: WeightCluster, n: nat, dim: nat): (r: seq<Vec>)
    requires Shaped(recon, |recon|, dim) && Fits(w, |recon|, dim) && n <= |w.members|
    ensures Shaped(r, |recon|, dim)
  {
    if n == 0 then recon else Overlay(recon, w, n - 1, dim)[w.members[n - 1] := Add(w.centroid, w.offsets[n - 1])]
  }

  function OverlayAll(recon: seq<Vec>, ws: seq<WeightCluster>, dim: nat): (r: seq<Vec>)
    requires Shaped(recon, |recon|, dim) && forall w :: w in ws ==> Fits(w, |recon|, dim)
    ensures Shaped(r, |recon|, dim)
  {
    if ws == [] then recon
    else
      var w := ws[|ws| - 1];
      Overlay(OverlayAll(recon, ws[..|ws| - 1], dim), w, |w.members|, dim)
  }

  lemma ExportFits(l: Layout, data: seq<Vec>, c: nat, dim: nat)
    requires Good(data, l, dim) && c < |l.centroids|
    ensures Fits(ExportOne(l, data, c, dim), |data|, dim)
    ensures |ExportOne(l, data, c, dim).members| == |Members(l.labels, c)|
  {
    WhereLaws(l.labels, c, |l.labels|);
  }

  lemma OverlayStep(recon: seq<Vec>, l: Layout, data: seq<Vec>, c: nat, n: nat, dim: nat)
    requires Good(data, l, dim) && c < |l.centroids| && Shaped(recon, |data|, dim) && 0 < n <= |Members(l.labels, c)|
    ensures Fits(ExportOne(l, data, c, dim), |data|, dim)
    ensures var (w, t) := (ExportOne(l, data, c, dim), Members(l.labels, c)[n - 1]);
            && t < |data| && |w.members| == |Members(l.labels, c)|
            && Overlay(recon, w, n, dim) == Overlay(recon, w, n - 1, dim)[t := data[t]]
  {
    ExportFits(l, data, c, dim);
    WhereLaws(l.labels, c, |l.labels|);
    AddSub(l.centroids[c], data[Members(l.labels, c)[n - 1]]);
  }

  /** `r` has the rows of `data` at the tokens of `done`, and of `recon` elsewhere. */
  ghost predicate WrittenAt(r: seq<Vec>, recon: seq<Vec>, data: seq<Vec>, done: seq<nat>)
    requires |r| == |recon| == |data|
  {
    forall t: nat :: t < |data| ==> r[t] == if t in done then data[t] else recon[t]
  }

  lemma WriteOne(r: seq<Vec>, recon: seq<Vec>, data: seq<Vec>, ms: seq<nat>, n: nat)
    requires |r| == |recon| == |data| && 0 < n <= |ms| && ms[n - 1] < |data| && WrittenAt(r, recon, data, ms[..n - 1])
    ensures WrittenAt(r[ms[n - 1] := data[ms[n - 1]]], recon, data, ms[..n])
  {
    assert ms[..n] == ms[..n - 1] + [ms[n - 1]];
  }

  lemma {:induction false} OverlayOneLaws(recon: seq<Vec>, l: Layout, data: seq<Vec>, c: nat, n: nat, dim: nat)
    requires Good(data, l, dim) && c < |l.centroids| && Shaped(recon, |data|, dim) && n <= |Members(l.labels, c)|
    ensures Fits(ExportOne(l, data, c, dim), |data|, dim)
    ensures |ExportOne(l, data, c, dim).members| == |Members(l.labels, c)|
    ensures WrittenAt(Overlay(recon, ExportOne(l, data, c, dim), n, dim), recon, data, Members(l.labels, c)[..n])
  {
    ExportFits(l, data, c, dim);
    if n > 0 {
      hide Good, ExportOne, Members, Fits, Overlay, WrittenAt;
      OverlayOneLaws(recon, l, data, c, n - 1, dim);
      OverlayStep(recon, l, data, c, n, dim);
      WriteOne(Overlay(recon, ExportOne(l, data, c, dim), n - 1, dim), recon, data, Members(l.labels, c), n);
    }
  }

  lemma OverlayCluster(recon: seq<Vec>, l: Layout, data: seq<Vec>, c: nat, dim: nat)
    requires Good(data, l, dim) && c < |l.centroids| && Shaped(recon, |data|, dim)
    ensures var w := ExportOne(l, data, c, dim);
            Fits(w, |data|, dim) &&
            var r := Overlay(recon, w, |w.members|, dim);
            forall t :: 0 <= t < |data| ==> r[t] == if l.labels[t] == c then data[t] else recon[t]
  {
    var ms := Members(l.labels, c);
    OverlayOneLaws(recon, l, data, c, |ms|, dim);
    WhereLaws(l.labels, c, |l.labels|);
    assert ms[..|ms|] == ms;
  }

  lemma ExportSnoc(l: Layout, data: seq<Vec>, ids: seq<nat>, dim: nat)
    requires Good(data, l, dim) && Below(ids, |l.centroids|) && ids != []
    ensures var n := |ids| - 1;
            Export(l, data, ids, dim) == Export(l, data, ids[..n], dim) + [ExportOne(l, data, ids[n], dim)]
  {
    hide ExportOne, Good;
  }

  lemma ExportAllFits(l: Layout, data: seq<Vec>, ids: seq<nat>, dim: nat)
    requires Good(data, l, dim) && Below(ids, |l.centroids|)
    ensures forall w :: w in Export(l, data, ids, dim) ==> Fits(w, |data|, dim)
  {
    forall c: nat | c < |l.centroids| ensures Fits(ExportOne(l, data, c, dim), |data|, dim) { ExportFits(l, data, c, dim); }
    hide ExportOne, Good, Fits;
  }

  /** Overlaying exported clusters rewrites exactly the rows of their members, with the exported values. */
  lemma {:induction false} OverlayLaws(recon: seq<Vec>, l: Layout, data: seq<Vec>, ids: seq<nat>, dim: nat)
    requires Good(data, l, dim) && Below(ids, |l.centroids|) && Shaped(recon, |data|, dim)
    ensures forall w :: w in Export(l, data, ids, dim) ==> Fits(w, |data|, dim)
    ensures var r := OverlayAll(recon, Export(l, data, ids, dim), dim);
            forall t :: 0 <= t < |data| ==> r[t] == if l.labels[t] in ids then data[t] else recon[t]
  {
    hide ExportOne, Good, Fits, Overlay;
    ExportAllFits(l, data, ids, dim);
    assert |data| == |l.labels| by { GoodParts(data, l, dim); }
    if ids != [] {
      var n := |ids| - 1;
      ExportSnoc(l, data, ids, dim);
      ExportAllFits(l, data, ids[..n], dim);
      OverlayLaws(recon, l, data, ids[..n], dim);
      hide Export;
      OverlayCluster(OverlayAll(recon, Export(l, data, ids[..n], dim), dim), l, data, ids[n], dim);
      assert forall x :: x in ids <==> x in ids[..n] || x == ids[n];
    }
  }

  // ----- Any number of exports -----

  /** One `export_incremental_clusters` that marks its snapshot, under the layout of that moment. */
  datatype Round = Round(layout: Layout, data: seq<Vec>)

  ghost predicate GoodRounds(rounds: seq<Round>, rows: nat, dim: nat) {
    forall i :: 0 <= i < |rounds| ==> |rounds[i].data| == rows && Good(rounds[i].data, rounds[i].layout, dim)
  }

  function Snapshot(rounds: seq<Round>): Option<seq<Vec>> {
    if rounds == [] then None else Some(rounds[|rounds| - 1].data)
  }

  lemma RoundParts(rounds: seq<Round>, rows: nat, dim: nat)
    requires GoodRounds(rounds, rows, dim) && rounds != []
    ensures var (n, r) := (|rounds| - 1, rounds[|rounds| - 1]);
            && GoodRounds(rounds[..n], rows, dim) && Good(r.data, r.layout, dim)
            && |r.layout.labels| == |r.data| == rows
            && Comparable(r.data, Snapshot(rounds[..n]), |r.data|, dim)
  {
    var n := |rounds| - 1;
    GoodParts(rounds[n].data, rounds[n].layout, dim);
    GoodShape(rounds[n].data, rounds[n].layout, dim);
    if n > 0 {
      GoodShape(rounds[n - 1].data, rounds[n - 1].layout, dim);
      GoodParts(rounds[n - 1].data, rounds[n - 1].layout, dim);
    }
    hide Good;
  }

  /** What the receiver holds after the rounds. */
  function Received(rounds: seq<Round>, recon: seq<Vec>, tol: Tolerance, rows: nat, dim: nat): (r: seq<Vec>)
    requires GoodRounds(rounds, rows, dim) && Shaped(recon, rows, dim)
    ensures Shaped(r, rows, dim)
  {
    if rounds == [] then recon
    else
      RoundParts(rounds, rows, dim);
      var n, last := |rounds| - 1, rounds[|rounds| - 1];
      var before := Received(rounds[..n], recon, tol, rows, dim);
      var ids := ChangedClusters(last.layout, last.data, Snapshot(rounds[..n]), tol);
      ChangedClustersLaws(last.layout, last.data, Snapshot(rounds[..n]), tol, dim);
      OverlayLaws(before, last.layout, last.data, ids, dim);
      OverlayAll(before, Export(last.layout, last.data, ids, dim), dim)
  }

  /** The last round wrote token `t`. */
  ghost predicate Wrote(rounds: seq<Round>, t: nat, tol: Tolerance, rows: nat, dim: nat)
    requires GoodRounds(rounds, rows, dim) && t < rows && rounds != []
  {
    RoundParts(rounds, rows, dim);
    var n, last := |rounds| - 1, rounds[|rounds| - 1];
    last.layout.labels[t] in ChangedClusters(last.layout, last.data, Snapshot(rounds[..n]), tol)
  }

  /** How many exports passed the token by since it was last written. */
  ghost function Age(rounds: seq<Round>, t: nat, tol: Tolerance, rows: nat, dim: nat): nat
    requires GoodRounds(rounds, rows, dim) && t < rows
  {
    if rounds == [] || Wrote(rounds, t, tol, rows, dim) then 0
    else
      RoundParts(rounds, rows, dim);
      1 + Age(rounds[..|rounds| - 1], t, tol, rows, dim)
  }

  /** The tolerances those exports granted, added up. */
  ghost function Slack(rounds: seq<Round>, t: nat, d: nat, tol: Tolerance, rows: nat, dim: nat): real
    requires GoodRounds(rounds, rows, dim) && t < rows && d < dim
  {
    if rounds == [] || Wrote(rounds, t, tol, rows, dim) then 0.0
    else
      RoundParts(rounds, rows, dim);
      FirstWritesAll(rounds, t, tol, rows, dim);
      var n := |rounds| - 1;
      Slack(rounds[..n], t, d, tol, rows, dim) + Allowance(Snapshot(rounds[..n]).value[t][d], tol)
  }

  lemma FirstWritesAll(rounds: seq<Round>, t: nat, tol: Tolerance, rows: nat, dim: nat)
    requires GoodRounds(rounds, rows, dim) && t < rows && rounds != []
    ensures |rounds| == 1 ==> Wrote(rounds, t, tol, rows, dim)
  {
    RoundParts(rounds, rows, dim);
    if |rounds| == 1 {
      var r := rounds[0];
      assert Snapshot(rounds[..0]) == None;
      ChangedClustersLaws(r.layout, r.data, None, tol, dim);
      hide Good;
      assert Moved(r.data, None, t, tol);
    }
  }

  /** A token the round did not write kept its row and had barely moved; a written one is exact. */
  lemma RoundEffect(rounds: seq<Round>, recon: seq<Vec>, t: nat, tol: Tolerance, rows: nat, dim: nat)
    requires GoodRounds(rounds, rows, dim) && Shaped(recon, rows, dim) && t < rows && rounds != []
    ensures var n, r := |rounds| - 1, Received(rounds, recon, tol, rows, dim);
            && |rounds[n].data| == rows && |rounds[n].data[t]| == dim
            && GoodRounds(rounds[..n], rows, dim)
            && (Wrote(rounds, t, tol, rows, dim) ==> r[t] == rounds[n].data[t])
            && (!Wrote(rounds, t, tol, rows, dim) ==>
                && n > 0 && r[t] == Received(rounds[..n], recon, tol, rows, dim)[t]
                && |rounds[n - 1].data| == rows && |rounds[n - 1].data[t]| == dim
                && RowClose(rounds[n].data[t], rounds[n - 1].data[t], tol))
  {
    RoundParts(rounds, rows, dim);
    FirstWritesAll(rounds, t, tol, rows, dim);
    var n, last := |rounds| - 1, rounds[|rounds| - 1];
    var before := Received(rounds[..n], recon, tol, rows, dim);
    var ids := ChangedClusters(last.layout, last.data, Snapshot(rounds[..n]), tol);
    ChangedClustersLaws(last.layout, last.data, Snapshot(rounds[..n]), tol, dim);
    OverlayLaws(before, last.layout, last.data, ids, dim);
    hide Good, ChangedClusters, RowClose, OverlayAll, Export;
    if !Wrote(rounds, t, tol, rows, dim) {
      assert !Moved(last.data, Snapshot(rounds[..n]), t, tol);
    }
  }

  lemma SlackStep(rounds: seq<Round>, t: nat, d: nat, tol: Tolerance, rows: nat, dim: nat)
    requires GoodRounds(rounds, rows, dim) && t < rows && d < dim && rounds != []
    ensures Wrote(rounds, t, tol, rows, dim) ==> Slack(rounds, t, d, tol, rows, dim) == 0.0
    ensures !Wrote(rounds, t, tol, rows, dim) ==>
              var n := |rounds| - 1;
              && n > 0 && GoodRounds(rounds[..n], rows, dim) && |rounds[n - 1].data| == rows && |rounds[n - 1].data[t]| == dim
              && Slack(rounds, t, d, tol, rows, dim) ==
                   Slack(rounds[..n], t, d, tol, rows, dim) + Allowance(rounds[n - 1].data[t][d], tol)
  {
    RoundParts(rounds, rows, dim);
    FirstWritesAll(rounds, t, tol, rows, dim);
    hide Good, Wrote, GoodRounds, Allowance;
    var n := |rounds| - 1;
    assert n > 0 ==> Snapshot(rounds[..n]) == Some(rounds[n - 1].data);
  }

  lemma Triangle(x: real, y: real, z: real, e: real, f: real)
    requires Abs(x - y) <= e && Abs(z - y) <= f
    ensures Abs(x - z) <= e + f
  {
  }

  lemma RowCloseAt(a: Vec, b: Vec, tol: Tolerance, d: nat)
    requires |a| == |b| && RowClose(a, b, tol) && d < |a|
    ensures Abs(a[d] - b[d]) <= Allowance(b[d], tol)
  {
    assert Close(a[d], b[d], tol);
  }

  /** At every moment the receiver is within the accumulated slack of the current embeddings, coordinate by coordinate. */
  lemma {:induction false} ReceiverWithinSlack(rounds: seq<Round>, recon: seq<Vec>, t: nat, d: nat, tol: Tolerance, rows: nat, dim: nat)
    requires GoodRounds(rounds, rows, dim) && Shaped(recon, rows, dim) && t < rows && d < dim && rounds != []
    ensures |rounds[|rounds| - 1].data| == rows && |rounds[|rounds| - 1].data[t]| == dim
    ensures Abs(Received(rounds, recon, tol, rows, dim)[t][d] - rounds[|rounds| - 1].data[t][d]) <= Slack(rounds, t, d, tol, rows, dim)
  {
    hide Good, Received, Wrote, GoodRounds, Slack, RowClose, Abs, Allowance;
    RoundEffect(rounds, recon, t, tol, rows, dim);
    SlackStep(rounds, t, d, tol, rows, dim);
    if Wrote(rounds, t, tol, rows, dim) {
      assert Abs(0.0) == 0.0 by { AbsZero(); }
    } else {
      var n := |rounds| - 1;
      ReceiverWithinSlack(rounds[..n], recon, t, d, tol, rows, dim);
      RowCloseAt(rounds[n].data[t], rounds[n - 1].data[t], tol, d);
      Triangle(Received(rounds[..n], recon, tol, rows, dim)[t][d], rounds[n - 1].data[t][d], rounds[n].data[t][d],
               Slack(rounds[..n], t, d, tol, rows, dim), Allowance(rounds[n - 1].data[t][d], tol));
    }
  }

  lemma AbsZero()
    ensures Abs(0.0) == 0.0
  {
  }

  lemma AgeStep(rounds: seq<Round>, t: nat, tol: Tolerance, rows: nat, dim: nat)
    requires GoodRounds(rounds, rows, dim) && t < rows && rounds != []
    ensures Wrote(rounds, t, tol, rows, dim) ==> Age(rounds, t, tol, rows, dim) == 0
    ensures !Wrote(rounds, t, tol, rows, dim) ==>
              var n := |rounds| - 1;
              GoodRounds(rounds[..n], rows, dim) && Age(rounds, t, tol, rows, dim) == Age(rounds[..n], t, tol, rows, dim) + 1
  {
    RoundParts(rounds, rows, dim);
    hide Good, Wrote, GoodRounds;
  }

  lemma ConstantAllowance(b: real, tol: Tolerance)
    requires tol.rtol == 0.0
    ensures Allowance(b, tol) == tol.atol
  {
  }

  function Grants(n: nat, x: real): real { n as real * x }

  lemma OneMore(n: nat, x: real)
    ensures Grants(n + 1, x) == Grants(n, x) + x && Grants(0, x) == 0.0
  {
  }

  lemma {:induction false} SlackIsAge(rounds: seq<Round>, t: nat, d: nat, tol: Tolerance, rows: nat, dim: nat)
    requires GoodRounds(rounds, rows, dim) && t < rows && d < dim && tol.rtol == 0.0
    ensures Slack(rounds, t, d, tol, rows, dim) == Grants(Age(rounds, t, tol, rows, dim), tol.atol)
  {
    OneMore(0, tol.atol);
    if rounds != [] {
      hide Good, Wrote, GoodRounds, Slack, Age, Abs, Allowance, Grants;
      SlackStep(rounds, t, d, tol, rows, dim);
      AgeStep(rounds, t, tol, rows, dim);
      if !Wrote(rounds, t, tol, rows, dim) {
        var n := |rounds| - 1;
        ConstantAllowance(rounds[n - 1].data[t][d], tol);
        SlackIsAge(rounds[..n], t, d, tol, rows, dim);
        OneMore(Age(rounds[..n], t, tol, rows, dim), tol.atol);
      }
    }
  }

  /** With rtol = 0 the error is at most atol for each export since the token was last written. */
  lemma ErrorPerExport(rounds: seq<Round>, recon: seq<Vec>, t: nat, d: nat, tol: Tolerance, rows: nat, dim: nat)
    requires GoodRounds(rounds, rows, dim) && Shaped(recon, rows, dim) && t < rows && d < dim && rounds != [] && tol.rtol == 0.0
    ensures |rounds[|rounds| - 1].data| == rows && |rounds[|rounds| - 1].data[t]| == dim
    ensures Abs(Received(rounds, recon, tol, rows, dim)[t][d] - rounds[|rounds| - 1].data[t][d])
              <= Age(rounds, t, tol, rows, dim) as real * tol.atol
  {
    hide Good, Received, GoodRounds, Slack, Age, Abs;
    ReceiverWithinSlack(rounds, recon, t, d, tol, rows, dim);
    SlackIsAge(rounds, t, d, tol, rows, dim);
  }

  /** With zero tolerances the receiver holds the current embeddings exactly, whatever layouts were used on the way. */
  lemma ZeroToleranceIsExact(rounds: seq<Round>, recon: seq<Vec>, rows: nat, dim: nat)
    requires GoodRounds(rounds, rows, dim) && Shaped(recon, rows, dim) && rounds != []
    ensures Received(rounds, recon, Tolerance(0.0, 0.0), rows, dim) == rounds[|rounds| - 1].data
  {
    var tol, r, data := Tolerance(0.0, 0.0), Received(rounds, recon, Tolerance(0.0, 0.0), rows, dim), rounds[|rounds| - 1].data;
    hide Good, Received, Age;
    forall t | 0 <= t < rows ensures |data| == rows && r[t] == data[t] {
      RoundEffect(rounds, recon, t, tol, rows, dim);
      forall d | 0 <= d < dim ensures r[t][d] == data[t][d] {
        ErrorPerExport(rounds, recon, t, d, tol, rows, dim);
      }
    }
    if rows == 0 {
      RoundParts(rounds, rows, dim);
    }
  }

  // ----- The bound is reached, and unmarked exports break it -----

  const ONE_TOKEN := Layout([[0.0]], [0])

  function Drift(n: nat, atol: real): (r: seq<Round>)
    ensures |r| == n + 1
  {
    (if n == 0 then [] else Drift(n - 1, atol)) + [Round(ONE_TOKEN, [[n as real * atol]])]
  }

  lemma OneTokenIsGood(x: real)
    ensures Good([[x]], ONE_TOKEN, 1)
  {
    assert 0 in ONE_TOKEN.labels;
  }

  lemma {:induction false} DriftIsGood(n: nat, atol: real)
    ensures GoodRounds(Drift(n, atol), 1, 1)
  {
    OneTokenIsGood(n as real * atol);
    hide Good;
    if n > 0 {
      DriftIsGood(n - 1, atol);
    }
  }

  lemma DriftPrefix(n: nat, atol: real)
    ensures n > 0 ==> Drift(n, atol)[..n] == Drift(n - 1, atol)
    ensures Drift(n, atol)[n].data == [[n as real * atol]]
  {
  }

  /** A steady drift of one tolerance per export is never exported: the error grows without bound. */
  lemma {:induction false} DriftIsNeverExported(n: nat, atol: real)
    requires atol > 0.0
    ensures GoodRounds(Drift(n, atol), 1, 1)
    ensures Received(Drift(n, atol), [[0.0]], Tolerance(atol, 0.0), 1, 1)[0] == [0.0]
    ensures Drift(n, atol)[n].data == [[n as real * atol]]
    ensures Age(Drift(n, atol), 0, Tolerance(atol, 0.0), 1, 1) == n
  {
    DriftIsGood(n, atol);
    DriftPrefix(n, atol);
    assert n == 0 ==> n as real * atol == 0.0;
    hide Good, Received, Wrote, GoodRounds, RowClose, Drift, Age;
    RoundEffect(Drift(n, atol), [[0.0]], 0, Tolerance(atol, 0.0), 1, 1);
    FirstWritesAll(Drift(n, atol), 0, Tolerance(atol, 0.0), 1, 1);
    AgeStep(Drift(n, atol), 0, Tolerance(atol, 0.0), 1, 1);
    if n > 0 {
      DriftIsNeverExported(n - 1, atol);
      DriftNotWritten(n, atol);
    }
  }

  lemma OneCoordinate(x: real, y: real, tol: Tolerance)
    requires tol.rtol == 0.0
    ensures Moved([[x]], Some([[y]]), 0, tol) <==> Abs(x - y) > tol.atol
  {
    assert Allowance(y, tol) == tol.atol;
    assert RowClose([x], [y], tol) <==> Close([x][0], [y][0], tol);
  }

  lemma DriftEnds(n: nat, atol: real)
    requires n > 0
    ensures Drift(n, atol)[n] == Round(ONE_TOKEN, [[n as real * atol]])
    ensures Snapshot(Drift(n, atol)[..n]) == Some([[(n - 1) as real * atol]])
  {
    DriftPrefix(n, atol);
    DriftPrefix(n - 1, atol);
  }

  lemma DriftGap(n: nat, atol: real)
    requires n > 0 && atol > 0.0
    ensures Abs(n as real * atol - (n - 1) as real * atol) == atol
  {
    OneMore(n - 1, atol);
  }

  lemma DriftNotWritten(n: nat, atol: real)
    requires n > 0 && atol > 0.0 && GoodRounds(Drift(n, atol), 1, 1)
    ensures !Wrote(Drift(n, atol), 0, Tolerance(atol, 0.0), 1, 1)
  {
    hide Good, ChangedClusters, Drift, Moved, Abs, Snapshot, GoodRounds;
    var tol, x, y := Tolerance(atol, 0.0), n as real * atol, (n - 1) as real * atol;
    DriftEnds(n, atol);
    DriftGap(n, atol);
    RoundParts(Drift(n, atol), 1, 1);
    ChangedClustersLaws(ONE_TOKEN, [[x]], Some([[y]]), tol, 1);
    OneCoordinate(x, y, tol);
  }

  /** With one token, its cluster is exported exactly when the token moved. */
  lemma OneTokenChanges(x: real, y: real)
    ensures Comparable([[x]], Some([[y]]), |[[x]]|, 1)
    ensures var ids := ChangedClusters(ONE_TOKEN, [[x]], Some([[y]]), Tolerance(0.0, 0.0));
            Below(ids, 1) && (0 in ids <==> x != y)
  {
    assert Comparable([[x]], Some([[y]]), |[[x]]|, 1);
    OneTokenIsGood(x);
    ChangedClustersLaws(ONE_TOKEN, [[x]], Some([[y]]), Tolerance(0.0, 0.0), 1);
    OneCoordinate(x, y, Tolerance(0.0, 0.0));
    hide Good, ChangedClusters, Moved;
  }

  /** With `mark_snapshot=False` the next export compares with an older snapshot: a value that went and came back stays wrong. */
  lemma UnmarkedExportGoesStale()
    ensures var tol, a, b := Tolerance(0.0, 0.0), [[0.0]], [[1.0]];
            && Good(b, ONE_TOKEN, 1) && Comparable(b, Some(a), |b|, 1) && Comparable(a, Some(a), |a|, 1)
            && var first := ChangedClusters(ONE_TOKEN, b, Some(a), tol);
            && Below(first, 1) && (forall w :: w in Export(ONE_TOKEN, b, first, 1) ==> Fits(w, 1, 1))
            && OverlayAll(a, Export(ONE_TOKEN, b, first, 1), 1) == b
            && 0 !in ChangedClusters(ONE_TOKEN, a, Some(a), tol)
  {
    OneTokenIsGood(1.0);
    OneTokenChanges(1.0, 0.0);
    OneTokenChanges(0.0, 0.0);
    var first := ChangedClusters(ONE_TOKEN, [[1.0]], Some([[0.0]]), Tolerance(0.0, 0.0));
    OverlayLaws([[0.0]], ONE_TOKEN, [[1.0]], first, 1);
    hide Good, ChangedClusters, Export, Fits, OverlayAll;
  }

  lemma ZeroMoved(x: seq<Vec>, y: seq<Vec>, t: nat, dim: nat)
    requires Shaped(x, |x|, dim) && Shaped(y, |x|, dim) && t < |x|
    ensures Moved(x, Some(y), t, Tolerance(0.0, 0.0)) <==> x[t] != y[t]
  {
    var tol := Tolerance(0.0, 0.0);
    forall d | 0 <= d < dim ensures Close(x[t][d], y[t][d], tol) <==> x[t][d] == y[t][d] {
      ConstantAllowance(y[t][d], tol);
    }
    hide Close;
    if RowClose(x[t], y[t], tol) {
      assert forall d :: 0 <= d < dim ==> Close(x[t][d], y[t][d], tol);
      assert x[t] == y[t];
    }
  }

  /** After an unmarked export of `b` over snapshot `a`, the next export of `c` is exact for a token
      exactly when its cluster moved since the snapshot or the unmarked export had left the token alone. */
  lemma UnmarkedExactIff(l: Layout, a: seq<Vec>, b: seq<Vec>, c: seq<Vec>, t: nat, dim: nat)
    requires Good(a, l, dim) && Good(b, l, dim) && Good(c, l, dim) && |a| == |b| == |c| && t < |a|
    ensures Comparable(b, Some(a), |b|, dim) && Comparable(c, Some(a), |c|, dim) && |l.labels| == |a|
    ensures var tol := Tolerance(0.0, 0.0);
            var first, second := ChangedClusters(l, b, Some(a), tol), ChangedClusters(l, c, Some(a), tol);
            && Below(first, |l.centroids|) && Below(second, |l.centroids|)
            && (forall w :: w in Export(l, b, first, dim) ==> Fits(w, |a|, dim))
            && (forall w :: w in Export(l, c, second, dim) ==> Fits(w, |a|, dim))
            && var r := OverlayAll(OverlayAll(a, Export(l, b, first, dim), dim), Export(l, c, second, dim), dim);
            r[t] == c[t] <==> l.labels[t] in second || b[t] == a[t]
  {
    GoodShape(a, l, dim);
    GoodShape(b, l, dim);
    GoodShape(c, l, dim);
    GoodParts(a, l, dim);
    GoodParts(b, l, dim);
    GoodParts(c, l, dim);
    var tol := Tolerance(0.0, 0.0);
    ChangedClustersLaws(l, b, Some(a), tol, dim);
    ChangedClustersLaws(l, c, Some(a), tol, dim);
    hide Good, ChangedClusters, Export, Fits, OverlayAll, Moved;
    var first, second := ChangedClusters(l, b, Some(a), tol), ChangedClusters(l, c, Some(a), tol);
    OverlayLaws(a, l, b, first, dim);
    OverlayLaws(OverlayAll(a, Export(l, b, first, dim), dim), l, c, second, dim);
    ZeroMoved(b, a, t, dim);
    ZeroMoved(c, a, t, dim);
  }
}
