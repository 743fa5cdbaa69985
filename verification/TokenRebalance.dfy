/** The adaptive rebalance of a cluster layout: split the largest cluster, merge the smallest, up to a step bound. */
module TokenRebalance {
  import opened Wrappers
  import opened Numbers
  import opened Vectors
  import opened TokenLayout

  datatype Layout = Layout(centroids: seq<Vec>, labels: seq<nat>)

  datatype Halves = Halves(first: Vec, second: Vec, local: seq<nat>)

  /** The two-way split is known only by its law: it declines, or both local labels are used. */
  datatype Params = Params(split: seq<Vec> -> Option<Halves>, maxRatio: real, uniformRatio: real, maxSteps: int) {
    ghost predicate Lawful(dim: nat) {
      forall points :: Shaped(points, |points|, dim) && split(points).Some? ==>
        var h := split(points).value;
        |points| >= 4 && |h.local| == |points| && Below(h.local, 2) && 0 in h.local && 1 in h.local && |h.first| == |h.second| == dim
    }
  }

  ghost predicate Good(data: seq<Vec>, l: Layout, dim: nat) {
    && Shaped(data, |l.labels|, dim) && l.labels != []
    && Shaped(l.centroids, |l.centroids|, dim)
    && Onto(l.labels, |l.centroids|)
  }

  function Renumber(l: Layout): Layout
    requires Below(l.labels, |l.centroids|)
  {
    Layout(Kept(l.centroids, l.labels), Renumbered(l.labels, |l.centroids|))
  }

  // ----- Choosing clusters -----

  function Sizes(labels: seq<nat>, k: nat): seq<nat> {
    seq(k, c requires 0 <= c < k => |Members(labels, c)|)
  }

  /** `np.argmax`: the first largest. */
  function ArgMax(s: seq<nat>): (n: nat)
    requires s != []
    ensures n < |s| && (forall i :: 0 <= i < |s| ==> s[i] <= s[n]) && (forall i :: 0 <= i < n ==> s[i] < s[n])
  {
    if |s| == 1 then 0
    else
      var m := ArgMax(s[..|s| - 1]);
      if s[|s| - 1] > s[m] then |s| - 1 else m
  }

  function ArgMin(s: seq<nat>): (n: nat)
    requires s != []
    ensures n < |s| && (forall i :: 0 <= i < |s| ==> s[n] <= s[i]) && (forall i :: 0 <= i < n ==> s[n] < s[i])
  {
    if |s| == 1 then 0
    else
      var m := ArgMin(s[..|s| - 1]);
      if s[|s| - 1] < s[m] then |s| - 1 else m
  }

  /** The first nearest centroid among the first `n`, other than `s` itself. */
  function Nearest(centroids: seq<Vec>, s: nat, n: nat, dim: nat): (r: Option<nat>)
    requires s < |centroids| && n <= |centroids| && Shaped(centroids, |centroids|, dim)
    ensures r.None? <==> n == 0 || (n == 1 && s == 0)
    ensures r.Some? ==> r.value < n && r.value != s
    ensures r.Some? ==> forall i :: 0 <= i < n && i != s ==>
              SquaredDistance(centroids[r.value], centroids[s]) <= SquaredDistance(centroids[i], centroids[s])
    ensures r.Some? ==> forall i :: 0 <= i < r.value && i != s ==>
              SquaredDistance(centroids[r.value], centroids[s]) < SquaredDistance(centroids[i], centroids[s])
  {
    if n == 0 then None
    else
      var r := Nearest(centroids, s, n - 1, dim);
      if n - 1 == s then r
      else if r.Some? && SquaredDistance(centroids[r.value], centroids[s]) <= SquaredDistance(centroids[n - 1], centroids[s]) then r
      else Some(n - 1)
  }

  // ----- One step -----

  function SplitLabels(labels: seq<nat>, c: nat, local: seq<nat>, newId: nat): seq<nat>
    requires |local| == |Members(labels, c)|
  {
    WhereLaws(labels, c, |labels|);
    seq(|labels|, t requires 0 <= t < |labels| =>
      if labels[t] != c then labels[t]
      else if local[Position(Members(labels, c), t)] == 0 then c
      else newId)
  }

  function MergeLabels(labels: seq<nat>, c: nat, into: nat): seq<nat> {
    seq(|labels|, t requires 0 <= t < |labels| => if labels[t] == c then into else labels[t])
  }

  function Ratio(sizes: seq<nat>): real
    requires sizes != []
  {
    sizes[ArgMax(sizes)] as real / Max(sizes[ArgMin(sizes)], 1) as real
  }

  lemma DivTimes(a: real, b: real)
    requires b > 0.0
    ensures a / b * b == a
  {
  }

  lemma RatioTimes(sizes: seq<nat>)
    requires sizes != [] && forall i :: 0 <= i < |sizes| ==> sizes[i] >= 1
    ensures Ratio(sizes) * sizes[ArgMin(sizes)] as real == sizes[ArgMax(sizes)] as real
  {
    hide ArgMax, ArgMin;
    var hi, lo := sizes[ArgMax(sizes)], sizes[ArgMin(sizes)];
    assert lo >= 1 && Max(lo, 1) == lo;
    DivTimes(hi as real, lo as real);
  }

  lemma Scaled(m: real, x: real, y: real)
    requires m >= 0.0 && x <= y
    ensures m * x <= m * y
  {
  }

  /** With `r` times the smallest size the largest, comparing `r` with `m` compares the largest with `m` times the smallest. */
  lemma ProductsCompare(r: real, m: real, lo: real, hi: real)
    requires r * lo == hi && lo >= 1.0 && hi >= 1.0
    ensures r <= m <==> hi <= m * lo
    ensures r < m <==> hi < m * lo
  {
    assert (m - r) * lo == m * lo - hi;
    assert m > r ==> (m - r) * lo > 0.0;
    assert m < r ==> (r - m) * lo > 0.0;
  }

  lemma NotNegative(m: real, lo: real, hi: real)
    requires hi <= m * lo && lo >= 1.0 && hi >= 1.0
    ensures m >= 0.0
  {
    assert m < 0.0 ==> m * lo <= 0.0;
  }

  ghost predicate Within(labels: seq<nat>, x: nat, y: nat, m: real) {
    |Members(labels, x)| as real <= m * |Members(labels, y)| as real
  }

  ghost predicate WellWithin(labels: seq<nat>, x: nat, y: nat, m: real) {
    |Members(labels, x)| as real < m * |Members(labels, y)| as real
  }

  /** No cluster is more than `m` times as large as another. */
  ghost predicate AtMostTimes(labels: seq<nat>, k: nat, m: real) {
    forall x: nat, y: nat :: x < k && y < k ==> Within(labels, x, y, m)
  }

  /** Every cluster is less than `m` times as large as any. */
  ghost predicate LessThanTimes(labels: seq<nat>, k: nat, m: real) {
    forall x: nat, y: nat :: x < k && y < k ==> WellWithin(labels, x, y, m)
  }

  /** What the ratio of largest to smallest decides, cluster by cluster. */
  lemma RatioLaws(labels: seq<nat>, k: nat, m: real)
    requires Onto(labels, k) && k > 0
    ensures Ratio(Sizes(labels, k)) <= m <==> AtMostTimes(labels, k, m)
    ensures Ratio(Sizes(labels, k)) < m <==> LessThanTimes(labels, k, m)
  {
    hide AtMostTimes, LessThanTimes, Ratio, Members, ArgMax, ArgMin;
    var sizes := Sizes(labels, k);
    SizesNotZero(labels, k);
    var b, a := ArgMin(sizes), ArgMax(sizes);
    RatioTimes(sizes);
    FirstsAre(labels, k);
    ProductsCompare(Ratio(sizes), m, sizes[b] as real, sizes[a] as real);
    ExtremesDecide(labels, k, m, b, a);
  }

  /** Every size is within `m` of every other exactly when the largest is of the smallest. */
  lemma ExtremesDecide(labels: seq<nat>, k: nat, m: real, lo: nat, hi: nat)
    requires FirstSmallest(labels, k, lo) && FirstLargest(labels, k, hi) && |Members(labels, lo)| >= 1
    ensures AtMostTimes(labels, k, m) <==> |Members(labels, hi)| as real <= m * |Members(labels, lo)| as real
    ensures LessThanTimes(labels, k, m) <==> |Members(labels, hi)| as real < m * |Members(labels, lo)| as real
  {
    hide Members;
    forall x: nat, y: nat | x < k && y < k
      ensures |Members(labels, hi)| as real <= m * |Members(labels, lo)| as real ==> Within(labels, x, y, m)
      ensures |Members(labels, hi)| as real < m * |Members(labels, lo)| as real ==> WellWithin(labels, x, y, m)
    {
      Between(m, |Members(labels, lo)| as real, |Members(labels, y)| as real, |Members(labels, x)| as real, |Members(labels, hi)| as real);
    }
    assert Within(labels, hi, lo, m) <==> |Members(labels, hi)| as real <= m * |Members(labels, lo)| as real;
    assert WellWithin(labels, hi, lo, m) <==> |Members(labels, hi)| as real < m * |Members(labels, lo)| as real;
    hide Within, WellWithin;
  }

  lemma Between(m: real, small: real, y: real, x: real, large: real)
    requires 1.0 <= small <= y && 1.0 <= large && x <= large
    ensures large <= m * small ==> x <= m * y
    ensures large < m * small ==> x < m * y
  {
    if large <= m * small {
      NotNegative(m, small, large);
      Scaled(m, small, y);
    }
  }

  lemma SizesNotZero(labels: seq<nat>, k: nat)
    requires Onto(labels, k)
    ensures |Sizes(labels, k)| == k && forall x :: 0 <= x < k ==> Sizes(labels, k)[x] >= 1
  {
    forall x | 0 <= x < k ensures Sizes(labels, k)[x] >= 1 {
      assert x in labels;
      MembersNotEmpty(labels, x);
    }
  }

  lemma MembersNotEmpty(labels: seq<nat>, c: nat)
    requires c in labels
    ensures |Members(labels, c)| >= 1
  {
    WhereLaws(labels, c, |labels|);
    var t :| 0 <= t < |labels| && labels[t] == c;
    assert t in Members(labels, c);
  }

  /** The first of the largest clusters, and the first of the smallest. */
  ghost predicate FirstLargest(labels: seq<nat>, k: nat, c: nat) {
    c < k && forall x: nat :: x < k ==>
      |Members(labels, x)| <= |Members(labels, c)| && (x < c ==> |Members(labels, x)| < |Members(labels, c)|)
  }

  ghost predicate FirstSmallest(labels: seq<nat>, k: nat, c: nat) {
    c < k && forall x: nat :: x < k ==>
      |Members(labels, c)| <= |Members(labels, x)| && (x < c ==> |Members(labels, c)| < |Members(labels, x)|)
  }

  lemma FirstsAre(labels: seq<nat>, k: nat)
    requires k > 0
    ensures FirstLargest(labels, k, ArgMax(Sizes(labels, k))) && FirstSmallest(labels, k, ArgMin(Sizes(labels, k)))
    ensures forall c: nat :: FirstLargest(labels, k, c) ==> c == ArgMax(Sizes(labels, k))
  {
    hide Members, ArgMax, ArgMin;
    var sizes := Sizes(labels, k);
    assert |sizes| == k && forall x: nat :: x < k ==> sizes[x] == |Members(labels, x)|;
    hide Sizes;
  }

  /** The law at the members of a cluster. */
  lemma SplitOfMembers(p: Params, data: seq<Vec>, l: Layout, c: nat, dim: nat)
    requires p.Lawful(dim) && Good(data, l, dim) && c < |l.centroids| && p.split(Points(data, l.labels, c)).Some?
    ensures var h := p.split(Points(data, l.labels, c)).value;
            && |Members(l.labels, c)| >= 4 && |h.local| == |Members(l.labels, c)| && Below(h.local, 2)
            && 0 in h.local && 1 in h.local && |h.first| == |h.second| == dim
  {
    WhereLaws(l.labels, c, |l.labels|);
    var points := Points(data, l.labels, c);
    assert |points| == |Members(l.labels, c)| && Shaped(points, |points|, dim);
    hide Points, Members;
  }

  /** The outcome of one pass of the loop; None where it breaks. */
  function Next(p: Params, data: seq<Vec>, l: Layout, dim: nat): Option<Layout>
    requires p.Lawful(dim) && Good(data, l, dim)
  {
    var k, sizes := |l.centroids|, Sizes(l.labels, |l.centroids|);
    if k < 2 then None
    else if Ratio(sizes) > p.maxRatio then
      var c := ArgMax(sizes);
      var h := p.split(Points(data, l.labels, c));
      if h.None? then None
      else
        SplitOfMembers(p, data, l, c, dim);
        var labels := SplitLabels(l.labels, c, h.value.local, k);
        SplitIsOnto(l.labels, c, h.value.local, k);
        Some(Renumber(Layout(l.centroids[c := h.value.first] + [h.value.second], labels)))
    else if Ratio(sizes) < p.uniformRatio && k > 2 then
      var c := ArgMin(sizes);
      var near := Nearest(l.centroids, c, k, dim).value;
      Some(Renumber(Layout(l.centroids, MergeLabels(l.labels, c, near))))
    else None
  }

  lemma PositionOf(ids: seq<nat>, j: nat)
    requires Increasing(ids) && j < |ids|
    ensures ids[j] in ids && Position(ids, ids[j]) == j
  {
  }

  lemma SplitLabelAt(labels: seq<nat>, c: nat, local: seq<nat>, k: nat, j: nat)
    requires |local| == |Members(labels, c)| && Below(local, 2) && j < |local|
    ensures var t := Members(labels, c)[j]; t < |labels| && SplitLabels(labels, c, local, k)[t] == if local[j] == 0 then c else k
  {
    WhereLaws(labels, c, |labels|);
    PositionOf(Members(labels, c), j);
  }

  lemma SplitLabelOther(labels: seq<nat>, c: nat, local: seq<nat>, k: nat, t: nat)
    requires |local| == |Members(labels, c)| && Below(local, 2) && t < |labels|
    ensures labels[t] != c ==> SplitLabels(labels, c, local, k)[t] == labels[t]
    ensures labels[t] == c ==> SplitLabels(labels, c, local, k)[t] == c || SplitLabels(labels, c, local, k)[t] == k
  {
    WhereLaws(labels, c, |labels|);
    hide Where;
  }

  /** A split gives back every old label and the fresh one, so nothing is renumbered after it. */
  lemma SplitIsOnto(labels: seq<nat>, c: nat, local: seq<nat>, k: nat)
    requires Onto(labels, k) && c < k && |local| == |Members(labels, c)| && 0 in local && 1 in local && Below(local, 2)
    ensures Onto(SplitLabels(labels, c, local, k), k + 1)
    ensures var l' := SplitLabels(labels, c, local, k);
            forall i, j :: 0 <= i < |labels| && 0 <= j < |labels| && l'[i] == l'[j] ==> labels[i] == labels[j]
  {
    var l' := SplitLabels(labels, c, local, k);
    var a :| 0 <= a < |local| && local[a] == 0;
    var b :| 0 <= b < |local| && local[b] == 1;
    hide Members, SplitLabels;
    SplitLabelAt(labels, c, local, k, a);
    SplitLabelAt(labels, c, local, k, b);
    forall t | 0 <= t < |labels|
      ensures labels[t] != c ==> l'[t] == labels[t]
      ensures labels[t] == c ==> l'[t] == c || l'[t] == k
    {
      SplitLabelOther(labels, c, local, k, t);
    }
    forall x | 0 <= x < k && x != c ensures x in l' {
      assert x in labels;
      var t :| 0 <= t < |labels| && labels[t] == x;
      assert l'[t] == x;
    }
  }

  /** A merge removes exactly one label, so one cluster fewer remains. */
  lemma {:induction false} UniqueMissing(labels: seq<nat>, s: nat, n: nat)
    requires forall x: nat :: x < n ==> (x in labels <==> x != s)
    ensures |Unique(labels, n)| == if n <= s then n else n - 1
  {
    if n > 0 {
      UniqueMissing(labels, s, n - 1);
    }
  }

  lemma MergeLeavesOthers(labels: seq<nat>, c: nat, into: nat, k: nat)
    requires Onto(labels, k) && c < k && into < k && c != into
    ensures var l' := MergeLabels(labels, c, into);
            && Below(l', k) && (forall x: nat :: x < k ==> (x in l' <==> x != c))
            && |Unique(l', k)| == k - 1
  {
    var l' := MergeLabels(labels, c, into);
    forall x: nat | x < k ensures x in l' <==> x != c {
      assert x in labels;
      var t :| 0 <= t < |labels| && labels[t] == x;
      assert l'[t] == if x == c then into else x;
    }
    UniqueMissing(l', c, k);
  }

  /** What one step does to the partition: one cluster more, each inside an old one; or one fewer, each holding old ones. */
  ghost predicate Stepped(l: Layout, l': Layout) {
    && |l.labels| == |l'.labels|
    && ((|l'.centroids| == |l.centroids| + 1 && Finer(l'.labels, l.labels)) ||
        (|l'.centroids| == |l.centroids| - 1 >= 2 && Finer(l.labels, l'.labels)))
  }

  ghost predicate Finer(a: seq<nat>, b: seq<nat>)
    requires |a| == |b|
  {
    forall i, j :: 0 <= i < |a| && 0 <= j < |a| && a[i] == a[j] ==> b[i] == b[j]
  }

  lemma SplitKeeps(data: seq<Vec>, l: Layout, c: nat, h: Halves, dim: nat)
    requires Good(data, l, dim) && c < |l.centroids| && |h.local| == |Members(l.labels, c)| && Below(h.local, 2)
    requires 0 in h.local && 1 in h.local && |h.first| == |h.second| == dim
    ensures var labels := SplitLabels(l.labels, c, h.local, |l.centroids|);
            var grown := Layout(l.centroids[c := h.first] + [h.second], labels);
            Below(labels, |grown.centroids|) && Good(data, Renumber(grown), dim) && Stepped(l, Renumber(grown))
  {
    var k, labels := |l.centroids|, SplitLabels(l.labels, c, h.local, |l.centroids|);
    SplitIsOnto(l.labels, c, h.local, k);
    assert |labels| == |l.labels| && Finer(labels, l.labels);
    var grown := Layout(l.centroids[c := h.first] + [h.second], labels);
    assert Shaped(grown.centroids, k + 1, dim);
    hide Unique, SplitLabels, Renumbered, Kept, Finer, Shaped;
    RenumberFixes(labels, k + 1);
    RenumberKeeps(grown, dim);
    assert Renumber(grown).labels == labels;
    hide Onto, Renumber, SamePartition;
  }

  lemma MergeKeeps(data: seq<Vec>, l: Layout, c: nat, into: nat, dim: nat)
    requires Good(data, l, dim) && |l.centroids| > 2 && c < |l.centroids| && into < |l.centroids| && c != into
    ensures var merged := Layout(l.centroids, MergeLabels(l.labels, c, into));
            Below(merged.labels, |merged.centroids|) && Good(data, Renumber(merged), dim) && Stepped(l, Renumber(merged))
  {
    var merged := Layout(l.centroids, MergeLabels(l.labels, c, into));
    MergeLeavesOthers(l.labels, c, into, |l.centroids|);
    assert Finer(l.labels, merged.labels);
    hide Unique, MergeLabels, Renumbered, Kept;
    RenumberKeeps(merged, dim);
  }

  lemma NextKeeps(p: Params, data: seq<Vec>, l: Layout, dim: nat)
    requires p.Lawful(dim) && Good(data, l, dim) && Next(p, data, l, dim).Some?
    ensures Good(data, Next(p, data, l, dim).value, dim)
    ensures Stepped(l, Next(p, data, l, dim).value)
  {
    GoodShape(data, l, dim);
    hide Good, Stepped, Renumber, SplitLabels, MergeLabels, Ratio, Onto, Below, Members;
    var k, sizes := |l.centroids|, Sizes(l.labels, |l.centroids|);
    if Ratio(sizes) > p.maxRatio {
      var c := ArgMax(sizes);
      SplitOfMembers(p, data, l, c, dim);
      SplitKeeps(data, l, c, p.split(Points(data, l.labels, c)).value, dim);
    } else {
      var c := ArgMin(sizes);
      MergeKeeps(data, l, c, Nearest(l.centroids, c, k, dim).value, dim);
    }
  }

  lemma GoodShape(data: seq<Vec>, l: Layout, dim: nat)
    requires Good(data, l, dim)
    ensures Shaped(l.centroids, |l.centroids|, dim) && Shaped(data, |l.labels|, dim)
  {
  }

  lemma RenumberKeeps(l: Layout, dim: nat)
    requires Below(l.labels, |l.centroids|) && Shaped(l.centroids, |l.centroids|, dim)
    ensures var r := Renumber(l);
            && Shaped(r.centroids, |r.centroids|, dim) && Onto(r.labels, |r.centroids|)
            && SamePartition(l.labels, r.labels) && |r.centroids| == |Unique(l.labels, |l.centroids|)|
  {
    RenumberLaws(l.centroids, l.labels);
    UniqueLaws(l.labels, |l.centroids|);
    hide Unique, Renumbered;
  }

  /** The first largest cluster `c` was split in the halves `h`: its members keep its id or take the new one as their half says,
      every other token keeps its label, and the two halves bring their centroids. */
  ghost predicate SplitLargest(l: Layout, l': Layout, c: nat, h: Halves) {
    var k := |l.centroids|;
    && FirstLargest(l.labels, k, c) && |l'.labels| == |l.labels| && |l'.centroids| == k + 1 && |h.local| == |Members(l.labels, c)|
    && (forall t :: 0 <= t < |l.labels| && l.labels[t] != c ==> l'.labels[t] == l.labels[t])
    && (forall j :: 0 <= j < |h.local| ==>
          var t := Members(l.labels, c)[j];
          t < |l'.labels| && l'.labels[t] == if h.local[j] == 0 then c else k)
    && l'.centroids[c] == h.first && l'.centroids[k] == h.second
    && (forall x :: 0 <= x < k && x != c ==> l'.centroids[x] == l.centroids[x])
  }

  /** The cluster a token of cluster `x` is in once `s` is merged into `near`. */
  function Moved(x: nat, s: nat, near: nat): nat { if x == s then near else x }

  /** The first smallest cluster `s` was merged into the first nearest other one: those two and no others now share a label,
      and every cluster keeps its centroid. */
  ghost predicate MergedSmallest(l: Layout, l': Layout, s: nat, near: nat, dim: nat)
    requires Shaped(l.centroids, |l.centroids|, dim)
  {
    var k := |l.centroids|;
    && FirstSmallest(l.labels, k, s) && near < k && near != s && |l'.labels| == |l.labels|
    && (forall x :: 0 <= x < k && x != s ==>
          && SquaredDistance(l.centroids[near], l.centroids[s]) <= SquaredDistance(l.centroids[x], l.centroids[s])
          && (x < near ==> SquaredDistance(l.centroids[near], l.centroids[s]) < SquaredDistance(l.centroids[x], l.centroids[s])))
    && (forall t, u :: 0 <= t < |l.labels| && 0 <= u < |l.labels| ==>
          (l'.labels[t] == l'.labels[u] <==> Moved(l.labels[t], s, near) == Moved(l.labels[u], s, near)))
    && (forall t :: 0 <= t < |l.labels| ==>
          l'.labels[t] < |l'.centroids| && Moved(l.labels[t], s, near) < k
          && l'.centroids[l'.labels[t]] == l.centroids[Moved(l.labels[t], s, near)])
  }

  lemma SizesAre(labels: seq<nat>, k: nat)
    ensures forall x :: 0 <= x < k ==> Sizes(labels, k)[x] == |Members(labels, x)|
  {
  }

  lemma SplitIsOfLargest(l: Layout, c: nat, h: Halves)
    requires Onto(l.labels, |l.centroids|) && |h.local| == |Members(l.labels, c)| && Below(h.local, 2)
    requires 0 in h.local && 1 in h.local && FirstLargest(l.labels, |l.centroids|, c)
    ensures var grown := Layout(l.centroids[c := h.first] + [h.second], SplitLabels(l.labels, c, h.local, |l.centroids|));
            Below(grown.labels, |grown.centroids|) && SplitLargest(l, Renumber(grown), c, h)
  {
    var k := |l.centroids|;
    var grown := Layout(l.centroids[c := h.first] + [h.second], SplitLabels(l.labels, c, h.local, k));
    SplitIsOnto(l.labels, c, h.local, k);
    RenumbersToItself(grown);
    forall t | 0 <= t < |l.labels| ensures l.labels[t] != c ==> grown.labels[t] == l.labels[t] {
      SplitLabelOther(l.labels, c, h.local, k, t);
    }
    forall j | 0 <= j < |h.local|
      ensures var t := Members(l.labels, c)[j]; t < |grown.labels| && grown.labels[t] == if h.local[j] == 0 then c else k
    {
      SplitLabelAt(l.labels, c, h.local, k, j);
    }
    hide Onto, Renumber, Members, SplitLabels, FirstLargest;
  }

  lemma RenumbersToItself(l: Layout)
    requires Onto(l.labels, |l.centroids|)
    ensures Renumber(l) == l
  {
    var k := |l.centroids|;
    RenumberFixes(l.labels, k);
    UniqueAll(l.labels, k, k);
    hide Onto, Renumbered, Unique;
    assert Kept(l.centroids, l.labels) == l.centroids;
  }

  lemma MergedAt(labels: seq<nat>, s: nat, near: nat)
    ensures |MergeLabels(labels, s, near)| == |labels|
    ensures forall t :: 0 <= t < |labels| ==> MergeLabels(labels, s, near)[t] == Moved(labels[t], s, near)
  {
  }

  lemma MergeIsOfSmallest(l: Layout, s: nat, near: nat, dim: nat)
    requires Onto(l.labels, |l.centroids|) && Shaped(l.centroids, |l.centroids|, dim)
    requires FirstSmallest(l.labels, |l.centroids|, s) && near < |l.centroids| && near != s
    requires forall x :: 0 <= x < |l.centroids| && x != s ==>
               && SquaredDistance(l.centroids[near], l.centroids[s]) <= SquaredDistance(l.centroids[x], l.centroids[s])
               && (x < near ==> SquaredDistance(l.centroids[near], l.centroids[s]) < SquaredDistance(l.centroids[x], l.centroids[s]))
    ensures var merged := Layout(l.centroids, MergeLabels(l.labels, s, near));
            Below(merged.labels, |merged.centroids|) && MergedSmallest(l, Renumber(merged), s, near, dim)
  {
    var merged := Layout(l.centroids, MergeLabels(l.labels, s, near));
    MergeLeavesOthers(l.labels, s, near, |l.centroids|);
    MergedAt(l.labels, s, near);
    RenumberLaws(l.centroids, merged.labels);
    hide Onto, Members, Renumbered, Kept, MergeLabels, SquaredDistance, Unique, FirstSmallest, Moved;
  }

  /** A step is taken exactly if the layout is not settled. If some cluster is more than `maxRatio` times as large as another, the
      first largest is split as the split says; otherwise every cluster is less than `uniformRatio` times as large as every other,
      there are more than two, and the first smallest is merged into the nearest. */
  lemma NextIsDirected(p: Params, data: seq<Vec>, l: Layout, dim: nat)
    requires p.Lawful(dim) && Good(data, l, dim) && Next(p, data, l, dim).Some?
    ensures var k := |l.centroids|;
            k >= 2 && Shaped(l.centroids, k, dim) && |data| == |l.labels|
    ensures var (k, l') := (|l.centroids|, Next(p, data, l, dim).value);
            if !AtMostTimes(l.labels, k, p.maxRatio) then
              exists c, h :: p.split(Points(data, l.labels, c)) == Some(h) && SplitLargest(l, l', c, h)
            else
              LessThanTimes(l.labels, k, p.uniformRatio) && k > 2 && exists s, near :: MergedSmallest(l, l', s, near, dim)
  {
    GoodShape(data, l, dim);
    GoodParts(data, l, dim);
    var k, sizes := |l.centroids|, Sizes(l.labels, |l.centroids|);
    FirstsAre(l.labels, k);
    RatioLaws(l.labels, k, p.maxRatio);
    RatioLaws(l.labels, k, p.uniformRatio);
    hide Good, Renumber, SplitLabels, MergeLabels, Ratio, Onto, Below, Members, SplitLargest, MergedSmallest, Sizes, FirstLargest, FirstSmallest,
      AtMostTimes, LessThanTimes, Points;
    if Ratio(sizes) > p.maxRatio {
      var c := ArgMax(sizes);
      SplitOfMembers(p, data, l, c, dim);
      var h := p.split(Points(data, l.labels, c)).value;
      SplitIsOfLargest(l, c, h);
      assert SplitLargest(l, Next(p, data, l, dim).value, c, h);
    } else {
      var s := ArgMin(sizes);
      var near := Nearest(l.centroids, s, k, dim).value;
      MergeIsOfSmallest(l, s, near, dim);
      assert MergedSmallest(l, Next(p, data, l, dim).value, s, near, dim);
    }
  }

  // ----- The whole run -----

  /** The layout the loop stops at, and the steps taken. */
  function Loop(p: Params, data: seq<Vec>, l: Layout, dim: nat, steps: nat): (Layout, nat)
    requires p.Lawful(dim) && Good(data, l, dim)
    decreases p.maxSteps - steps
  {
    if steps >= p.maxSteps then (l, steps)
    else
      var next := Next(p, data, l, dim);
      if next.None? then (l, steps)
      else
        NextKeeps(p, data, l, dim);
        Loop(p, data, next.value, dim, steps + 1)
  }

  lemma LoopNext(p: Params, data: seq<Vec>, l: Layout, dim: nat, steps: nat)
    requires p.Lawful(dim) && Good(data, l, dim) && steps < p.maxSteps
    ensures var next := Next(p, data, l, dim);
            && (next.Some? ==> Good(data, next.value, dim) && Loop(p, data, l, dim, steps) == Loop(p, data, next.value, dim, steps + 1))
            && (next.None? ==> Loop(p, data, l, dim, steps) == (l, steps))
  {
    hide Next, Good;
    if Next(p, data, l, dim).Some? {
      NextKeeps(p, data, l, dim);
    }
  }

  ghost predicate Input(p: Params, data: seq<Vec>, l: Layout, dim: nat) {
    && p.Lawful(dim) && Shaped(data, |l.labels|, dim) && l.labels != []
    && Below(l.labels, |l.centroids|) && Shaped(l.centroids, |l.centroids|, dim)
  }

  function Started(p: Params, data: seq<Vec>, l: Layout, dim: nat): (r: Layout)
    requires Input(p, data, l, dim)
    ensures Good(data, r, dim)
  {
    RenumberKeeps(l, dim);
    Renumber(l)
  }

  function Averaged(data: seq<Vec>, l: Layout, dim: nat): Layout
    requires Good(data, l, dim)
  {
    Renumber(Layout(Means(data, l.labels, |l.centroids|, dim), l.labels))
  }

  lemma {:induction false} LoopLaws(p: Params, data: seq<Vec>, l: Layout, dim: nat, steps: nat)
    requires p.Lawful(dim) && Good(data, l, dim)
    ensures var (l', n) := Loop(p, data, l, dim, steps);
            && Good(data, l', dim) && |l'.labels| == |l.labels|
            && steps <= n <= Max(p.maxSteps, steps)
            && (n == steps ==> l' == l)
            && (n < p.maxSteps ==> Next(p, data, l', dim) == None)
            && |l.centroids| - (n - steps) <= |l'.centroids| <= |l.centroids| + (n - steps)
            && Min(|l.centroids|, 2) <= |l'.centroids|
    decreases p.maxSteps - steps
  {
    hide Next, Good, Finer;
    if steps < p.maxSteps && Next(p, data, l, dim).Some? {
      NextKeeps(p, data, l, dim);
      LoopLaws(p, data, Next(p, data, l, dim).value, dim, steps + 1);
    }
  }

  lemma AveragedLaws(data: seq<Vec>, l: Layout, dim: nat)
    requires Good(data, l, dim)
    ensures var r := Averaged(data, l, dim);
            && r.labels == l.labels && |r.centroids| == |l.centroids|
            && forall c :: 0 <= c < |l.centroids| ==>
                 r.centroids[c] == Mean(Points(data, l.labels, c), dim) && Balances(data, l.labels, c, r.centroids[c], dim)
  {
    var k := |l.centroids|;
    var means := Means(data, l.labels, k, dim);
    UniqueAll(l.labels, k, k);
    RenumberFixes(l.labels, k);
    forall c: nat | c < k ensures Balances(data, l.labels, c, means[c], dim) {
      MeansBalance(data, l.labels, c, dim);
    }
    hide Means, Unique, Renumbered, OffsetSum, Balances, Mean, Points;
    assert Unique(l.labels, k) == seq(k, i => i);
  }

  /** Why the loop stopped early: too few clusters, an unsplittable largest one, or a balanced layout. */
  ghost predicate Settled(p: Params, data: seq<Vec>, labels: seq<nat>, k: nat)
    requires |data| == |labels|
  {
    k < 2 ||
    if !AtMostTimes(labels, k, p.maxRatio) then forall c :: FirstLargest(labels, k, c) ==> p.split(Points(data, labels, c)) == None
    else !LessThanTimes(labels, k, p.uniformRatio) || k == 2
  }

  /** Whatever splits and merges occur, the outcome is a partition into non-empty clusters, reached within the step bound. */
  lemma RebalanceLaws(p: Params, data: seq<Vec>, l: Layout, dim: nat)
    requires Input(p, data, l, dim)
    ensures var start := Started(p, data, l, dim);
            var (stop, n) := Loop(p, data, start, dim, 0);
            Good(data, stop, dim) &&
            var r := Averaged(data, stop, dim);
            && n <= Max(p.maxSteps, 0)
            && |r.labels| == |l.labels| && Onto(r.labels, |r.centroids|)
            && (forall c :: 0 <= c < |r.centroids| ==> c in r.labels && Balances(data, r.labels, c, r.centroids[c], dim))
            && (n == 0 ==> SamePartition(l.labels, r.labels))
            && (n < p.maxSteps ==> Settled(p, data, r.labels, |r.centroids|))
            && |start.centroids| - n <= |r.centroids| <= |start.centroids| + n
            && Min(|start.centroids|, 2) <= |r.centroids|
  {
    var start := Started(p, data, l, dim);
    LoopLaws(p, data, start, dim, 0);
    var (stop, n) := Loop(p, data, start, dim, 0);
    AveragedLaws(data, stop, dim);
    RenumberKeeps(l, dim);
    SettledIff(p, data, stop, dim);
    hide Loop, Next, Averaged, Started, Settled, SamePartition, Renumber, Points, Mean, Balances;
    GoodParts(data, stop, dim);
    assert Averaged(data, stop, dim).labels == stop.labels;
  }

  lemma SettledIff(p: Params, data: seq<Vec>, l: Layout, dim: nat)
    requires p.Lawful(dim) && Good(data, l, dim)
    ensures |data| == |l.labels| && (Next(p, data, l, dim) == None <==> Settled(p, data, l.labels, |l.centroids|))
  {
    var k := |l.centroids|;
    GoodParts(data, l, dim);
    if k >= 2 {
      FirstsAre(l.labels, k);
      RatioLaws(l.labels, k, p.maxRatio);
      RatioLaws(l.labels, k, p.uniformRatio);
    }
    hide Good, Renumber, SplitLabels, MergeLabels, Ratio, Onto, Below, Points, FirstLargest, AtMostTimes, LessThanTimes, Sizes;
  }

  lemma GoodParts(data: seq<Vec>, l: Layout, dim: nat)
    requires Good(data, l, dim)
    ensures |data| == |l.labels| && Onto(l.labels, |l.centroids|)
    ensures forall c :: 0 <= c < |l.centroids| ==> c in l.labels
  {
  }

  /** `labels[member_indices] = np.where(...)`, one member at a time. */
  method AssignHalves(labels0: seq<nat>, c: nat, local: seq<nat>, newId: nat) returns (labels: seq<nat>)
    requires |local| == |Members(labels0, c)|
    ensures labels == SplitLabels(labels0, c, local, newId)
  {
    labels := labels0;
    var ms := Members(labels0, c);
    WhereLaws(labels0, c, |labels0|);
    hide Where, Members;
    for j := 0 to |ms|
      invariant |labels| == |labels0|
      invariant forall t :: 0 <= t < |labels0| && labels0[t] != c ==> labels[t] == labels0[t]
      invariant forall i :: 0 <= i < j ==> labels[ms[i]] == if local[i] == 0 then c else newId
    {
      assert ms[j] in ms;
      labels := labels[ms[j] := if local[j] == 0 then c else newId];
    }
  }

  datatype Error = EmptyVocabulary

  /** `_rebalance_cluster_layout`; stacking no centroids raises. */
  method Rebalance(p: Params, data: seq<Vec>, l: Layout, dim: nat, adaptive: bool) returns (r: Result<(Layout, nat), Error>)
    requires p.Lawful(dim) && Shaped(data, |l.labels|, dim)
    requires Below(l.labels, |l.centroids|) && Shaped(l.centroids, |l.centroids|, dim)
    ensures r.Err? <==> data == []
    ensures r.Ok? && !adaptive ==> r.value == (Started(p, data, l, dim), 0)
    ensures r.Ok? && adaptive ==>
              var (stop, n) := Loop(p, data, Started(p, data, l, dim), dim, 0);
              Good(data, stop, dim) && r.value == (Averaged(data, stop, dim), n)
  {
    if |l.labels| == 0 {
      return Err(EmptyVocabulary);
    }
    var current := Started(p, data, l, dim);
    if !adaptive {
      return Ok((current, 0));
    }
    ghost var start := current;
    hide Shaped, Below, Started, Averaged, Params.Lawful, Next, Good;
    var steps: nat := 0;
    while steps < p.maxSteps
      invariant Good(data, current, dim)
      invariant Loop(p, data, start, dim, 0) == Loop(p, data, current, dim, steps)
      decreases p.maxSteps - steps
    {
      ghost var before := current;
      var next := Pass(p, data, current, dim);
      LoopNext(p, data, before, dim, steps);
      if next.None? {
        break;
      }
      current := next.value;
      steps := steps + 1;
    }
    return Ok((Averaged(data, current, dim), steps));
  }

  /** The body of the loop. */
  method Pass(p: Params, data: seq<Vec>, l: Layout, dim: nat) returns (next: Option<Layout>)
    requires p.Lawful(dim) && Good(data, l, dim)
    ensures next == Next(p, data, l, dim)
  {
    GoodShape(data, l, dim);
    GoodParts(data, l, dim);
    hide Good, Ratio, Renumber, Members, Onto, SplitLabels;
    var k := |l.centroids|;
    if k < 2 {
      return None;
    }
    var counts := Sizes(l.labels, k);
    var ratio := Ratio(counts);
    if ratio > p.maxRatio {
      var largest := ArgMax(counts);
      var halves := p.split(Points(data, l.labels, largest));
      if halves.None? {
        return None;
      }
      SplitOfMembers(p, data, l, largest, dim);
      var labels := AssignHalves(l.labels, largest, halves.value.local, k);
      SplitIsOnto(l.labels, largest, halves.value.local, k);
      return Some(Renumber(Layout(l.centroids[largest := halves.value.first] + [halves.value.second], labels)));
    }
    if ratio < p.uniformRatio && k > 2 {
      var smallest := ArgMin(counts);
      var near := Nearest(l.centroids, smallest, k, dim).value;
      return Some(Renumber(Layout(l.centroids, MergeLabels(l.labels, smallest, near))));
    }
    return None;
  }
}
