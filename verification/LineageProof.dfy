/** The byte string a lineage digest is taken over. */
module LineageProof {
  import opened Wrappers

  datatype RefKind =
    | OriginRepresentation(name: string)
    | Share(shareId: string, from: string, to: string)
    | Derivation(derivationId: string)
    | Pin(pinId: string)

  datatype LineageEdge = LineageEdge(edgeId: string, originId: string, blobId: Option<string>, kind: RefKind, createdAt: int)

  datatype Proof = Proof(originId: string, digest: string, createdAt: int)

  function KindString(k: RefKind): string {
    match k
    case OriginRepresentation(name) => "origin_rep:" + name
    case Share(id, from, to) => "share:" + id + ":" + from + ":" + to
    case Derivation(id) => "derivation:" + id
    case Pin(id) => "pin:" + id
  }

  function BlobOrDash(b: Option<string>): string { if b.Some? then b.value else "-" }

  /** What of an edge reaches the hasher. */
  datatype Hashed = Hashed(edgeId: string, originId: string, blob: string, kind: string)

  function Project(e: LineageEdge): Hashed { Hashed(e.edgeId, e.originId, BlobOrDash(e.blobId), KindString(e.kind)) }

  function ProjectAll(es: seq<LineageEdge>): seq<Hashed> {
    if es == [] then [] else [Project(es[0])] + ProjectAll(es[1..])
  }

  function Lines(h: Hashed): string { h.edgeId + "\n" + h.originId + "\n" + h.blob + "\n" + h.kind + "\n" }

  function AllLines(hs: seq<Hashed>): string {
    if hs == [] then [] else Lines(hs[0]) + AllLines(hs[1..])
  }

  const DOMAIN := "SODL_LINEAGE_PROOF_V1\n"

  function Canonical(origin: string, sorted: seq<LineageEdge>): string {
    DOMAIN + origin + "\n" + AllLines(ProjectAll(sorted))
  }

  /** The bytes of one proof, written out. */
  lemma CanonicalExample()
    ensures Canonical("o", [LineageEdge("e", "o", None, Pin("p"), 7)]) == "SODL_LINEAGE_PROOF_V1\no\ne\no\n-\npin:p\n"
  {
    var h := Project(LineageEdge("e", "o", None, Pin("p"), 7));
    PinLines();
    assert ProjectAll([LineageEdge("e", "o", None, Pin("p"), 7)]) == [h] && AllLines([h]) == Lines(h) + AllLines([]);
    hide Lines;
  }

  lemma PinLines()
    ensures Lines(Project(LineageEdge("e", "o", None, Pin("p"), 7))) == "e\no\n-\npin:p\n"
  {
    assert KindString(Pin("p")) == "pin:p" && BlobOrDash(None) == "-";
  }

  lemma KindExamples()
    ensures KindString(OriginRepresentation("n")) == "origin_rep:n" && KindString(Derivation("d")) == "derivation:d"
    ensures KindString(Share("s", "f", "t")) == "share:s:f:t" && BlobOrDash(Some("b")) == "b"
  {
    assert "share:" + "s" + ":" + "f" + ":" + "t" == "share:s:f:t";
  }

  // ----- Sorting by edge id -----

  predicate StringLe(a: string, b: string) {
    a == "" || (b != "" && (a[0] < b[0] || (a[0] == b[0] && StringLe(a[1..], b[1..]))))
  }

  lemma {:induction false} StringLeTotal(a: string, b: string)
    ensures StringLe(a, b) || StringLe(b, a)
  {
    if a != "" && b != "" {
      StringLeTotal(a[1..], b[1..]);
    }
  }

  lemma {:induction false} StringLeAntisymmetric(a: string, b: string)
    requires StringLe(a, b) && StringLe(b, a)
    ensures a == b
  {
    if a != "" && b != "" {
      StringLeAntisymmetric(a[1..], b[1..]);
      assert a == [a[0]] + a[1..] && b == [b[0]] + b[1..];
    }
  }

  lemma {:induction false} StringLeTransitive(a: string, b: string, c: string)
    requires StringLe(a, b) && StringLe(b, c)
    ensures StringLe(a, c)
  {
    if a != "" && a[0] == b[0] && b[0] == c[0] {
      StringLeTransitive(a[1..], b[1..], c[1..]);
    }
  }

  ghost predicate Ordered(es: seq<LineageEdge>) {
    forall i, j :: 0 <= i < j < |es| ==> StringLe(es[i].edgeId, es[j].edgeId)
  }

  ghost predicate DistinctIds(es: seq<LineageEdge>) {
    forall i, j :: 0 <= i < j < |es| ==> es[i].edgeId != es[j].edgeId
  }

  /** Stable insertion: after the edges whose id is not larger. */
  function Insert(es: seq<LineageEdge>, e: LineageEdge): (r: seq<LineageEdge>)
    ensures multiset(r) == multiset(es) + multiset{e}
  {
    if es != [] && !StringLe(es[|es| - 1].edgeId, e.edgeId) then
      var n := |es| - 1;
      assert es == es[..n] + [es[n]];
      Insert(es[..n], e) + [es[n]]
    else es + [e]
  }

  function SortEdges(es: seq<LineageEdge>): (r: seq<LineageEdge>)
    ensures multiset(r) == multiset(es)
  {
    if es == [] then []
    else
      var n := |es| - 1;
      assert es == es[..n] + [es[n]];
      Insert(SortEdges(es[..n]), es[n])
  }

  lemma InsertMembers(es: seq<LineageEdge>, e: LineageEdge, x: LineageEdge)
    requires x in Insert(es, e)
    ensures x in es || x == e
  {
    assert x in multiset(Insert(es, e));
    hide Insert;
    assert x in multiset(es) + multiset{e};
  }

  lemma OrderedSnoc(es: seq<LineageEdge>, e: LineageEdge)
    requires Ordered(es) && forall x :: x in es ==> StringLe(x.edgeId, e.edgeId)
    ensures Ordered(es + [e])
  {
    hide StringLe;
    assert forall i :: 0 <= i < |es| ==> es[i] in es;
  }

  lemma {:induction false} InsertOrdered(es: seq<LineageEdge>, e: LineageEdge)
    requires Ordered(es)
    ensures Ordered(Insert(es, e))
  {
    hide StringLe, Insert;
    if es != [] && !StringLe(es[|es| - 1].edgeId, e.edgeId) {
      var n := |es| - 1;
      InsertOrdered(es[..n], e);
      StringLeTotal(es[n].edgeId, e.edgeId);
      forall x | x in Insert(es[..n], e) ensures StringLe(x.edgeId, es[n].edgeId) {
        InsertMembers(es[..n], e, x);
      }
      OrderedSnoc(Insert(es[..n], e), es[n]);
    } else {
      forall x | x in es ensures StringLe(x.edgeId, e.edgeId) {
        var i :| 0 <= i < |es| && es[i] == x;
        if i < |es| - 1 {
          StringLeTransitive(x.edgeId, es[|es| - 1].edgeId, e.edgeId);
        }
      }
      OrderedSnoc(es, e);
    }
    InsertUnfolds(es, e);
  }

  lemma InsertUnfolds(es: seq<LineageEdge>, e: LineageEdge)
    ensures Insert(es, e) ==
            if es != [] && !StringLe(es[|es| - 1].edgeId, e.edgeId) then Insert(es[..|es| - 1], e) + [es[|es| - 1]] else es + [e]
  {
    hide StringLe;
  }

  lemma {:induction false} SortIsOrdered(es: seq<LineageEdge>)
    ensures Ordered(SortEdges(es))
  {
    if es != [] {
      SortIsOrdered(es[..|es| - 1]);
      InsertOrdered(SortEdges(es[..|es| - 1]), es[|es| - 1]);
    }
  }

  lemma DistinctByMultiset(a: seq<LineageEdge>, b: seq<LineageEdge>)
    requires DistinctIds(a) && multiset(a) == multiset(b)
    ensures forall x, y :: x in b && y in b && x.edgeId == y.edgeId ==> x == y
  {
    forall x, y | x in b && y in b && x.edgeId == y.edgeId ensures x == y {
      assert x in multiset(b) && y in multiset(b);
      assert x in a && y in a;
    }
  }

  lemma SameHeads(a: seq<LineageEdge>, b: seq<LineageEdge>)
    requires Ordered(a) && Ordered(b) && multiset(a) == multiset(b) && a != []
    requires forall x, y :: x in a && y in a && x.edgeId == y.edgeId ==> x == y
    ensures b != [] && a[0] == b[0]
  {
    hide StringLe;
    assert a[0] in multiset(b) && |multiset(b)| == |b|;
    assert b[0] in multiset(a);
    var i :| 0 <= i < |b| && b[i] == a[0];
    var j :| 0 <= j < |a| && a[j] == b[0];
    if i > 0 && j > 0 {
      StringLeAntisymmetric(a[0].edgeId, b[0].edgeId);
    }
  }

  /** With one edge per id, the ordered arrangement of a bag of edges is unique. */
  lemma {:induction false} OrderedUnique(a: seq<LineageEdge>, b: seq<LineageEdge>)
    requires Ordered(a) && Ordered(b) && multiset(a) == multiset(b)
    requires forall x, y :: x in a && y in a && x.edgeId == y.edgeId ==> x == y
    ensures a == b
  {
    hide StringLe;
    if a == [] {
      assert |multiset(b)| == |b|;
    } else {
      SameHeads(a, b);
      SameTails(a, b);
      OrderedUnique(a[1..], b[1..]);
      assert a == [a[0]] + a[1..] && b == [b[0]] + b[1..];
    }
  }

  lemma SameTails(a: seq<LineageEdge>, b: seq<LineageEdge>)
    requires a != [] && b != [] && a[0] == b[0] && multiset(a) == multiset(b)
    ensures multiset(a[1..]) == multiset(b[1..])
  {
    assert a == [a[0]] + a[1..] && b == [b[0]] + b[1..];
    assert multiset(a[1..]) == multiset(a) - multiset{a[0]};
    assert multiset(b[1..]) == multiset(b) - multiset{b[0]};
  }

  /** Any arrangement of the same edges, ids distinct, is hashed as the same byte string. */
  lemma PermutationInvariant(origin: string, a: seq<LineageEdge>, b: seq<LineageEdge>)
    requires DistinctIds(a) && multiset(a) == multiset(b)
    ensures Canonical(origin, SortEdges(a)) == Canonical(origin, SortEdges(b))
  {
    SortIsOrdered(a);
    SortIsOrdered(b);
    DistinctByMultiset(a, SortEdges(a));
    OrderedUnique(SortEdges(a), SortEdges(b));
  }

  // ----- Unique decodability -----

  predicate OneLine(s: string) { '\n' !in s }

  predicate OneLined(h: Hashed) { OneLine(h.edgeId) && OneLine(h.originId) && OneLine(h.blob) && OneLine(h.kind) }

  lemma LineIsUnique(a: string, rest: string, b: string, rest': string)
    requires OneLine(a) && OneLine(b) && a + "\n" + rest == b + "\n" + rest'
    ensures a == b && rest == rest'
  {
    var s := a + "\n" + rest;
    assert s == b + "\n" + rest';
    assert s[|a|] == '\n' && s[|b|] == '\n';
    assert forall i :: 0 <= i < |a| ==> s[i] == a[i] && a[i] in a;
    assert forall i :: 0 <= i < |b| ==> s[i] == b[i] && b[i] in b;
    assert |a| == |b|;
    assert a == s[..|a|] == b;
    assert rest == s[|a| + 1..] == rest';
  }

  lemma LinesSplit(h: Hashed, rest: string)
    ensures Lines(h) + rest == h.edgeId + "\n" + (h.originId + "\n" + (h.blob + "\n" + (h.kind + "\n" + rest)))
  {
  }

  lemma AllLinesEmpty(a: seq<Hashed>)
    ensures AllLines(a) == [] <==> a == []
  {
    if a != [] {
      assert |Lines(a[0])| >= 4;
    }
  }

  lemma {:induction false} AllLinesUnique(a: seq<Hashed>, b: seq<Hashed>)
    requires (forall h :: h in a ==> OneLined(h)) && (forall h :: h in b ==> OneLined(h))
    requires AllLines(a) == AllLines(b)
    ensures a == b
  {
    AllLinesEmpty(a);
    AllLinesEmpty(b);
    if a != [] && b != [] {
      var x, y, r, r' := a[0], b[0], AllLines(a[1..]), AllLines(b[1..]);
      assert x in a && y in b;
      hide Lines;
      LinesSplit(x, r);
      LinesSplit(y, r');
      var x3, y3 := x.kind + "\n" + r, y.kind + "\n" + r';
      var x2, y2 := x.blob + "\n" + x3, y.blob + "\n" + y3;
      var x1, y1 := x.originId + "\n" + x2, y.originId + "\n" + y2;
      LineIsUnique(x.edgeId, x1, y.edgeId, y1);
      LineIsUnique(x.originId, x2, y.originId, y2);
      LineIsUnique(x.blob, x3, y.blob, y3);
      LineIsUnique(x.kind, r, y.kind, r');
      AllLinesUnique(a[1..], b[1..]);
      assert a == [x] + a[1..] && b == [y] + b[1..];
    }
  }

  ghost predicate OneLinedEdges(es: seq<LineageEdge>) { forall h :: h in ProjectAll(es) ==> OneLined(h) }

  /** With newline-free fields two byte strings agree exactly when origin and hashed fields do, edge by edge. */
  lemma CanonicalIsInjective(o: string, a: seq<LineageEdge>, o': string, b: seq<LineageEdge>)
    requires OneLine(o) && OneLine(o') && OneLinedEdges(a) && OneLinedEdges(b)
    ensures Canonical(o, a) == Canonical(o', b) <==> o == o' && ProjectAll(a) == ProjectAll(b)
  {
    var ra, rb := AllLines(ProjectAll(a)), AllLines(ProjectAll(b));
    hide AllLines, ProjectAll;
    assert Canonical(o, a) == DOMAIN + (o + "\n" + ra);
    assert Canonical(o', b) == DOMAIN + (o' + "\n" + rb);
    if Canonical(o, a) == Canonical(o', b) {
      assert o + "\n" + ra == Canonical(o, a)[|DOMAIN|..] == Canonical(o', b)[|DOMAIN|..] == o' + "\n" + rb;
      LineIsUnique(o, ra, o', rb);
      AllLinesUnique(ProjectAll(a), ProjectAll(b));
    }
  }

  // ----- How far the kind string identifies the kind -----

  predicate ColonFree(s: string) { ':' !in s }

  /** Only the fields before the last may confuse. */
  predicate Unambiguous(k: RefKind) { k.Share? ==> ColonFree(k.shareId) && ColonFree(k.from) }

  lemma ColonSplit(a: string, rest: string, b: string, rest': string)
    requires ColonFree(a) && ColonFree(b) && a + ":" + rest == b + ":" + rest'
    ensures a == b && rest == rest'
  {
    var s := a + ":" + rest;
    assert s == b + ":" + rest';
    assert s[|a|] == ':' && s[|b|] == ':';
    assert forall i :: 0 <= i < |a| ==> s[i] == a[i] && a[i] in a;
    assert forall i :: 0 <= i < |b| ==> s[i] == b[i] && b[i] in b;
    assert |a| == |b|;
    assert a == s[..|a|] == b;
    assert rest == s[|a| + 1..] == rest';
  }

  function KindTag(k: RefKind): string {
    match k
    case OriginRepresentation(_) => "origin_rep"
    case Share(_, _, _) => "share"
    case Derivation(_) => "derivation"
    case Pin(_) => "pin"
  }

  function KindRest(k: RefKind): string {
    match k
    case OriginRepresentation(name) => name
    case Share(id, from, to) => id + ":" + (from + ":" + to)
    case Derivation(id) => id
    case Pin(id) => id
  }

  lemma TagsHaveNoColon(k: RefKind)
    ensures ColonFree(KindTag(k)) && KindTag(k) != ""
  {
  }

  lemma ShareSplits(id: string, from: string, to: string)
    ensures "share:" + id + ":" + from + ":" + to == "share" + ":" + (id + ":" + (from + ":" + to))
  {
    assert "share:" == "share" + ":";
  }

  lemma KindStringSplits(k: RefKind)
    ensures KindString(k) == KindTag(k) + ":" + KindRest(k)
  {
    match k
    case OriginRepresentation(_) => assert "origin_rep:" == "origin_rep" + ":";
    case Share(id, from, to) => ShareSplits(id, from, to);
    case Derivation(_) => assert "derivation:" == "derivation" + ":";
    case Pin(_) => assert "pin:" == "pin" + ":";
  }

  lemma KindStringInjective(k: RefKind, k': RefKind)
    requires Unambiguous(k) && Unambiguous(k') && KindString(k) == KindString(k')
    ensures k == k'
  {
    KindStringSplits(k);
    KindStringSplits(k');
    TagsHaveNoColon(k);
    TagsHaveNoColon(k');
    ColonSplit(KindTag(k), KindRest(k), KindTag(k'), KindRest(k'));
    assert KindTag(k)[0] == KindTag(k')[0];
    if k.Share? && k'.Share? {
      ColonSplit(k.shareId, k.from + ":" + k.to, k'.shareId, k'.from + ":" + k'.to);
      ColonSplit(k.from, k.to, k'.from, k'.to);
    }
  }

  /** Only two shares can collide, and they do exactly when their fields read the same once joined by colons. */
  lemma KindsCollideIff(k: RefKind, k': RefKind)
    ensures KindString(k) == KindString(k') && k != k' <==>
              k.Share? && k'.Share? && k != k' && k.shareId + ":" + (k.from + ":" + k.to) == k'.shareId + ":" + (k'.from + ":" + k'.to)
  {
    KindStringSplits(k);
    KindStringSplits(k');
    TagsHaveNoColon(k);
    TagsHaveNoColon(k');
    hide KindString, ColonFree;
    if KindString(k) == KindString(k') {
      ColonSplit(KindTag(k), KindRest(k), KindTag(k'), KindRest(k'));
      assert KindTag(k)[0] == KindTag(k')[0];
    }
  }

  /** How many colons a string has. */
  function Colons(s: string): nat { if s == "" then 0 else (if s[0] == ':' then 1 else 0) + Colons(s[1..]) }

  lemma {:induction false} ColonsAppend(a: string, b: string)
    ensures Colons(a + b) == Colons(a) + Colons(b)
  {
    if a == "" {
      assert a + b == b;
    } else {
      assert (a + b)[1..] == a[1..] + b;
      ColonsAppend(a[1..], b);
    }
  }

  lemma {:induction false} ColonsOf(s: string)
    ensures Colons(s) == 0 <==> ColonFree(s)
  {
    if s != "" {
      ColonsOf(s[1..]);
      assert s == [s[0]] + s[1..];
    }
  }

  lemma JoinedColons(id: string, from: string, to: string)
    ensures Colons(id + ":" + (from + ":" + to)) == Colons(id) + Colons(from) + Colons(to) + 2
  {
    ColonsAppend(id + ":", from + ":" + to);
    ColonsAppend(id, ":");
    ColonsAppend(from + ":", to);
    ColonsAppend(from, ":");
    assert Colons(":") == 1 + Colons("");
  }

  /** A string with a colon splits at one. */
  lemma SplitAtColon(s: string) returns (u: string, v: string)
    requires !ColonFree(s)
    ensures s == u + ":" + v
  {
    var i :| 0 <= i < |s| && s[i] == ':';
    u, v := s[..i], s[i + 1..];
  }

  /** Another share that reads the same once joined. */
  lemma OtherShare(k: RefKind) returns (k': RefKind)
    requires k.Share? && !(ColonFree(k.shareId) && ColonFree(k.from) && ColonFree(k.to))
    ensures k'.Share? && k' != k
    ensures k'.shareId + ":" + (k'.from + ":" + k'.to) == k.shareId + ":" + (k.from + ":" + k.to)
  {
    if !ColonFree(k.shareId) {
      var u, v := SplitAtColon(k.shareId);
      k' := Share(u, v, k.from + ":" + k.to);
      assert |u| < |k.shareId|;
    } else if !ColonFree(k.from) {
      var u, v := SplitAtColon(k.from);
      k' := Share(k.shareId, u, v + ":" + k.to);
      assert |u| < |k.from|;
    } else {
      var u, v := SplitAtColon(k.to);
      k' := Share(k.shareId + ":" + k.from, u, v);
      assert |k'.shareId| > |k.shareId|;
    }
  }

  /** Some other kind has the kind string of `k` exactly when `k` is a share with a colon in one of its fields. */
  lemma KindIsAmbiguousIff(k: RefKind)
    ensures (exists k' :: k' != k && KindString(k') == KindString(k)) <==>
              k.Share? && !(ColonFree(k.shareId) && ColonFree(k.from) && ColonFree(k.to))
  {
    hide KindString, ColonFree;
    if k' :| k' != k && KindString(k') == KindString(k) {
      KindsCollideIff(k, k');
      CollisionHasColon(k, k');
    }
    if k.Share? && !(ColonFree(k.shareId) && ColonFree(k.from) && ColonFree(k.to)) {
      var k' := OtherShare(k);
      KindsCollideIff(k, k');
    }
  }

  lemma CollisionHasColon(k: RefKind, k': RefKind)
    requires k.Share? && k'.Share? && k != k' && KindString(k) == KindString(k')
    ensures !(ColonFree(k.shareId) && ColonFree(k.from) && ColonFree(k.to))
  {
    KindsCollideIff(k, k');
    JoinedColons(k.shareId, k.from, k.to);
    JoinedColons(k'.shareId, k'.from, k'.to);
    ColonsOf(k.shareId);
    ColonsOf(k.from);
    ColonsOf(k.to);
    ColonsOf(k'.shareId);
    ColonsOf(k'.from);
    hide KindString, Colons;
    if ColonFree(k.shareId) && ColonFree(k.from) && ColonFree(k.to) {
      KindStringInjective(k, k');
    }
  }

  /** Two different shares with one kind string, so equal digests do not tell them apart. */
  lemma ColonsConfuseShares()
    ensures KindString(Share("a:b", "c", "d")) == KindString(Share("a", "b:c", "d"))
    ensures Share("a:b", "c", "d") != Share("a", "b:c", "d")
  {
    assert "share:" + "a:b" + ":" + "c" + ":" + "d" == "share:a:b:c:d" == "share:" + "a" + ":" + "b:c" + ":" + "d";
  }

  /** For unambiguous kinds and no blob called "-", equal hashed fields mean equal edges but for their time stamp. */
  lemma ProjectInjective(e: LineageEdge, e': LineageEdge)
    requires Unambiguous(e.kind) && Unambiguous(e'.kind) && e.blobId != Some("-") && e'.blobId != Some("-")
    ensures Project(e) == Project(e') <==> e.(createdAt := 0) == e'.(createdAt := 0)
  {
    if Project(e) == Project(e') {
      KindStringInjective(e.kind, e'.kind);
    }
  }

  /** Sorting in place by edge id. */
  method SortInPlace(edges: seq<LineageEdge>) returns (sorted: seq<LineageEdge>)
    ensures sorted == SortEdges(edges)
  {
    sorted := [];
    hide StringLe, Insert;
    for i := 0 to |edges|
      invariant sorted == SortEdges(edges[..i])
    {
      assert edges[..i + 1][..i] == edges[..i];
      sorted := Insert(sorted, edges[i]);
    }
    assert edges[..|edges|] == edges;
  }

  /** What is hashed from edge `i` on. */
  function LinesFrom(es: seq<LineageEdge>, i: nat): string
    requires i <= |es|
  {
    AllLines(ProjectAll(es[i..]))
  }

  lemma LinesStep(es: seq<LineageEdge>, i: nat)
    requires i < |es|
    ensures LinesFrom(es, i) == Lines(Project(es[i])) + LinesFrom(es, i + 1)
  {
    assert es[i..][1..] == es[i + 1..];
  }

  lemma LinesEnds(es: seq<LineageEdge>)
    ensures LinesFrom(es, 0) == AllLines(ProjectAll(es)) && LinesFrom(es, |es|) == []
  {
    assert es[0..] == es;
  }

  /** The part of the feed that is still to come is always the same string. */
  lemma FeedStep(fed: string, es: seq<LineageEdge>, i: nat)
    requires i < |es|
    ensures fed + LinesFrom(es, i) == fed + Lines(Project(es[i])) + LinesFrom(es, i + 1)
  {
    LinesStep(es, i);
    hide LinesFrom, Lines, Project;
    assert fed + (Lines(Project(es[i])) + LinesFrom(es, i + 1)) == fed + Lines(Project(es[i])) + LinesFrom(es, i + 1);
  }

  lemma FeedEnds(origin: string, es: seq<LineageEdge>)
    ensures Canonical(origin, es) == DOMAIN + origin + "\n" + LinesFrom(es, 0)
    ensures forall fed: string :: fed + LinesFrom(es, |es|) == fed
  {
    LinesEnds(es);
  }

  method Feed(fed: string, e: LineageEdge) returns (fed': string)
    ensures fed' == fed + Lines(Project(e))
  {
    fed' := fed + (e.edgeId + "\n" + e.originId + "\n" + BlobOrDash(e.blobId) + "\n" + KindString(e.kind) + "\n");
  }

  /** `generate_proof_unsigned`: sort in place, then feed the hasher piece by piece. */
  method GenerateProofUnsigned(hash: string -> string, originId: string, edges: seq<LineageEdge>, now: int) returns (proof: Proof)
    ensures proof == Proof(originId, hash(Canonical(originId, SortEdges(edges))), now)
  {
    var sorted := SortInPlace(edges);
    FeedEnds(originId, sorted);
    hide LinesFrom, Canonical, SortEdges, Lines, Project;
    var fed := DOMAIN + originId + "\n";
    for i := 0 to |sorted|
      invariant fed + LinesFrom(sorted, i) == Canonical(originId, sorted)
    {
      FeedStep(fed, sorted, i);
      fed := Feed(fed, sorted[i]);
    }
    proof := Proof(originId, hash(fed), now);
  }
}
