/** How the optimizer cuts its parameter groups into named blocks. */
module BlockLayout {
  import opened Numbers

  /** A parameter: its group and its position there. */
  type Position = (nat, nat)

  datatype Block = Block(id: string, group: nat, lo: nat, hi: nat)

  function Digit(n: nat): (d: char)
    requires n < 10
    ensures '0' <= d <= '9' && d as int - '0' as int == n
  {
    ('0' as int + n) as char
  }

  function Decimal(n: nat): (s: string)
    ensures s != "" && forall c :: c in s ==> '0' <= c <= '9'
  {
    if n < 10 then [Digit(n)] else Decimal(n / 10) + [Digit(n % 10)]
  }

  lemma {:induction false} DecimalInjective(a: nat, b: nat)
    requires Decimal(a) == Decimal(b)
    ensures a == b
  {
    var s, t := Decimal(a), Decimal(b);
    assert s[|s| - 1] == Digit(a % 10) && t[|t| - 1] == Digit(b % 10);
    if a >= 10 && b >= 10 {
      assert Decimal(a / 10) == s[..|s| - 1] == t[..|t| - 1] == Decimal(b / 10);
      DecimalInjective(a / 10, b / 10);
    }
  }

  function BlockId(group: nat, index: nat): string {
    "group" + Decimal(group) + "-block" + Decimal(index)
  }

  /** A string splits in one way at its first dash. */
  lemma DashSplits(a: string, rest: string, a': string, rest': string)
    requires '-' !in a && '-' !in a' && a + "-" + rest == a' + "-" + rest'
    ensures a == a' && rest == rest'
  {
    var s := a + "-" + rest;
    assert s == a' + "-" + rest';
    assert s[|a|] == '-' && s[|a'|] == '-';
    assert forall i :: 0 <= i < |a| ==> s[i] == a[i] && a[i] in a;
    assert forall i :: 0 <= i < |a'| ==> s[i] == a'[i] && a'[i] in a';
    assert |a| == |a'|;
    assert a == s[..|a|] == a';
    assert rest == s[|a| + 1..] == rest';
  }

  lemma BlockIdParts(g: nat, k: nat)
    ensures BlockId(g, k) == "group" + (Decimal(g) + "-" + ("block" + Decimal(k))) && '-' !in Decimal(g)
  {
    hide Decimal;
    assert "-block" == "-" + "block";
  }

  lemma SameAfter(prefix: string, a: string, b: string)
    requires prefix + a == prefix + b
    ensures a == b
  {
    assert a == (prefix + a)[|prefix|..] == (prefix + b)[|prefix|..] == b;
  }

  lemma BlockIdInjective(g: nat, k: nat, g': nat, k': nat)
    requires BlockId(g, k) == BlockId(g', k')
    ensures g == g' && k == k'
  {
    BlockIdParts(g, k);
    BlockIdParts(g', k');
    hide Decimal, BlockId;
    SameAfter("group", Decimal(g) + "-" + ("block" + Decimal(k)), Decimal(g') + "-" + ("block" + Decimal(k')));
    DashSplits(Decimal(g), "block" + Decimal(k), Decimal(g'), "block" + Decimal(k'));
    SameAfter("block", Decimal(k), Decimal(k'));
    DecimalInjective(g, g');
    DecimalInjective(k, k');
  }

  /** Where block `k` starts. */
  function At(k: nat, size: nat): nat { k * size }

  lemma AtStep(k: nat, size: nat)
    ensures At(k + 1, size) == At(k, size) + size && At(0, size) == 0
  {
    assert (k + 1) * size == k * size + size;
  }

  function BlockAt(group: nat, n: nat, size: nat, k: nat): Block { Block(BlockId(group, k), group, At(k, size), Min(At(k, size) + size, n)) }

  /** The blocks of one group of `n` parameters from block `k` on. */
  function GroupBlocks(group: nat, n: nat, size: nat, k: nat): seq<Block>
    requires size > 0
    decreases n - At(k, size)
  {
    AtStep(k, size);
    if At(k, size) >= n then [] else [BlockAt(group, n, size, k)] + GroupBlocks(group, n, size, k + 1)
  }

  /** The blocks of the groups from `g` on; `sizes` counts the parameters of each group. */
  function LayoutFrom(sizes: seq<nat>, size: nat, g: nat): seq<Block>
    requires size > 0 && g <= |sizes|
    decreases |sizes| - g
  {
    if g == |sizes| then [] else GroupBlocks(g, sizes[g], size, 0) + LayoutFrom(sizes, size, g + 1)
  }

  function Layout(sizes: seq<nat>, size: nat): seq<Block>
    requires size > 0
  {
    LayoutFrom(sizes, size, 0)
  }

  predicate InBlock(b: Block, p: Position) { p.0 == b.group && b.lo <= p.1 < b.hi }

  predicate InGroups(sizes: seq<nat>, p: Position) { p.0 < |sizes| && p.1 < sizes[p.0] }

  lemma {:induction false} GroupBlocksRange(group: nat, n: nat, size: nat, k: nat)
    requires size > 0
    ensures forall b :: b in GroupBlocks(group, n, size, k) ==>
              b.group == group && At(k, size) <= b.lo < b.hi <= n && exists j :: j >= k && b.id == BlockId(group, j)
    decreases n - At(k, size)
  {
    hide BlockId, At;
    AtStep(k, size);
    if At(k, size) < n {
      GroupBlocksRange(group, n, size, k + 1);
      var rest := GroupBlocks(group, n, size, k + 1);
      assert forall b :: b in GroupBlocks(group, n, size, k) <==> b == BlockAt(group, n, size, k) || b in rest;
      hide GroupBlocks;
    }
  }

  lemma {:induction false} GroupBlocksReach(group: nat, n: nat, size: nat, k: nat, p: Position)
    requires size > 0 && p.0 == group && At(k, size) <= p.1 < n
    ensures exists b :: b in GroupBlocks(group, n, size, k) && InBlock(b, p)
    decreases n - At(k, size)
  {
    hide BlockId, At;
    AtStep(k, size);
    if p.1 < At(k + 1, size) {
      assert BlockAt(group, n, size, k) in GroupBlocks(group, n, size, k) && InBlock(BlockAt(group, n, size, k), p);
    } else {
      GroupBlocksReach(group, n, size, k + 1, p);
      var b :| b in GroupBlocks(group, n, size, k + 1) && InBlock(b, p);
      assert b in GroupBlocks(group, n, size, k);
    }
  }

  lemma SeparateCons(first: Block, rest: seq<Block>)
    requires Separate(rest) && forall b :: b in rest ==> b.id != first.id && b.lo >= first.hi
    ensures Separate([first] + rest)
  {
    var bs := [first] + rest;
    forall i, j | 0 <= i < j < |bs| ensures bs[i].id != bs[j].id && forall p :: !(InBlock(bs[i], p) && InBlock(bs[j], p)) {
      assert bs[j] == rest[j - 1] && rest[j - 1] in rest;
    }
  }

  lemma {:induction false} GroupBlocksSeparate(group: nat, n: nat, size: nat, k: nat)
    requires size > 0
    ensures Separate(GroupBlocks(group, n, size, k))
    decreases n - At(k, size)
  {
    hide BlockId, At, Separate;
    AtStep(k, size);
    if At(k, size) < n {
      var first, rest := BlockAt(group, n, size, k), GroupBlocks(group, n, size, k + 1);
      assert GroupBlocks(group, n, size, k) == [first] + rest;
      GroupBlocksSeparate(group, n, size, k + 1);
      GroupBlocksRange(group, n, size, k + 1);
      hide GroupBlocks;
      forall b | b in rest ensures b.id != first.id && b.lo >= first.hi {
        var j :| j >= k + 1 && b.id == BlockId(group, j);
        if b.id == first.id {
          BlockIdInjective(group, j, group, k);
        }
      }
      SeparateCons(first, rest);
    } else {
      NoneSeparate();
    }
  }

  lemma NoneSeparate()
    ensures Separate([])
  {
  }

  lemma GroupBlocksCover(group: nat, n: nat, size: nat)
    requires size > 0
    ensures forall b :: b in GroupBlocks(group, n, size, 0) ==> b.group == group && b.lo < b.hi <= n && exists j :: j >= 0 && b.id == BlockId(group, j)
    ensures forall p: Position :: p.0 == group && p.1 < n ==> exists b :: b in GroupBlocks(group, n, size, 0) && InBlock(b, p)
    ensures Separate(GroupBlocks(group, n, size, 0))
  {
    AtStep(0, size);
    hide At, GroupBlocks, BlockId, Separate, InBlock;
    GroupBlocksRange(group, n, size, 0);
    GroupBlocksSeparate(group, n, size, 0);
    forall p: Position | p.0 == group && p.1 < n ensures exists b :: b in GroupBlocks(group, n, size, 0) && InBlock(b, p) {
      GroupBlocksReach(group, n, size, 0, p);
    }
  }

  /** No two blocks share an id or a parameter. */
  ghost predicate Separate(bs: seq<Block>) {
    forall i, j :: 0 <= i < j < |bs| ==> bs[i].id != bs[j].id && forall p :: !(InBlock(bs[i], p) && InBlock(bs[j], p))
  }

  lemma {:induction false} LayoutFromPartitions(sizes: seq<nat>, size: nat, g: nat)
    requires size > 0 && g <= |sizes|
    ensures var bs := LayoutFrom(sizes, size, g);
            && Separate(bs)
            && (forall b :: b in bs ==>
                 g <= b.group < |sizes| && b.lo < b.hi <= sizes[b.group] && exists j: nat :: b.id == BlockId(b.group, j))
            && (forall p: Position :: InGroups(sizes, p) && g <= p.0 ==> exists b :: b in bs && InBlock(b, p))
    decreases |sizes| - g
  {
    if g < |sizes| {
      var here, rest := GroupBlocks(g, sizes[g], size, 0), LayoutFrom(sizes, size, g + 1);
      GroupBlocksCover(g, sizes[g], size);
      LayoutFromPartitions(sizes, size, g + 1);
      forall b, b' | b in here && b' in rest ensures b.id != b'.id {
        var j :| j >= 0 && b.id == BlockId(g, j);
        var j': nat :| b'.id == BlockId(b'.group, j');
        if b.id == b'.id {
          BlockIdInjective(g, j, b'.group, j');
        }
      }
      forall p: Position | InGroups(sizes, p) && g <= p.0 ensures exists b :: b in here + rest && InBlock(b, p) {
        if p.0 == g {
          var b :| b in here && InBlock(b, p);
          assert b in here + rest && InBlock(b, p);
        } else {
          var b :| b in rest && InBlock(b, p);
          assert b in here + rest && InBlock(b, p);
        }
      }
    }
  }

  /** The blocks partition the parameters, and their ids tell them apart. */
  lemma LayoutPartitions(sizes: seq<nat>, size: nat)
    requires size > 0
    ensures Separate(Layout(sizes, size))
    ensures forall b :: b in Layout(sizes, size) ==> b.group < |sizes| && b.lo < b.hi <= sizes[b.group]
    ensures forall p: Position :: InGroups(sizes, p) ==> exists b :: b in Layout(sizes, size) && InBlock(b, p)
  {
    LayoutFromPartitions(sizes, size, 0);
  }

  lemma LayoutUnfolds(sizes: seq<nat>, size: nat, g: nat, at: nat)
    requires size > 0 && g <= at <= |sizes|
    ensures LayoutFrom(sizes[..at], size, g) ==
            if g == at then [] else GroupBlocks(g, sizes[g], size, 0) + LayoutFrom(sizes[..at], size, g + 1)
  {
    hide GroupBlocks;
  }

  lemma Associates(a: seq<Block>, b: seq<Block>, c: seq<Block>)
    ensures a + (b + c) == a + b + c && [] + c == c && c + [] == c
  {
  }

  lemma {:induction false} LayoutSnoc(sizes: seq<nat>, size: nat, g: nat, at: nat)
    requires size > 0 && g < at <= |sizes|
    ensures LayoutFrom(sizes[..at], size, g) == LayoutFrom(sizes[..at - 1], size, g) + GroupBlocks(at - 1, sizes[at - 1], size, 0)
    decreases at - g
  {
    hide GroupBlocks, LayoutFrom;
    LayoutUnfolds(sizes, size, g, at);
    LayoutUnfolds(sizes, size, g, at - 1);
    var last := GroupBlocks(at - 1, sizes[at - 1], size, 0);
    if g < at - 1 {
      LayoutSnoc(sizes, size, g + 1, at);
      Associates(GroupBlocks(g, sizes[g], size, 0), LayoutFrom(sizes[..at - 1], size, g + 1), last);
    } else {
      LayoutUnfolds(sizes, size, at, at);
      Associates([], [], last);
    }
  }

  /** `_build_layout`: the nested loops over groups and over ranges of `size` parameters. */
  method BuildLayout(sizes: seq<nat>, size: nat) returns (blocks: seq<Block>)
    requires size > 0
    ensures blocks == Layout(sizes, size)
  {
    blocks := [];
    for g := 0 to |sizes|
      invariant blocks == LayoutFrom(sizes[..g], size, 0)
    {
      ghost var before := blocks;
      var start, k := 0, 0;
      AtStep(0, size);
      hide At;
      while start < sizes[g]
        invariant start == At(k, size)
        invariant before + GroupBlocks(g, sizes[g], size, 0) == blocks + GroupBlocks(g, sizes[g], size, k)
        decreases sizes[g] - start
      {
        AtStep(k, size);
        blocks := blocks + [Block(BlockId(g, k), g, start, Min(start + size, sizes[g]))];
        start, k := start + size, k + 1;
      }
      LayoutSnoc(sizes, size, 0, g + 1);
    }
    assert sizes[..|sizes|] == sizes;
  }
}
