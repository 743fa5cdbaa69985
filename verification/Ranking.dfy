/** Python's `sorted(items, key=...)` over the keys of a dictionary: ties may come out in any order. */
module Ranking {
  ghost predicate Sorted(keys: seq<string>, rank: map<string, int>)
    requires forall k :: k in keys ==> k in rank
  {
    forall i, j :: 0 <= i < j < |keys| ==> rank[keys[i]] <= rank[keys[j]]
  }

  ghost predicate Distinct<T>(s: seq<T>) {
    forall i, j :: 0 <= i < j < |s| ==> s[i] != s[j]
  }

  predicate Lowest(k: string, keys: set<string>, rank: map<string, int>)
    requires keys <= rank.Keys
  {
    k in keys && forall j :: j in keys ==> rank[k] <= rank[j]
  }

  lemma {:induction false} LowestExists(keys: set<string>, rank: map<string, int>) returns (low: string)
    requires keys != {} && keys <= rank.Keys
    ensures Lowest(low, keys, rank)
  {
    low :| low in keys;
    if keys != {low} {
      var y := LowestExists(keys - {low}, rank);
      low := if rank[low] <= rank[y] then low else y;
    }
  }

  method SortBy(keys: set<string>, rank: map<string, int>) returns (sorted: seq<string>)
    requires keys <= rank.Keys
    ensures Distinct(sorted) && (forall k :: k in sorted <==> k in keys)
    ensures Sorted(sorted, rank)
  {
    sorted := [];
    var rest := keys;
    while rest != {}
      invariant rest <= keys && Distinct(sorted)
      invariant forall k :: k in sorted <==> k in keys && k !in rest
      invariant Sorted(sorted, rank)
      invariant forall i, k :: 0 <= i < |sorted| && k in rest ==> rank[sorted[i]] <= rank[k]
      decreases |rest|
    {
      ghost var known := LowestExists(rest, rank);
      var low :| low in rest && forall k :: k in rest ==> rank[low] <= rank[k];
      sorted := sorted + [low];
      rest := rest - {low};
    }
  }

  function ToSet<T>(s: seq<T>): set<T> { set x | x in s }

  /** Walking a dictionary or a set: every element once, in an order left open. */
  method Listing<T(==)>(s: set<T>) returns (q: seq<T>)
    ensures Distinct(q) && ToSet(q) == s
  {
    q := [];
    var rest := s;
    while rest != {}
      invariant rest <= s && Distinct(q) && ToSet(q) == s - rest
      decreases |rest|
    {
      var x :| x in rest;
      assert x !in ToSet(q);
      assert ToSet(q + [x]) == ToSet(q) + {x};
      q, rest := q + [x], rest - {x};
    }
  }

  lemma {:induction false} DistinctCount<T>(s: seq<T>)
    requires Distinct(s)
    ensures |ToSet(s)| == |s|
  {
    if s != [] {
      var n := |s| - 1;
      DistinctCount(s[..n]);
      assert ToSet(s) == ToSet(s[..n]) + {s[n]};
    }
  }

  lemma EmptyPrefix<T>(q: seq<T>)
    ensures ToSet(q[..0]) == {}
  {
  }

  lemma PrefixGrows<T>(q: seq<T>, i: nat)
    requires Distinct(q) && i < |q|
    ensures q[i] in ToSet(q) && q[i] !in ToSet(q[..i])
    ensures ToSet(q[..i + 1]) == ToSet(q[..i]) + {q[i]}
  {
  }

  lemma {:induction false} CountSubset<T>(a: set<T>, b: set<T>)
    requires a <= b
    ensures |a| <= |b|
  {
    assert b == a + (b - a);
  }
}
