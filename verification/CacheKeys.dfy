/** The string keys of the optimizer-state cache and the manifest file names. */
module CacheKeys {
  const SEPARATOR := "::"

  function CacheKey(origin: string, block: string): string {
    origin + SEPARATOR + block
  }

  predicate SeparatorAt(s: string, i: int) { 0 <= i && i + 1 < |s| && s[i] == ':' && s[i + 1] == ':' }

  /** Position of the first "::" in `s`, or |s| when there is none. */
  function FirstSeparator(s: string): (i: nat)
    ensures i <= |s|
    ensures i < |s| ==> SeparatorAt(s, i)
    ensures forall j :: j < i ==> !SeparatorAt(s, j)
  {
    if |s| < 2 then |s|
    else if SeparatorAt(s, 0) then 0
    else
      var i := 1 + FirstSeparator(s[1..]);
      assert forall j :: 1 <= j ==> SeparatorAt(s, j) == SeparatorAt(s[1..], j - 1);
      i
  }

  predicate Splittable(key: string) { FirstSeparator(key) < |key| }

  /** `key.split("::", 1)[0]` and `[1]`. */
  function OriginOf(key: string): string { key[..FirstSeparator(key)] }

  function BlockOf(key: string): string
    requires Splittable(key)
  {
    key[FirstSeparator(key) + 2..]
  }

  /** `key.startswith(f"{origin}::")`. */
  predicate OwnedBy(key: string, origin: string) { origin + SEPARATOR <= key }

  ghost predicate GoodOrigin(origin: string) {
    && (forall j :: !SeparatorAt(origin, j))
    && (origin != "" ==> origin[|origin| - 1] != ':')
  }

  /** Splitting a key at its first "::" gives the block back exactly for the good origins. */
  lemma SplitRecoversBlock(origin: string, block: string)
    ensures Splittable(CacheKey(origin, block))
    ensures BlockOf(CacheKey(origin, block)) == block <==> GoodOrigin(origin)
    ensures GoodOrigin(origin) ==> OriginOf(CacheKey(origin, block)) == origin
  {
    var key, n := CacheKey(origin, block), |origin|;
    assert SeparatorAt(key, n);
    assert FirstSeparator(key) <= n;
    assert forall j :: j + 1 < n ==> SeparatorAt(key, j) == SeparatorAt(origin, j);
    if GoodOrigin(origin) {
      assert FirstSeparator(key) == n;
    } else {
      assert FirstSeparator(key) < n by {
        if j :| SeparatorAt(origin, j) {
          assert SeparatorAt(key, j);
        } else {
          assert SeparatorAt(key, n - 1);
        }
      }
      assert |BlockOf(key)| > |block|;
    }
  }

  /** The encoding is injective on good origins, and the prefix test singles out one origin. */
  lemma KeyIdentifiesBlock(o: string, b: string, o': string, b': string)
    requires GoodOrigin(o) && GoodOrigin(o')
    ensures CacheKey(o, b) == CacheKey(o', b') <==> o == o' && b == b'
    ensures OwnedBy(CacheKey(o', b'), o) <==> o == o'
  {
    SplitRecoversBlock(o, b);
    SplitRecoversBlock(o', b');
    var key := CacheKey(o', b');
    if OwnedBy(key, o) {
      var rest := key[|o| + 2..];
      assert key == CacheKey(o, rest);
      SplitRecoversBlock(o, rest);
    }
  }

  /** `origin_id.replace(":", "_").replace("/", "_")`. */
  function SafeName(origin: string): string {
    seq(|origin|, i requires 0 <= i < |origin| => if origin[i] == ':' || origin[i] == '/' then '_' else origin[i])
  }

  /** Origins whose keys and manifest files do not interfere. */
  ghost predicate Separated(origins: set<string>) {
    && (forall o :: o in origins ==> GoodOrigin(o))
    && (forall o, o' :: o in origins && o' in origins && SafeName(o) == SafeName(o') ==> o == o')
  }

  lemma KeysOfSeparated(origins: set<string>)
    requires Separated(origins)
    ensures forall o, b {:trigger CacheKey(o, b)} :: o in origins ==>
              Splittable(CacheKey(o, b)) && OriginOf(CacheKey(o, b)) == o && BlockOf(CacheKey(o, b)) == b
    ensures forall k :: Splittable(k) ==> k == CacheKey(OriginOf(k), BlockOf(k))
    ensures forall o, k :: o in origins && Splittable(k) && OriginOf(k) in origins ==> (OwnedBy(k, o) <==> OriginOf(k) == o)
  {
    forall o, b {:trigger CacheKey(o, b)} | o in origins
      ensures Splittable(CacheKey(o, b)) && OriginOf(CacheKey(o, b)) == o && BlockOf(CacheKey(o, b)) == b
    {
      SplitRecoversBlock(o, b);
    }
    forall k | Splittable(k)
      ensures k == CacheKey(OriginOf(k), BlockOf(k))
    {
      var i := FirstSeparator(k);
      assert k[i..i + 2] == SEPARATOR;
      assert k == k[..i] + k[i..i + 2] + k[i + 2..];
    }
    forall o, k | o in origins && Splittable(k) && OriginOf(k) in origins
      ensures OwnedBy(k, o) <==> OriginOf(k) == o
    {
      KeyIdentifiesBlock(o, "", OriginOf(k), BlockOf(k));
    }
  }
}
