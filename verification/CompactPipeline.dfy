/** The compact codec under compression and encryption is a lawful pipeline. */
module CompactPipeline {
  import opened Wrappers
  import opened Numbers
  import opened Stores
  import opened PinRegistry
  import opened Q8Codec
  import WeightService

  /** zstd, the crypto provider for an origin, and the digest; reading back may fail. */
  datatype Layers = Layers(
    compress: Bytes -> Bytes, decompress: Bytes -> Option<Bytes>,
    encrypt: (string, Bytes) -> Bytes, decrypt: (string, Bytes) -> Option<Bytes>,
    hash: Blob -> string)
  {
    ghost predicate Lawful() {
      && (forall x :: decompress(compress(x)) == Some(x))
      && (forall o, x :: decrypt(o, encrypt(o, x)) == Some(x))
      && (forall x, y :: hash(x) == hash(y) ==> x == y)
    }
  }

  /** `put` up to the digest. */
  function Seal(f: Formats, l: Layers, o: string, c: Q8Codec.Cluster): Option<Blob>
    requires f.Lawful()
  {
    if !WellShaped(f, c) || Encode(f, c).Err? then None
    else Some(Blob(l.encrypt(o, l.compress(Encode(f, c).value))))
  }

  /** `get` after the integrity check. */
  function Open(f: Formats, l: Layers, o: string, b: Blob): Option<Q8Codec.Cluster> {
    var compressed := l.decrypt(o, b.data);
    if compressed.None? then None
    else
      var raw := l.decompress(compressed.value);
      if raw.None? || Decoded(f, raw.value).Err? then None else Some(Decoded(f, raw.value).value.0)
  }

  function Stored(f: Formats, c: Q8Codec.Cluster): Q8Codec.Cluster
    requires f.Lawful()
  {
    if WellShaped(f, c) then DecodedWire(f, c) else c
  }

  function Compact(f: Formats, l: Layers): WeightService.Pipeline
    requires f.Lawful()
  {
    WeightService.Pipeline((o, c) => Seal(f, l, o, c), (o, b) => Open(f, l, o, b), c => Stored(f, c), l.hash)
  }

  lemma FetchOpens(f: Formats, l: Layers, o: string, b: Blob)
    requires f.Lawful()
    ensures WeightService.Fetch(Compact(f, l), map[l.hash(b) := b], o, l.hash(b)) ==
            if Open(f, l, o, b).Some? then Ok(Open(f, l, o, b).value) else Err(WeightService.Undecodable)
  {
    hide Open, Formats.Lawful;
  }

  lemma SealedOpens(f: Formats, l: Layers, o: string, c: Q8Codec.Cluster)
    requires f.Lawful() && l.Lawful() && Seal(f, l, o, c).Some?
    ensures Open(f, l, o, Seal(f, l, o, c).value) == Some(Stored(f, c)) && Seal(f, l, o, Stored(f, c)) == Seal(f, l, o, c)
  {
    RoundTrip(f, c);
    ReencodingIsIdentical(f, c);
    DecodedIsFixed(f, c);
    hide Formats.Lawful, WellShaped, Encode, Decoded, DecodedWire, Faithful;
  }

  /** So everything proved of the service holds over the compact format, with the decoded cluster as the stored form. */
  lemma CompactIsLawful(f: Formats, l: Layers)
    requires f.Lawful() && l.Lawful()
    ensures Compact(f, l).Lawful()
  {
    var p := Compact(f, l);
    hide Seal, Open, Stored, Formats.Lawful;
    forall o, c | p.seal(o, c).Some?
      ensures p.open(o, p.seal(o, c).value) == Some(p.stored(c)) && p.seal(o, p.stored(c)) == p.seal(o, c)
    {
      SealedOpens(f, l, o, c);
    }
  }
}
