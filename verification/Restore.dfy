/** Restoring an archive: download its index, check it, then fetch and verify its chunks in order. */
module Restore {
  import opened Wrappers
  import opened Bytes
  import opened DataBlob
  import opened DynamicIndex

  datatype RestoreError = BadIndex(index: IndexError) | BadCsum | Missing | BadChunk(blob: BlobError) | Network

  type Store = map<Digest, seq<byte>>

  /** Download one chunk by digest, decode it and verify it. */
  function Fetch(p: Primitives, crypt: Option<Key>, store: Store, d: Digest): Result<seq<byte>, RestoreError> {
    if d !in store then Err(Missing)
    else
      match DecodeAndVerify(p, crypt, store[d], d)
      case Ok(data) => Ok(data)
      case Err(e) => Err(BadChunk(e))
  }

  /** The chunks behind `ds` in order, or the first failure. */
  function FetchAll(fetch: Digest -> Result<seq<byte>, RestoreError>, ds: seq<Digest>)
    : Result<seq<seq<byte>>, RestoreError>
  {
    if ds == [] then Ok([])
    else
      match FetchAll(fetch, ds[..|ds| - 1])
      case Err(e) => Err(e)
      case Ok(chunks) =>
        match fetch(ds[|ds| - 1])
        case Err(e) => Err(e)
        case Ok(chunk) => Ok(chunks + [chunk])
  }

  function Fetcher(p: Primitives, crypt: Option<Key>, store: Store): Digest -> Result<seq<byte>, RestoreError> {
    (d: Digest) => Fetch(p, crypt, store, d)
  }

  /** The digests of a downloaded index that parses and whose csum matches. */
  function ArchiveDigests(p: Primitives, indexBytes: seq<byte>): Result<seq<Digest>, RestoreError> {
    match Parse(indexBytes)
    case Err(e) => Err(BadIndex(e))
    case Ok(ix) => if VerifyCsum(p, ix) then Ok(Digests(ix.entries)) else Err(BadCsum)
  }

  function RestoreArchive(p: Primitives, crypt: Option<Key>, store: Store, indexBytes: seq<byte>)
    : Result<seq<byte>, RestoreError>
  {
    match ArchiveDigests(p, indexBytes)
    case Err(e) => Err(e)
    case Ok(ds) =>
      match FetchAll(Fetcher(p, crypt, store), ds)
      case Err(e) => Err(e)
      case Ok(chunks) => Ok(Flatten(chunks))
  }

  /** FetchAll succeeds exactly when every single fetch does, and then it is their results in order. */
  lemma {:induction false} FetchAllPointwise(
      fetch: Digest -> Result<seq<byte>, RestoreError>, ds: seq<Digest>, chunks: seq<seq<byte>>)
    ensures FetchAll(fetch, ds) == Ok(chunks)
            <==> |chunks| == |ds| && forall i :: 0 <= i < |ds| ==> fetch(ds[i]) == Ok(chunks[i])
  {
    if ds != [] {
      var last := |ds| - 1;
      if |chunks| == |ds| {
        FetchAllPointwise(fetch, ds[..last], chunks[..last]);
        assert chunks == chunks[..last] + [chunks[last]];
        if FetchAll(fetch, ds) == Ok(chunks) {
          assert FetchAll(fetch, ds[..last]).value == chunks[..last];
        }
      } else if FetchAll(fetch, ds[..last]).Ok? {
        FetchAllPointwise(fetch, ds[..last], FetchAll(fetch, ds[..last]).value);
      }
    }
  }

  lemma {:induction false} FetchAllFailsEarly(fetch: Digest -> Result<seq<byte>, RestoreError>, ds: seq<Digest>, k: nat)
    requires k <= |ds| && FetchAll(fetch, ds[..k]).Err?
    ensures FetchAll(fetch, ds) == FetchAll(fetch, ds[..k])
    decreases |ds|
  {
    if k < |ds| {
      assert ds[..|ds| - 1][..k] == ds[..k];
      FetchAllFailsEarly(fetch, ds[..|ds| - 1], k);
    } else {
      assert ds[..k] == ds;
    }
  }

  /** The buffered restore: one chunk at a time, appended to the output. */
  method RestoreDynamicArchive(p: Primitives, crypt: Option<Key>, store: Store, indexBytes: seq<byte>)
    returns (r: Result<seq<byte>, RestoreError>)
    ensures r == RestoreArchive(p, crypt, store, indexBytes)
  {
    var parsed := Parse(indexBytes);
    if parsed.Err? {
      return Err(BadIndex(parsed.error));
    }
    var ix := parsed.value;
    if !VerifyCsum(p, ix) {
      return Err(BadCsum);
    }
    var ds := Digests(ix.entries);
    var fetch := Fetcher(p, crypt, store);
    var out: seq<byte> := [];
    ghost var chunks: seq<seq<byte>> := [];
    for i := 0 to |ds|
      invariant FetchAll(fetch, ds[..i]) == Ok(chunks) && out == Flatten(chunks)
    {
      assert ds[..i + 1][..i] == ds[..i];
      var chunk := Fetch(p, crypt, store, ds[i]);
      if chunk.Err? {
        FetchAllFailsEarly(fetch, ds, i + 1);
        return Err(chunk.error);
      }
      FlattenSnoc(chunks, chunk.value);
      out := out + chunk.value;
      chunks := chunks + [chunk.value];
    }
    assert ds[..|ds|] == ds;
    r := Ok(out);
  }
}
