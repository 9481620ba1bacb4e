/** Fixed-size images: the fixed index file (`.fidx`), the sequential backup and its restore. */
module FixedImage {
  import opened Wrappers
  import opened Bytes
  import opened DataBlob
  import opened DynamicIndex
  import opened Restore

  const FIXED_MAGIC: seq<byte> := [47, 127, 65, 237, 145, 253, 15, 205]
  const FIXED_RESERVED: nat := 4016
  const CHUNK_SIZE: nat := 4096 * 1024
  const BATCH: nat := 64

  datatype FixedIndex =
    FixedIndex(ctime: I64, uuid: Block16, csum: Digest, size: nat, chunkSize: nat, digests: seq<Digest>)

  // ---------------------------------------------------------------- the index file

  /** SHA-256 over the digests alone. */
  function DigestCsum(p: Primitives, ds: seq<Digest>): Digest {
    p.sha256(DigestBytes(ds))
  }

  function DigestBytes(ds: seq<Digest>): (s: seq<byte>)
    ensures |s| == 32 * |ds|
  {
    if ds == [] then [] else ds[0] + DigestBytes(ds[1..])
  }

  function FixedHeader(ix: FixedIndex): (s: seq<byte>)
    ensures |s| == HEADER_LEN
  {
    FIXED_MAGIC + ix.uuid + Le64(ToU64(ix.ctime)) + ix.csum + Le64(ix.size) + Le64(ix.chunkSize) + Zeros(FIXED_RESERVED)
  }

  function FixedLayout(ix: FixedIndex): seq<byte> {
    FixedHeader(ix) + DigestBytes(ix.digests)
  }

  function ParseDigests(body: seq<byte>): seq<Digest>
    requires |body| % 32 == 0
  {
    if body == [] then [] else [body[..32]] + ParseDigests(body[32..])
  }

  function ParseFixed(bytes: seq<byte>): Result<FixedIndex, IndexError> {
    if |bytes| < HEADER_LEN then Err(TooShort)
    else if bytes[..8] != FIXED_MAGIC then Err(BadMagic)
    else if |bytes[HEADER_LEN..]| % 32 != 0 then Err(RaggedBody)
    else
      Pow256Values();
      Ok(FixedIndex(ToI64(LeValue(bytes[24..32])), bytes[8..24], bytes[32..64], LeValue(bytes[64..72]),
                    LeValue(bytes[72..80]), ParseDigests(bytes[HEADER_LEN..])))
  }

  lemma {:induction false} ParseDigestsOfBytes(ds: seq<Digest>)
    ensures |DigestBytes(ds)| % 32 == 0 && ParseDigests(DigestBytes(ds)) == ds
  {
    if ds != [] {
      ParseDigestsOfBytes(ds[1..]);
      var s := DigestBytes(ds);
      assert s[..32] == ds[0] && s[32..] == DigestBytes(ds[1..]);
    }
  }

  lemma FixedHeaderParts(ix: FixedIndex)
    ensures var s := FixedHeader(ix);
            && s[..8] == FIXED_MAGIC && s[8..24] == ix.uuid && s[24..32] == Le64(ToU64(ix.ctime))
            && s[32..64] == ix.csum
            && s[64..72] == Le64(ix.size) && s[72..80] == Le64(ix.chunkSize)
  {
  }

  lemma SliceOfPrefix(a: seq<byte>, b: seq<byte>, from: nat, to: nat)
    requires from <= to <= |a|
    ensures (a + b)[from..to] == a[from..to]
  {
  }

  lemma FixedLayoutParts(ix: FixedIndex)
    ensures var s := FixedLayout(ix);
            && |s| == HEADER_LEN + 32 * |ix.digests| && s[..8] == FIXED_MAGIC && s[8..24] == ix.uuid
            && s[24..32] == Le64(ToU64(ix.ctime)) && s[32..64] == ix.csum && s[64..72] == Le64(ix.size)
            && s[72..80] == Le64(ix.chunkSize) && s[HEADER_LEN..] == DigestBytes(ix.digests)
  {
    FixedHeaderParts(ix);
    var (h, b) := (FixedHeader(ix), DigestBytes(ix.digests));
    SliceOfPrefix(h, b, 0, 8);
    SliceOfPrefix(h, b, 8, 24);
    SliceOfPrefix(h, b, 24, 32);
    SliceOfPrefix(h, b, 32, 64);
    SliceOfPrefix(h, b, 64, 72);
    SliceOfPrefix(h, b, 72, 80);
  }

  /** A stored fixed index parses back to itself. */
  lemma FixedParseOfLayout(ix: FixedIndex)
    requires ix.size < U64_LIMIT && ix.chunkSize < U64_LIMIT
    ensures ParseFixed(FixedLayout(ix)) == Ok(ix)
  {
    FixedLayoutParts(ix);
    ParseDigestsOfBytes(ix.digests);
    Le64RoundTrip(ToU64(ix.ctime));
    Le64RoundTrip(ix.size);
    Le64RoundTrip(ix.chunkSize);
  }

  // ---------------------------------------------------------------- pieces of an image

  /** An image in pieces of the chunk size, the last one possibly shorter. */
  function Pieces(image: seq<byte>): (ps: seq<seq<byte>>)
    ensures forall i :: 0 <= i < |ps| - 1 ==> |ps[i]| == CHUNK_SIZE
    decreases |image|
  {
    if image == [] then []
    else if |image| <= CHUNK_SIZE then [image]
    else [image[..CHUNK_SIZE]] + Pieces(image[CHUNK_SIZE..])
  }

  lemma {:induction false} PiecesAreImage(image: seq<byte>)
    ensures Flatten(Pieces(image)) == image
    decreases |image|
  {
    if |image| > CHUNK_SIZE {
      PiecesAreImage(image[CHUNK_SIZE..]);
      assert Pieces(image)[1..] == Pieces(image[CHUNK_SIZE..]);
    } else if image != [] {
      assert Pieces(image)[1..] == [];
    }
  }

  function DigestsOf(p: Primitives, ps: seq<seq<byte>>): (ds: seq<Digest>)
    ensures |ds| == |ps| && forall i :: 0 <= i < |ps| ==> ds[i] == p.sha256(ps[i])
  {
    seq(|ps|, i requires 0 <= i < |ps| => p.sha256(ps[i]))
  }

  // ---------------------------------------------------------------- the server

  /** A chunk that reads back from a store. */
  ghost predicate Holds(p: Primitives, store: Store, data: seq<byte>) {
    p.sha256(data) in store && DecodeAndVerify(p, None, store[p.sha256(data)], p.sha256(data)) == Ok(data)
  }

  /**
   * The server of one session. It answers `budget` more requests before the connection fails; of the request
   * that meets the failure, `lastLands` says whether it was still carried out and only its answer lost.
   */
  class Server {
    const size: nat
    const lastLands: bool
    var store: Store
    var index: seq<Digest>
    var closed: bool
    var committed: bool
    var budget: nat

    constructor (size: nat, store: Store, budget: nat, lastLands: bool)
      ensures this.size == size && this.store == store && this.budget == budget && this.lastLands == lastLands
      ensures index == [] && !closed && !committed
    {
      this.size, this.store, this.budget, this.lastLands := size, store, budget, lastLands;
      index, closed, committed := [], false, false;
    }

    /** A request that arrives, whether or not it is answered. */
    predicate Arrives()
      reads this
    {
      budget > 0 || lastLands
    }

    /** Answers a request that arrived, while the connection lasts. */
    method Answer() returns (ok: bool)
      modifies this`budget
      ensures ok <==> old(budget) > 0
      ensures budget == if ok then old(budget) - 1 else old(budget)
    {
      ok := budget > 0;
      if ok {
        budget := budget - 1;
      }
    }

    /** A chunk already there keeps its blob. */
    method UploadChunk(digest: Digest, blob: seq<byte>) returns (ok: bool)
      modifies this`store, this`budget
      ensures ok <==> old(budget) > 0
      ensures ok ==> budget == old(budget) - 1
      ensures store == if old(Arrives()) && digest !in old(store) then old(store)[digest := blob] else old(store)
    {
      if Arrives() && digest !in store {
        store := store[digest := blob];
      }
      ok := Answer();
    }

    /** References must be to stored chunks, at the offsets that come next. */
    method Append(digests: seq<Digest>, offsets: seq<nat>) returns (ok: bool)
      requires |digests| == |offsets|
      modifies this`index, this`budget
      ensures ok <==> old(budget) > 0 && forall i :: 0 <= i < |digests| ==>
                        digests[i] in store && offsets[i] == CHUNK_SIZE * (|old(index)| + i)
      ensures ok ==> budget == old(budget) - 1 && index == old(index) + digests
      ensures index == old(index) || (old(Arrives()) && index == old(index) + digests)
    {
      for i := 0 to |digests|
        invariant forall j :: 0 <= j < i ==> digests[j] in store && offsets[j] == CHUNK_SIZE * (|index| + j)
        invariant index == old(index) && budget == old(budget)
      {
        if digests[i] !in store || offsets[i] != CHUNK_SIZE * (|index| + i) {
          return false;
        }
      }
      if Arrives() {
        index := index + digests;
      }
      ok := Answer();
    }

    method Close(p: Primitives, count: nat, size: nat, csum: Digest) returns (ok: bool)
      modifies this`closed, this`budget
      ensures ok <==> old(budget) > 0 && count == |index| && size == this.size && csum == DigestCsum(p, index)
      ensures ok ==> budget == old(budget) - 1 && closed
      ensures closed ==> old(closed) || old(Arrives())
    {
      if count != |index| || size != this.size || csum != DigestCsum(p, index) {
        return false;
      }
      if Arrives() {
        closed := true;
      }
      ok := Answer();
    }

    method UploadManifest() returns (ok: bool)
      modifies this`budget
      ensures ok <==> old(budget) > 0
      ensures ok ==> budget == old(budget) - 1
    {
      ok := Answer();
    }

    method Finish() returns (ok: bool)
      modifies this`committed, this`budget
      ensures ok <==> old(budget) > 0 && closed
      ensures committed <==> old(committed) || (closed && old(Arrives()))
    {
      if !closed {
        return false;
      }
      if Arrives() {
        committed := true;
      }
      ok := Answer();
    }
  }

  // ---------------------------------------------------------------- backup

  /** No two pieces share a digest unless they are equal, and what is stored under one's digest is it. */
  ghost predicate Distinct(p: Primitives, ps: seq<seq<byte>>, store: Store) {
    && (forall i, j :: 0 <= i < j < |ps| && p.sha256(ps[i]) == p.sha256(ps[j]) ==> ps[i] == ps[j])
    && (forall i :: 0 <= i < |ps| && p.sha256(ps[i]) in store ==> Holds(p, store, ps[i]))
  }

  /** The first `n` pieces read back, and no piece is stored wrongly. */
  ghost predicate Stored(p: Primitives, ps: seq<seq<byte>>, store: Store, n: nat)
    requires n <= |ps|
  {
    Distinct(p, ps, store) && forall i :: 0 <= i < n ==> Holds(p, store, ps[i])
  }

  /** Storing one more piece. */
  lemma StoreGrows(p: Primitives, ps: seq<seq<byte>>, store: Store, n: nat, after: Store)
    requires Laws(p) && n < |ps| && Stored(p, ps, store, n)
    requires var d := p.sha256(ps[n]);
             after == if d in store then store else store[d := EncodeAuto(p, ps[n])]
    ensures Stored(p, ps, after, n + 1)
  {
    var data := ps[n];
    ChunkRoundTrip(p, None, true, seq(16, _ => 0), data);
    assert Holds(p, after, data);
    forall i | 0 <= i < |ps| && p.sha256(ps[i]) in after
      ensures Holds(p, after, ps[i])
    {
      if p.sha256(ps[i]) != p.sha256(data) { assert Holds(p, store, ps[i]); }
    }
  }

  /** Requests a backup makes: a chunk each, a batch of references for every 64, close, manifest, finish. */
  function Requests(count: nat): nat {
    count + (count + BATCH - 1) / BATCH + 3
  }

  /**
   * The backup. It succeeds exactly when every request is answered; it is committed exactly when it succeeds or
   * only the answer to its last request was lost; and then the index names every piece and every piece reads back.
   */
  method BackupFixedImage(p: Primitives, server: Server, image: seq<byte>) returns (r: Option<Digest>)
    requires Laws(p) && server.size == |image| && server.index == [] && !server.closed && !server.committed
    requires Distinct(p, Pieces(image), server.store)
    modifies server
    ensures r.Some? <==> old(server.budget) >= Requests(|Pieces(image)|)
    ensures server.committed <==>
              r.Some? || (server.lastLands && old(server.budget) == Requests(|Pieces(image)|) - 1)
    ensures r.Some? ==> r.value == DigestCsum(p, server.index)
    ensures server.committed ==> server.index == DigestsOf(p, Pieces(image))
    ensures server.committed ==> Stored(p, Pieces(image), server.store, |Pieces(image)|)
  {
    var pieces := Pieces(image);
    var ok, pushed := UploadPieces(p, server, pieces);
    if !ok {
      return None;
    }
    var csum := DigestCsum(p, pushed);
    ok := server.Close(p, |pushed|, |image|, csum);
    if !ok {
      return None;
    }
    ok := server.UploadManifest();
    if !ok {
      return None;
    }
    ok := server.Finish();
    r := if ok then Some(csum) else None;
  }

  /** The references collected and not yet sent: to stored chunks, at the offsets that come next. */
  ghost predicate Collected(store: Store, sent: nat, digests: seq<Digest>, offsets: seq<nat>) {
    && |digests| == |offsets|
    && forall k :: 0 <= k < |digests| ==> digests[k] in store && offsets[k] == CHUNK_SIZE * (sent + k)
  }

  lemma CollectedGrows(
      before: Store, store: Store, sent: nat, digests: seq<Digest>, offsets: seq<nat>, digest: Digest, offset: nat)
    requires Collected(before, sent, digests, offsets) && before.Keys <= store.Keys && digest in store
    requires offset == CHUNK_SIZE * (sent + |digests|)
    ensures Collected(store, sent, digests + [digest], offsets + [offset])
  {
  }

  /** Requests made for `i` pieces of which `sent` have gone out in full batches. */
  function Made(i: nat, sent: nat): nat {
    i + sent / BATCH
  }

  /** While pieces or references remain, the requests made so far are not all. */
  lemma MadeBound(i: nat, sent: nat, n: nat)
    requires sent <= i <= n && sent % BATCH == 0 && i - sent <= BATCH
    ensures i < n ==> Made(i, sent) + 1 <= Requests(n) - 3
    ensures i > sent ==> Made(i, sent) + 1 <= Requests(n) - 3
    ensures i - sent == BATCH ==> Made(i, i) == Made(i, sent) + 1 && i % BATCH == 0
    ensures i == n && i - sent < BATCH ==> Requests(n) - 3 == Made(i, sent) + if i == sent then 0 else 1
  {
  }

  /** One turn of the loop: the digests so far, and one more. */
  lemma DigestsSnoc(p: Primitives, ps: seq<seq<byte>>, i: nat, index: seq<Digest>, digests: seq<Digest>)
    requires i < |ps| && index + digests == DigestsOf(p, ps[..i])
    ensures DigestsOf(p, ps[..i]) + [p.sha256(ps[i])] == DigestsOf(p, ps[..i + 1])
    ensures index + (digests + [p.sha256(ps[i])]) == DigestsOf(p, ps[..i + 1])
  {
    Associative(index, digests, [p.sha256(ps[i])]);
  }

  /** Uploads the next piece. */
  method StorePiece(p: Primitives, server: Server, ps: seq<seq<byte>>, i: nat) returns (ok: bool)
    requires Laws(p) && i < |ps| && Stored(p, ps, server.store, i)
    modifies server`store, server`budget
    ensures ok <==> old(server.budget) > 0
    ensures ok ==> server.budget == old(server.budget) - 1 && Stored(p, ps, server.store, i + 1)
    ensures ok ==> old(server.store).Keys <= server.store.Keys && p.sha256(ps[i]) in server.store
  {
    ghost var before := server.store;
    ok := server.UploadChunk(p.sha256(ps[i]), EncodeAuto(p, ps[i]));
    if ok {
      StoreGrows(p, ps, before, i, server.store);
    }
  }

  /** Sends the references collected. */
  method SendBatch(server: Server, digests: seq<Digest>, offsets: seq<nat>) returns (ok: bool)
    requires Collected(server.store, |server.index|, digests, offsets)
    modifies server`index, server`budget
    ensures ok <==> old(server.budget) > 0
    ensures ok ==> server.budget == old(server.budget) - 1 && server.index == old(server.index) + digests
  {
    ok := server.Append(digests, offsets);
  }

  /** Uploads every piece, pushes its digest and appends the references, 64 at a time and the rest at the end. */
  method UploadPieces(p: Primitives, server: Server, ps: seq<seq<byte>>) returns (ok: bool, pushed: seq<Digest>)
    requires Laws(p) && server.index == [] && Distinct(p, ps, server.store)
    requires forall i :: 0 <= i < |ps| - 1 ==> |ps[i]| == CHUNK_SIZE
    modifies server`store, server`index, server`budget
    ensures ok <==> old(server.budget) >= Requests(|ps|) - 3
    ensures ok ==> server.budget == old(server.budget) - (Requests(|ps|) - 3)
    ensures ok ==> pushed == server.index == DigestsOf(p, ps) && Stored(p, ps, server.store, |ps|)
  {
    pushed := [];
    var digests: seq<Digest> := [];
    var offsets: seq<nat> := [];
    var offset: nat := 0;
    var i: nat := 0;
    while i < |ps|
      invariant i <= |ps| && |server.index| + |digests| == i && |server.index| % BATCH == 0 && |digests| < BATCH
      invariant i < |ps| ==> offset == CHUNK_SIZE * i
      invariant Stored(p, ps, server.store, i)
      invariant pushed == DigestsOf(p, ps[..i]) && server.index + digests == DigestsOf(p, ps[..i])
      invariant Collected(server.store, |server.index|, digests, offsets)
      invariant old(server.budget) == server.budget + Made(i, |server.index|)
    {
      MadeBound(i, |server.index|, |ps|);
      ghost var before := server.store;
      var sent := StorePiece(p, server, ps, i);
      if !sent {
        return false, pushed;
      }
      CollectedGrows(before, server.store, |server.index|, digests, offsets, p.sha256(ps[i]), offset);
      DigestsSnoc(p, ps, i, server.index, digests);
      pushed := pushed + [p.sha256(ps[i])];
      digests := digests + [p.sha256(ps[i])];
      offsets := offsets + [offset];
      offset := offset + |ps[i]|;
      i := i + 1;
      MadeBound(i, |server.index|, |ps|);
      if |digests| >= BATCH {
        sent := SendBatch(server, digests, offsets);
        if !sent {
          return false, pushed;
        }
        digests, offsets := [], [];
      }
    }
    MadeBound(|ps|, |server.index|, |ps|);
    assert ps[..|ps|] == ps;
    ok := true;
    if digests != [] {
      ok := SendBatch(server, digests, offsets);
    }
  }

  // ---------------------------------------------------------------- restore

  function RestoreFixed(p: Primitives, crypt: Option<Key>, store: Store, indexBytes: seq<byte>)
    : Result<seq<byte>, RestoreError> {
    match ParseFixed(indexBytes)
    case Err(e) => Err(BadIndex(e))
    case Ok(ix) =>
      if DigestCsum(p, ix.digests) != ix.csum then Err(BadCsum)
      else
        match FetchAll(Fetcher(p, crypt, store), ix.digests)
        case Err(e) => Err(e)
        case Ok(chunks) =>
          var image := Flatten(chunks);
          Ok(if ix.size <= |image| then image[..ix.size] else image)
  }

  method RestoreFixedImage(p: Primitives, crypt: Option<Key>, store: Store, indexBytes: seq<byte>)
    returns (r: Result<seq<byte>, RestoreError>)
    ensures r == RestoreFixed(p, crypt, store, indexBytes)
  {
    var parsed := ParseFixed(indexBytes);
    if parsed.Err? {
      return Err(BadIndex(parsed.error));
    }
    var ix := parsed.value;
    if DigestCsum(p, ix.digests) != ix.csum {
      return Err(BadCsum);
    }
    var image := FetchImage(p, crypt, store, ix.digests);
    if image.Err? {
      return Err(image.error);
    }
    r := Ok(if ix.size <= |image.value| then image.value[..ix.size] else image.value);
  }

  method FetchImage(p: Primitives, crypt: Option<Key>, store: Store, ds: seq<Digest>)
    returns (r: Result<seq<byte>, RestoreError>)
    ensures r == match FetchAll(Fetcher(p, crypt, store), ds)
                 case Err(e) => Err(e) case Ok(chunks) => Ok(Flatten(chunks))
  {
    var fetch := Fetcher(p, crypt, store);
    var image: seq<byte> := [];
    ghost var chunks: seq<seq<byte>> := [];
    for i := 0 to |ds|
      invariant FetchAll(fetch, ds[..i]) == Ok(chunks) && image == Flatten(chunks)
    {
      assert ds[..i + 1][..i] == ds[..i];
      var chunk := Fetch(p, crypt, store, ds[i]);
      if chunk.Err? {
        FetchAllFailsEarly(fetch, ds, i + 1);
        return Err(chunk.error);
      }
      FlattenSnoc(chunks, chunk.value);
      image := image + chunk.value;
      chunks := chunks + [chunk.value];
    }
    assert ds[..|ds|] == ds;
    r := Ok(image);
  }

  lemma PiecesFetch(p: Primitives, ps: seq<seq<byte>>, store: Store)
    requires Stored(p, ps, store, |ps|)
    ensures FetchAll(Fetcher(p, None, store), DigestsOf(p, ps)) == Ok(ps)
  {
    var fetch := Fetcher(p, None, store);
    forall i | 0 <= i < |ps|
      ensures fetch(DigestsOf(p, ps)[i]) == Ok(ps[i])
    {
      assert Holds(p, store, ps[i]);
    }
    FetchAllPointwise(fetch, DigestsOf(p, ps), ps);
  }

  lemma RestoreOfChunks(p: Primitives, store: Store, ds: seq<Digest>, chunks: seq<seq<byte>>, ctime: I64, uuid: Block16)
    requires FetchAll(Fetcher(p, None, store), ds) == Ok(chunks) && |Flatten(chunks)| < U64_LIMIT
    ensures RestoreFixed(p, None, store,
              FixedLayout(FixedIndex(ctime, uuid, DigestCsum(p, ds), |Flatten(chunks)|, CHUNK_SIZE, ds)))
            == Ok(Flatten(chunks))
  {
    FixedParseOfLayout(FixedIndex(ctime, uuid, DigestCsum(p, ds), |Flatten(chunks)|, CHUNK_SIZE, ds));
    var image := Flatten(chunks);
    assert image[..|image|] == image;
  }

  /** What a committed fixed image restores to: exactly the image, from its index file and the store. */
  lemma FixedBackupThenRestore(p: Primitives, image: seq<byte>, store: Store, ctime: I64, uuid: Block16)
    requires |image| < U64_LIMIT && Stored(p, Pieces(image), store, |Pieces(image)|)
    ensures var ds := DigestsOf(p, Pieces(image));
            RestoreFixed(p, None, store,
              FixedLayout(FixedIndex(ctime, uuid, DigestCsum(p, ds), |image|, CHUNK_SIZE, ds)))
            == Ok(image)
  {
    PiecesFetch(p, Pieces(image), store);
    PiecesAreImage(image);
    RestoreOfChunks(p, store, DigestsOf(p, Pieces(image)), Pieces(image), ctime, uuid);
  }
}
