/**
 * What the engine is for: a snapshot is committed only when it is whole, and a
 * committed snapshot restores to exactly the bytes that were read.
 */
module RoundTrip {
  import opened Wrappers
  import opened Bytes
  import opened DataBlob
  import opened DynamicIndex
  import opened Restore
  import U = Upload
  import opened UploadSafety
  import P = Pipeline

  /** A run that got its snapshot committed. */
  ghost predicate Committed(c: U.Config, es: seq<U.Event>, s: U.State) {
    U.Run(c, es) == Some(s) && s.server.committed
  }

  /**
   * Whatever the interleaving, the failures and the digests, a committed snapshot
   * means the source ended cleanly and its chunks are all of its bytes.
   */
  lemma {:induction false} CommittedMeansWhole(c: U.Config, es: seq<U.Event>, s: U.State)
    requires Committed(c, es, s)
    ensures s.source.status == U.Eof && Flatten(s.received) == s.source.bytes
    ensures s.stats.chunks == |s.received| == s.stats.reused + s.stats.uploaded
    ensures |s.source.bytes| == s.stats.reusedBytes + s.stats.uploadedBytes
    ensures s.stats.uploaded == |s.stored| && s.running == {} && s.failed == {}
  {
    RunInv(c, es);
    assert s.source.bytes[..s.cut] == s.source.bytes;
    assert Flatten(s.received) + Flatten(s.queue) == Flatten(s.received);
  }

  /** A failed source is never committed, whatever else happens. */
  lemma {:induction false} BrokenSourceNeverCommits(c: U.Config, es: seq<U.Event>, s: U.State)
    requires U.Run(c, es) == Some(s) && s.source.status != U.Eof
    ensures !s.server.committed
  {
    RunInv(c, es);
  }

  /** The server's index is the builder's, and every chunk it references reads back. */
  lemma {:induction false} CommittedIndex(c: U.Config, es: seq<U.Event>, s: U.State)
    requires Committed(c, es, s) && U.PriorSound(c, s.received) && U.CollisionFree(c, s.received)
    ensures s.server.writer == s.entries == U.EntriesOf(c, s.received)
    ensures forall i :: 0 <= i < |s.received| ==>
              var d := U.D(c, s.received[i]);
              d in s.server.store && U.Plain(c, s.server.store, d) == Ok(s.received[i])
  {
    RunInv(c, es);
    assert s.entries[..|s.entries|] == s.entries;
    forall i | 0 <= i < |s.received|
      ensures var d := U.D(c, s.received[i]);
              d in s.server.store && U.Plain(c, s.server.store, d) == Ok(s.received[i])
    {
      assert i in s.running + s.stored + s.failed || U.D(c, s.received[i]) in c.known;
      HeldOnServer(c, s, i);
    }
  }

  /**
   * No batch is ever appended before every chunk it references is on the server,
   * and a server that checks offsets and sizes accepts every batch and rebuilds
   * the builder's entries.
   */
  lemma {:induction false} AppendOnlyAfterUploads(c: U.Config, es: seq<U.Event>, s: U.State)
    requires U.Run(c, es) == Some(s) && U.PriorSound(c, s.received) && U.CollisionFree(c, s.received)
    requires s.phase == U.Appending && s.appended < |s.entries|
    ensures forall i :: 0 <= i < |s.received| ==> Held(c, s, i)
    ensures U.AppendBatch(s)
            == Some(s.(appended := U.BatchEnd(s), server := s.server.(writer := s.entries[..U.BatchEnd(s)])))
    ensures s.appended < U.BatchEnd(s) <= s.appended + U.APPEND_BATCH
  {
    RunInv(c, es);
    BatchAccepted(c, s);
  }

  /** The index matches when it is closed, so the close is not refused either. */
  lemma {:induction false} CloseAccepted(c: U.Config, es: seq<U.Event>, s: U.State)
    requires U.Run(c, es) == Some(s) && U.PriorSound(c, s.received) && U.CollisionFree(c, s.received)
    requires s.phase == U.Closing
    ensures U.CloseWriter(c, s).phase == U.Blobs && s.server.writer == s.entries
  {
    RunInv(c, es);
    CloseMatches(c, s);
  }

  /** The datastore later on: the archive's own chunks still read back, whatever became of all others. */
  ghost predicate StillThere(c: U.Config, s: U.State, later: Store) {
    forall d :: d in U.DigestsOf(c, s.received) && d in s.server.store ==>
      d in later && U.Plain(c, later, d) == U.Plain(c, s.server.store, d)
  }

  /** The index file the server keeps for the committed archive. */
  function IndexFile(c: U.Config, s: U.State, ctime: I64, uuid: Block16): seq<byte> {
    Layout(Index(ctime, uuid, Csum(c.p, s.server.writer), s.server.writer))
  }

  lemma {:induction false} FlattenPrefix(a: seq<seq<byte>>, k: nat)
    requires k <= |a|
    ensures |Flatten(a[..k])| <= |Flatten(a)| && Flatten(a[..k]) == Flatten(a)[..|Flatten(a[..k])|]
  {
    FlattenConcat(a[..k], a[k..]);
    assert a[..k] + a[k..] == a;
  }

  lemma EntriesFit(c: U.Config, chunks: seq<seq<byte>>)
    requires |Flatten(chunks)| < U64_LIMIT
    ensures OffsetsFit(U.EntriesOf(c, chunks))
  {
    forall i | 0 <= i < |chunks|
      ensures U.EntriesOf(c, chunks)[i].end < U64_LIMIT
    {
      U.ChunkListAt(c, chunks, i);
      FlattenSnoc(chunks[..i], chunks[i]);
      assert chunks[..i + 1] == chunks[..i] + [chunks[i]];
      FlattenPrefix(chunks, i + 1);
    }
  }

  /** The index file of a committed archive passes its checks and lists its chunks' digests. */
  lemma {:induction false} IndexReadsBack(c: U.Config, es: seq<U.Event>, s: U.State, ctime: I64, uuid: Block16)
    requires Committed(c, es, s) && U.PriorSound(c, s.received) && U.CollisionFree(c, s.received)
    requires |s.source.bytes| < U64_LIMIT
    ensures ArchiveDigests(c.p, IndexFile(c, s, ctime, uuid)) == Ok(U.DigestsOf(c, s.received))
  {
    CommittedMeansWhole(c, es, s);
    CommittedIndex(c, es, s);
    EntriesFit(c, s.received);
    ParseOfLayout(Index(ctime, uuid, Csum(c.p, s.server.writer), s.server.writer));
    forall i | 0 <= i < |s.received|
      ensures Digests(s.server.writer)[i] == U.DigestsOf(c, s.received)[i]
    {
      U.ChunkListAt(c, s.received, i);
    }
    assert Digests(s.server.writer) == U.DigestsOf(c, s.received);
  }

  lemma {:induction false} ChunksThere(c: U.Config, es: seq<U.Event>, s: U.State, later: Store)
    requires Committed(c, es, s) && U.PriorSound(c, s.received) && U.CollisionFree(c, s.received)
    requires StillThere(c, s, later)
    ensures forall i :: 0 <= i < |s.received| ==>
              var d := U.D(c, s.received[i]);
              U.DigestsOf(c, s.received)[i] == d && d in later && U.Plain(c, later, d) == Ok(s.received[i])
  {
    CommittedIndex(c, es, s);
    forall i | 0 <= i < |s.received|
      ensures var d := U.D(c, s.received[i]);
              U.DigestsOf(c, s.received)[i] == d && d in later && U.Plain(c, later, d) == Ok(s.received[i])
    {
      U.ChunkListAt(c, s.received, i);
      assert U.DigestsOf(c, s.received)[i] in U.DigestsOf(c, s.received);
    }
  }

  lemma {:induction false} ChunksFetch(c: U.Config, es: seq<U.Event>, s: U.State, later: Store)
    requires Committed(c, es, s) && U.PriorSound(c, s.received) && U.CollisionFree(c, s.received)
    requires StillThere(c, s, later)
    ensures FetchAll(Fetcher(c.p, c.crypt, later), U.DigestsOf(c, s.received)) == Ok(s.received)
  {
    ChunksThere(c, es, s, later);
    FetchAllPointwise(Fetcher(c.p, c.crypt, later), U.DigestsOf(c, s.received), s.received);
  }

  /**
   * Backup then restore is the identity: for every stream, every cut of it into
   * chunks, every compression setting and key, every order of uploads and
   * failures and every set of reused chunks, a committed archive restores to the
   * stream's bytes through the index file and the blob framings.
   */
  lemma {:induction false} BackupThenRestore(
      c: U.Config, es: seq<U.Event>, s: U.State, ctime: I64, uuid: Block16, later: Store)
    requires Committed(c, es, s) && U.PriorSound(c, s.received) && U.CollisionFree(c, s.received)
    requires StillThere(c, s, later)
    requires |s.source.bytes| < U64_LIMIT
    ensures RestoreArchive(c.p, c.crypt, later, IndexFile(c, s, ctime, uuid)) == Ok(s.source.bytes)
  {
    IndexReadsBack(c, es, s, ctime, uuid);
    ChunksFetch(c, es, s, later);
    CommittedMeansWhole(c, es, s);
  }

  /** Every schedule of the pipeline hands over a prefix of the archive, and all of it when it succeeds. */
  lemma {:induction false} StreamedPrefix(pc: P.Config, pes: seq<P.Event>, ps: P.State, chunks: seq<seq<byte>>)
    requires pc.width >= 1 && P.Run(pc, pes) == Some(ps) && FetchAll(pc.fetch, pc.digests) == Ok(chunks)
    ensures Flatten(ps.received) <= Flatten(chunks)
    ensures ps.phase == P.Done(true) && ps.alive ==> ps.received + ps.queue == chunks
  {
    P.RefinesSequential(pc, pes);
    var k := |ps.received|;
    FetchAllPointwise(pc.fetch, pc.digests, chunks);
    FetchAllPointwise(pc.fetch, pc.digests[..k], ps.received);
    assert ps.received == chunks[..k];
    FlattenPrefix(chunks, k);
  }

  /** The same through the windowed pipeline, in every schedule of its downloads. */
  lemma {:induction false} BackupThenStreamedRestore(
      c: U.Config, es: seq<U.Event>, s: U.State, ctime: I64, uuid: Block16, later: Store,
      pc: P.Config, pes: seq<P.Event>, ps: P.State)
    requires Committed(c, es, s) && U.PriorSound(c, s.received) && U.CollisionFree(c, s.received)
    requires StillThere(c, s, later)
    requires |s.source.bytes| < U64_LIMIT
    requires ArchiveDigests(c.p, IndexFile(c, s, ctime, uuid)) == Ok(pc.digests)
    requires pc.fetch == Fetcher(c.p, c.crypt, later) && pc.width >= 1 && P.Run(pc, pes) == Some(ps)
    ensures Flatten(ps.received) <= s.source.bytes
    ensures ps.phase == P.Done(true) && ps.alive ==> Flatten(ps.received + ps.queue) == s.source.bytes
  {
    IndexReadsBack(c, es, s, ctime, uuid);
    ChunksFetch(c, es, s, later);
    CommittedMeansWhole(c, es, s);
    StreamedPrefix(pc, pes, ps, s.received);
  }

  // ---------------------------------------------------------------- a plaintext archive and a key

  /** A plaintext chunk under a key fetches, if at all, to itself. */
  lemma FetchUnderKey(c: U.Config, later: Store, key: Key, x: seq<byte>)
    requires c.crypt == None && U.D(c, x) in later && U.Plain(c, later, U.D(c, x)) == Ok(x)
    ensures Fetch(c.p, Some(key), later, U.D(c, x))
         == if c.p.sha256(x + c.p.idKey(key)) == c.p.sha256(x) then Ok(x) else Err(BadChunk(DigestMismatch))
  {
    PlaintextBlobUnderKey(c.p, key, later[U.D(c, x)], x);
  }

  /**
   * A committed plaintext archive restores under a key if and only if the keyed digest of every one of
   * its chunks is its plain digest - so an archive without chunks does - and then to the stream's bytes.
   */
  lemma {:induction false} PlaintextArchiveUnderKey(
      c: U.Config, es: seq<U.Event>, s: U.State, ctime: I64, uuid: Block16, later: Store, key: Key)
    requires c.crypt == None && Committed(c, es, s) && U.PriorSound(c, s.received) && U.CollisionFree(c, s.received)
    requires StillThere(c, s, later) && |s.source.bytes| < U64_LIMIT
    ensures RestoreArchive(c.p, Some(key), later, IndexFile(c, s, ctime, uuid)).Ok?
       <==> forall i :: 0 <= i < |s.received| ==>
              c.p.sha256(s.received[i] + c.p.idKey(key)) == c.p.sha256(s.received[i])
    ensures RestoreArchive(c.p, Some(key), later, IndexFile(c, s, ctime, uuid)).Ok? ==>
              RestoreArchive(c.p, Some(key), later, IndexFile(c, s, ctime, uuid)) == Ok(s.source.bytes)
  {
    IndexReadsBack(c, es, s, ctime, uuid);
    ChunksThere(c, es, s, later);
    CommittedMeansWhole(c, es, s);
    var fetch, ds := Fetcher(c.p, Some(key), later), U.DigestsOf(c, s.received);
    forall i | 0 <= i < |ds|
      ensures fetch(ds[i]) == if c.p.sha256(s.received[i] + c.p.idKey(key)) == c.p.sha256(s.received[i])
                              then Ok(s.received[i]) else Err(BadChunk(DigestMismatch))
    {
      FetchUnderKey(c, later, key, s.received[i]);
    }
    FetchAllPointwise(fetch, ds, s.received);
    if FetchAll(fetch, ds).Ok? { FetchAllPointwise(fetch, ds, FetchAll(fetch, ds).value); }
  }
}
