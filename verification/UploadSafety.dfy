/** Invariants of the upload over every run, and what a committed snapshot holds. */
module UploadSafety {
  import opened Wrappers
  import opened Bytes
  import opened DataBlob
  import opened DynamicIndex
  import opened Upload

  // ---------------------------------------------------------------- the invariant

  /** Received and queued chunks partition what was cut, and the vectors describe the received ones. */
  ghost predicate DataInv(c: Config, s: State) {
    && s.cut <= |s.source.bytes|
    && Flatten(s.received) + Flatten(s.queue) == s.source.bytes[..s.cut]
    && |s.queue| <= CHANNEL_CAPACITY
    && s.endOffset == |Flatten(s.received)|
    && s.entries == EntriesOf(c, s.received)
    && s.digests == DigestsOf(c, s.received)
    && s.offsets == OffsetsOf(s.received)
  }

  /** Every chunk not in the previous index has exactly one task, and the window is bounded. */
  ghost predicate TaskInv(c: Config, s: State) {
    && s.running !! s.stored && s.running !! s.failed && s.stored !! s.failed
    && Owned(c, s.received, s.running + s.stored + s.failed)
    && |s.running| <= c.width
  }

  /** Upload tasks exist for exactly the chunks not in the previous index. */
  ghost predicate Owned(c: Config, received: seq<seq<byte>>, tasks: set<nat>) {
    forall i :: i in tasks <==> 0 <= i < |received| && D(c, received[i]) !in c.known
  }

  ghost predicate StatsInv(s: State) {
    && s.stats.chunks == |s.received| == s.stats.reused + s.stats.uploaded
    && s.endOffset == s.stats.reusedBytes + s.stats.uploadedBytes
    && s.stats.uploaded == |s.running| + |s.stored| + |s.failed|
  }

  predicate PastReceiving(ph: Phase) { ph != Receiving && ph != Aborted }
  predicate PastDraining(ph: Phase) { PastReceiving(ph) && ph != Draining }
  predicate PastAppending(ph: Phase) { PastDraining(ph) && ph != Appending }
  predicate PastJoining(ph: Phase) { PastAppending(ph) && ph != Joining }
  predicate PastClosing(ph: Phase) { PastJoining(ph) && ph != Closing }

  /** The stream ended cleanly and every byte of it was cut, received, uploaded and indexed. */
  ghost predicate Whole(s: State) {
    && s.source.status == Eof && s.cut == |s.source.bytes| && s.queue == [] && s.chunker == ChunkedOk
    && s.running == {} && s.failed == {} && s.appended == |s.entries| && s.server.closed
  }

  ghost predicate PhaseInv(s: State) {
    && (PastReceiving(s.phase) ==> s.queue == [] && s.chunker != Chunking)
    && (PastDraining(s.phase) ==> s.running == {} && s.failed == {})
    && (PastAppending(s.phase) ==> s.appended == |s.entries|)
    && (PastJoining(s.phase) ==> s.chunker == ChunkedOk)
    && (PastClosing(s.phase) ==> s.server.closed)
    && s.appended <= |s.entries|
    && (s.phase == Receiving || s.phase == Draining ==> s.appended == 0)
    && (s.chunker == ChunkedOk ==> s.phase == Aborted || (s.source.status == Eof && s.cut == |s.source.bytes|))
    && (s.server.committed ==> Whole(s) && (s.phase == Finished || s.phase == Aborted))
    && (s.phase == Finished ==> s.server.committed)
  }

  /** A blob under `d` that is one of the run's own chunks. */
  ghost predicate OurBlob(c: Config, s: State, d: Digest)
    requires d in s.server.store
  {
    exists i :: 0 <= i < |s.received| && D(c, s.received[i]) == d && Plain(c, s.server.store, d) == Ok(s.received[i])
  }

  ghost predicate OurSize(c: Config, s: State, d: Digest)
    requires d in s.server.sizes
  {
    exists i :: 0 <= i < |s.received| && D(c, s.received[i]) == d && s.server.sizes[d] == |s.received[i]|
  }

  /** Nothing in the datastore is lost, and whatever is not as it was found is one of the run's chunks. */
  ghost predicate StoreInv(c: Config, s: State) {
    && (forall d :: d in c.store ==> d in s.server.store)
    && (forall d :: d in c.sizes ==> d in s.server.sizes)
    && (forall d :: d in s.server.store ==>
          (d in c.store && s.server.store[d] == c.store[d]) || OurBlob(c, s, d))
    && (forall d :: d in s.server.sizes ==>
          (d in c.sizes && s.server.sizes[d] == c.sizes[d]) || OurSize(c, s, d))
    && (forall i :: i in s.stored && i < |s.received| ==> Arrived(c, s, D(c, s.received[i])))
  }

  ghost predicate Arrived(c: Config, s: State, d: Digest) {
    d in s.server.store && d in s.server.sizes && OurSize(c, s, d)
  }

  /** The server can give back chunk `i`. */
  ghost predicate Held(c: Config, s: State, i: nat)
    requires i < |s.received|
  {
    var d := D(c, s.received[i]);
    && d in s.server.store && Plain(c, s.server.store, d) == Ok(s.received[i])
    && d in s.server.sizes && s.server.sizes[d] == |s.received[i]|
  }

  ghost predicate OnServer(c: Config, s: State, i: nat)
    requires i < |s.received|
  {
    i in s.stored || D(c, s.received[i]) in c.known
  }

  /** The server's entries are the builder's, as far as they were appended. */
  ghost predicate WriterInv(s: State) {
    s.appended <= |s.entries| && s.server.writer == s.entries[..s.appended]
  }

  /** The client's side of the invariant, independent of what the datastore holds. */
  ghost predicate Core(c: Config, s: State) {
    DataInv(c, s) && TaskInv(c, s) && StatsInv(s) && PhaseInv(s)
  }

  ghost predicate Inv(c: Config, s: State) {
    && Core(c, s)
    && (Laws(c.p) ==> StoreInv(c, s))
    && (PriorSound(c, s.received) && CollisionFree(c, s.received) ==> WriterInv(s))
  }

  // ---------------------------------------------------------------- it holds initially and every event keeps it

  lemma InitInv(c: Config)
    ensures Inv(c, Init(c))
  {
    var s := Init(c);
    assert s.source.bytes[..0] == [];
  }

  lemma ReceiveData(c: Config, s: State)
    requires DataInv(c, s) && ReceiveChunk(c, s).Some?
    ensures DataInv(c, ReceiveChunk(c, s).value)
  {
    var data := s.queue[0];
    ChunkListSnoc(c, s.received, data);
    FlattenSnoc(s.received, data);
    Associative(Flatten(s.received), data, Flatten(s.queue[1..]));
  }

  lemma ReceiveTasks(c: Config, s: State)
    requires TaskInv(c, s) && StatsInv(s) && ReceiveChunk(c, s).Some?
    ensures TaskInv(c, ReceiveChunk(c, s).value) && StatsInv(ReceiveChunk(c, s).value)
  {
    var t := ReceiveChunk(c, s).value;
    var n := |s.received|;
    assert n !in s.running + s.stored + s.failed;
    forall i
      ensures i in t.running + t.stored + t.failed <==> 0 <= i < |t.received| && D(c, t.received[i]) !in c.known
    {
      assert i != n ==> (i in t.running + t.stored + t.failed <==> i in s.running + s.stored + s.failed);
    }
  }

  lemma SoundShrinks(c: Config, chunks: seq<seq<byte>>, more: seq<seq<byte>>)
    ensures PriorSound(c, chunks + more) ==> PriorSound(c, chunks)
    ensures CollisionFree(c, chunks + more) ==> CollisionFree(c, chunks)
  {
    assert forall x :: x in chunks ==> x in chunks + more;
  }

  /** A chunk the server was sent, or that the previous index had, can be given back. */
  lemma HeldOnServer(c: Config, s: State, i: nat)
    requires StoreInv(c, s) && PriorSound(c, s.received) && CollisionFree(c, s.received)
    requires i < |s.received| && OnServer(c, s, i)
    ensures Held(c, s, i)
  {
    var x := s.received[i];
    var d := D(c, x);
    assert x in s.received;
    assert d in s.server.store && d in s.server.sizes;
    if OurBlob(c, s, d) {
      var j :| 0 <= j < |s.received| && D(c, s.received[j]) == d && Plain(c, s.server.store, d) == Ok(s.received[j]);
      assert s.received[j] in s.received;
    }
    if OurSize(c, s, d) {
      var j :| 0 <= j < |s.received| && D(c, s.received[j]) == d && s.server.sizes[d] == |s.received[j]|;
      assert s.received[j] in s.received;
    }
  }

  /** Receiving a chunk leaves the datastore as it is and its account true. */
  lemma ReceiveStore(c: Config, s: State)
    requires StoreInv(c, s) && ReceiveChunk(c, s).Some? && forall i :: i in s.stored ==> i < |s.received|
    ensures StoreInv(c, ReceiveChunk(c, s).value)
  {
    var t := ReceiveChunk(c, s).value;
    assert t.server == s.server && t.stored == s.stored;
    forall d | d in s.server.store && OurBlob(c, s, d)
      ensures OurBlob(c, t, d)
    {
      var j :| 0 <= j < |s.received| && D(c, s.received[j]) == d && Plain(c, s.server.store, d) == Ok(s.received[j]);
      assert t.received[j] == s.received[j];
    }
    forall d | d in s.server.sizes && OurSize(c, s, d)
      ensures OurSize(c, t, d)
    {
      var j :| 0 <= j < |s.received| && D(c, s.received[j]) == d && s.server.sizes[d] == |s.received[j]|;
      assert t.received[j] == s.received[j];
    }
    forall i | i in t.stored && i < |t.received|
      ensures Arrived(c, t, D(c, t.received[i]))
    {
      assert t.received[i] == s.received[i] && Arrived(c, s, D(c, s.received[i]));
    }
  }

  /** What a put leaves alone: every digest but its own. */
  lemma PutChunkElsewhere(c: Config, server: Server, data: seq<byte>, iv: Block16, keepOld: bool, d: Digest)
    requires d != D(c, data)
    ensures var t := PutChunk(c, server, data, iv, keepOld);
            && (d in t.store <==> d in server.store) && (d in server.store ==> t.store[d] == server.store[d])
            && (d in t.sizes <==> d in server.sizes) && (d in server.sizes ==> t.sizes[d] == server.sizes[d])
  {
  }

  /** Under its own digest a put leaves the blob that was there, or one that reads back as the chunk. */
  lemma PutChunkHere(c: Config, s: State, t: State, i: nat, iv: Block16, keepOld: bool)
    requires Laws(c.p) && i < |s.received| && t.received == s.received
    requires t.server == PutChunk(c, s.server, s.received[i], iv, keepOld)
    ensures var d := D(c, s.received[i]);
            && Arrived(c, t, d)
            && ((d in s.server.store && t.server.store[d] == s.server.store[d]) || OurBlob(c, t, d))
  {
    ChunkRoundTrip(c.p, c.crypt, c.compress, iv, s.received[i]);
    assert t.server.sizes[D(c, s.received[i])] == |t.received[i]|;
  }

  lemma PutChunkBlobs(c: Config, s: State, t: State, i: nat, iv: Block16, keepOld: bool, d: Digest)
    requires Laws(c.p) && StoreInv(c, s) && i < |s.received| && t.received == s.received
    requires t.server == PutChunk(c, s.server, s.received[i], iv, keepOld)
    ensures d in t.server.store ==> (d in c.store && t.server.store[d] == c.store[d]) || OurBlob(c, t, d)
    ensures d in t.server.sizes ==> (d in c.sizes && t.server.sizes[d] == c.sizes[d]) || OurSize(c, t, d)
    ensures Arrived(c, s, d) ==> Arrived(c, t, d)
  {
    PutChunkHere(c, s, t, i, iv, keepOld);
    if d != D(c, s.received[i]) { PutChunkElsewhere(c, s.server, s.received[i], iv, keepOld, d); }
    if d in t.server.store && d in s.server.store && t.server.store[d] == s.server.store[d] && OurBlob(c, s, d) {
      var j :| 0 <= j < |s.received| && D(c, s.received[j]) == d && Plain(c, s.server.store, d) == Ok(s.received[j]);
      assert Plain(c, t.server.store, d) == Ok(t.received[j]);
    }
    if d != D(c, s.received[i]) && d in s.server.sizes && OurSize(c, s, d) {
      var j :| 0 <= j < |s.received| && D(c, s.received[j]) == d && s.server.sizes[d] == |s.received[j]|;
      assert t.server.sizes[d] == |t.received[j]|;
    }
  }

  lemma PutChunkStore(c: Config, s: State, t: State, i: nat, iv: Block16, keepOld: bool)
    requires Laws(c.p) && StoreInv(c, s) && i < |s.received| && t.received == s.received
    requires t.server == PutChunk(c, s.server, s.received[i], iv, keepOld) && t.stored <= s.stored + {i}
    ensures StoreInv(c, t)
  {
    forall d: Digest
      ensures d in t.server.store ==> (d in c.store && t.server.store[d] == c.store[d]) || OurBlob(c, t, d)
      ensures d in t.server.sizes ==> (d in c.sizes && t.server.sizes[d] == c.sizes[d]) || OurSize(c, t, d)
    {
      PutChunkBlobs(c, s, t, i, iv, keepOld, d);
    }
    forall k | k in t.stored && k < |t.received|
      ensures Arrived(c, t, D(c, t.received[k]))
    {
      PutChunkHere(c, s, t, i, iv, keepOld);
      if k != i { PutChunkBlobs(c, s, t, i, iv, keepOld, D(c, t.received[k])); }
    }
  }

  /** An upload that ends, well or badly, only moves its task and touches the stored data. */
  lemma UploadFields(c: Config, s: State, e: Event)
    requires (e.UploadDone? || e.UploadFails?) && Next(c, s, e).Some?
    ensures var t := Next(c, s, e).value;
            && e.i in s.running && e.i < |s.received|
            && t == s.(running := s.running - {e.i},
                       stored := if e.UploadDone? then s.stored + {e.i} else s.stored,
                       failed := if e.UploadDone? then s.failed else s.failed + {e.i},
                       server := s.server.(store := t.server.store, sizes := t.server.sizes))
  {
  }

  /** Moving an element between disjoint sets. */
  lemma Moved(a: set<nat>, b: set<nat>, d: set<nat>, i: nat)
    requires a !! b && a !! d && b !! d && i in a
    ensures a - {i} !! b + {i} && a - {i} !! d && b + {i} !! d
    ensures a - {i} + (b + {i}) + d == a + b + d && a - {i} + d + (b + {i}) == a + d + b
    ensures |a - {i}| == |a| - 1 && |b + {i}| == |b| + 1
  {
  }

  lemma MovedTask(c: Config, s: State, t: State, i: nat, done: bool)
    requires TaskInv(c, s) && StatsInv(s) && i in s.running
    requires t.received == s.received && t.stats == s.stats && t.endOffset == s.endOffset
    requires t.running == s.running - {i}
    requires done ==> t.stored == s.stored + {i} && t.failed == s.failed
    requires !done ==> t.stored == s.stored && t.failed == s.failed + {i}
    ensures TaskInv(c, t) && StatsInv(t)
  {
    if done {
      Moved(s.running, s.stored, s.failed, i);
    } else {
      Moved(s.running, s.failed, s.stored, i);
    }
  }

  lemma UploadTasks(c: Config, s: State, e: Event)
    requires Core(c, s) && (e.UploadDone? || e.UploadFails?) && Next(c, s, e).Some?
    ensures Core(c, Next(c, s, e).value)
  {
    UploadFields(c, s, e);
    MovedTask(c, s, Next(c, s, e).value, e.i, e.UploadDone?);
  }

  lemma UploadStore(c: Config, s: State, e: Event)
    requires Laws(c.p) && StoreInv(c, s) && (e.UploadDone? || e.UploadFails?) && Next(c, s, e).Some?
    ensures StoreInv(c, Next(c, s, e).value)
  {
    UploadFields(c, s, e);
    var t := Next(c, s, e).value;
    if e.UploadDone? || e.landed {
      PutChunkStore(c, s, t, e.i, e.iv, e.UploadDone? && e.keepOld);
    } else {
      StoreFrame(c, s, t);
    }
  }

  /** The account of the datastore only looks at these fields. */
  lemma StoreFrame(c: Config, s: State, t: State)
    requires StoreInv(c, s) && t.received == s.received && t.stored == s.stored
    requires t.server.store == s.server.store && t.server.sizes == s.server.sizes
    ensures StoreInv(c, t)
  {
    assert forall d :: d in s.server.store && OurBlob(c, s, d) ==> OurBlob(c, t, d);
    assert forall d :: d in s.server.sizes && OurSize(c, s, d) ==> OurSize(c, t, d);
    assert forall d :: Arrived(c, s, d) ==> Arrived(c, t, d);
  }

  /** The events that leave received chunks, uploads and stored data alone. */
  predicate Quiet(e: Event) {
    !(e.Receive? || e.UploadDone? || e.UploadFails? || e.Append?)
  }

  lemma QuietFrame(c: Config, s: State, e: Event)
    requires Quiet(e) && Next(c, s, e).Some?
    ensures var t := Next(c, s, e).value;
            && t == s.(source := t.source, cut := t.cut, queue := t.queue, chunker := t.chunker, phase := t.phase,
                       server := s.server.(closed := t.server.closed, committed := t.server.committed))
            && (!e.Cut? && !e.SourceRead? ==> t.cut == s.cut && t.queue == s.queue && t.source.bytes == s.source.bytes)
  {
  }

  lemma QuietPhase(c: Config, s: State, e: Event)
    requires PhaseInv(s) && Quiet(e) && Next(c, s, e).Some?
    ensures PhaseInv(Next(c, s, e).value)
  {
  }

  lemma SourceData(c: Config, s: State, e: Event)
    requires DataInv(c, s) && (e.Cut? || e.SourceRead?) && Next(c, s, e).Some?
    ensures DataInv(c, Next(c, s, e).value)
  {
    var t := Next(c, s, e).value;
    if e.Cut? {
      var piece := s.source.bytes[s.cut..s.cut + e.n];
      FlattenSnoc(s.queue, piece);
      assert s.source.bytes[..s.cut + e.n] == s.source.bytes[..s.cut] + piece;
      Associative(Flatten(s.received), Flatten(s.queue), piece);
    } else {
      assert t.source.bytes[..s.cut] == s.source.bytes[..s.cut];
    }
  }

  lemma QuietCore(c: Config, s: State, e: Event)
    requires Core(c, s) && Quiet(e) && Next(c, s, e).Some?
    ensures Core(c, Next(c, s, e).value)
  {
    QuietFrame(c, s, e);
    QuietPhase(c, s, e);
    if e.Cut? || e.SourceRead? { SourceData(c, s, e); }
  }

  lemma TotalSizeOfPrefix(c: Config, chunks: seq<seq<byte>>, k: nat)
    requires k <= |chunks|
    ensures TotalSize(EntriesOf(c, chunks)[..k]) == |Flatten(chunks[..k])|
  {
    if k > 0 {
      ChunkListAt(c, chunks, k - 1);
      FlattenSnoc(chunks[..k - 1], chunks[k - 1]);
      assert chunks[..k] == chunks[..k - 1] + [chunks[k - 1]];
    }
  }

  /**
   * Appending start offsets in order makes the server rebuild the builder's own
   * entries: it derives the same end offsets and never refuses.
   */
  lemma {:induction false} AppendRebuilds(c: Config, chunks: seq<seq<byte>>, server: Server, lo: nat, hi: nat)
    requires lo <= hi <= |chunks|
    requires server.writer == EntriesOf(c, chunks)[..lo]
    requires forall i :: lo <= i < hi ==>
               var d := D(c, chunks[i]);
               d in server.store && d in server.sizes && server.sizes[d] == |chunks[i]|
    ensures AppendIndex(server, DigestsOf(c, chunks)[lo..hi], OffsetsOf(chunks)[lo..hi])
            == Some(server.(writer := EntriesOf(c, chunks)[..hi]))
    decreases hi - lo
  {
    if lo < hi {
      ChunkListAt(c, chunks, lo);
      TotalSizeOfPrefix(c, chunks, lo);
      var es := EntriesOf(c, chunks);
      var next := server.(writer := server.writer + [es[lo]]);
      assert es[..lo + 1] == es[..lo] + [es[lo]];
      AppendRebuilds(c, chunks, next, lo + 1, hi);
      assert DigestsOf(c, chunks)[lo..hi][1..] == DigestsOf(c, chunks)[lo + 1..hi];
      assert OffsetsOf(chunks)[lo..hi][1..] == OffsetsOf(chunks)[lo + 1..hi];
    }
  }

  lemma {:induction false} AppendTouchesOnlyWriter(server: Server, digests: seq<Digest>, offsets: seq<nat>)
    requires |digests| == |offsets| && AppendIndex(server, digests, offsets).Some?
    ensures var t := AppendIndex(server, digests, offsets).value;
            t == server.(writer := t.writer)
    decreases |digests|
  {
    if digests != [] {
      var entry := Entry(offsets[0] + server.sizes[digests[0]], digests[0]);
      AppendTouchesOnlyWriter(server.(writer := server.writer + [entry]), digests[1..], offsets[1..]);
    }
  }

  /** With the uploads drained, every chunk is on the server. */
  lemma DrainedHeld(c: Config, s: State)
    requires Inv(c, s) && PriorSound(c, s.received) && CollisionFree(c, s.received) && PastDraining(s.phase)
    ensures forall i :: 0 <= i < |s.received| ==> Held(c, s, i)
  {
    forall i | 0 <= i < |s.received|
      ensures Held(c, s, i)
    {
      assert i in s.running + s.stored + s.failed || D(c, s.received[i]) in c.known;
      HeldOnServer(c, s, i);
    }
  }

  /** Then no batch is refused and the writer follows the builder. */
  lemma BatchAccepted(c: Config, s: State)
    requires Inv(c, s) && PriorSound(c, s.received) && CollisionFree(c, s.received)
    requires s.phase == Appending && s.appended < |s.entries|
    ensures var hi := BatchEnd(s);
            AppendBatch(s) == Some(s.(appended := hi, server := s.server.(writer := s.entries[..hi])))
    ensures forall i :: 0 <= i < |s.received| ==> Held(c, s, i)
  {
    DrainedHeld(c, s);
    forall i | s.appended <= i < BatchEnd(s)
      ensures var d := D(c, s.received[i]);
              d in s.server.store && d in s.server.sizes && s.server.sizes[d] == |s.received[i]|
    {
      assert Held(c, s, i);
    }
    AppendRebuilds(c, s.received, s.server, s.appended, BatchEnd(s));
  }

  lemma AppendCore(c: Config, s: State)
    requires Core(c, s) && s.phase == Appending && AppendBatch(s).Some?
    ensures Core(c, AppendBatch(s).value)
    ensures var t := AppendBatch(s).value;
            t == s.(phase := t.phase, appended := t.appended, server := s.server.(writer := t.server.writer))
  {
    var hi := BatchEnd(s);
    if AppendIndex(s.server, s.digests[s.appended..hi], s.offsets[s.appended..hi]).Some? {
      AppendTouchesOnlyWriter(s.server, s.digests[s.appended..hi], s.offsets[s.appended..hi]);
    }
  }

  lemma StepCore(c: Config, s: State, e: Event)
    requires Core(c, s) && Next(c, s, e).Some?
    ensures Core(c, Next(c, s, e).value)
  {
    if e.Receive? {
      ReceiveData(c, s);
      ReceiveTasks(c, s);
    } else if e.UploadDone? || e.UploadFails? {
      UploadTasks(c, s, e);
    } else if e.Append? {
      AppendCore(c, s);
    } else {
      QuietCore(c, s, e);
    }
  }

  lemma StepStore(c: Config, s: State, e: Event)
    requires Laws(c.p) && Core(c, s) && StoreInv(c, s) && Next(c, s, e).Some?
    ensures StoreInv(c, Next(c, s, e).value)
  {
    if e.Receive? {
      assert forall i :: i in s.stored ==> i in s.running + s.stored + s.failed;
      ReceiveStore(c, s);
    } else if e.UploadDone? || e.UploadFails? {
      UploadStore(c, s, e);
    } else if e.Append? {
      AppendCore(c, s);
      StoreFrame(c, s, Next(c, s, e).value);
    } else {
      QuietFrame(c, s, e);
      StoreFrame(c, s, Next(c, s, e).value);
    }
  }

  lemma StepWriter(c: Config, s: State, e: Event)
    requires Inv(c, s) && Next(c, s, e).Some?
    requires var t := Next(c, s, e).value; PriorSound(c, t.received) && CollisionFree(c, t.received)
    ensures WriterInv(Next(c, s, e).value)
  {
    if e.Receive? {
      SoundShrinks(c, s.received, [s.queue[0]]);
    } else if e.UploadDone? || e.UploadFails? {
      UploadFields(c, s, e);
    } else if e.Append? {
      AppendCore(c, s);
      BatchAccepted(c, s);
    } else {
      QuietFrame(c, s, e);
    }
  }

  /** Once everything is appended the writer holds the builder's own index, so closing it succeeds. */
  lemma CloseMatches(c: Config, s: State)
    requires WriterInv(s) && s.appended == |s.entries|
    ensures s.server.writer == s.entries && CloseWriter(c, s).phase == Blobs
  {
    assert s.entries[..|s.entries|] == s.entries;
  }

  lemma StepInv(c: Config, s: State, e: Event)
    requires Inv(c, s) && Next(c, s, e).Some?
    ensures Inv(c, Next(c, s, e).value)
  {
    StepCore(c, s, e);
    if Laws(c.p) { StepStore(c, s, e); }
    var t := Next(c, s, e).value;
    if PriorSound(c, t.received) && CollisionFree(c, t.received) { StepWriter(c, s, e); }
  }

  /** The invariant holds in every reachable state. */
  lemma {:induction false} RunInv(c: Config, es: seq<Event>)
    requires Run(c, es).Some?
    ensures Inv(c, Run(c, es).value)
  {
    if es == [] {
      InitInv(c);
    } else {
      RunInv(c, es[..|es| - 1]);
      StepInv(c, Run(c, es[..|es| - 1]).value, es[|es| - 1]);
    }
  }
}
