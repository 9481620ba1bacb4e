/**
 * The deduplicated upload of a byte stream (`backup_dynamic_reader`) as a
 * transition system: a chunker task, a bounded channel, the receiving loop, a
 * bounded set of concurrent upload tasks, the batched index append, and a small
 * server (chunk store and index writer). Every event may happen in any order its
 * guard allows, and any request may fail.
 */
module Upload {
  import opened Wrappers
  import opened Bytes
  import opened DataBlob
  import opened DynamicIndex

  const APPEND_BATCH: nat := 64
  const CHANNEL_CAPACITY: nat := 8

  // ---------------------------------------------------------------- state

  datatype SourceStatus = Open | Eof | Broken

  /** What the reader has yielded so far, and whether it ended and how. */
  datatype Source = Source(bytes: seq<byte>, status: SourceStatus)

  datatype Chunker = Chunking | ChunkedOk | ChunkedErr

  datatype Phase = Receiving | Draining | Appending | Joining | Closing | Blobs | Finishing | Finished | Aborted

  /** The backup server: stored chunk blobs with their plaintext sizes, and the open index writer. */
  datatype Server = Server(store: map<Digest, seq<byte>>, sizes: map<Digest, nat>,
                           writer: seq<Entry>, closed: bool, committed: bool)

  datatype Stats = Stats(chunks: nat, reused: nat, uploaded: nat, uploadedBytes: nat, reusedBytes: nat)

  datatype Config = Config(p: Primitives, crypt: Option<Key>, compress: bool, width: nat,
                           known: set<Digest>, store: map<Digest, seq<byte>>, sizes: map<Digest, nat>)

  /**
   * `received` holds the chunk data the upload tasks own; a task is named by the
   * index of its chunk and is running, stored (the server accepted it) or failed.
   */
  datatype State = State(
    source: Source, cut: nat, chunker: Chunker, queue: seq<seq<byte>>,
    phase: Phase, received: seq<seq<byte>>,
    endOffset: nat, entries: seq<Entry>, digests: seq<Digest>, offsets: seq<nat>, stats: Stats,
    running: set<nat>, stored: set<nat>, failed: set<nat>,
    appended: nat, server: Server)

  datatype Event =
    | SourceRead(bytes: seq<byte>) | SourceEof | SourceBreak
    | Cut(n: nat) | ChunkerEof | ChunkerFails | ChunkerSendFails
    | Receive
    | UploadDone(i: nat, iv: Block16, keepOld: bool)
    | UploadFails(i: nat, iv: Block16, landed: bool)
    | Reap | EndOfChunks | Drained | Append | Appended | Join | Close | PutBlobs
    | Finish(processed: bool, answered: bool)
    | RequestFails

  function Init(c: Config): State {
    State(Source([], Open), 0, Chunking, [], Receiving, [], 0, [], [], [], Stats(0, 0, 0, 0, 0),
          {}, {}, {}, 0, Server(c.store, c.sizes, [], false, false))
  }

  function D(c: Config, data: seq<byte>): Digest {
    ChunkDigest(c.p, c.crypt, data)
  }

  // ---------------------------------------------------------------- server

  /** Store a chunk; a digest already present may keep its old blob or take the new one. */
  function PutChunk(c: Config, server: Server, data: seq<byte>, iv: Block16, keepOld: bool): Server {
    var d := D(c, data);
    var blob := EncodeChunk(c.p, c.crypt, c.compress, iv, data);
    server.(store := if keepOld && d in server.store then server.store else server.store[d := blob],
            sizes := server.sizes[d := |data|])
  }

  /** Append references by digest and START offset; the server derives each end from the chunk size. */
  function AppendIndex(server: Server, digests: seq<Digest>, offsets: seq<nat>): Option<Server>
    requires |digests| == |offsets|
    decreases |digests|
  {
    if digests == [] then Some(server)
    else if digests[0] !in server.store || digests[0] !in server.sizes
            || offsets[0] != TotalSize(server.writer) then None
    else
      var entry := Entry(offsets[0] + server.sizes[digests[0]], digests[0]);
      AppendIndex(server.(writer := server.writer + [entry]), digests[1..], offsets[1..])
  }

  function CloseIndex(p: Primitives, server: Server, count: nat, size: nat, csum: Digest): Option<Server> {
    if count == |server.writer| && size == TotalSize(server.writer) && csum == Csum(p, server.writer)
    then Some(server.(closed := true)) else None
  }

  // ---------------------------------------------------------------- steps

  function Abort(s: State): State {
    s.(phase := Aborted)
  }

  function ReceiveChunk(c: Config, s: State): Option<State> {
    if s.queue == [] then None
    else
      var data := s.queue[0];
      var d := D(c, data);
      var end := s.endOffset + |data|;
      var known := d in c.known;
      if !known && |s.running| >= c.width then None
      else
        var st := s.stats;
        Some(s.(queue := s.queue[1..], received := s.received + [data], endOffset := end,
                entries := s.entries + [Entry(end, d)], digests := s.digests + [d],
                offsets := s.offsets + [s.endOffset],
                stats := if known
                         then st.(chunks := st.chunks + 1, reused := st.reused + 1,
                                  reusedBytes := st.reusedBytes + |data|)
                         else st.(chunks := st.chunks + 1, uploaded := st.uploaded + 1,
                                  uploadedBytes := st.uploadedBytes + |data|),
                running := if known then s.running else s.running + {|s.received|}))
  }

  function BatchEnd(s: State): nat {
    if s.appended + APPEND_BATCH <= |s.entries| then s.appended + APPEND_BATCH else |s.entries|
  }

  function AppendBatch(s: State): Option<State> {
    if s.appended >= |s.entries| || |s.digests| != |s.entries| || |s.offsets| != |s.entries| then None
    else
      var hi := BatchEnd(s);
      match AppendIndex(s.server, s.digests[s.appended..hi], s.offsets[s.appended..hi])
      case None => Some(Abort(s))
      case Some(server) => Some(s.(appended := hi, server := server))
  }

  function CloseWriter(c: Config, s: State): State {
    match CloseIndex(c.p, s.server, |s.entries|, TotalSize(s.entries), Csum(c.p, s.entries))
    case None => Abort(s)
    case Some(server) => s.(server := server, phase := Blobs)
  }

  function When(guard: bool, s: State): Option<State> {
    if guard then Some(s) else None
  }

  function Next(c: Config, s: State, e: Event): Option<State> {
    match e
    case SourceRead(bytes) =>
      When(s.source.status == Open, s.(source := s.source.(bytes := s.source.bytes + bytes)))
    case SourceEof => When(s.source.status == Open, s.(source := s.source.(status := Eof)))
    case SourceBreak => When(s.source.status == Open, s.(source := s.source.(status := Broken)))
    case Cut(n) =>
      if s.chunker == Chunking && |s.queue| < CHANNEL_CAPACITY && s.cut + n <= |s.source.bytes|
      then Some(s.(cut := s.cut + n, queue := s.queue + [s.source.bytes[s.cut..s.cut + n]])) else None
    case ChunkerEof =>
      When(s.chunker == Chunking && s.source.status == Eof && s.cut == |s.source.bytes|, s.(chunker := ChunkedOk))
    case ChunkerFails => When(s.chunker == Chunking && s.source.status == Broken, s.(chunker := ChunkedErr))
    case ChunkerSendFails => When(s.chunker == Chunking && s.phase == Aborted, s.(chunker := ChunkedOk))
    case Receive => if s.phase == Receiving then ReceiveChunk(c, s) else None
    case UploadDone(i, iv, keepOld) =>
      if i in s.running && i < |s.received|
      then Some(s.(running := s.running - {i}, stored := s.stored + {i},
                   server := PutChunk(c, s.server, s.received[i], iv, keepOld)))
      else None
    case UploadFails(i, iv, landed) =>
      if i in s.running && i < |s.received|
      then Some(s.(running := s.running - {i}, failed := s.failed + {i},
                   server := if landed then PutChunk(c, s.server, s.received[i], iv, false) else s.server))
      else None
    case Reap => When(s.failed != {} && (s.phase == Receiving || s.phase == Draining), Abort(s))
    case EndOfChunks =>
      When(s.phase == Receiving && s.queue == [] && s.chunker != Chunking, s.(phase := Draining))
    case Drained => When(s.phase == Draining && s.running == {} && s.failed == {}, s.(phase := Appending))
    case Append => if s.phase == Appending then AppendBatch(s) else None
    case Appended => When(s.phase == Appending && s.appended >= |s.entries|, s.(phase := Joining))
    case Join =>
      When(s.phase == Joining && s.chunker != Chunking,
           if s.chunker == ChunkedOk then s.(phase := Closing) else Abort(s))
    case Close => When(s.phase == Closing, CloseWriter(c, s))
    case PutBlobs => When(s.phase == Blobs, s.(phase := Finishing))
    case Finish(processed, answered) =>
      When(s.phase == Finishing,
           s.(server := s.server.(committed := processed),
              phase := if processed && answered then Finished else Aborted))
    case RequestFails => When(s.phase != Finished, Abort(s))
  }

  /** The state after a run, or None when some event's guard was false. */
  function Run(c: Config, es: seq<Event>): Option<State> {
    if es == [] then Some(Init(c))
    else
      match Run(c, es[..|es| - 1])
      case None => None
      case Some(s) => Next(c, s, es[|es| - 1])
  }

  // ---------------------------------------------------------------- what a chunk list means

  /** Cumulative end offset and digest of every chunk. */
  function EntriesOf(c: Config, chunks: seq<seq<byte>>): (es: seq<Entry>)
    ensures |es| == |chunks|
  {
    if chunks == [] then []
    else
      var last := |chunks| - 1;
      EntriesOf(c, chunks[..last]) + [Entry(|Flatten(chunks)|, D(c, chunks[last]))]
  }

  function DigestsOf(c: Config, chunks: seq<seq<byte>>): (ds: seq<Digest>)
    ensures |ds| == |chunks|
  {
    if chunks == [] then []
    else DigestsOf(c, chunks[..|chunks| - 1]) + [D(c, chunks[|chunks| - 1])]
  }

  function OffsetsOf(chunks: seq<seq<byte>>): (os: seq<nat>)
    ensures |os| == |chunks|
  {
    if chunks == [] then []
    else OffsetsOf(chunks[..|chunks| - 1]) + [|Flatten(chunks[..|chunks| - 1])|]
  }

  lemma {:induction false} ChunkListAt(c: Config, chunks: seq<seq<byte>>, i: nat)
    requires i < |chunks|
    ensures DigestsOf(c, chunks)[i] == D(c, chunks[i])
    ensures OffsetsOf(chunks)[i] == |Flatten(chunks[..i])|
    ensures EntriesOf(c, chunks)[i] == Entry(|Flatten(chunks[..i])| + |chunks[i]|, D(c, chunks[i]))
    decreases |chunks|
  {
    var last := |chunks| - 1;
    if i < last {
      ChunkListAt(c, chunks[..last], i);
      assert chunks[..last][..i] == chunks[..i];
    } else {
      FlattenSnoc(chunks[..last], chunks[last]);
      assert chunks == chunks[..last] + [chunks[last]];
    }
  }

  lemma ChunkListSnoc(c: Config, chunks: seq<seq<byte>>, data: seq<byte>)
    ensures DigestsOf(c, chunks + [data]) == DigestsOf(c, chunks) + [D(c, data)]
    ensures OffsetsOf(chunks + [data]) == OffsetsOf(chunks) + [|Flatten(chunks)|]
    ensures EntriesOf(c, chunks + [data]) == EntriesOf(c, chunks) + [Entry(|Flatten(chunks)| + |data|, D(c, data))]
  {
    var all := chunks + [data];
    assert all[..|all| - 1] == chunks;
    FlattenSnoc(chunks, data);
  }

  // ---------------------------------------------------------------- assumptions on the datastore

  /** The plaintext a stored blob holds, when it decodes and verifies under this key mode. */
  function Plain(c: Config, store: map<Digest, seq<byte>>, d: Digest): Result<seq<byte>, BlobError>
    requires d in store
  {
    DecodeAndVerify(c.p, c.crypt, store[d], d)
  }

  /**
   * What the run needs of the datastore it finds, and only for its own chunks: what is already stored
   * under a chunk's digest is that chunk, readable under this key mode, and a chunk taken over from the
   * previous index is there with its size. Chunks of other jobs, keys and key modes may lie beside them.
   */
  ghost predicate PriorSound(c: Config, chunks: seq<seq<byte>>) {
    && Laws(c.p)
    && (forall x :: x in chunks && D(c, x) in c.store ==> Plain(c, c.store, D(c, x)) == Ok(x))
    && (forall x :: x in chunks && D(c, x) in c.known ==>
          D(c, x) in c.store && D(c, x) in c.sizes && c.sizes[D(c, x)] == |x|)
  }

  /** No two different chunks of the run share a digest. */
  ghost predicate CollisionFree(c: Config, chunks: seq<seq<byte>>) {
    forall x, y :: x in chunks && y in chunks && D(c, x) == D(c, y) ==> x == y
  }

  /** A blob of any other job, key or key mode may come or go without making a difference. */
  lemma ForeignChunksDoNotMatter(c: Config, chunks: seq<seq<byte>>, d: Digest, blob: seq<byte>)
    requires forall x :: x in chunks ==> D(c, x) != d
    ensures PriorSound(c, chunks) <==> PriorSound(c.(store := c.store[d := blob]), chunks)
  {
    var more := c.(store := c.store[d := blob]);
    forall x | x in chunks
      ensures D(more, x) == D(c, x) && (D(c, x) in more.store <==> D(c, x) in c.store)
      ensures D(c, x) in c.store ==> Plain(more, more.store, D(c, x)) == Plain(c, c.store, D(c, x))
    {
    }
  }
}
