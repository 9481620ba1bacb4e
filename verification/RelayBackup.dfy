/**
 * The whole relayed backup: a relay session whose reader is the source of an
 * upload. The two run side by side; they meet only where the uploader's chunker
 * reads, and where it learns how the stream ended.
 */
module RelayBackup {
  import opened Wrappers
  import opened Bytes
  import opened DataBlob
  import opened DynamicIndex
  import opened Proto
  import Restore
  import R = Relay
  import RS = RelaySafety
  import U = Upload
  import RT = RoundTrip

  datatype Config = Config(json: Json, upload: U.Config)

  datatype State = State(relay: R.State, upload: U.State)

  datatype Event =
    | Session(relay: R.Event)   // the relay alone
    | Uploader(upload: U.Event) // the uploader alone
    | Reads(n: nat)             // the chunker reads n bytes
    | ReadEnds                  // the reader reports end of file or an error

  function Init(c: Config): State {
    State(R.Init(), U.Init(c.upload))
  }

  /** What the uploader learns from the reader's end. */
  function EndOf(reading: R.Reading): U.Event {
    if reading == R.Eof then U.SourceEof else U.SourceBreak
  }

  function Pair(r: Option<R.State>, u: Option<U.State>): Option<State> {
    if r.Some? && u.Some? then Some(State(r.value, u.value)) else None
  }

  function Next(c: Config, s: State, e: Event): Option<State> {
    match e
    case Session(re) =>
      if re.ReaderGives? || re.ReaderEnds? then None
      else Pair(R.Next(c.json, s.relay, re), Some(s.upload))
    case Uploader(ue) =>
      if ue.SourceRead? || ue.SourceEof? || ue.SourceBreak? then None
      else Pair(Some(s.relay), U.Next(c.upload, s.upload, ue))
    case Reads(n) =>
      (match R.Next(c.json, s.relay, R.ReaderGives(n))
       case None => None
       case Some(r) =>
         if |r.output| < |s.relay.output| then None
         else Pair(Some(r), U.Next(c.upload, s.upload, U.SourceRead(r.output[|s.relay.output|..]))))
    case ReadEnds =>
      (match R.Next(c.json, s.relay, R.ReaderEnds)
       case None => None
       case Some(r) => Pair(Some(r), U.Next(c.upload, s.upload, EndOf(r.reading))))
  }

  function Run(c: Config, es: seq<Event>): Option<State> {
    if es == [] then Some(Init(c))
    else
      match Run(c, es[..|es| - 1])
      case None => None
      case Some(s) => Next(c, s, es[|es| - 1])
  }

  function Reading(status: U.SourceStatus): R.Reading {
    match status
    case Open => R.Open
    case Eof => R.Eof
    case Broken => R.Broken
  }

  /** The uploader's source is the reader's output so far, ended the way the reader ended. */
  ghost predicate Linked(s: State) {
    s.upload.source.bytes == s.relay.output && Reading(s.upload.source.status) == s.relay.reading
  }

  lemma UploadLeavesSource(c: U.Config, s: U.State, e: U.Event)
    requires U.Next(c, s, e).Some? && !e.SourceRead? && !e.SourceEof? && !e.SourceBreak?
    ensures U.Next(c, s, e).value.source == s.source
  {
    if e.Append? && s.phase == U.Appending {
      assert U.AppendBatch(s).Some? ==> U.AppendBatch(s).value.source == s.source;
    }
  }

  lemma AgentLeavesOutput(j: Json, s: R.State, e: R.Event)
    requires R.Next(j, s, e).Some? && (e.AgentSends? || e.AgentSendBreaks? || e.AgentEnds? || e.AgentEndBreaks?)
    ensures R.Next(j, s, e).value.output == s.output && R.Next(j, s, e).value.reading == s.reading
  {
  }

  lemma PumpLeavesOutput(j: Json, s: R.State)
    requires R.PumpRead(j, s).Some?
    ensures R.PumpRead(j, s).value.output == s.output && R.PumpRead(j, s).value.reading == s.reading
  {
  }

  lemma RelayLeavesOutput(j: Json, s: R.State, e: R.Event)
    requires R.Next(j, s, e).Some? && !e.ReaderGives? && !e.ReaderEnds?
    ensures R.Next(j, s, e).value.output == s.output && R.Next(j, s, e).value.reading == s.reading
  {
    if e.AgentSends? || e.AgentSendBreaks? || e.AgentEnds? || e.AgentEndBreaks? {
      AgentLeavesOutput(j, s, e);
    } else if e.PumpReads? {
      PumpLeavesOutput(j, s);
    }
  }

  lemma StepLinked(c: Config, s: State, e: Event)
    requires Linked(s) && Next(c, s, e).Some?
    ensures Linked(Next(c, s, e).value)
  {
    match e
    case Session(re) => RelayLeavesOutput(c.json, s.relay, re);
    case Uploader(ue) => UploadLeavesSource(c.upload, s.upload, ue);
    case Reads(n) =>
    case ReadEnds =>
  }

  /** The part of a run the uploader sees. */
  function UploadEvents(c: Config, es: seq<Event>): seq<U.Event>
    requires Run(c, es).Some?
  {
    if es == [] then []
    else
      var before := es[..|es| - 1];
      var s := Run(c, before).value;
      var t := Run(c, es).value;
      var past := UploadEvents(c, before);
      match es[|es| - 1]
      case Session(_) => past
      case Uploader(ue) => past + [ue]
      case Reads(_) =>
        if |s.relay.output| <= |t.relay.output| then past + [U.SourceRead(t.relay.output[|s.relay.output|..])] else past
      case ReadEnds => past + [EndOf(t.relay.reading)]
  }

  lemma {:induction false} UploadRunSnoc(c: U.Config, es: seq<U.Event>, e: U.Event)
    requires U.Run(c, es).Some?
    ensures U.Run(c, es + [e]) == U.Next(c, U.Run(c, es).value, e)
  {
    assert (es + [e])[..|es|] == es;
  }

  /** Every run of the whole is a run of the uploader, keeps the relay's invariant and keeps the link. */
  lemma {:induction false} RunProjects(c: Config, es: seq<Event>)
    requires JsonLaws(c.json) && Run(c, es).Some?
    ensures U.Run(c.upload, UploadEvents(c, es)) == Some(Run(c, es).value.upload)
    ensures R.Inv(c.json, Run(c, es).value.relay) && Linked(Run(c, es).value)
  {
    if es == [] {
      RS.InitInv(c.json);
    } else {
      var before := es[..|es| - 1];
      var e := es[|es| - 1];
      RunProjects(c, before);
      var s := Run(c, before).value;
      StepLinked(c, s, e);
      var past := UploadEvents(c, before);
      match e
      case Session(re) => RS.StepInv(c.json, s.relay, re);
      case Uploader(ue) => UploadRunSnoc(c.upload, past, ue);
      case Reads(n) =>
        RS.StepInv(c.json, s.relay, R.ReaderGives(n));
        UploadRunSnoc(c.upload, past, U.SourceRead(Run(c, es).value.relay.output[|s.relay.output|..]));
      case ReadEnds =>
        RS.StepInv(c.json, s.relay, R.ReaderEnds);
        UploadRunSnoc(c.upload, past, EndOf(Run(c, es).value.relay.reading));
    }
  }

  /**
   * Truncation safety, over every interleaving of the device, the agent, the
   * network, the pump, the reader, the chunker and the uploads: if the snapshot is
   * ever committed, the device closed cleanly and what was uploaded is exactly its
   * whole output.
   */
  lemma {:induction false} TruncatedNeverCommits(c: Config, es: seq<Event>, s: State)
    requires JsonLaws(c.json) && Run(c, es) == Some(s) && s.upload.server.committed
    ensures s.relay.device == R.Closed && !s.relay.sendError && s.relay.reading == R.Eof
    ensures Flatten(s.upload.received) == Flatten(s.relay.produced)
  {
    RunProjects(c, es);
    RT.CommittedMeansWhole(c.upload, UploadEvents(c, es), s.upload);
    RS.EofMeansWhole(c.json, s.relay);
  }

  /** End to end: what is restored from such a snapshot is what the device wrote. */
  lemma {:induction false} RestoredIsDeviceOutput(
      c: Config, es: seq<Event>, s: State, ctime: I64, uuid: Block16, later: map<Digest, seq<byte>>)
    requires JsonLaws(c.json) && Run(c, es) == Some(s) && s.upload.server.committed
    requires U.PriorSound(c.upload, s.upload.received) && U.CollisionFree(c.upload, s.upload.received)
    requires RT.StillThere(c.upload, s.upload, later) && |Flatten(s.relay.produced)| < U64_LIMIT
    ensures Restore.RestoreArchive(c.upload.p, c.upload.crypt, later, RT.IndexFile(c.upload, s.upload, ctime, uuid))
            == Ok(Flatten(s.relay.produced))
  {
    RunProjects(c, es);
    TruncatedNeverCommits(c, es, s);
    RT.CommittedMeansWhole(c.upload, UploadEvents(c, es), s.upload);
    RT.BackupThenRestore(c.upload, UploadEvents(c, es), s.upload, ctime, uuid, later);
  }
}
