/** An upload that nothing has failed can always be finished: it never blocks itself, and the server refuses nothing. */
module UploadProgress {
  import opened Wrappers
  import opened Bytes
  import opened DataBlob
  import opened Upload
  import opened UploadSafety

  /** No request, task or read has failed so far. */
  predicate Unfailed(s: State) {
    s.phase != Aborted && s.failed == {} && s.source.status != Broken && s.chunker != ChunkedErr
  }

  /** The bytes not yet cut, as the last chunk to come. */
  function Tail(s: State): seq<seq<byte>> {
    if s.cut < |s.source.bytes| then [s.source.bytes[s.cut..]] else []
  }

  /** The chunks of the finished archive, if the rest of the stream is cut in one piece. */
  function Chunks(s: State): seq<seq<byte>> {
    s.received + s.queue + Tail(s)
  }

  function Rank(s: State): nat {
    match s.phase
    case Receiving => 8
    case Draining => 7
    case Appending => 6
    case Joining => 5
    case Closing => 4
    case Blobs => 3
    case Finishing => 2
    case _ => 0
  }

  /** What is left to do within a phase. */
  function Work(s: State): nat {
    if s.phase == Appending then (if s.appended <= |s.entries| then |s.entries| - s.appended else 0)
    else
      (if s.source.status == Open then 4 else 0) + 2 * |s.queue| + |s.running|
      + (if s.chunker != Chunking then 0 else if s.cut < |s.source.bytes| then 10 else 5)
  }

  /** One step nearer: same stream, same chunks, less to do. */
  ghost predicate Nearer(c: Config, s: State, t: State) {
    && Unfailed(t) && t.source.bytes == s.source.bytes && Chunks(t) == Chunks(s)
    && (Rank(t) < Rank(s) || (Rank(t) == Rank(s) && Work(t) < Work(s)))
  }

  /** Steps that leave the stream and its chunks alone. */
  predicate SameStream(s: State, t: State) {
    && t.source == s.source && t.cut == s.cut && t.queue == s.queue && t.received == s.received
    && t.chunker == s.chunker && t.failed == s.failed
  }

  lemma SameStreamNearer(c: Config, s: State, t: State)
    requires SameStream(s, t) && Unfailed(s) && t.phase != Aborted
    requires Rank(t) < Rank(s) || (Rank(t) == Rank(s) && Work(t) < Work(s))
    ensures Nearer(c, s, t)
  {
  }

  lemma UploadStep(c: Config, s: State, i: nat, iv: Block16)
    requires Unfailed(s) && i in s.running && i < |s.received| && (s.phase == Receiving || s.phase == Draining)
    ensures var t := Next(c, s, UploadDone(i, iv, false)); t.Some? && Nearer(c, s, t.value)
  {
    UploadFields(c, s, UploadDone(i, iv, false));
    var t := Next(c, s, UploadDone(i, iv, false)).value;
    assert s.running == t.running + {i} && |s.running| == |t.running| + 1;
    SameStreamNearer(c, s, t);
  }

  lemma ReceiveStep(c: Config, s: State)
    requires Unfailed(s) && s.phase == Receiving && s.running == {} && s.queue != [] && c.width > 0
    ensures Next(c, s, Receive).Some? && Nearer(c, s, Next(c, s, Receive).value)
  {
    var t := Next(c, s, Receive).value;
    assert s.queue == [s.queue[0]] + s.queue[1..];
    assert t.received + t.queue == s.received + s.queue;
    assert |t.running| <= 1;
  }

  lemma CutStep(c: Config, s: State)
    requires Unfailed(s) && s.phase == Receiving && s.queue == [] && s.chunker == Chunking && s.cut < |s.source.bytes|
    ensures var t := Next(c, s, Cut(|s.source.bytes| - s.cut)); t.Some? && Nearer(c, s, t.value)
  {
    var t := Next(c, s, Cut(|s.source.bytes| - s.cut)).value;
    assert s.source.bytes[s.cut..|s.source.bytes|] == s.source.bytes[s.cut..];
    assert t.queue == Tail(s) && Tail(t) == [];
    assert Chunks(t) == s.received + [] + Tail(s);
  }

  /** Nothing queued or running: end the stream, or the loop. */
  lemma EndStep(c: Config, s: State) returns (e: Event)
    requires PhaseInv(s) && Unfailed(s) && s.phase == Receiving && s.running == {} && s.queue == []
    requires s.cut <= |s.source.bytes|
    requires s.chunker == Chunking ==> s.cut == |s.source.bytes| || s.source.status == Open
    ensures Next(c, s, e).Some? && Nearer(c, s, Next(c, s, e).value)
  {
    e := if s.chunker != Chunking then EndOfChunks else if s.source.status == Open then SourceEof else ChunkerEof;
  }

  lemma ReceivingStep(c: Config, s: State, iv: Block16) returns (e: Event)
    requires Core(c, s) && Unfailed(s) && s.phase == Receiving && c.width > 0
    ensures Next(c, s, e).Some? && Nearer(c, s, Next(c, s, e).value)
  {
    if s.running != {} {
      var i :| i in s.running;
      assert i in s.running + s.stored + s.failed;
      e := UploadDone(i, iv, false);
      UploadStep(c, s, i, iv);
    } else if s.queue != [] {
      e := Receive;
      ReceiveStep(c, s);
    } else if s.chunker == Chunking && s.source.status != Open && s.cut < |s.source.bytes| {
      e := Cut(|s.source.bytes| - s.cut);
      CutStep(c, s);
    } else {
      e := EndStep(c, s);
    }
  }

  lemma DrainingStep(c: Config, s: State, iv: Block16) returns (e: Event)
    requires Core(c, s) && Unfailed(s) && s.phase == Draining
    ensures Next(c, s, e).Some? && Nearer(c, s, Next(c, s, e).value)
  {
    if s.running != {} {
      var i :| i in s.running;
      assert i in s.running + s.stored + s.failed;
      e := UploadDone(i, iv, false);
      UploadStep(c, s, i, iv);
    } else {
      e := Drained;
      PhaseStep(c, s, e, Appending);
    }
  }

  lemma AppendNearer(c: Config, s: State, server: Server)
    requires Unfailed(s) && s.phase == Appending && s.appended < |s.entries|
    requires AppendBatch(s) == Some(s.(appended := BatchEnd(s), server := server))
    ensures Next(c, s, Append).Some? && Nearer(c, s, Next(c, s, Append).value)
  {
    SameStreamNearer(c, s, s.(appended := BatchEnd(s), server := server));
  }

  lemma AppendStep(c: Config, s: State)
    requires Inv(c, s) && Unfailed(s) && s.phase == Appending && PriorSound(c, s.received)
             && CollisionFree(c, s.received)
    requires s.appended < |s.entries|
    ensures Next(c, s, Append).Some? && Nearer(c, s, Next(c, s, Append).value)
  {
    BatchAccepted(c, s);
    AppendNearer(c, s, s.server.(writer := s.entries[..BatchEnd(s)]));
  }

  lemma PhaseStep(c: Config, s: State, e: Event, phase: Phase)
    requires Unfailed(s) && Next(c, s, e) == Some(s.(phase := phase))
    requires phase != Aborted && Rank(s.(phase := phase)) < Rank(s)
    ensures Nearer(c, s, Next(c, s, e).value)
  {
    SameStreamNearer(c, s, s.(phase := phase));
  }

  lemma ClosingStep(c: Config, s: State)
    requires PhaseInv(s) && WriterInv(s) && Unfailed(s) && s.phase == Closing
    ensures Next(c, s, Close).Some? && Nearer(c, s, Next(c, s, Close).value)
  {
    CloseMatches(c, s);
    SameStreamNearer(c, s, Next(c, s, Close).value);
  }

  lemma LastStep(c: Config, s: State) returns (e: Event)
    requires PhaseInv(s) && Unfailed(s) && (s.phase == Joining || s.phase == Blobs || s.phase == Finishing)
    ensures Next(c, s, e).Some? && Nearer(c, s, Next(c, s, e).value)
  {
    if s.phase == Joining {
      e := Join;
      PhaseStep(c, s, e, Closing);
    } else if s.phase == Blobs {
      e := PutBlobs;
      PhaseStep(c, s, e, Finishing);
    } else {
      e := Finish(true, true);
      SameStreamNearer(c, s, Next(c, s, e).value);
    }
  }

  lemma AppendedStep(c: Config, s: State)
    requires Unfailed(s) && s.phase == Appending && s.appended >= |s.entries|
    ensures Next(c, s, Appended).Some? && Nearer(c, s, Next(c, s, Appended).value)
  {
    PhaseStep(c, s, Appended, Joining);
  }

  lemma LateStep(c: Config, s: State) returns (e: Event)
    requires Inv(c, s) && Unfailed(s) && PastDraining(s.phase) && s.phase != Finished
    requires PriorSound(c, s.received) && CollisionFree(c, s.received)
    ensures Next(c, s, e).Some? && Nearer(c, s, Next(c, s, e).value)
  {
    if s.phase == Appending && s.appended < |s.entries| {
      e := Append;
      AppendStep(c, s);
    } else if s.phase == Appending {
      e := Appended;
      AppendedStep(c, s);
    } else if s.phase == Closing {
      e := Close;
      ClosingStep(c, s);
    } else {
      e := LastStep(c, s);
    }
  }

  lemma Step(c: Config, s: State, iv: Block16) returns (e: Event)
    requires Inv(c, s) && Unfailed(s) && s.phase != Finished && c.width > 0
    requires PriorSound(c, Chunks(s)) && CollisionFree(c, Chunks(s))
    ensures Next(c, s, e).Some? && Nearer(c, s, Next(c, s, e).value)
  {
    if s.phase == Receiving {
      e := ReceivingStep(c, s, iv);
    } else if s.phase == Draining {
      e := DrainingStep(c, s, iv);
    } else {
      Associative(s.received, s.queue, Tail(s));
      SoundShrinks(c, s.received, s.queue + Tail(s));
      e := LateStep(c, s);
    }
  }

  /** Running on from a state. */
  function Steps(c: Config, s: State, es: seq<Event>): Option<State>
    decreases |es|
  {
    if es == [] then Some(s)
    else
      match Next(c, s, es[0])
      case None => None
      case Some(t) => Steps(c, t, es[1..])
  }

  lemma {:induction false} StepsCons(c: Config, s: State, e: Event, t: State, es: seq<Event>)
    requires Next(c, s, e) == Some(t)
    ensures Steps(c, s, [e] + es) == Steps(c, t, es)
  {
    assert ([e] + es)[1..] == es;
  }

  lemma {:induction false} StepsToFinish(c: Config, s: State, iv: Block16) returns (es: seq<Event>, t: State)
    requires Inv(c, s) && Unfailed(s) && c.width > 0 && PriorSound(c, Chunks(s)) && CollisionFree(c, Chunks(s))
    ensures Steps(c, s, es) == Some(t) && Inv(c, t) && t.phase == Finished && t.source.bytes == s.source.bytes
    decreases Rank(s), Work(s)
  {
    if s.phase == Finished {
      es, t := [], s;
    } else {
      var e := Step(c, s, iv);
      var next := Next(c, s, e).value;
      StepInv(c, s, e);
      var rest;
      rest, t := StepsToFinish(c, next, iv);
      StepsCons(c, s, e, next, rest);
      es := [e] + rest;
    }
  }

  /**
   * Every run that nothing has failed yet - with any queue, any uploads in flight, any part of the index
   * appended - can be continued to a committed snapshot of the stream it has read.
   */
  lemma {:induction false} UnfailedCanFinish(c: Config, es: seq<Event>, s: State, iv: Block16)
    returns (more: seq<Event>, t: State)
    requires Run(c, es) == Some(s) && Unfailed(s) && c.width > 0
    requires PriorSound(c, Chunks(s)) && CollisionFree(c, Chunks(s))
    ensures Steps(c, s, more) == Some(t) && t.server.committed
            && t.phase == Finished && t.source.bytes == s.source.bytes
  {
    RunInv(c, es);
    more, t := StepsToFinish(c, s, iv);
  }
}
