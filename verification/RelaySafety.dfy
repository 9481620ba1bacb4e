/** The truncation rule of the relay, over every run. */
module RelaySafety {
  import opened Wrappers
  import opened Bytes
  import opened Proto
  import opened Relay

  /** The frames of the connection the pump has not consumed yet. */
  function Remaining(s: State): seq<Frame>
    requires |s.forwarded| <= |s.sent|
  {
    WireFrames(s)[|s.forwarded|..]
  }

  /** A prefix of an encoded frame and what follows reads as that frame or as nothing yet. */
  lemma ReadPrefix(j: Json, f: Frame, tail: seq<byte>, m: nat)
    requires JsonLaws(j) && Fits(j, f) && m <= |Encode(j, f)| + |tail|
    ensures var r := ReadOne(j, (Encode(j, f) + tail)[..m]);
            if m >= |Encode(j, f)| then r == Got(f, |Encode(j, f)|) else !r.Got?
  {
    var whole := Encode(j, f) + tail;
    if m >= |Encode(j, f)| {
      var rest := tail[..m - |Encode(j, f)|];
      assert whole[..m] == Encode(j, f) + rest;
      ReadWhole(j, f, rest);
    } else {
      assert whole[..m] == Encode(j, f)[..m];
      ReadCut(j, f, m);
    }
  }

  lemma SliceAfter(a: seq<byte>, rest: seq<byte>, to: nat)
    requires |a| <= to <= |a + rest|
    ensures (a + rest)[|a|..to] == rest[..to - |a|]
  {
  }

  /** Past what the pump consumed, the connection holds the remaining frames and then the torn part. */
  lemma PendingIs(j: Json, s: State)
    requires WireInv(j, s) && PumpInv(j, s) && s.pumping
    ensures s.arrived - s.pumpPos <= |EncodeAll(j, Remaining(s)) + TornBytes(j, s)|
    ensures Pending(j, s) == (EncodeAll(j, Remaining(s)) + TornBytes(j, s))[..s.arrived - s.pumpPos]
  {
    var k := |s.forwarded|;
    var fs := WireFrames(s);
    assert fs[..k] == DataFrames(s.forwarded);
    assert fs == fs[..k] + fs[k..];
    EncodeAllConcat(j, fs[..k], fs[k..]);
    Associative(EncodeAll(j, fs[..k]), EncodeAll(j, fs[k..]), TornBytes(j, s));
    var rest := EncodeAll(j, fs[k..]) + TornBytes(j, s);
    assert Wire(j, s) == EncodeAll(j, fs[..k]) + rest;
    SliceAfter(EncodeAll(j, fs[..k]), rest, s.arrived);
  }

  /** The pump only ever reads the next frame the agent wrote, byte for byte. */
  lemma PumpSees(j: Json, s: State)
    requires JsonLaws(j) && WireInv(j, s) && PumpInv(j, s) && s.pumping
    ensures match ReadOne(j, Pending(j, s))
            case Got(frame, size) =>
              Remaining(s) != [] && frame == Remaining(s)[0] && size == |Encode(j, frame)|
              && s.pumpPos + size <= s.arrived
            case _ => true
  {
    PendingIs(j, s);
    var m := s.arrived - s.pumpPos;
    var rest := Remaining(s);
    if rest != [] {
      var tail := EncodeAll(j, rest[1..]) + TornBytes(j, s);
      Associative(Encode(j, rest[0]), EncodeAll(j, rest[1..]), TornBytes(j, s));
      assert EncodeAll(j, rest) + TornBytes(j, s) == Encode(j, rest[0]) + tail;
      ReadPrefix(j, rest[0], tail, m);
    } else if s.torn.Some? {
      var t := s.torn.value;
      assert Pending(j, s) == Encode(j, t.frame)[..m];
      ReadCut(j, t.frame, m);
    }
  }

  lemma PumpData(j: Json, s: State, t: State)
    requires Inv(j, s) && s.pumping && |s.dataQueue| < DATA_QUEUE && |s.forwarded| < |s.sent|
    requires var bytes := s.sent[|s.forwarded|];
             t == s.(pumpPos := s.pumpPos + |Encode(j, Data(bytes))|, dataQueue := s.dataQueue + [bytes],
                     forwarded := s.forwarded + [bytes])
             && t.pumpPos <= s.arrived
    ensures PumpInv(j, t) && ReaderInv(t)
  {
    var bytes := s.sent[|s.forwarded|];
    assert t.forwarded == s.sent[..|s.forwarded| + 1];
    assert DataFrames(t.forwarded) == DataFrames(s.forwarded) + [Data(bytes)];
    EncodeAllConcat(j, DataFrames(s.forwarded), [Data(bytes)]);
    EncodeAllOne(j, Data(bytes));
    FlattenSnoc(s.dataQueue, bytes);
    FlattenSnoc(s.forwarded, bytes);
    Associative(s.output + s.buf[s.pos..], Flatten(s.dataQueue), bytes);
  }

  /** A pump step takes the next data buffer, or the End frame once every buffer is forwarded. */
  lemma PumpShape(j: Json, s: State)
    requires JsonLaws(j) && WireInv(j, s) && PumpInv(j, s) && PumpRead(j, s).Some?
    ensures var t := PumpRead(j, s).value;
            if t.pumping then
              && |s.dataQueue| < DATA_QUEUE && |s.forwarded| < |s.sent| && t.pumpPos <= s.arrived
              && var bytes := s.sent[|s.forwarded|];
                 t == s.(pumpPos := s.pumpPos + |Encode(j, Data(bytes))|, dataQueue := s.dataQueue + [bytes],
                         forwarded := s.forwarded + [bytes])
            else
              && s.forwarded == s.sent && s.end.Some?
              && t == s.(pumpPos := t.pumpPos, pumping := false,
                         verdict := if s.end.value.End? then Some(s.end.value.ok) else None)
  {
    PumpSees(j, s);
    assert Remaining(s)[0] == WireFrames(s)[|s.forwarded|];
  }

  lemma PumpStep(j: Json, s: State)
    requires JsonLaws(j) && Inv(j, s) && PumpRead(j, s).Some?
    ensures Inv(j, PumpRead(j, s).value)
  {
    PumpShape(j, s);
    var t := PumpRead(j, s).value;
    SameWire(j, s, t);
    if t.pumping { PumpData(j, s, t); }
  }

  lemma SameWire(j: Json, s: State, t: State)
    requires WireInv(j, s) && t.sent == s.sent && t.end == s.end && t.torn == s.torn
    requires s.broken ==> t.broken
    requires t.arrived <= |Wire(j, s)|
    ensures WireInv(j, t) && Wire(j, t) == Wire(j, s)
  {
    assert WireFrames(t) == WireFrames(s);
  }

  /** Accepting more bytes never changes the ones already accepted. */
  lemma WireGrows(j: Json, s: State, t: State)
    requires s.torn.None? && WireFrames(s) <= WireFrames(t)
    ensures Wire(j, s) <= Wire(j, t)
  {
    var more := WireFrames(t)[|WireFrames(s)|..];
    assert WireFrames(t) == WireFrames(s) + more;
    EncodeAllConcat(j, WireFrames(s), more);
  }

  /** One more data frame, whole or torn. */
  lemma SentGrows(j: Json, s: State, t: State, bytes: seq<byte>)
    requires WireInv(j, s) && PumpInv(j, s) && s.torn.None? && s.end.None? && Fits(j, Data(bytes))
    requires t.sent == s.sent + [bytes] && t.torn.None? && t.end.None?
    requires t.arrived == s.arrived && t.forwarded == s.forwarded && t.pumping == s.pumping
    requires t.pumpPos == s.pumpPos && t.verdict == s.verdict && t.dataQueue == s.dataQueue
    ensures WireInv(j, t) && PumpInv(j, t)
  {
    assert WireFrames(t) == WireFrames(s) + [Data(bytes)];
    WireGrows(j, s, t);
  }

  lemma EndGrows(j: Json, s: State, t: State, msg: ControlMsg)
    requires WireInv(j, s) && PumpInv(j, s) && s.torn.None? && s.end.None? && Fits(j, Control(msg))
    requires t.sent == s.sent && t.torn.None? && t.end == Some(msg)
    requires t.arrived == s.arrived && t.forwarded == s.forwarded && t.pumping == s.pumping
    requires t.pumpPos == s.pumpPos && t.verdict == s.verdict && t.dataQueue == s.dataQueue
    ensures WireInv(j, t) && PumpInv(j, t)
  {
    assert WireFrames(t) == WireFrames(s) + [Control(msg)];
    WireGrows(j, s, t);
  }

  lemma TearStep(j: Json, s: State, t: State, f: Frame, n: nat)
    requires WireInv(j, s) && PumpInv(j, s) && !s.broken && s.end.None? && Fits(j, f)
    requires var u := Tear(j, s, f, n);
             t.sent == u.sent && t.torn == u.torn && t.end == u.end && t.broken
    requires t.arrived == s.arrived && t.forwarded == s.forwarded && t.pumping == s.pumping
    requires t.pumpPos == s.pumpPos && t.verdict == s.verdict && t.dataQueue == s.dataQueue
    ensures WireInv(j, t) && PumpInv(j, t)
  {
    if n < |Encode(j, f)| {
      assert WireFrames(t) == WireFrames(s);
    } else if f.Data? {
      SentGrows(j, s, t, f.payload);
    } else {
      EndGrows(j, s, t, f.msg);
    }
  }

  predicate ReaderEvent(e: Event) {
    e.ReaderReceives? || e.ReaderGives? || e.ReaderEnds?
  }

  predicate WritesWire(e: Event) {
    e.AgentSends? || e.AgentSendBreaks? || e.AgentEnds? || e.AgentEndBreaks?
  }

  predicate HostEvent(e: Event) {
    WritesWire(e) || e.DeviceWrites? || e.DeviceWriteLost? || e.DeviceCloses? || e.DeviceFaults?
    || e.AgentDrains? || e.AgentDies?
  }

  /** Which fields each side's events may touch. */
  lemma ProxyFields(j: Json, s: State, e: Event)
    requires Next(j, s, e).Some? && !e.PumpReads? && !HostEvent(e)
    ensures var t := Next(j, s, e).value;
            t == s.(broken := t.broken, arrived := t.arrived, cut := t.cut, pumping := t.pumping,
                    dataQueue := t.dataQueue, buf := t.buf, pos := t.pos, output := t.output, reading := t.reading)
            && (s.broken ==> t.broken) && s.arrived <= t.arrived && (!e.Arrive? ==> t.arrived == s.arrived)
            && (t.pumping ==> s.pumping)
            && (!ReaderEvent(e) ==> t.dataQueue == s.dataQueue && t.buf == s.buf && t.pos == s.pos
                                    && t.output == s.output && t.reading == s.reading)
  {
  }

  lemma DeviceFields(j: Json, s: State, e: Event)
    requires Next(j, s, e).Some? && HostEvent(e) && !WritesWire(e)
    ensures var t := Next(j, s, e).value;
            t == s.(device := t.device, produced := t.produced, devQueue := t.devQueue,
                    agent := t.agent, broken := t.broken)
            && (s.broken ==> t.broken)
  {
  }

  lemma TearFields(j: Json, s: State, f: Frame, n: nat)
    ensures var t := Tear(j, s, f, n);
            t == s.(sent := t.sent, end := t.end, torn := t.torn, broken := true)
  {
  }

  lemma WriteFields(j: Json, s: State, e: Event)
    requires Next(j, s, e).Some? && WritesWire(e)
    ensures var t := Next(j, s, e).value;
            t == s.(devQueue := t.devQueue, agent := t.agent, sendError := t.sendError,
                    sent := t.sent, end := t.end, torn := t.torn, broken := t.broken)
  {
    if e.AgentSendBreaks? && s.devQueue != [] { TearFields(j, s, Data(s.devQueue[0]), e.n); }
    if e.AgentEndBreaks? { TearFields(j, s, Control(EndMsg(s, e.error)), e.n); }
  }

  lemma AgentSendAccounts(j: Json, s: State)
    requires AgentInv(j, s) && AgentSend(j, s).Some?
    ensures AgentInv(j, AgentSend(j, s).value)
  {
    var t := AgentSend(j, s).value;
    if t.sent != s.sent {
      assert s.devQueue == [s.devQueue[0]] + s.devQueue[1..];
      Associative(s.sent, [s.devQueue[0]], s.devQueue[1..]);
    }
  }

  lemma AgentSendWire(j: Json, s: State)
    requires AgentInv(j, s) && WireInv(j, s) && PumpInv(j, s) && AgentSend(j, s).Some?
    ensures WireInv(j, AgentSend(j, s).value) && PumpInv(j, AgentSend(j, s).value)
  {
    var t := AgentSend(j, s).value;
    if t.sent != s.sent { SentGrows(j, s, t, s.devQueue[0]); } else { SameWire(j, s, t); }
  }

  lemma AgentBreakAccounts(j: Json, s: State, n: nat)
    requires AgentInv(j, s) && Next(j, s, AgentSendBreaks(n)).Some?
    ensures AgentInv(j, Next(j, s, AgentSendBreaks(n)).value)
  {
  }

  lemma AgentEndAccounts(j: Json, s: State, e: Event)
    requires AgentInv(j, s) && (e.AgentEnds? || e.AgentEndBreaks?) && Next(j, s, e).Some?
    ensures AgentInv(j, Next(j, s, e).value)
  {
    assert s.sent + [] == s.sent;
  }

  lemma AgentEndWire(j: Json, s: State, error: Option<string>)
    requires AgentInv(j, s) && WireInv(j, s) && PumpInv(j, s) && Next(j, s, AgentEnds(error)).Some?
    ensures var t := Next(j, s, AgentEnds(error)).value;
            WireInv(j, t) && PumpInv(j, t)
  {
    var t := Next(j, s, AgentEnds(error)).value;
    if t.end != s.end { EndGrows(j, s, t, EndMsg(s, error)); } else { SameWire(j, s, t); }
  }

  lemma AgentSendTears(j: Json, s: State, n: nat)
    requires AgentInv(j, s) && WireInv(j, s) && PumpInv(j, s) && Next(j, s, AgentSendBreaks(n)).Some?
    ensures var t := Next(j, s, AgentSendBreaks(n)).value;
            WireInv(j, t) && PumpInv(j, t)
  {
    TearFields(j, s, Data(s.devQueue[0]), n);
    TearStep(j, s, Next(j, s, AgentSendBreaks(n)).value, Data(s.devQueue[0]), n);
  }

  lemma AgentEndTears(j: Json, s: State, error: Option<string>, n: nat)
    requires AgentInv(j, s) && WireInv(j, s) && PumpInv(j, s) && Next(j, s, AgentEndBreaks(error, n)).Some?
    ensures var t := Next(j, s, AgentEndBreaks(error, n)).value;
            WireInv(j, t) && PumpInv(j, t)
  {
    TearFields(j, s, Control(EndMsg(s, error)), n);
    TearStep(j, s, Next(j, s, AgentEndBreaks(error, n)).value, Control(EndMsg(s, error)), n);
  }

  lemma DeviceStep(j: Json, s: State, e: Event)
    requires AgentInv(j, s) && HostEvent(e) && !WritesWire(e) && Next(j, s, e).Some?
    ensures AgentInv(j, Next(j, s, e).value)
  {
    if e.DeviceWrites? { Associative(s.sent, s.devQueue, [e.bytes]); }
  }

  lemma ReceiveKeeps(j: Json, s: State)
    requires ReaderInv(s) && Next(j, s, ReaderReceives).Some?
    ensures ReaderInv(Next(j, s, ReaderReceives).value)
  {
    var t := Next(j, s, ReaderReceives).value;
    assert s.output + s.buf[s.pos..] == s.output && t.buf[0..] == t.buf;
    Associative(s.output, s.dataQueue[0], Flatten(s.dataQueue[1..]));
  }

  lemma GiveKeeps(j: Json, s: State, n: nat)
    requires ReaderInv(s) && Next(j, s, ReaderGives(n)).Some?
    ensures ReaderInv(Next(j, s, ReaderGives(n)).value)
  {
    assert s.buf[s.pos..] == s.buf[s.pos..s.pos + n] + s.buf[s.pos + n..];
    Associative(s.output, s.buf[s.pos..s.pos + n], s.buf[s.pos + n..]);
  }

  lemma ReaderStep(j: Json, s: State, e: Event)
    requires ReaderInv(s) && ReaderEvent(e) && Next(j, s, e).Some?
    ensures ReaderInv(Next(j, s, e).value) && |Next(j, s, e).value.dataQueue| <= |s.dataQueue|
  {
    if e.ReaderReceives? {
      ReceiveKeeps(j, s);
    } else if e.ReaderGives? {
      GiveKeeps(j, s, e.n);
    }
  }

  lemma WriteAccounts(j: Json, s: State, e: Event)
    requires AgentInv(j, s) && WritesWire(e) && Next(j, s, e).Some?
    ensures AgentInv(j, Next(j, s, e).value)
  {
    if e.AgentSends? {
      AgentSendAccounts(j, s);
    } else if e.AgentSendBreaks? {
      AgentBreakAccounts(j, s, e.n);
    } else {
      AgentEndAccounts(j, s, e);
    }
  }

  lemma WriteWire(j: Json, s: State, e: Event)
    requires AgentInv(j, s) && WireInv(j, s) && PumpInv(j, s) && WritesWire(e) && Next(j, s, e).Some?
    ensures var t := Next(j, s, e).value;
            WireInv(j, t) && PumpInv(j, t)
  {
    if e.AgentSends? {
      AgentSendWire(j, s);
    } else if e.AgentSendBreaks? {
      AgentSendTears(j, s, e.n);
    } else if e.AgentEnds? {
      AgentEndWire(j, s, e.error);
    } else {
      AgentEndTears(j, s, e.error, e.n);
    }
  }

  lemma WriteStep(j: Json, s: State, e: Event)
    requires Inv(j, s) && WritesWire(e) && Next(j, s, e).Some?
    ensures Inv(j, Next(j, s, e).value)
  {
    WriteFields(j, s, e);
    WriteAccounts(j, s, e);
    WriteWire(j, s, e);
  }

  lemma HostStep(j: Json, s: State, e: Event)
    requires Inv(j, s) && HostEvent(e) && !WritesWire(e) && Next(j, s, e).Some?
    ensures Inv(j, Next(j, s, e).value)
  {
    DeviceStep(j, s, e);
    DeviceFields(j, s, e);
    SameWire(j, s, Next(j, s, e).value);
  }

  lemma ProxyStep(j: Json, s: State, e: Event)
    requires Inv(j, s) && !HostEvent(e) && !e.PumpReads? && Next(j, s, e).Some?
    ensures Inv(j, Next(j, s, e).value)
  {
    ProxyFields(j, s, e);
    SameWire(j, s, Next(j, s, e).value);
    if ReaderEvent(e) { ReaderStep(j, s, e); }
  }

  lemma StepInv(j: Json, s: State, e: Event)
    requires JsonLaws(j) && Inv(j, s) && Next(j, s, e).Some?
    ensures Inv(j, Next(j, s, e).value)
  {
    if e.PumpReads? {
      PumpStep(j, s);
    } else if WritesWire(e) {
      WriteStep(j, s, e);
    } else if HostEvent(e) {
      HostStep(j, s, e);
    } else {
      ProxyStep(j, s, e);
    }
  }

  lemma InitInv(j: Json)
    ensures Inv(j, Init())
  {
    assert WireFrames(Init()) == [];
    assert DataFrames([]) == [];
  }

  lemma {:induction false} RunInv(j: Json, es: seq<Event>)
    requires JsonLaws(j) && Run(j, es).Some?
    ensures Inv(j, Run(j, es).value)
  {
    if es == [] {
      InitInv(j);
    } else {
      RunInv(j, es[..|es| - 1]);
      StepInv(j, Run(j, es[..|es| - 1]).value, es[|es| - 1]);
    }
  }

  /**
   * The reader reports end of file only when the device closed cleanly, no send
   * failed, and its bytes are the device's whole output.
   */
  lemma EofMeansWhole(j: Json, s: State)
    requires Inv(j, s) && s.reading == Eof
    ensures s.device == Closed && s.output == Flatten(s.produced)
    ensures s.end.Some? && s.end.value.End? && s.end.value.ok && s.sent == s.produced
  {
    assert s.buf[s.pos..] == [];
    assert s.output + s.buf[s.pos..] + Flatten(s.dataQueue) == s.output;
  }

  /**
   * Whatever failed and wherever the connection was cut, what the reader has given is a prefix of what the device
   * wrote.
   */
  lemma {:induction false} OutputIsPrefix(j: Json, es: seq<Event>, s: State)
    requires JsonLaws(j) && Run(j, es) == Some(s)
    ensures s.output <= Flatten(s.produced)
  {
    RunInv(j, es);
    var k := |s.forwarded|;
    assert s.forwarded == s.produced[..k];
    FlattenConcat(s.produced[..k], s.produced[k..]);
    assert s.produced == s.produced[..k] + s.produced[k..];
    Associative(s.output, s.buf[s.pos..], Flatten(s.dataQueue));
  }

  /**
   * Whatever goes wrong - a faulted device, a failed or oversized send, a dead
   * agent, a verdict that is not ok, a connection cut before the End frame was
   * read - the reader never reports end of file.
   */
  lemma {:induction false} FailureIsNeverEof(j: Json, es: seq<Event>, s: State)
    requires JsonLaws(j) && Run(j, es) == Some(s)
    requires s.device != Closed || s.sendError || s.agent == Gone || s.end.None? || s.verdict != Some(true)
    ensures s.reading != Eof
  {
    RunInv(j, es);
  }
}
