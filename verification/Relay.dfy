/**
 * A backup data session through the relay: the device on the SQL host, the
 * agent's send loop, a byte connection that may break or be cut anywhere, the
 * proxy's frame pump, and the blocking reader the uploader consumes.
 */
module Relay {
  import opened Wrappers
  import opened Bytes
  import opened Proto

  const DATA_QUEUE: nat := 16

  datatype Device = Running | Closed | Faulted
  datatype Agent = Streaming | AwaitingDevice | Ended | Gone
  datatype Reading = Open | Eof | Broken

  /** A frame the transport broke in: only its first `n` bytes were accepted. */
  datatype Torn = Torn(frame: Frame, n: nat)

  /**
   * `produced` is everything the device has written. `sent`, `end` and `torn`
   * say what the connection accepted: whole data frames, then possibly the End
   * frame, then possibly part of a frame. `arrived` bytes of it reached the proxy.
   */
  datatype State = State(
    // the SQL host
    device: Device, produced: seq<seq<byte>>, devQueue: seq<seq<byte>>,
    agent: Agent, sendError: bool,
    // the connection
    sent: seq<seq<byte>>, end: Option<ControlMsg>, torn: Option<Torn>, broken: bool,
    arrived: nat, cut: bool,
    // the proxy
    pumping: bool, pumpPos: nat, dataQueue: seq<seq<byte>>, forwarded: seq<seq<byte>>, verdict: Option<bool>,
    // the reader
    buf: seq<byte>, pos: nat, output: seq<byte>, reading: Reading)

  datatype Event =
    | DeviceWrites(bytes: seq<byte>) | DeviceWriteLost(bytes: seq<byte>) | DeviceCloses | DeviceFaults
    | AgentSends | AgentSendBreaks(n: nat) | AgentDrains
    | AgentEnds(error: Option<string>) | AgentEndBreaks(error: Option<string>, n: nat) | AgentDies
    | Arrive(n: nat) | NetworkCut
    | PumpReads | PumpStops
    | ReaderReceives | ReaderGives(n: nat) | ReaderEnds

  function Init(): State {
    State(Running, [], [], Streaming, false, [], None, None, false, 0, false,
          true, 0, [], [], None, [], 0, [], Open)
  }

  // ---------------------------------------------------------------- the connection's bytes

  function DataFrames(bufs: seq<seq<byte>>): (fs: seq<Frame>)
    ensures |fs| == |bufs|
    ensures forall i :: 0 <= i < |bufs| ==> fs[i] == Data(bufs[i])
  {
    seq(|bufs|, i requires 0 <= i < |bufs| => Data(bufs[i]))
  }

  function WireFrames(s: State): seq<Frame> {
    DataFrames(s.sent) + match s.end case None => [] case Some(msg) => [Control(msg)]
  }

  function TornBytes(j: Json, s: State): seq<byte> {
    match s.torn
    case None => []
    case Some(t) => if t.n <= |Encode(j, t.frame)| then Encode(j, t.frame)[..t.n] else []
  }

  /** Every byte the connection accepted from the agent, in order. */
  function Wire(j: Json, s: State): seq<byte> {
    EncodeAll(j, WireFrames(s)) + TornBytes(j, s)
  }

  // ---------------------------------------------------------------- steps

  function When(guard: bool, s: State): Option<State> {
    if guard then Some(s) else None
  }

  /** Stop after a failed data write: the rest of the device's output is not consumed. */
  function StopSending(s: State): State {
    s.(sendError := true, agent := AwaitingDevice)
  }

  function AgentSend(j: Json, s: State): Option<State> {
    if s.agent != Streaming || s.devQueue == [] then None
    else if s.broken || !Fits(j, Data(s.devQueue[0])) then Some(StopSending(s))
    else Some(s.(sent := s.sent + [s.devQueue[0]], devQueue := s.devQueue[1..]))
  }

  /** The transport fails in the middle of a write; from then on it accepts nothing. */
  function Tear(j: Json, s: State, f: Frame, n: nat): State {
    if n < |Encode(j, f)| then s.(torn := Some(Torn(f, n)), broken := true)
    else if f.Data? then s.(sent := s.sent + [f.payload], broken := true)
    else s.(end := Some(f.msg), broken := true)
  }

  /** The verdict: only a clean device close with nothing lost on the way is ok. */
  function EndMsg(s: State, error: Option<string>): ControlMsg {
    var ok := s.device == Closed && !s.sendError;
    End(ok, if ok then None else error)
  }

  /** What the pump sees: the bytes that arrived and were not consumed yet. */
  function Pending(j: Json, s: State): seq<byte> {
    if s.pumpPos <= s.arrived <= |Wire(j, s)| then Wire(j, s)[s.pumpPos..s.arrived] else []
  }

  function PumpRead(j: Json, s: State): Option<State> {
    if !s.pumping then None
    else
      match ReadOne(j, Pending(j, s))
      case Got(frame, size) =>
        (match frame
         case Data(bytes) =>
           When(|s.dataQueue| < DATA_QUEUE,
                s.(pumpPos := s.pumpPos + size, dataQueue := s.dataQueue + [bytes], forwarded := s.forwarded + [bytes]))
         case Control(msg) =>
           Some(s.(pumpPos := s.pumpPos + size, pumping := false, verdict := if msg.End? then Some(msg.ok) else None)))
      case _ => None
  }

  function Next(j: Json, s: State, e: Event): Option<State> {
    match e
    case DeviceWrites(bytes) =>
      When(s.device == Running && s.agent == Streaming && |s.devQueue| < DATA_QUEUE,
           s.(produced := s.produced + [bytes], devQueue := s.devQueue + [bytes]))
    case DeviceWriteLost(bytes) =>
      When(s.device == Running && s.agent != Streaming, s.(produced := s.produced + [bytes]))
    case DeviceCloses => When(s.device == Running, s.(device := Closed))
    case DeviceFaults => When(s.device == Running, s.(device := Faulted))
    case AgentSends => AgentSend(j, s)
    case AgentSendBreaks(n) =>
      if s.agent == Streaming && s.devQueue != [] && !s.broken && Fits(j, Data(s.devQueue[0]))
      then Some(StopSending(Tear(j, s, Data(s.devQueue[0]), n))) else None
    case AgentDrains =>
      When(s.agent == Streaming && s.devQueue == [] && s.device != Running, s.(agent := AwaitingDevice))
    case AgentEnds(error) =>
      if s.agent != AwaitingDevice || s.device == Running then None
      else if s.broken || !Fits(j, Control(EndMsg(s, error))) then Some(s.(agent := Ended))
      else Some(s.(agent := Ended, end := Some(EndMsg(s, error))))
    case AgentEndBreaks(error, n) =>
      if s.agent == AwaitingDevice && s.device != Running && !s.broken && Fits(j, Control(EndMsg(s, error)))
      then Some(Tear(j, s, Control(EndMsg(s, error)), n).(agent := Ended)) else None
    case AgentDies => When(s.agent != Ended, s.(agent := Gone, broken := true))
    case Arrive(n) => When(!s.cut && s.arrived + n <= |Wire(j, s)|, s.(arrived := s.arrived + n))
    case NetworkCut => Some(s.(cut := true, broken := true))
    case PumpReads => PumpRead(j, s)
    // A closed or failed connection, a malformed or unexpected frame, or a gone consumer.
    case PumpStops => When(s.pumping, s.(pumping := false))
    case ReaderReceives =>
      if s.reading == Open && s.pos >= |s.buf| && s.dataQueue != []
      then Some(s.(buf := s.dataQueue[0], pos := 0, dataQueue := s.dataQueue[1..])) else None
    case ReaderGives(n) =>
      if s.reading == Open && 0 < n && s.pos + n <= |s.buf|
      then Some(s.(output := s.output + s.buf[s.pos..s.pos + n], pos := s.pos + n)) else None
    case ReaderEnds =>
      When(s.reading == Open && s.pos >= |s.buf| && s.dataQueue == [] && !s.pumping,
           s.(reading := if s.verdict == Some(true) then Eof else Broken))
  }

  function Run(j: Json, es: seq<Event>): Option<State> {
    if es == [] then Some(Init())
    else
      match Run(j, es[..|es| - 1])
      case None => None
      case Some(s) => Next(j, s, es[|es| - 1])
  }

  // ---------------------------------------------------------------- the invariant

  /** Nothing is lost silently: while no write failed, every buffer is on the connection or in the queue. */
  ghost predicate AgentInv(j: Json, s: State) {
    && (!s.sendError && s.agent != Gone ==> s.sent + s.devQueue == s.produced)
    && s.sent <= s.produced
    && (s.agent == Streaming ==> !s.sendError)
    && (s.agent == AwaitingDevice && !s.sendError ==> s.devQueue == [] && s.device != Running)
    && (s.agent == Ended ==> s.device != Running)
    && (s.end.Some? ==> s.end.value.End?)
    && (s.end.Some? && s.end.value.ok ==> s.device == Closed && !s.sendError && s.sent == s.produced)
    && (s.end.Some? ==> s.agent == Ended)
    && |s.devQueue| <= DATA_QUEUE
  }

  ghost predicate WireInv(j: Json, s: State) {
    && AllFit(j, WireFrames(s))
    && (s.torn.Some? ==> s.broken && Fits(j, s.torn.value.frame) && s.torn.value.n < |Encode(j, s.torn.value.frame)|)
    && (s.torn.Some? ==> s.end.None?)
    && s.arrived <= |Wire(j, s)|
  }

  /** The pump stands on a frame boundary, having forwarded exactly the frames before it. */
  ghost predicate PumpInv(j: Json, s: State) {
    && |s.forwarded| <= |s.sent| && s.forwarded == s.sent[..|s.forwarded|]
    && (s.pumping ==> s.pumpPos == |EncodeAll(j, DataFrames(s.forwarded))| && s.verdict == None)
    && (s.pumping ==> s.pumpPos <= s.arrived)
    && (s.verdict.Some? ==>
          s.end.Some? && s.end.value.End? && s.verdict.value == s.end.value.ok && s.forwarded == s.sent)
    && |s.dataQueue| <= DATA_QUEUE
  }

  ghost predicate ReaderInv(s: State) {
    && s.pos <= |s.buf|
    && s.output + s.buf[s.pos..] + Flatten(s.dataQueue) == Flatten(s.forwarded)
    && (s.reading == Eof ==> s.verdict == Some(true) && s.pos == |s.buf| && s.dataQueue == [])
    && (s.reading != Open ==> !s.pumping)
  }

  ghost predicate Inv(j: Json, s: State) {
    AgentInv(j, s) && WireInv(j, s) && PumpInv(j, s) && ReaderInv(s)
  }
}
