/** The relay's registry of agents and of sessions waiting for their data connection. */
module Registry {
  import opened Wrappers

  /** The configured agents and their tokens. */
  datatype Config = Config(tokens: map<string, string>)

  /** A registration; its position is its connection. */
  datatype Registration = Registration(name: string)

  /** The first frame of a data connection; its position is the stream it carries. */
  datatype Hello = Hello(session: nat, token: string)

  datatype Message = Stream(id: nat) | Dead

  /**
   * How far the call that opens a session has come. `Closing` has stopped listening and is
   * about to take its slot away; `Abandoned` was dropped while it waited.
   */
  datatype Phase = Looked | Inserted | Waiting | Closing | Returned(stream: Option<nat>) | Abandoned

  /**
   * A session; its position is its id. `slot` holds the token expected while the session is listed,
   * `hand` what a connection took the slot for and has not sent yet, `mail` a message sent and not
   * yet read, `sent` how many were sent.
   */
  datatype Session = Session(agent: string, phase: Phase, slot: Option<string>, hand: Option<Message>,
                             mail: Option<Message>, sent: nat)

  datatype State = State(agents: map<string, nat>, registered: seq<Registration>, exited: set<nat>,
                         sessions: seq<Session>, hellos: seq<Hello>)

  /** What happens to a session: by its own call, by a data connection, by the agent's report. */
  datatype Act =
    | Insert
    | Send(ok: bool)
    | Arrive
    | GiveUp
    | Remove
    | Drop
    | Greet(token: string)
    | Fail
    | Deliver

  datatype Event =
    | Register(name: string, token: string, protocol: bool)
    | Exit(conn: nat)
    | Open(agent: string)
    | Touch(session: nat, act: Act)

  const START: State := State(map[], [], {}, [], [])

  /** The receiving end is open while the call has a slot out and still listens. */
  predicate Listening(x: Session) {
    x.phase.Inserted? || x.phase.Waiting?
  }

  /** A refused registration changes nothing; an accepted one replaces the name's connection. */
  function Registers(c: Config, s: State, name: string, token: string, protocol: bool): State {
    if !protocol || name !in c.tokens || c.tokens[name] != token then s
    else s.(registered := s.registered + [Registration(name)], agents := s.agents[name := |s.registered|])
  }

  /** A connection that ends takes its name along only if the name still points to it. */
  function Exits(s: State, conn: nat): State
    requires conn < |s.registered|
  {
    var name := s.registered[conn].name;
    var t := s.(exited := s.exited + {conn});
    if name in s.agents && s.agents[name] == conn then t.(agents := s.agents - {name}) else t
  }

  function Opens(c: Config, s: State, agent: string): Session {
    Session(agent, if agent in s.agents && agent in c.tokens then Looked else Returned(None), None, None, None, 0)
  }

  /** One step of one session; `stream` is the data connection a greeting came on. */
  function Acts(c: Config, x: Session, act: Act, stream: nat): Option<Session> {
    match act
    case Insert =>
      if x.phase.Looked? && x.agent in c.tokens
      then Some(x.(phase := Inserted, slot := Some(c.tokens[x.agent]))) else None
    case Send(ok) => if x.phase.Inserted? then Some(x.(phase := if ok then Waiting else Closing)) else None
    case Arrive =>
      if !x.phase.Waiting? || x.mail.None? then None
      else Some(x.(mail := None, phase := if x.mail.value.Stream? then Returned(Some(x.mail.value.id)) else Closing))
    case GiveUp => if x.phase.Waiting? && x.mail.None? then Some(x.(phase := Closing)) else None
    case Remove => if x.phase.Closing? then Some(x.(phase := Returned(None), slot := None)) else None
    case Drop => if Listening(x) then Some(x.(phase := Abandoned)) else None
    case Greet(token) =>
      if x.slot.None? then Some(x)
      else Some(x.(slot := None, hand := if x.slot.value == token then Some(Stream(stream)) else None))
    case Fail => if x.slot.None? then Some(x) else Some(x.(slot := None, hand := Some(Dead)))
    case Deliver =>
      if x.hand.None? then None
      else if Listening(x) then Some(x.(hand := None, mail := x.hand, sent := x.sent + 1))
      else Some(x.(hand := None))
  }

  /** A greeting is a new connection, whether or not it names a session. */
  function Heard(s: State, id: nat, act: Act): seq<Hello> {
    if act.Greet? then s.hellos + [Hello(id, act.token)] else s.hellos
  }

  function Next(c: Config, s: State, e: Event): Option<State> {
    match e
    case Register(name, token, protocol) => Some(Registers(c, s, name, token, protocol))
    case Exit(conn) => if conn < |s.registered| && conn !in s.exited then Some(Exits(s, conn)) else None
    case Open(agent) => Some(s.(sessions := s.sessions + [Opens(c, s, agent)]))
    case Touch(id, act) =>
      if id >= |s.sessions| then
        (if act.Greet? || act.Fail? then Some(s.(hellos := Heard(s, id, act))) else None)
      else
        match Acts(c, s.sessions[id], act, |s.hellos|)
        case None => None
        case Some(x) => Some(s.(sessions := s.sessions[id := x], hellos := Heard(s, id, act)))
  }

  function Run(c: Config, es: seq<Event>): Option<State>
    decreases |es|
  {
    if es == [] then Some(START)
    else
      var before := Run(c, es[..|es| - 1]);
      if before.None? then None else Next(c, before.value, es[|es| - 1])
  }

  // ---------------------------------------------------------------- agents

  /** The connection a name registered last. */
  function Newest(registered: seq<Registration>, name: string): (n: Option<nat>)
    ensures n.Some? ==> n.value < |registered| && registered[n.value].name == name
    ensures n.Some? ==> forall i :: n.value < i < |registered| ==> registered[i].name != name
    ensures n.None? ==> forall i :: 0 <= i < |registered| ==> registered[i].name != name
  {
    if registered == [] then None
    else if registered[|registered| - 1].name == name then Some(|registered| - 1)
    else Newest(registered[..|registered| - 1], name)
  }

  predicate Points(s: State, name: string) {
    var n := Newest(s.registered, name);
    if n.Some? && n.value !in s.exited then name in s.agents && s.agents[name] == n.value else name !in s.agents
  }

  ghost predicate AgentsInv(s: State) {
    && (forall name :: Points(s, name))
    && (forall conn :: conn in s.exited ==> conn < |s.registered|)
  }

  lemma RegisterPoints(s: State, t: State, name: string, other: string)
    requires Points(s, other) && |s.registered| !in s.exited
    requires t.registered == s.registered + [Registration(name)] && t.agents == s.agents[name := |s.registered|]
    requires t.exited == s.exited
    ensures Points(t, other)
  {
    assert t.registered[..|s.registered|] == s.registered;
  }

  lemma ExitPoints(s: State, conn: nat, other: string)
    requires Points(s, other) && conn < |s.registered| && conn !in s.exited
    requires Points(s, s.registered[conn].name)
    ensures Points(Exits(s, conn), other)
  {
  }

  lemma AgentsStep(c: Config, s: State, e: Event)
    requires AgentsInv(s) && Next(c, s, e).Some?
    ensures AgentsInv(Next(c, s, e).value)
  {
    var t := Next(c, s, e).value;
    if e.Register? || e.Exit? {
      forall other
        ensures Points(t, other)
      {
        assert Points(s, other);
        if e.Register? && t != s {
          RegisterPoints(s, t, e.name, other);
        } else if e.Exit? {
          ExitPoints(s, e.conn, other);
        }
      }
    } else {
      assert forall other :: Points(s, other) ==> Points(t, other);
    }
  }

  // ---------------------------------------------------------------- sessions

  /** A message for a session, if a stream, is one that greeted with the session id and its agent's token. */
  predicate Genuine(c: Config, hellos: seq<Hello>, id: nat, x: Session, m: Message) {
    && x.agent in c.tokens
    && (m.Stream? ==> m.id < |hellos| && hellos[m.id] == Hello(id, c.tokens[x.agent]))
  }

  /** A session's slot is out, taken or spent - never two of these - and it is sent at most one message. */
  predicate SessionInv(c: Config, hellos: seq<Hello>, id: nat, x: Session) {
    && (x.slot.Some? ==>
          && x.agent in c.tokens && x.slot.value == c.tokens[x.agent]
          && (Listening(x) || x.phase.Closing? || x.phase.Abandoned?)
          && x.hand.None? && x.sent == 0)
    && (x.hand.Some? ==> Genuine(c, hellos, id, x, x.hand.value) && x.sent == 0)
    && (x.mail.Some? ==> Genuine(c, hellos, id, x, x.mail.value) && x.sent == 1)
    && (x.phase.Looked? ==> x.hand.None? && x.sent == 0)
    && x.sent <= 1
    && (x.phase.Returned? && x.phase.stream.Some? ==> Genuine(c, hellos, id, x, Stream(x.phase.stream.value)))
  }

  ghost predicate SessionsInv(c: Config, s: State) {
    forall id :: 0 <= id < |s.sessions| ==> SessionInv(c, s.hellos, id, s.sessions[id])
  }

  lemma MoreHellos(c: Config, hellos: seq<Hello>, more: seq<Hello>, id: nat, x: Session)
    requires SessionInv(c, hellos, id, x) && hellos <= more
    ensures SessionInv(c, more, id, x)
  {
  }

  lemma ActInv(c: Config, s: State, id: nat, x: Session, act: Act)
    requires SessionInv(c, s.hellos, id, x) && Acts(c, x, act, |s.hellos|).Some?
    ensures SessionInv(c, Heard(s, id, act), id, Acts(c, x, act, |s.hellos|).value)
  {
    if act.Greet? { assert Heard(s, id, act)[|s.hellos|] == Hello(id, act.token); }
  }

  lemma SessionsStep(c: Config, s: State, e: Event)
    requires SessionsInv(c, s) && Next(c, s, e).Some?
    ensures SessionsInv(c, Next(c, s, e).value)
  {
    if e.Touch? {
      var t := Next(c, s, e).value;
      forall id | 0 <= id < |t.sessions|
        ensures SessionInv(c, t.hellos, id, t.sessions[id])
      {
        if id == e.session {
          ActInv(c, s, id, s.sessions[id], e.act);
        } else {
          MoreHellos(c, s.hellos, t.hellos, id, s.sessions[id]);
        }
      }
    }
  }

  lemma {:induction false} RunInv(c: Config, es: seq<Event>)
    requires Run(c, es).Some?
    ensures AgentsInv(Run(c, es).value) && SessionsInv(c, Run(c, es).value)
    decreases |es|
  {
    if es != [] {
      var s := Run(c, es[..|es| - 1]).value;
      RunInv(c, es[..|es| - 1]);
      AgentsStep(c, s, es[|es| - 1]);
      SessionsStep(c, s, es[|es| - 1]);
    }
  }

  // ---------------------------------------------------------------- over every run

  /**
   * A name is listed exactly when the connection it registered last has not ended, and it then
   * points to that connection - however late an older connection of the same name ends.
   */
  lemma {:induction false} NamesPointToNewest(c: Config, es: seq<Event>, name: string)
    requires Run(c, es).Some?
    ensures var s := Run(c, es).value;
            var n := Newest(s.registered, name);
            && (name in s.agents <==> n.Some? && n.value !in s.exited)
            && (name in s.agents ==> s.agents[name] == n.value)
  {
    RunInv(c, es);
    assert Points(Run(c, es).value, name);
  }

  /**
   * A session that returned a stream got one that named it and carried its agent's token, and no other session gets
   * it.
   */
  lemma {:induction false} StreamsReachTheirSession(c: Config, es: seq<Event>, id: nat, other: nat)
    requires Run(c, es).Some?
    requires var all := Run(c, es).value.sessions;
             id < |all| && other < |all| && all[id].phase.Returned? && all[id].phase.stream.Some?
    ensures var s := Run(c, es).value;
            var stream := s.sessions[id].phase.stream;
            && s.sessions[id].agent in c.tokens && stream.value < |s.hellos|
            && s.hellos[stream.value] == Hello(id, c.tokens[s.sessions[id].agent])
            && (s.sessions[other].phase == Returned(stream) ==> other == id)
  {
    RunInv(c, es);
    var s := Run(c, es).value;
    assert SessionInv(c, s.hellos, id, s.sessions[id]) && SessionInv(c, s.hellos, other, s.sessions[other]);
  }

  /** No session is ever sent two messages, and none is sent any while its slot is still listed. */
  lemma {:induction false} OneMessagePerSession(c: Config, es: seq<Event>, id: nat)
    requires Run(c, es).Some? && id < |Run(c, es).value.sessions|
    ensures var x := Run(c, es).value.sessions[id]; x.sent <= 1 && (x.slot.Some? || x.hand.Some? ==> x.sent == 0)
  {
    RunInv(c, es);
  }

  /**
   * A call that returned, with a stream or without, leaves no slot; a slot is that of a call under way or of a
   * dropped one.
   */
  lemma {:induction false} NoSlotAfterReturn(c: Config, es: seq<Event>, id: nat)
    requires Run(c, es).Some? && id < |Run(c, es).value.sessions|
    ensures var x := Run(c, es).value.sessions[id];
            x.slot.Some? ==> !x.phase.Returned? && (Listening(x) || x.phase.Closing? || x.phase.Abandoned?)
  {
    RunInv(c, es);
  }

  // ---------------------------------------------------------------- which slots stay

  /** The session's slot was inserted. */
  predicate Listed(es: seq<Event>, id: nat) {
    es != [] && (Listed(es[..|es| - 1], id) || es[|es| - 1] == Touch(id, Insert))
  }

  predicate Names(e: Event, id: nat) {
    e.Touch? && e.session == id && (e.act.Greet? || e.act.Fail?)
  }

  /** After its slot was inserted, a data connection greeted with the session's id or its agent reported a failure. */
  predicate Named(es: seq<Event>, id: nat) {
    es != [] && (Named(es[..|es| - 1], id) || (Listed(es[..|es| - 1], id) && Names(es[|es| - 1], id)))
  }

  /** A slot is there from its insertion until a greeting, a failure report or the return of its call. */
  predicate SlotThere(es: seq<Event>, id: nat, x: Session) {
    && (x.slot.Some? <==> Listed(es, id) && !Named(es, id) && !x.phase.Returned?)
    && (x.phase.Looked? ==> !Listed(es, id))
    && (Listening(x) || x.phase.Closing? || x.phase.Abandoned? ==> Listed(es, id))
  }

  lemma SlotStep(c: Config, es: seq<Event>, hellos: seq<Hello>, id: nat, x: Session)
    requires es != [] && es[|es| - 1].Touch? && es[|es| - 1].session == id
    requires SlotThere(es[..|es| - 1], id, x) && SessionInv(c, hellos, id, x)
    requires Acts(c, x, es[|es| - 1].act, |hellos|).Some?
    requires !Listed(es[..|es| - 1], id) ==> !Named(es[..|es| - 1], id)
    ensures SlotThere(es, id, Acts(c, x, es[|es| - 1].act, |hellos|).value)
  {
  }

  lemma {:induction false} NamedIsListed(es: seq<Event>, id: nat)
    ensures Named(es, id) ==> Listed(es, id)
    decreases |es|
  {
    if es != [] { NamedIsListed(es[..|es| - 1], id); }
  }

  lemma {:induction false} SlotsRun(c: Config, es: seq<Event>)
    requires Run(c, es).Some?
    ensures var all := Run(c, es).value.sessions;
            && (forall id :: 0 <= id < |all| ==> SlotThere(es, id, all[id]))
            && (forall id: nat :: id >= |all| ==> !Listed(es, id))
    decreases |es|
  {
    if es != [] {
      var front, e := es[..|es| - 1], es[|es| - 1];
      var s, t := Run(c, front).value, Run(c, es).value;
      SlotsRun(c, front);
      RunInv(c, front);
      forall id | 0 <= id < |t.sessions|
        ensures SlotThere(es, id, t.sessions[id])
      {
        NamedIsListed(front, id);
        if e.Touch? && e.session == id { SlotStep(c, es, s.hellos, id, s.sessions[id]); }
      }
    }
  }

  /**
   * A call that is over has left its slot behind if and only if it was dropped while it waited and since the
   * insertion neither a data connection nor a failure report has named the session.
   */
  lemma {:induction false} SlotLeftExactly(c: Config, es: seq<Event>, id: nat)
    requires Run(c, es).Some? && id < |Run(c, es).value.sessions|
    requires var x := Run(c, es).value.sessions[id]; x.phase.Returned? || x.phase.Abandoned?
    ensures var x := Run(c, es).value.sessions[id]; x.slot.Some? <==> x.phase.Abandoned? && !Named(es, id)
  {
    SlotsRun(c, es);
  }

  lemma {:induction false} RunSnoc(c: Config, es: seq<Event>, e: Event)
    requires Run(c, es).Some?
    ensures Run(c, es + [e]) == Next(c, Run(c, es).value, e)
  {
    assert (es + [e])[..|es|] == es;
  }

  /** Dropping a call while it waits leaves its slot behind. */
  lemma DroppedCallLeavesSlot(c: Config, name: string) returns (es: seq<Event>)
    requires name in c.tokens
    ensures Run(c, es).Some? && |Run(c, es).value.sessions| == 1
    ensures Run(c, es).value.sessions[0].phase == Abandoned && Run(c, es).value.sessions[0].slot.Some?
  {
    var a, b, d := Register(name, c.tokens[name], true), Open(name), Touch(0, Insert);
    var f, g := Touch(0, Send(true)), Touch(0, Drop);
    RunSnoc(c, [], a);
    RunSnoc(c, [a], b);
    RunSnoc(c, [a] + [b], d);
    RunSnoc(c, [a] + [b] + [d], f);
    RunSnoc(c, [a] + [b] + [d] + [f], g);
    es := [a] + [b] + [d] + [f] + [g];
  }
}
