/**
 * The windowed restore (`spawn_chunk_pipeline`): up to `width` downloads run at
 * once and finish in any order, while their results are awaited, sent on a
 * bounded channel and received strictly in archive order.
 */
module Pipeline {
  import opened Wrappers
  import opened DataBlob
  import opened Restore

  import Bytes

  type Chunk = seq<Bytes.byte>

  /** Concurrent tasks: an explicit override, or half the cores clamped to 2..16. */
  function PipelineWidth(override: nat, cores: nat): (w: nat)
    ensures w >= 1
    ensures override == 0 ==> 2 <= w <= 16 && (4 <= cores <= 32 ==> 2 * w <= cores < 2 * w + 2)
  {
    if override != 0 then override
    else if cores / 2 < 2 then 2 else if cores / 2 > 16 then 16 else cores / 2
  }

  datatype Config = Config(digests: seq<Digest>, width: nat, fetch: Digest -> Result<Chunk, RestoreError>)

  /** A spawned download: pending, or finished with its result. */
  datatype Task = Task(digest: Digest, outcome: Option<Result<Chunk, RestoreError>>)

  datatype Phase = Filling | Awaiting | Sending(chunk: Chunk) | Refilling | Done(ok: bool)

  datatype State = State(phase: Phase, next: nat, inflight: seq<Task>,
                         queue: seq<Chunk>, received: seq<Chunk>, alive: bool)

  datatype Event =
    | Fill | TaskDone(i: nat, arrived: bool) | Pop | Send | SendRefused | Refill | LoopEnd
    | ConsumerReceives | ConsumerGone

  function Init(): State {
    State(Filling, 0, [], [], [], true)
  }

  function Spawn(c: Config, s: State): State
    requires s.next < |c.digests|
  {
    s.(next := s.next + 1, inflight := s.inflight + [Task(c.digests[s.next], None)])
  }

  function Next(c: Config, s: State, e: Event): Option<State> {
    match e
    case Fill =>
      if s.phase != Filling then None
      else if |s.inflight| < c.width && s.next < |c.digests| then Some(Spawn(c, s))
      else Some(s.(phase := Awaiting))
    // A download either arrives (and decodes or not) or fails on the way.
    case TaskDone(i, arrived) =>
      if i < |s.inflight| && s.inflight[i].outcome == None then
        var d := s.inflight[i].digest;
        Some(s.(inflight := s.inflight[i := Task(d, Some(if arrived then c.fetch(d) else Err(Network)))]))
      else None
    case Pop =>
      if s.phase == Awaiting && s.inflight != [] && s.inflight[0].outcome.Some? then
        match s.inflight[0].outcome.value
        case Ok(chunk) => Some(s.(phase := Sending(chunk), inflight := s.inflight[1..]))
        case Err(_) => Some(s.(phase := Done(false), inflight := s.inflight[1..]))
      else None
    case Send =>
      if s.phase.Sending? && s.alive && |s.queue| < c.width
      then Some(s.(phase := Refilling, queue := s.queue + [s.phase.chunk])) else None
    case SendRefused =>
      if s.phase.Sending? && !s.alive then Some(s.(phase := Done(true))) else None
    case Refill =>
      if s.phase != Refilling then None
      else if s.next < |c.digests| then Some(Spawn(c, s).(phase := Awaiting))
      else Some(s.(phase := Awaiting))
    case LoopEnd =>
      if s.phase == Awaiting && s.inflight == [] then Some(s.(phase := Done(true))) else None
    case ConsumerReceives =>
      if s.alive && s.queue != [] then Some(s.(queue := s.queue[1..], received := s.received + [s.queue[0]])) else None
    case ConsumerGone => if s.alive then Some(s.(alive := false)) else None
  }

  function Run(c: Config, es: seq<Event>): Option<State> {
    if es == [] then Some(Init())
    else
      match Run(c, es[..|es| - 1])
      case None => None
      case Some(s) => Next(c, s, es[|es| - 1])
  }

  // ---------------------------------------------------------------- the invariant

  /** The chunks that left the window, in order: received, queued, and the one being sent. */
  function Emitted(s: State): seq<Chunk> {
    s.received + s.queue + if s.phase.Sending? then [s.phase.chunk] else []
  }

  /** `chunks` is what fetching the first `|chunks|` digests one by one gives. */
  ghost predicate InOrder(c: Config, chunks: seq<Chunk>) {
    |chunks| <= |c.digests| && forall i :: 0 <= i < |chunks| ==> c.fetch(c.digests[i]) == Ok(chunks[i])
  }

  /** Emitted, in flight and not yet spawned digests are three consecutive runs of the archive. */
  ghost predicate Partition(c: Config, s: State) {
    var done := |Emitted(s)|;
    && done + |s.inflight| == s.next <= |c.digests|
    && forall i :: 0 <= i < |s.inflight| ==> s.inflight[i].digest == c.digests[done + i]
  }

  ghost predicate TasksSound(c: Config, s: State) {
    forall i :: 0 <= i < |s.inflight| && s.inflight[i].outcome.Some? && s.inflight[i].outcome.value.Ok?
      ==> c.fetch(s.inflight[i].digest) == s.inflight[i].outcome.value
  }

  ghost predicate Inv(c: Config, s: State) {
    && InOrder(c, Emitted(s))
    && (!s.phase.Done? ==> Partition(c, s))
    && TasksSound(c, s)
    && |s.inflight| + (if s.phase.Sending? || s.phase.Refilling? then 1 else 0) <= c.width
    && |s.queue| <= c.width
    && (s.phase.Awaiting? && s.inflight == [] ==> s.next == |c.digests|)
    && (s.phase == Done(true) && s.alive ==> |Emitted(s)| == |c.digests|)
  }

  lemma SpawnStep(c: Config, s: State)
    requires Inv(c, s) && s.next < |c.digests| && !s.phase.Done? && !s.phase.Sending?
    ensures var t := Spawn(c, s);
            InOrder(c, Emitted(t)) && Partition(c, t) && TasksSound(c, t) && |t.inflight| == |s.inflight| + 1
  {
    assert Emitted(Spawn(c, s)) == Emitted(s);
  }

  lemma PopStep(c: Config, s: State)
    requires Inv(c, s) && Next(c, s, Pop).Some?
    ensures Inv(c, Next(c, s, Pop).value)
  {
    var t := Next(c, s, Pop).value;
    if t.phase.Sending? {
      assert Emitted(t) == Emitted(s) + [t.phase.chunk];
      assert s.inflight[0].digest == c.digests[|Emitted(s)|];
    } else {
      assert Emitted(t) == Emitted(s);
    }
  }

  lemma ChannelStep(c: Config, s: State, e: Event)
    requires Inv(c, s) && (e.Send? || e.SendRefused? || e.ConsumerReceives?) && Next(c, s, e).Some?
    ensures Inv(c, Next(c, s, e).value)
  {
    var t := Next(c, s, e).value;
    if e.SendRefused? {
      assert Emitted(s) == Emitted(t) + [s.phase.chunk];
    } else {
      assert Emitted(t) == Emitted(s);
    }
  }

  lemma FillStep(c: Config, s: State, e: Event)
    requires c.width >= 1 && Inv(c, s) && (e.Fill? || e.Refill?) && Next(c, s, e).Some?
    ensures Inv(c, Next(c, s, e).value)
  {
    if s.next < |c.digests| { SpawnStep(c, s); }
    assert Emitted(Next(c, s, e).value) == Emitted(s);
  }

  lemma StepInv(c: Config, s: State, e: Event)
    requires c.width >= 1 && Inv(c, s) && Next(c, s, e).Some?
    ensures Inv(c, Next(c, s, e).value)
  {
    if e.Fill? || e.Refill? {
      FillStep(c, s, e);
    } else if e.Pop? {
      PopStep(c, s);
    } else if e.Send? || e.SendRefused? || e.ConsumerReceives? {
      ChannelStep(c, s, e);
    } else {
      assert Emitted(Next(c, s, e).value) == Emitted(s);
    }
  }

  lemma {:induction false} RunInv(c: Config, es: seq<Event>)
    requires c.width >= 1 && Run(c, es).Some?
    ensures Inv(c, Run(c, es).value)
  {
    if es == [] {
    } else {
      RunInv(c, es[..|es| - 1]);
      StepInv(c, Run(c, es[..|es| - 1]).value, es[|es| - 1]);
    }
  }

  // ---------------------------------------------------------------- refinement of the sequential restore

  /**
   * In every schedule the consumer sees a prefix of the sequential restore, and
   * an Ok producer whose consumer stayed has handed over exactly all of it.
   */
  lemma {:induction false} RefinesSequential(c: Config, es: seq<Event>)
    requires c.width >= 1 && Run(c, es).Some?
    ensures var s := Run(c, es).value;
            && |s.received| <= |c.digests|
            && FetchAll(c.fetch, c.digests[..|s.received|]) == Ok(s.received)
            && (s.phase == Done(true) && s.alive ==> FetchAll(c.fetch, c.digests) == Ok(s.received + s.queue))
            && |s.inflight| <= c.width && |s.queue| <= c.width
  {
    RunInv(c, es);
    var s := Run(c, es).value;
    assert s.received == Emitted(s)[..|s.received|];
    FetchAllPointwise(c.fetch, c.digests[..|s.received|], s.received);
    if s.phase == Done(true) && s.alive {
      assert Emitted(s) == s.received + s.queue;
      FetchAllPointwise(c.fetch, c.digests, s.received + s.queue);
    }
  }

  /** When the sequential restore fails, no schedule reports success to a consumer that stayed. */
  lemma {:induction false} FailureSurfaces(c: Config, es: seq<Event>)
    requires c.width >= 1 && Run(c, es).Some? && FetchAll(c.fetch, c.digests).Err?
    ensures !(Run(c, es).value.phase == Done(true) && Run(c, es).value.alive)
  {
    RefinesSequential(c, es);
  }

  // ---------------------------------------------------------------- termination and progress

  function TaskWeight(tasks: seq<Task>): nat {
    if tasks == [] then 0
    else TaskWeight(tasks[..|tasks| - 1]) + if tasks[|tasks| - 1].outcome == None then 5 else 4
  }

  function PhaseWeight(ph: Phase): nat {
    match ph
    case Filling => 2
    case Awaiting => 1
    case Sending(_) => 4
    case Refilling => 2
    case Done(_) => 0
  }

  /** Work left: every event of every run uses some of it up. */
  function Work(c: Config, s: State): nat
    requires s.next <= |c.digests|
  {
    6 * (|c.digests| - s.next) + TaskWeight(s.inflight) + PhaseWeight(s.phase) + |s.queue| + if s.alive then 1 else 0
  }

  lemma {:induction false} TaskWeightUpdate(tasks: seq<Task>, i: nat, t: Task)
    requires i < |tasks| && tasks[i].outcome == None && t.outcome != None
    ensures TaskWeight(tasks[i := t]) == TaskWeight(tasks) - 1
  {
    var last := |tasks| - 1;
    var changed := tasks[i := t];
    if i < last {
      TaskWeightUpdate(tasks[..last], i, t);
      assert changed[..last] == tasks[..last][i := t];
    } else {
      assert changed[..last] == tasks[..last];
    }
  }

  lemma {:induction false} TaskWeightTail(tasks: seq<Task>)
    requires tasks != []
    ensures TaskWeight(tasks) == TaskWeight(tasks[1..]) + if tasks[0].outcome == None then 5 else 4
  {
    var last := |tasks| - 1;
    if last > 0 {
      TaskWeightTail(tasks[..last]);
      assert tasks[..last][1..] == tasks[1..][..last - 1];
      assert tasks[1..][last - 1] == tasks[last];
    } else {
      assert tasks[1..] == [] && tasks[..last] == [];
    }
  }

  lemma NextInRange(c: Config, s: State, e: Event)
    requires s.next <= |c.digests| && Next(c, s, e).Some?
    ensures Next(c, s, e).value.next <= |c.digests|
  {
  }

  /** The pipeline terminates: no event can repeat forever. */
  lemma EveryEventUsesWork(c: Config, s: State, e: Event)
    requires s.next <= |c.digests| && Next(c, s, e).Some?
    ensures Next(c, s, e).value.next <= |c.digests|
    ensures Work(c, Next(c, s, e).value) < Work(c, s)
  {
    NextInRange(c, s, e);
    var t := Next(c, s, e).value;
    match e
    case TaskDone(i, arrived) => TaskWeightUpdate(s.inflight, i, t.inflight[i]);
    case Pop => TaskWeightTail(s.inflight);
    case Fill =>
      if s.next < t.next { assert t.inflight[..|s.inflight|] == s.inflight; }
    case Refill =>
      if s.next < t.next { assert t.inflight[..|s.inflight|] == s.inflight; }
    case _ =>
  }

  /** No schedule is longer than the work there was at the start. */
  lemma {:induction false} RunsAreBounded(c: Config, es: seq<Event>)
    requires Run(c, es).Some?
    ensures Run(c, es).value.next <= |c.digests|
    ensures |es| + Work(c, Run(c, es).value) <= 6 * |c.digests| + 3
  {
    if es == [] {
    } else {
      RunsAreBounded(c, es[..|es| - 1]);
      EveryEventUsesWork(c, Run(c, es[..|es| - 1]).value, es[|es| - 1]);
    }
  }

  /** It never gets stuck: until the producer is done some event other than losing the consumer is possible. */
  lemma Progress(c: Config, s: State)
    requires c.width >= 1 && !s.phase.Done?
    ensures exists e: Event :: !e.ConsumerGone? && Next(c, s, e).Some?
  {
    match s.phase
    case Filling => assert Next(c, s, Fill).Some?;
    case Awaiting =>
      if s.inflight == [] {
        assert Next(c, s, LoopEnd).Some?;
      } else if s.inflight[0].outcome == None {
        assert Next(c, s, TaskDone(0, true)).Some?;
      } else {
        assert Next(c, s, Pop).Some?;
      }
    case Sending(_) =>
      if !s.alive {
        assert Next(c, s, SendRefused).Some?;
      } else if |s.queue| < c.width {
        assert Next(c, s, Send).Some?;
      } else {
        assert Next(c, s, ConsumerReceives).Some?;
      }
    case Refilling => assert Next(c, s, Refill).Some?;
  }
}
