/** Logs kept waiting by a full that fails again and again. */
module Starvation {
  import opened Wrappers
  import opened Scheduler
  import opened SqlTimers
  import opened RetryStorm
  import C = Calendar

  /** One tick of the scheduler: what is due is started and fails; `at` is the tick, `end` the time it is recorded. */
  datatype Round = Round(at: int, end: int)

  function RoundEvents(r: Round): seq<Event> {
    [Advance(r.at), Tick, Evaluate, Claim, Advance(r.end), Record(Failed), Release]
  }

  function Rounds(rs: seq<Round>): seq<Event> {
    if rs == [] then [] else Rounds(rs[..|rs| - 1]) + RoundEvents(rs[|rs| - 1])
  }

  /** Rounds follow one another in time. */
  predicate Ordered(clock: int, rs: seq<Round>) {
    && (forall i :: 0 <= i < |rs| ==> clock <= rs[i].at <= rs[i].end)
    && (forall i :: 0 <= i < |rs| - 1 ==> rs[i].end <= rs[i + 1].at)
  }

  lemma {:induction false} RunConcat(c: Config, s: State, a: seq<Event>, b: seq<Event>)
    requires forall now :: C.Valid(c.zone.dateOf(now))
    ensures Run(c, s, a + b) == if Run(c, s, a).None? then None else Run(c, Run(c, s, a).value, b)
    decreases |b|
  {
    if b == [] {
      assert a + b == a;
    } else {
      RunConcat(c, s, a, b[..|b| - 1]);
      assert (a + b)[..|a + b| - 1] == a + b[..|b| - 1];
    }
  }

  lemma OneStep(c: Config, s: State, e: Event)
    requires forall now :: C.Valid(c.zone.dateOf(now))
    ensures Run(c, s, [e]) == Next(c, s, e)
  {
    assert [e][..0] == [];
  }

  lemma Then(c: Config, s: State, es: seq<Event>, e: Event)
    requires (forall now :: C.Valid(c.zone.dateOf(now))) && Run(c, s, es).Some?
    ensures Run(c, s, es + [e]) == Next(c, Run(c, s, es).value, e)
  {
    RunConcat(c, s, es, [e]);
    OneStep(c, Run(c, s, es).value, e);
  }

  /** Up to the claim: what is due at the tick decides. */
  lemma ClaimDue(c: Config, s: State, at: int) returns (es: seq<Event>)
    requires (forall now :: C.Valid(c.zone.dateOf(now))) && s.phase.Idle? && !s.running && s.clock <= at
    ensures es == [Advance(at), Tick, Evaluate, Claim]
    ensures var due := DueKind(c.zone, c.protection, s.timers, at);
            Run(c, s, es) ==
            if due.None? then None
            else Some(State(at, s.timers, Waiting, true, s.history + [Attempt(due.value, Scheduled(at), at, None)]))
  {
    es := [Advance(at)];
    OneStep(c, s, Advance(at));
    Then(c, s, es, Tick);
    es := es + [Tick];
    Then(c, s, es, Evaluate);
    es := es + [Evaluate];
    Then(c, s, es, Claim);
    es := es + [Claim];
  }

  /** From the claim on: the failure is recorded and the claim released. */
  lemma FailAndRelease(c: Config, t: State, end: int)
    requires (forall now :: C.Valid(c.zone.dateOf(now))) && t.clock <= end && t.phase.Waiting? && InFlight(t)
    requires Newest(t).owner.Scheduled?
    ensures var last := Newest(t);
            Run(c, t, [Advance(end), Record(Failed), Release]) ==
            Some(State(end, Recorded(t.timers, last.kind, Failed, end), Idle, false,
                       t.history[|t.history| - 1 := last.(recorded := Some(end))]))
  {
    var es := [Advance(end)];
    OneStep(c, t, Advance(end));
    Then(c, t, es, Record(Failed));
    es := es + [Record(Failed)];
    Then(c, t, es, Release);
    assert es + [Release] == [Advance(end), Record(Failed), Release];
  }

  /** A round starts what is due and records its failure; with nothing due there is nothing to claim. */
  lemma OneRound(c: Config, s: State, r: Round)
    requires (forall now :: C.Valid(c.zone.dateOf(now))) && s.phase.Idle? && !s.running && s.clock <= r.at <= r.end
    ensures var due := DueKind(c.zone, c.protection, s.timers, r.at);
            Run(c, s, RoundEvents(r)) ==
            if due.None? then None
            else Some(State(r.end, Recorded(s.timers, due.value, Failed, r.end), Idle, false,
                            s.history + [Attempt(due.value, Scheduled(r.at), r.at, Some(r.end))]))
  {
    var es := ClaimDue(c, s, r.at);
    var rest := [Advance(r.end), Record(Failed), Release];
    assert RoundEvents(r) == es + rest;
    RunConcat(c, s, es, rest);
    if Run(c, s, es).Some? {
      var t := Run(c, s, es).value;
      FailAndRelease(c, t, r.end);
      var a := Newest(t).(recorded := Some(r.end));
      assert t.history[|s.history| := a] == s.history + [a];
    }
  }

  function Failures(rs: seq<Round>): (h: seq<Attempt>)
    ensures |h| == |rs|
  {
    seq(|rs|, i requires 0 <= i < |rs| => Attempt(Full, Scheduled(rs[i].at), rs[i].at, Some(rs[i].end)))
  }

  /** Where a job stands after rounds of failing fulls. */
  function Starved(clock: int, timers: Timers, rs: seq<Round>): State {
    if rs == [] then Start(clock, timers)
    else State(rs[|rs| - 1].end, AttemptedFull(timers, rs[|rs| - 1].end), Idle, false, Failures(rs))
  }

  predicate OnlyFulls(h: seq<Attempt>) {
    forall i :: 0 <= i < |h| ==> h[i].kind == Full
  }

  /** A full is due at the tick of round `i`: at first by the timers, later since the failure before it. */
  ghost predicate FullDueIn(c: Config, timers: Timers, rs: seq<Round>, i: nat)
    requires ZoneLaws(c.zone) && i < |rs|
  {
    if i == 0 then ScheduleDue(c.zone, FullSchedule(c.protection), LastFullAttempt(timers), rs[0].at)
    else FullDueSince(c, rs[i - 1].end, rs[i].at)
  }

  /** By every tick a full has come due, after the first one since the failure before it was recorded. */
  ghost predicate AlwaysDue(c: Config, timers: Timers, rs: seq<Round>)
    requires ZoneLaws(c.zone)
  {
    forall i :: 0 <= i < |rs| ==> FullDueIn(c, timers, rs, i)
  }

  /** A point-in-time plan with a full schedule the engine accepts, and a log due from the first tick on. */
  ghost predicate LogWaits(c: Config, timers: Timers, rs: seq<Round>) {
    && ZoneLaws(c.zone) && c.protection.PointInTime? && Validate(c.protection.full)
    && (rs != [] ==> LogDue(LogBaseline(timers), c.protection.logMinutes, rs[0].at))
  }

  lemma OrderedFront(clock: int, rs: seq<Round>)
    requires rs != [] && Ordered(clock, rs)
    ensures Ordered(clock, rs[..|rs| - 1]) && rs == rs[..|rs| - 1] + [rs[|rs| - 1]]
  {
    var front := rs[..|rs| - 1];
    assert forall i :: 0 <= i < |front| ==> front[i] == rs[i];
  }

  lemma {:induction false} FirstIsEarliest(clock: int, rs: seq<Round>, i: nat)
    requires Ordered(clock, rs) && i < |rs|
    ensures rs[0].at <= rs[i].at
    decreases i
  {
    if i > 0 {
      FirstIsEarliest(clock, rs, i - 1);
      assert rs[i - 1].end <= rs[i - 1 + 1].at;
    }
  }

  lemma DueSnoc(c: Config, timers: Timers, rs: seq<Round>)
    requires ZoneLaws(c.zone) && rs != []
    ensures AlwaysDue(c, timers, rs) <==>
            AlwaysDue(c, timers, rs[..|rs| - 1]) && FullDueIn(c, timers, rs, |rs| - 1)
  {
    var front := rs[..|rs| - 1];
    forall i | 0 <= i < |front|
      ensures FullDueIn(c, timers, front, i) <==> FullDueIn(c, timers, rs, i)
    {
      assert front[i] == rs[i] && front[0] == rs[0];
      if i > 0 { assert front[i - 1] == rs[i - 1]; }
    }
  }

  /** At the last tick a full is due exactly when one has come due, else the log. */
  lemma DueInRound(c: Config, clock: int, timers: Timers, rs: seq<Round>)
    requires LogWaits(c, timers, rs) && Ordered(clock, rs) && rs != []
    ensures var n := |rs| - 1;
            DueKind(c.zone, c.protection, Starved(clock, timers, rs[..n]).timers, rs[n].at)
            == Some(if FullDueIn(c, timers, rs, n) then Full else Log)
  {
    var n := |rs| - 1;
    FirstIsEarliest(clock, rs, n);
    if n > 0 {
      assert rs[..n][n - 1] == rs[n - 1];
      FullDueAfter(c, rs[n - 1].end, rs[n].at);
    }
  }

  /** A round that takes a full adds its failure. */
  lemma FullRound(c: Config, clock: int, timers: Timers, rs: seq<Round>)
    requires (forall now :: C.Valid(c.zone.dateOf(now))) && Ordered(clock, rs) && rs != []
    requires DueKind(c.zone, c.protection, Starved(clock, timers, rs[..|rs| - 1]).timers, rs[|rs| - 1].at) == Some(Full)
    ensures Run(c, Starved(clock, timers, rs[..|rs| - 1]), RoundEvents(rs[|rs| - 1]))
         == Some(Starved(clock, timers, rs))
  {
    var n := |rs| - 1;
    var front, r := rs[..n], rs[n];
    if n > 0 { assert front[n - 1] == rs[n - 1] && rs[n - 1].end <= rs[n - 1 + 1].at; }
    OneRound(c, Starved(clock, timers, front), r);
    assert Failures(rs) == Failures(front) + [Attempt(Full, Scheduled(r.at), r.at, Some(r.end))];
  }

  ghost predicate OnlyFullsTaken(c: Config, clock: int, timers: Timers, rs: seq<Round>)
    requires forall now :: C.Valid(c.zone.dateOf(now))
  {
    var end := Run(c, Start(clock, timers), Rounds(rs));
    end.Some? && OnlyFulls(end.value.history)
  }

  lemma {:induction false} RoundsEndIdle(c: Config, clock: int, timers: Timers, rs: seq<Round>)
    requires (forall now :: C.Valid(c.zone.dateOf(now))) && Ordered(clock, rs)
    requires Run(c, Start(clock, timers), Rounds(rs)).Some?
    ensures var s := Run(c, Start(clock, timers), Rounds(rs)).value;
            s.phase.Idle? && !s.running && s.clock == if rs == [] then clock else rs[|rs| - 1].end
    decreases |rs|
  {
    if rs != [] {
      OrderedFront(clock, rs);
      RunConcat(c, Start(clock, timers), Rounds(rs[..|rs| - 1]), RoundEvents(rs[|rs| - 1]));
      RoundsEndIdle(c, clock, timers, rs[..|rs| - 1]);
      OneRound(c, Run(c, Start(clock, timers), Rounds(rs[..|rs| - 1])).value, rs[|rs| - 1]);
    }
  }

  /** A run of fulls only is one before its last round, and takes a full in it. */
  lemma LastRound(c: Config, clock: int, timers: Timers, rs: seq<Round>)
    requires (forall now :: C.Valid(c.zone.dateOf(now))) && rs != [] && Ordered(clock, rs)
    requires OnlyFullsTaken(c, clock, timers, rs)
    ensures var front, r := rs[..|rs| - 1], rs[|rs| - 1];
            && OnlyFullsTaken(c, clock, timers, front)
            && DueKind(c.zone, c.protection, Run(c, Start(clock, timers), Rounds(front)).value.timers, r.at)
               == Some(Full)
  {
    var front, r := rs[..|rs| - 1], rs[|rs| - 1];
    OrderedFront(clock, rs);
    RunConcat(c, Start(clock, timers), Rounds(front), RoundEvents(r));
    RoundsEndIdle(c, clock, timers, front);
    var s := Run(c, Start(clock, timers), Rounds(front)).value;
    if front != [] { assert front[|front| - 1] == rs[|rs| - 2]; }
    OneRound(c, s, r);
    var t := Run(c, s, RoundEvents(r)).value;
    assert t.history[|s.history|].kind == Full;
    assert forall i :: 0 <= i < |s.history| ==> t.history[i] == s.history[i];
  }

  lemma {:induction false} StarvedRun(c: Config, clock: int, timers: Timers, rs: seq<Round>)
    requires LogWaits(c, timers, rs) && Ordered(clock, rs) && AlwaysDue(c, timers, rs)
    ensures Run(c, Start(clock, timers), Rounds(rs)) == Some(Starved(clock, timers, rs))
    decreases |rs|
  {
    if rs != [] {
      var front, r := rs[..|rs| - 1], rs[|rs| - 1];
      OrderedFront(clock, rs);
      DueSnoc(c, timers, rs);
      StarvedRun(c, clock, timers, front);
      RunConcat(c, Start(clock, timers), Rounds(front), RoundEvents(r));
      DueInRound(c, clock, timers, rs);
      FullRound(c, clock, timers, rs);
    }
  }

  lemma {:induction false} OnlyFullsMeansDue(c: Config, clock: int, timers: Timers, rs: seq<Round>)
    requires LogWaits(c, timers, rs) && Ordered(clock, rs) && OnlyFullsTaken(c, clock, timers, rs)
    ensures AlwaysDue(c, timers, rs)
    decreases |rs|
  {
    if rs != [] {
      var front := rs[..|rs| - 1];
      OrderedFront(clock, rs);
      LastRound(c, clock, timers, rs);
      OnlyFullsMeansDue(c, clock, timers, front);
      StarvedRun(c, clock, timers, front);
      DueInRound(c, clock, timers, rs);
      DueSnoc(c, timers, rs);
    }
  }

  /**
   * From any timers that leave a log due, over any number of ticks in which whatever is started fails, a
   * point-in-time job takes only fulls, and never that log, if and only if a full has come due by every tick - by
   * the first, and by each later one since the failure before it was recorded.
   */
  lemma StarvedExactly(c: Config, clock: int, timers: Timers, rs: seq<Round>)
    requires LogWaits(c, timers, rs) && Ordered(clock, rs)
    ensures OnlyFullsTaken(c, clock, timers, rs) <==> AlwaysDue(c, timers, rs)
    ensures AlwaysDue(c, timers, rs) ==>
              && Run(c, Start(clock, timers), Rounds(rs)) == Some(Starved(clock, timers, rs))
              && forall i :: 0 <= i < |rs| ==>
                   LogDue(LogBaseline(Starved(clock, timers, rs).timers), c.protection.logMinutes, rs[i].at)
  {
    if OnlyFullsTaken(c, clock, timers, rs) { OnlyFullsMeansDue(c, clock, timers, rs); }
    if AlwaysDue(c, timers, rs) { StarvedRun(c, clock, timers, rs); }
    forall i | 0 <= i < |rs|
      ensures LogDue(LogBaseline(timers), c.protection.logMinutes, rs[i].at)
    {
      FirstIsEarliest(clock, rs, i);
    }
  }

  /** Minute by minute, with a full every minute failing within the second: `n` ticks, `n` fulls, no log. */
  lemma StarvesForever(c: Config, n: nat) returns (rs: seq<Round>)
    requires ZoneLaws(c.zone) && c.protection.PointInTime? && c.protection.full == Interval(1)
    ensures |rs| == n && Run(c, Start(0, FRESH), Rounds(rs)) == Some(Starved(0, FRESH, rs))
            && OnlyFulls(Starved(0, FRESH, rs).history)
    ensures forall i :: 0 <= i < n ==> rs[i].at == 60 * i
  {
    rs := seq(n, i requires 0 <= i < n => Round(60 * i, 60 * i));
    StarvedExactly(c, 0, FRESH, rs);
  }
}
