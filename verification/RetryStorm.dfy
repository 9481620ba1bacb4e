/** Scheduled runs of one SQL job: the scheduler loop, manual runs, the run claim and the timers. */
module RetryStorm {
  import opened Wrappers
  import opened Scheduler
  import opened SqlTimers
  import C = Calendar

  datatype Kind = Full | Log

  datatype Protection =
    | PointInTime(full: Schedule, logMinutes: nat)
    | DailyRestorePoints(schedule: Schedule)
    | SecondaryCopy(schedule: Schedule)

  function FullSchedule(p: Protection): Schedule {
    match p
    case PointInTime(full, _) => full
    case DailyRestorePoints(schedule) => schedule
    case SecondaryCopy(schedule) => schedule
  }

  function LogBaseline(t: Timers): Option<int> {
    Or(LastLogAttempt(t), t.full)
  }

  /** What is due: a full takes precedence, a log only exists under a point-in-time plan. */
  function DueKind(z: Zone, p: Protection, t: Timers, now: int): Option<Kind>
    requires C.Valid(z.dateOf(now))
  {
    if ScheduleDue(z, FullSchedule(p), LastFullAttempt(t), now) then Some(Full)
    else if p.PointInTime? && LogDue(LogBaseline(t), p.logMinutes, now) then Some(Log)
    else None
  }

  // ---------------------------------------------------------------- the system

  datatype Config = Config(zone: Zone, protection: Protection)

  datatype Outcome = Succeeded | Failed | Cancelled

  /** Who started a run; the scheduler remembers the clock it read at its tick. */
  datatype Owner = Scheduled(now: int) | ByHand

  datatype Attempt = Attempt(kind: Kind, owner: Owner, started: int, recorded: Option<int>)

  /** The scheduler loop: between ticks, ticked, about to start a due run, or waiting for its run. */
  datatype Phase = Idle | Ticked(now: int) | Pending(kind: Kind, now: int) | Waiting

  /** `running` holds while the newest attempt holds the job's claim. */
  datatype State = State(clock: int, timers: Timers, phase: Phase, running: bool, history: seq<Attempt>)

  datatype Event =
    | Advance(to: int)
    | Tick
    | Evaluate
    | Claim
    | ManualClaim
    | PromotedFull
    | Record(outcome: Outcome)
    | Release

  function Start(clock: int, timers: Timers): State {
    State(clock, timers, Idle, false, [])
  }

  predicate InFlight(s: State) {
    s.running && s.history != [] && s.history[|s.history| - 1].recorded.None?
  }

  function Newest(s: State): Attempt
    requires s.history != []
  {
    s.history[|s.history| - 1]
  }

  /** What a finished run writes: a success its success timers, a failure or a cancel the attempt only. */
  function Recorded(t: Timers, kind: Kind, outcome: Outcome, now: int): Timers {
    match kind
    case Full => if outcome.Succeeded? then RecordedFull(t, now) else AttemptedFull(t, now)
    case Log => if outcome.Succeeded? then RecordedLog(t, now) else AttemptedLog(t, now)
  }

  function Begin(s: State, kind: Kind, owner: Owner): State {
    s.(running := true, history := s.history + [Attempt(kind, owner, s.clock, None)])
  }

  function Next(c: Config, s: State, e: Event): Option<State>
    requires forall now :: C.Valid(c.zone.dateOf(now))
  {
    match e
    case Advance(to) => if s.clock <= to then Some(s.(clock := to)) else None
    case Tick => if s.phase.Idle? then Some(s.(phase := Ticked(s.clock))) else None
    case Evaluate =>
      if !s.phase.Ticked? then None
      else
        var due := DueKind(c.zone, c.protection, s.timers, s.phase.now);
        Some(s.(phase := if due.Some? then Pending(due.value, s.phase.now) else Idle))
    case Claim =>
      if !s.phase.Pending? then None
      else if s.running then Some(s.(phase := Idle))
      else Some(Begin(s, s.phase.kind, Scheduled(s.phase.now)).(phase := Waiting))
    case ManualClaim => if s.running then Some(s) else Some(Begin(s, Full, ByHand))
    case PromotedFull =>
      if InFlight(s) && Newest(s).kind.Log? then Some(s.(timers := RecordedFull(s.timers, s.clock))) else None
    case Record(outcome) =>
      if !InFlight(s) then None
      else
        var last := Newest(s);
        Some(s.(timers := Recorded(s.timers, last.kind, outcome, s.clock),
                history := s.history[|s.history| - 1 := last.(recorded := Some(s.clock))]))
    case Release =>
      if !s.running || s.history == [] || Newest(s).recorded.None? then None
      else Some(s.(running := false, phase := if s.phase.Waiting? && Newest(s).owner.Scheduled? then Idle else s.phase))
  }

  function Run(c: Config, start: State, es: seq<Event>): Option<State>
    requires forall now :: C.Valid(c.zone.dateOf(now))
    decreases |es|
  {
    if es == [] then Some(start)
    else
      var before := Run(c, start, es[..|es| - 1]);
      if before.None? then None else Next(c, before.value, es[|es| - 1])
  }

  // ---------------------------------------------------------------- what separates two runs

  /** A run judged due at `now` is not an answer to what a run recorded at `r` already answered. */
  predicate Apart(c: Config, kind: Kind, r: int, now: int)
    requires C.Valid(c.zone.dateOf(now))
  {
    match kind
    case Log => c.protection.PointInTime? && now - r >= AtLeastOne(c.protection.logMinutes) * 60
    case Full =>
      var s := FullSchedule(c.protection);
      if s.Interval? then now - r >= AtLeastOne(s.minutes) * 60
      else LatestOccurrence(c.zone, s, now).Some? && r < LatestOccurrence(c.zone, s, now).value.0
  }

  /** The timer the scheduler gates a kind on. */
  function Gate(t: Timers, kind: Kind): Option<int> {
    if kind.Full? then LastFullAttempt(t) else LastLogAttempt(t)
  }

  lemma DueIsApart(c: Config, t: Timers, kind: Kind, r: int, now: int)
    requires C.Valid(c.zone.dateOf(now)) && DueKind(c.zone, c.protection, t, now) == Some(kind)
    requires Gate(t, kind).Some? && r <= Gate(t, kind).value
    ensures Apart(c, kind, r, now)
  {
  }

  // ---------------------------------------------------------------- invariant

  predicate Done(a: Attempt) {
    a.recorded.Some?
  }

  /** Times are ordered, and only the run that holds the claim may be unrecorded. */
  ghost predicate HistoryInv(s: State) {
    && (forall i :: 0 <= i < |s.history| && (i < |s.history| - 1 || !s.running) ==> Done(s.history[i]))
    && (forall i :: 0 <= i < |s.history| ==> s.history[i].started <= s.clock)
    && (forall i :: 0 <= i < |s.history| && s.history[i].owner.Scheduled? ==>
          s.history[i].owner.now <= s.history[i].started)
    && (forall i :: 0 <= i < |s.history| && Done(s.history[i]) ==>
          s.history[i].started <= s.history[i].recorded.value <= s.clock)
  }

  /** Each recorded run left its mark in the timer it is gated on. */
  ghost predicate GateInv(s: State) {
    forall i :: 0 <= i < |s.history| && Done(s.history[i]) ==>
      Gate(s.timers, s.history[i].kind).Some? && s.history[i].recorded.value <= Gate(s.timers, s.history[i].kind).value
  }

  predicate Answers(a: Attempt, kind: Kind) {
    a.owner.Scheduled? && a.kind == kind
  }

  ghost predicate ApartFromAll(c: Config, history: seq<Attempt>, n: nat, kind: Kind, now: int)
    requires n <= |history| && forall t :: C.Valid(c.zone.dateOf(t))
  {
    forall i :: 0 <= i < n && Answers(history[i], kind) ==>
      Done(history[i]) && Apart(c, kind, history[i].recorded.value, now)
  }

  ghost predicate PhaseInv(c: Config, s: State)
    requires forall t :: C.Valid(c.zone.dateOf(t))
  {
    && (s.phase.Ticked? ==> s.phase.now <= s.clock)
    && (s.phase.Pending? ==>
          s.phase.now <= s.clock && ApartFromAll(c, s.history, |s.history|, s.phase.kind, s.phase.now))
    && (s.phase.Waiting? <==> s.running && s.history != [] && Newest(s).owner.Scheduled?)
  }

  ghost predicate SpacedInv(c: Config, s: State)
    requires forall t :: C.Valid(c.zone.dateOf(t))
  {
    forall j :: 0 <= j < |s.history| && s.history[j].owner.Scheduled? ==>
      ApartFromAll(c, s.history, j, s.history[j].kind, s.history[j].owner.now)
  }

  ghost predicate Inv(c: Config, s: State)
    requires forall t :: C.Valid(c.zone.dateOf(t))
  {
    HistoryInv(s) && GateInv(s) && PhaseInv(c, s) && SpacedInv(c, s)
  }

  /** A due verdict reached while no scheduled run is under way is apart from every scheduled run so far. */
  lemma EvaluateApart(c: Config, s: State, kind: Kind)
    requires (forall t :: C.Valid(c.zone.dateOf(t))) && Inv(c, s) && s.phase.Ticked?
    requires DueKind(c.zone, c.protection, s.timers, s.phase.now) == Some(kind)
    ensures ApartFromAll(c, s.history, |s.history|, kind, s.phase.now)
  {
    forall i | 0 <= i < |s.history| && Answers(s.history[i], kind)
      ensures Done(s.history[i]) && Apart(c, kind, s.history[i].recorded.value, s.phase.now)
    {
      DueIsApart(c, s.timers, kind, s.history[i].recorded.value, s.phase.now);
    }
  }

  lemma BeginInv(c: Config, s: State, kind: Kind, owner: Owner)
    requires (forall t :: C.Valid(c.zone.dateOf(t))) && Inv(c, s) && !s.running
    requires owner.Scheduled? ==> s.phase == Pending(kind, owner.now)
    ensures var t := Begin(s, kind, owner);
            HistoryInv(t) && GateInv(t) && SpacedInv(c, t) && (owner.ByHand? ==> PhaseInv(c, t))
  {
    var t := Begin(s, kind, owner);
    var n := |s.history|;
    assert t.history[n] == Attempt(kind, owner, s.clock, None);
    assert forall i :: 0 <= i < n ==> t.history[i] == s.history[i];
    forall j | 0 <= j < |t.history| && t.history[j].owner.Scheduled?
      ensures ApartFromAll(c, t.history, j, t.history[j].kind, t.history[j].owner.now)
    {
      if j < n {
        assert ApartFromAll(c, s.history, j, s.history[j].kind, s.history[j].owner.now);
      }
    }
  }

  lemma RecordInv(c: Config, s: State, outcome: Outcome)
    requires (forall t :: C.Valid(c.zone.dateOf(t))) && Inv(c, s) && InFlight(s)
    ensures var t := Next(c, s, Record(outcome)).value; Inv(c, t)
  {
    var t := Next(c, s, Record(outcome)).value;
    var n := |s.history| - 1;
    assert forall i :: 0 <= i < n ==> t.history[i] == s.history[i];
    assert t.history[n] == s.history[n].(recorded := Some(s.clock));
    forall j | 0 <= j < |t.history| && t.history[j].owner.Scheduled?
      ensures ApartFromAll(c, t.history, j, t.history[j].kind, t.history[j].owner.now)
    {
      assert ApartFromAll(c, s.history, j, s.history[j].kind, s.history[j].owner.now);
    }
  }

  lemma PromotedInv(c: Config, s: State)
    requires (forall t :: C.Valid(c.zone.dateOf(t))) && Inv(c, s) && Next(c, s, PromotedFull).Some?
    ensures Inv(c, Next(c, s, PromotedFull).value)
  {
  }

  lemma ReleaseInv(c: Config, s: State)
    requires (forall t :: C.Valid(c.zone.dateOf(t))) && Inv(c, s) && Next(c, s, Release).Some?
    ensures Inv(c, Next(c, s, Release).value)
  {
  }

  lemma ClaimInv(c: Config, s: State, e: Event)
    requires (forall t :: C.Valid(c.zone.dateOf(t))) && Inv(c, s) && (e.Claim? || e.ManualClaim?) && Next(c, s, e).Some?
    ensures Inv(c, Next(c, s, e).value)
  {
    if !s.running {
      if e.Claim? {
        BeginInv(c, s, s.phase.kind, Scheduled(s.phase.now));
      } else {
        BeginInv(c, s, Full, ByHand);
      }
    }
  }

  lemma StepInv(c: Config, s: State, e: Event)
    requires (forall t :: C.Valid(c.zone.dateOf(t))) && Inv(c, s) && Next(c, s, e).Some?
    ensures Inv(c, Next(c, s, e).value)
  {
    if e.Evaluate? {
      var due := DueKind(c.zone, c.protection, s.timers, s.phase.now);
      if due.Some? { EvaluateApart(c, s, due.value); }
    } else if e.Claim? || e.ManualClaim? {
      ClaimInv(c, s, e);
    } else if e.PromotedFull? {
      PromotedInv(c, s);
    } else if e.Record? {
      RecordInv(c, s, e.outcome);
    } else if e.Release? {
      ReleaseInv(c, s);
    }
  }

  lemma {:induction false} RunInv(c: Config, clock: int, timers: Timers, es: seq<Event>)
    requires (forall t :: C.Valid(c.zone.dateOf(t))) && Run(c, Start(clock, timers), es).Some?
    ensures Inv(c, Run(c, Start(clock, timers), es).value)
    decreases |es|
  {
    if es != [] {
      RunInv(c, clock, timers, es[..|es| - 1]);
      StepInv(c, Run(c, Start(clock, timers), es[..|es| - 1]).value, es[|es| - 1]);
    }
  }

  // ---------------------------------------------------------------- no retry storm

  /**
   * Whatever the outcomes, whatever manual runs and promoted fulls come between: of two scheduled
   * fulls of a timed plan, the first is recorded before the occurrence the second answers, so no
   * occurrence is ever answered twice.
   */
  lemma {:induction false} FullsAnswerLaterOccurrences(
      c: Config, clock: int, timers: Timers, es: seq<Event>, i: nat, j: nat)
    requires ZoneLaws(c.zone) && Validate(FullSchedule(c.protection)) && Timed(FullSchedule(c.protection))
    requires Run(c, Start(clock, timers), es).Some?
    requires var h := Run(c, Start(clock, timers), es).value.history;
             i < j < |h| && Answers(h[i], Full) && Answers(h[j], Full)
    ensures var h := Run(c, Start(clock, timers), es).value.history;
            var sched := FullSchedule(c.protection);
            && Done(h[i])
            && LatestOccurrence(c.zone, sched, h[i].owner.now).Some?
            && LatestOccurrence(c.zone, sched, h[j].owner.now).Some?
            && LatestOccurrence(c.zone, sched, h[i].owner.now).value.0 <= h[i].started <= h[i].recorded.value
            && h[i].recorded.value < LatestOccurrence(c.zone, sched, h[j].owner.now).value.0 <= h[j].started
  {
    RunInv(c, clock, timers, es);
    var s := Run(c, Start(clock, timers), es).value;
    var sched := FullSchedule(c.protection);
    assert ApartFromAll(c, s.history, j, Full, s.history[j].owner.now);
    var d := SearchFindsLatest(c.zone, sched, s.history[i].owner.now);
    var e := SearchFindsLatest(c.zone, sched, s.history[j].owner.now);
  }

  /**
   * Scheduled fulls of an interval plan, and scheduled logs, start at least one interval after the previous one was
   * recorded.
   */
  lemma {:induction false} RunsOneIntervalApart(
      c: Config, clock: int, timers: Timers, es: seq<Event>, kind: Kind, i: nat, j: nat)
    requires forall t :: C.Valid(c.zone.dateOf(t))
    requires kind.Full? ==> FullSchedule(c.protection).Interval?
    requires Run(c, Start(clock, timers), es).Some?
    requires var h := Run(c, Start(clock, timers), es).value.history;
             i < j < |h| && Answers(h[i], kind) && Answers(h[j], kind)
    ensures var h := Run(c, Start(clock, timers), es).value.history;
            && (kind.Log? ==> c.protection.PointInTime?)
            && var minutes := if kind.Log? then c.protection.logMinutes else FullSchedule(c.protection).minutes;
            Done(h[i]) && h[i].recorded.value + AtLeastOne(minutes) * 60 <= h[j].started
  {
    RunInv(c, clock, timers, es);
    var s := Run(c, Start(clock, timers), es).value;
    assert ApartFromAll(c, s.history, j, kind, s.history[j].owner.now);
  }

  /** A run that gave up its claim has recorded its attempt in the timer it is gated on. */
  lemma {:induction false} RecordedBeforeRelease(c: Config, clock: int, timers: Timers, es: seq<Event>, i: nat)
    requires forall t :: C.Valid(c.zone.dateOf(t))
    requires Run(c, Start(clock, timers), es).Some?
    requires var s := Run(c, Start(clock, timers), es).value;
             i < |s.history| && (i < |s.history| - 1 || !s.running)
    ensures var s := Run(c, Start(clock, timers), es).value;
            var g := Gate(s.timers, s.history[i].kind);
            Done(s.history[i]) && g.Some? && s.history[i].started <= s.history[i].recorded.value <= g.value
  {
    RunInv(c, clock, timers, es);
  }

  // ---------------------------------------------------------------- a failed full and the logs

  /** After a full failed at `r`, a log that was due is taken exactly while no new full has come due since. */
  lemma LogsAfterFailedFull(c: Config, t: Timers, r: int, now: int)
    requires ZoneLaws(c.zone) && c.protection.PointInTime? && Validate(c.protection.full)
    requires LogDue(LogBaseline(t), c.protection.logMinutes, now)
    ensures DueKind(c.zone, c.protection, AttemptedFull(t, r), now) == Some(Log) <==> !FullDueSince(c, r, now)
  {
    FullDueAfter(c, r, now);
  }

  // ---------------------------------------------------------------- a successful full and state of older versions

  /** Whether a full has come due since one was recorded at `r`. */
  ghost predicate FullDueSince(c: Config, r: int, now: int) {
    match FullSchedule(c.protection)
    case Manual => false
    case Interval(minutes) => r + minutes * 60 <= now
    case timed => exists d, at :: IsOccurrence(c.zone, timed, now, d, at) && r < at
  }

  lemma FullDueAfter(c: Config, r: int, now: int)
    requires ZoneLaws(c.zone) && Validate(FullSchedule(c.protection))
    ensures ScheduleDue(c.zone, FullSchedule(c.protection), Some(r), now) <==> FullDueSince(c, r, now)
  {
    if Timed(FullSchedule(c.protection)) { DueMeansMissedOccurrence(c.zone, FullSchedule(c.protection), r, now); }
  }

  /**
   * A successful full restarts the log interval: what is due after it is the next full, else the log one interval
   * on.
   */
  lemma FullRestartsLogs(c: Config, t: Timers, r: int, now: int)
    requires ZoneLaws(c.zone) && c.protection.PointInTime? && Validate(c.protection.full)
    ensures DueKind(c.zone, c.protection, RecordedFull(t, r), now)
         == if FullDueSince(c, r, now) then Some(Full)
            else if r + AtLeastOne(c.protection.logMinutes) * 60 <= now then Some(Log) else None
  {
    FullDueAfter(c, r, now);
  }

  /** State without attempt times is read as if every success had been an attempt, so an upgrade makes nothing due. */
  lemma OlderStateCounts(z: Zone, p: Protection, t: Timers, now: int)
    requires C.Valid(z.dateOf(now)) && t.fullAttempt.None? && t.logAttempt.None?
    ensures DueKind(z, p, t, now) == DueKind(z, p, t.(fullAttempt := t.full, logAttempt := t.log), now)
  {
  }

  // ---------------------------------------------------------------- on the stored state

  /** What is due, read from the store as the scheduler reads it. */
  method DueNow(store: TimerStore, job: string, z: Zone, p: Protection, now: int) returns (due: Option<Kind>)
    requires C.Valid(z.dateOf(now))
    ensures due == DueKind(z, p, store.Load(job), now)
  {
    match p
    case PointInTime(full, logMinutes) =>
      if ScheduleDue(z, full, LastFullAttempt(store.Load(job)), now) {
        return Some(Full);
      }
      var baseline := LastLogAttempt(store.Load(job));
      if baseline.None? {
        baseline := store.Load(job).full;
      }
      due := if LogDue(baseline, logMinutes, now) then Some(Log) else None;
    case DailyRestorePoints(schedule) =>
      due := if ScheduleDue(z, schedule, LastFullAttempt(store.Load(job)), now) then Some(Full) else None;
    case SecondaryCopy(schedule) =>
      due := if ScheduleDue(z, schedule, LastFullAttempt(store.Load(job)), now) then Some(Full) else None;
  }

  /** What is due depends only on what is read of the state. */
  lemma DueByReadings(z: Zone, p: Protection, t: Timers, u: Timers, now: int)
    requires C.Valid(z.dateOf(now)) && Reads(t) == Reads(u)
    ensures DueKind(z, p, t, now) == DueKind(z, p, u, now)
  {
  }

  /** Under no zone and no plan is a kind due at the instant it was recorded. */
  lemma NotDueAtOnce(z: Zone, p: Protection, t: Timers, kind: Kind, now: int)
    requires C.Valid(z.dateOf(now)) && Gate(t, kind) == Some(now)
    ensures DueKind(z, p, t, now) != Some(kind)
  {
    LatestNotAfterNow(z, FullSchedule(p), now);
  }

  /**
   * The end of a run: the recorder for its kind and outcome. The stored state then reads as the step of the
   * scheduler's system says, the kind is gated on this very instant, and no other job's state is touched.
   */
  method RecordRun(store: TimerStore, job: string, kind: Kind, outcome: Outcome, now: int)
    modifies store
    ensures Reads(store.Load(job)) == Reads(Recorded(old(store.Load(job)), kind, outcome, now))
    ensures Gate(store.Load(job), kind) == Some(now)
    ensures forall other :: other != job ==> store.Load(other) == old(store.Load(other))
  {
    match kind
    case Full =>
      if outcome.Succeeded? {
        store.RecordFull(job, now);
      } else {
        store.RecordFullAttempt(job, now);
      }
    case Log =>
      if outcome.Succeeded? {
        store.RecordLog(job, now);
      } else {
        store.RecordLogAttempt(job, now);
      }
  }

  /** The jobs with a run under way. */
  class RunningJobs {
    var jobs: set<string>

    constructor ()
      ensures jobs == {}
    {
      jobs := {};
    }

    method TryClaim(job: string) returns (claimed: bool)
      modifies this
      ensures claimed == (job !in old(jobs)) && jobs == old(jobs) + {job}
    {
      claimed := job !in jobs;
      jobs := jobs + {job};
    }

    /** The claim of a SQL job's run is given up only once its kind is gated on the run's end. */
    method Release(job: string, store: TimerStore, sql: bool, kind: Kind, end: int)
      requires job in jobs && (sql ==> Gate(store.Load(job), kind) == Some(end))
      modifies this
      ensures jobs == old(jobs) - {job}
    {
      jobs := jobs - {job};
    }
  }

  datatype Report = AlreadyRunning | Stopped | Finished | Broken

  /** A run that ended well counts as such even if it was cancelled as it ended. */
  function OutcomeOf(ok: bool, cancelled: bool): Outcome {
    if ok then Succeeded else if cancelled then Cancelled else Failed
  }

  function ReportOf(outcome: Outcome): Report {
    match outcome
    case Succeeded => Finished
    case Failed => Broken
    case Cancelled => Stopped
  }

  /** The state a run leaves: a full that a log run was promoted to is recorded when it is done, the run at its end. */
  function AfterRun(t: Timers, kind: Kind, promoted: Option<int>, outcome: Outcome, end: int): Timers {
    Recorded(if promoted.Some? then RecordedFull(t, promoted.value) else t, kind, outcome, end)
  }

  /**
   * One run through all its exits. If the job is running already nothing changes; otherwise the run of a SQL job
   * is recorded, whether it ended well, failed or was cancelled, and only then is its claim given up. `promoted`
   * is when a log run took a full instead.
   */
  method RunJobKind(running: RunningJobs, store: TimerStore, job: string, sql: bool, kind: Kind,
                    promoted: Option<int>, ok: bool, cancelled: bool, end: int)
    returns (report: Report)
    requires promoted.Some? ==> sql && kind.Log?
    modifies running, store
    ensures running.jobs == old(running.jobs)
    ensures report == if job in old(running.jobs) then AlreadyRunning else ReportOf(OutcomeOf(ok, cancelled))
    ensures job in old(running.jobs) || !sql ==> store.files == old(store.files)
    ensures job !in old(running.jobs) && sql ==>
              && Reads(store.Load(job)) ==
                 Reads(AfterRun(old(store.Load(job)), kind, promoted, OutcomeOf(ok, cancelled), end))
              && Gate(store.Load(job), kind) == Some(end)
    ensures forall other :: other != job ==> store.Load(other) == old(store.Load(other))
  {
    var claimed := running.TryClaim(job);
    if !claimed {
      return AlreadyRunning;
    }
    if promoted.Some? {
      store.RecordFull(job, promoted.value);
    }
    if cancelled && !ok {
      if sql {
        RecordRun(store, job, kind, Cancelled, end);
      }
      running.Release(job, store, sql, kind, end);
      return Stopped;
    }
    if sql {
      RecordRun(store, job, kind, if ok then Succeeded else Failed, end);
    }
    running.Release(job, store, sql, kind, end);
    report := if ok then Finished else Broken;
  }

  /**
   * One scheduled run on the stored state, from what is due to what is recorded: it is not due again at once, and
   * at any time what is due is what the scheduler's system says.
   */
  method RunDue(store: TimerStore, job: string, z: Zone, p: Protection, now: int, outcome: Outcome, end: int)
    returns (due: Option<Kind>)
    requires C.Valid(z.dateOf(now)) && C.Valid(z.dateOf(end)) && now <= end
    modifies store
    ensures due == old(DueKind(z, p, store.Load(job), now))
    ensures due.None? ==> store.files == old(store.files)
    ensures due.Some? ==> DueKind(z, p, store.Load(job), end) != due
    ensures due.Some? ==> forall t | C.Valid(z.dateOf(t)) ::
              DueKind(z, p, store.Load(job), t) ==
              DueKind(z, p, Recorded(old(store.Load(job)), due.value, outcome, end), t)
    ensures forall other :: other != job ==> store.Load(other) == old(store.Load(other))
  {
    due := DueNow(store, job, z, p, now);
    if due.Some? {
      RecordRun(store, job, due.value, outcome, end);
      NotDueAtOnce(z, p, store.Load(job), due.value, end);
      forall t | C.Valid(z.dateOf(t))
        ensures DueKind(z, p, store.Load(job), t) ==
                DueKind(z, p, Recorded(old(store.Load(job)), due.value, outcome, end), t)
      {
        DueByReadings(z, p, store.Load(job), Recorded(old(store.Load(job)), due.value, outcome, end), t);
      }
    }
  }
}
