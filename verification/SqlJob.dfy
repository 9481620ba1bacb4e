/** Runs of one point-in-time SQL job to PBS on a standalone instance. */
module SqlJob {
  import opened Wrappers
  import opened SqlTimers
  import opened Plan

  datatype Config = Config(databases: seq<string>, failoverCluster: bool)

  datatype Snapshot = Snapshot(database: string, log: bool)

  /** The database loop: which database is next, whether the job counts as having a full, whether any failed. */
  datatype Loop = Loop(kind: RunKind, next: nat, localFull: bool, failed: bool)

  datatype State = State(timers: Timers, loop: Option<Loop>, snapshots: seq<Snapshot>)

  /**
   * How the backup of one database ended. SQL Server may report that no full starts the log chain; a backup
   * that broke may still have landed, if only the answer to its last request was lost.
   */
  datatype Result = Committed | NoChain | Broken(landed: bool)

  const NO_CHAIN_ESCALATE_SECS: int := 3600

  /**
   * Steps of a run. What SQL Server reports of a database is chosen afresh each time, so a chain
   * may appear or vanish by anyone's hand between two steps.
   */
  datatype Event =
    | Connect(kind: RunKind, now: int)
    | NoConnection(kind: RunKind, now: int)
    | ProbeFails
    | Database(simpleRecovery: bool, readOnly: bool, logChain: bool, result: Result, now: int)
    | End(now: int)
    | Cancel(now: int)

  const START: State := State(FRESH, None, [])

  /** What a finished run records. */
  function Recorded(t: Timers, kind: RunKind, ok: bool, now: int): Timers {
    match kind
    case FullRun => if ok then RecordedFull(t, now) else AttemptedFull(t, now)
    case LogRun => if ok then RecordedLog(t, now) else AttemptedLog(t, now)
  }

  function Standing(e: Event): DbState
    requires e.Database?
  {
    DbState(Standalone, true, e.simpleRecovery, e.readOnly, e.logChain)
  }

  /** One database of the loop: decided, backed up, and counted only when the backup is reported to have succeeded. */
  function StepDatabase(c: Config, s: State, l: Loop, e: Event): State
    requires e.Database? && l.next < |c.databases|
  {
    match Decide(PointInTime, l.kind, Standing(e), l.localFull)
    case Skip(_) => s.(loop := Some(l.(next := l.next + 1)))
    case Backup(log, _, _) =>
      var db := c.databases[l.next];
      if log && e.result.NoChain? then
        var noted := NotedNoChain(s.timers, db, e.now);
        var lasting := e.now - noted.noChainSince[db] >= NO_CHAIN_ESCALATE_SECS;
        s.(timers := noted, loop := Some(l.(next := l.next + 1, failed := l.failed || lasting)))
      else if !e.result.Committed? then
        var landed := e.result.Broken? && e.result.landed;
        s.(loop := Some(l.(next := l.next + 1, failed := true)),
           snapshots := if landed then s.snapshots + [Snapshot(db, log)] else s.snapshots)
      else
        var promoted := l.kind.LogRun? && !log;
        var cleared := ClearedNoChain(s.timers, db);
        State(if promoted then RecordedFull(cleared, e.now) else cleared,
              Some(l.(next := l.next + 1, localFull := l.localFull || promoted)),
              s.snapshots + [Snapshot(db, log)])
  }

  function Next(c: Config, s: State, e: Event): Option<State> {
    match e
    case Connect(kind, now) =>
      if s.loop.Some? then None
      else if c.databases == [] then Some(s.(timers := Recorded(s.timers, kind, false, now)))
      else Some(s.(loop := Some(Loop(kind, 0, s.timers.full.Some?, false))))
    case NoConnection(kind, now) =>
      if s.loop.Some? then None
      else Some(s.(timers := Recorded(s.timers, kind, c.failoverCluster && c.databases != [], now)))
    case ProbeFails =>
      if s.loop.None? || s.loop.value.next >= |c.databases| then None
      else Some(s.(loop := Some(s.loop.value.(next := s.loop.value.next + 1, failed := true))))
    case Database(_, _, _, _, _) =>
      if s.loop.None? || s.loop.value.next >= |c.databases| then None
      else Some(StepDatabase(c, s, s.loop.value, e))
    case End(now) =>
      if s.loop.None? || s.loop.value.next < |c.databases| then None
      else Some(s.(timers := Recorded(s.timers, s.loop.value.kind, !s.loop.value.failed, now), loop := None))
    case Cancel(now) =>
      if s.loop.None? then None
      else Some(s.(timers := Recorded(s.timers, s.loop.value.kind, false, now), loop := None))
  }

  function Run(c: Config, es: seq<Event>): Option<State>
    decreases |es|
  {
    if es == [] then Some(START)
    else
      var before := Run(c, es[..|es| - 1]);
      if before.None? then None else Next(c, before.value, es[|es| - 1])
  }

  // ---------------------------------------------------------------- the property

  ghost predicate HasFull(snapshots: seq<Snapshot>, database: string) {
    exists i :: 0 <= i < |snapshots| && snapshots[i] == Snapshot(database, false)
  }

  /** Every log snapshot comes after a full of its database from this job. */
  ghost predicate LogsHaveFulls(snapshots: seq<Snapshot>) {
    forall i :: 0 <= i < |snapshots| && snapshots[i].log ==> HasFull(snapshots[..i], snapshots[i].database)
  }

  ghost predicate Safe(c: Config) {
    forall es :: Run(c, es).Some? ==> LogsHaveFulls(Run(c, es).value.snapshots)
  }

  predicate OneDatabase(c: Config) {
    forall i :: 0 <= i < |c.databases| ==> c.databases[i] == c.databases[0]
  }

  // ---------------------------------------------------------------- safe when it should be

  ghost predicate Inv(c: Config, s: State)
    requires c.databases != []
  {
    && (s.timers.full.Some? ==> HasFull(s.snapshots, c.databases[0]))
    && (s.loop.Some? ==> LoopInv(c, s, s.loop.value))
    && LogsHaveFulls(s.snapshots)
  }

  ghost predicate LoopInv(c: Config, s: State, l: Loop)
    requires c.databases != []
  {
    && l.next <= |c.databases|
    && (l.localFull ==> HasFull(s.snapshots, c.databases[0]))
    && (l.kind.FullRun? && l.next > 0 && !l.failed ==> HasFull(s.snapshots, c.databases[0]))
  }

  lemma HasFullGrows(snapshots: seq<Snapshot>, snap: Snapshot, database: string)
    ensures HasFull(snapshots, database) ==> HasFull(snapshots + [snap], database)
    ensures snap == Snapshot(database, false) ==> HasFull(snapshots + [snap], database)
  {
    if HasFull(snapshots, database) {
      var i :| 0 <= i < |snapshots| && snapshots[i] == Snapshot(database, false);
      assert (snapshots + [snap])[i] == Snapshot(database, false);
    }
    assert (snapshots + [snap])[|snapshots|] == snap;
  }

  lemma LogsHaveFullsGrows(snapshots: seq<Snapshot>, snap: Snapshot)
    requires LogsHaveFulls(snapshots) && (snap.log ==> HasFull(snapshots, snap.database))
    ensures LogsHaveFulls(snapshots + [snap])
  {
    var more := snapshots + [snap];
    forall i | 0 <= i < |more| && more[i].log
      ensures HasFull(more[..i], more[i].database)
    {
      if i < |snapshots| {
        assert more[..i] == snapshots[..i];
      } else {
        assert more[..i] == snapshots;
      }
    }
  }

  lemma DatabaseInv(c: Config, s: State, l: Loop, e: Event)
    requires c.databases != [] && OneDatabase(c) && Inv(c, s) && s.loop == Some(l)
    requires e.Database? && l.next < |c.databases|
    ensures Inv(c, StepDatabase(c, s, l, e))
  {
    var action := Decide(PointInTime, l.kind, Standing(e), l.localFull);
    if action.Backup? && !e.result.NoChain? {
      var snap := Snapshot(c.databases[0], action.log);
      HasFullGrows(s.snapshots, snap, c.databases[0]);
      LogsHaveFullsGrows(s.snapshots, snap);
    }
  }

  lemma StepInv(c: Config, s: State, e: Event)
    requires c.databases != [] && OneDatabase(c) && !c.failoverCluster && Inv(c, s) && Next(c, s, e).Some?
    ensures Inv(c, Next(c, s, e).value)
  {
    if e.Database? { DatabaseInv(c, s, s.loop.value, e); }
  }

  lemma {:induction false} RunInv(c: Config, es: seq<Event>)
    requires c.databases != [] && OneDatabase(c) && !c.failoverCluster && Run(c, es).Some?
    ensures Inv(c, Run(c, es).value)
    decreases |es|
  {
    if es != [] {
      RunInv(c, es[..|es| - 1]);
      StepInv(c, Run(c, es[..|es| - 1]).value, es[|es| - 1]);
    }
  }

  /** With no database selected nothing is ever backed up. */
  lemma {:induction false} NothingSelected(c: Config, es: seq<Event>)
    requires c.databases == [] && Run(c, es).Some?
    ensures Run(c, es).value.loop.None? && Run(c, es).value.snapshots == []
    decreases |es|
  {
    if es != [] { NothingSelected(c, es[..|es| - 1]); }
  }

  // ---------------------------------------------------------------- unsafe otherwise

  lemma {:induction false} RunSnoc(c: Config, es: seq<Event>, e: Event)
    requires Run(c, es).Some?
    ensures Run(c, es + [e]) == Next(c, Run(c, es).value, e)
  {
    assert (es + [e])[..|es|] == es;
  }

  /** A log of a database that has no full. */
  lemma Orphan(snapshots: seq<Snapshot>, database: string)
    requires !HasFull(snapshots, database)
    ensures !LogsHaveFulls(snapshots + [Snapshot(database, true)])
  {
    var more := snapshots + [Snapshot(database, true)];
    var i := |snapshots|;
    assert more[..i] == snapshots;
    assert more[i] == Snapshot(database, true);
  }

  /** A full run that found the cluster elsewhere counts as a full; the next log run then logs onto nothing. */
  lemma SkippedFullRunCounts(c: Config) returns (es: seq<Event>)
    requires c.databases != [] && c.failoverCluster
    ensures Run(c, es).Some? && !LogsHaveFulls(Run(c, es).value.snapshots)
  {
    var away := NoConnection(FullRun, 0);
    var back := Connect(LogRun, 60);
    var log := Database(false, false, true, Committed, 61);
    RunSnoc(c, [], away);
    RunSnoc(c, [away], back);
    RunSnoc(c, [away] + [back], log);
    Orphan([], c.databases[0]);
    es := [away] + [back] + [log];
  }

  /** A log run on its way to the first database that differs from the first one. */
  lemma {:induction false} PromotesFirst(c: Config, k: nat) returns (es: seq<Event>)
    requires 1 <= k < |c.databases| && forall i :: 0 <= i < k ==> c.databases[i] == c.databases[0]
    ensures Run(c, es).Some?
    ensures Run(c, es).value.loop == Some(Loop(LogRun, k, true, false))
    ensures Run(c, es).value.snapshots == [Snapshot(c.databases[0], false)]
    decreases k
  {
    if k == 1 {
      var connect := Connect(LogRun, 0);
      var full := Database(false, false, false, Committed, 1);
      RunSnoc(c, [], connect);
      RunSnoc(c, [connect], full);
      es := [connect] + [full];
    } else {
      var before := PromotesFirst(c, k - 1);
      var skip := Database(true, false, false, Committed, 1);
      RunSnoc(c, before, skip);
      es := before + [skip];
    }
  }

  lemma {:induction false} FirstOther(c: Config, n: nat) returns (k: nat)
    requires n <= |c.databases| && exists i :: 0 <= i < n && c.databases[i] != c.databases[0]
    ensures 1 <= k < n && c.databases[k] != c.databases[0]
            && forall i :: 0 <= i < k ==> c.databases[i] == c.databases[0]
    decreases n
  {
    if forall i :: 0 <= i < n - 1 ==> c.databases[i] == c.databases[0] {
      k := n - 1;
    } else {
      k := FirstOther(c, n - 1);
    }
  }

  /** The full promoted for one database lets the same run log another that never had one. */
  lemma PromotionSpills(c: Config) returns (es: seq<Event>)
    requires !OneDatabase(c)
    ensures Run(c, es).Some? && !LogsHaveFulls(Run(c, es).value.snapshots)
  {
    var k := FirstOther(c, |c.databases|);
    var before := PromotesFirst(c, k);
    var log := Database(false, false, true, Committed, 2);
    RunSnoc(c, before, log);
    assert !HasFull([Snapshot(c.databases[0], false)], c.databases[k]);
    Orphan([Snapshot(c.databases[0], false)], c.databases[k]);
    es := before + [log];
  }

  /**
   * PBS never holds a log without an earlier full of its database from this job - over any mix of
   * full runs, log runs, failures, cancels and outside changes of the chain - exactly for jobs that
   * name one database and whose connection is not a failover cluster instance (or that name none).
   */
  lemma NoLogWithoutFull(c: Config)
    ensures Safe(c) <==> c.databases == [] || (OneDatabase(c) && !c.failoverCluster)
  {
    if c.databases == [] {
      forall es | Run(c, es).Some?
        ensures LogsHaveFulls(Run(c, es).value.snapshots)
      {
        NothingSelected(c, es);
      }
    } else if !OneDatabase(c) {
      var es := PromotionSpills(c);
    } else if c.failoverCluster {
      var es := SkippedFullRunCounts(c);
    } else {
      forall es | Run(c, es).Some?
        ensures LogsHaveFulls(Run(c, es).value.snapshots)
      {
        RunInv(c, es);
      }
    }
  }
}
