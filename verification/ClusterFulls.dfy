/** When the logs an availability group's job takes follow, and replay onto, a full of the same job. */
module ClusterFulls {
  import opened Wrappers
  import opened Plan
  import opened Cluster
  import opened ClusterReplay

  ghost predicate HasOwnFull(trace: seq<Item>) {
    exists k :: 0 <= k < |trace| && OwnFull(trace[k])
  }

  /** Every log of the job on PBS came after a full of the job. */
  ghost predicate LogsHaveFulls(trace: seq<Item>) {
    forall i :: 0 <= i < |trace| && OwnLog(trace[i]) ==> HasOwnFull(trace[..i])
  }

  /** The log at `i` replays onto a full of the job, with the job's own logs between them. */
  ghost predicate Replays(trace: seq<Item>, i: nat)
    requires i < |trace|
  {
    exists k: nat :: k < i && OwnFull(trace[k]) && ReplayOnto(trace, k, i + 1).Some?
  }

  ghost predicate LogsReplay(trace: seq<Item>) {
    forall i :: 0 <= i < |trace| && OwnLog(trace[i]) ==> Replays(trace, i)
  }

  ghost predicate AlwaysHaveFulls(c: Config) {
    forall primary, preferred, es :: Roles(c, primary, preferred) && Run(c, Start(primary, preferred), es).Some? ==>
      LogsHaveFulls(Run(c, Start(primary, preferred), es).value.trace)
  }

  ghost predicate AlwaysReplay(c: Config) {
    forall primary, preferred, es :: Roles(c, primary, preferred) && Run(c, Start(primary, preferred), es).Some? ==>
      LogsReplay(Run(c, Start(primary, preferred), es).value.trace)
  }

  // ---------------------------------------------------------------- growing traces

  lemma FullsGrow(trace: seq<Item>, item: Item)
    requires LogsHaveFulls(trace) && (OwnLog(item) ==> HasOwnFull(trace))
    ensures LogsHaveFulls(trace + [item]) && (HasOwnFull(trace) || OwnFull(item) ==> HasOwnFull(trace + [item]))
  {
    var more := trace + [item];
    forall i | 0 <= i < |more| && OwnLog(more[i])
      ensures HasOwnFull(more[..i])
    {
      if i < |trace| {
        assert more[..i] == trace[..i];
      } else {
        assert more[..i] == trace;
      }
    }
    assert more[|trace|] == item;
    if HasOwnFull(trace) {
      var k :| 0 <= k < |trace| && OwnFull(trace[k]);
      assert OwnFull(more[k]);
    }
  }

  /** What an event adds to the account, if anything. */
  function Added(c: Config, s: State, e: Event): Option<Item>
    requires Next(c, s, e).Some?
  {
    var t := Next(c, s, e).value;
    if |t.trace| > |s.trace| then Some(t.trace[|s.trace|]) else None
  }

  lemma AddsOne(c: Config, s: State, e: Event)
    requires Next(c, s, e).Some?
    ensures var t, item := Next(c, s, e).value, Added(c, s, e);
            t.trace == if item.Some? then s.trace + [item.value] else s.trace
  {
  }

  // ---------------------------------------------------------------- nobody to back up

  lemma {:induction false} NoReplicas(c: Config, primary: Option<nat>, preferred: Option<nat>, es: seq<Event>)
    requires c.replicas == 0 && Run(c, Start(primary, preferred), es).Some?
    ensures var s := Run(c, Start(primary, preferred), es).value;
            s.pending == map[] && forall i :: 0 <= i < |s.trace| ==> !s.trace[i].Taken?
    decreases |es|
  {
    if es != [] {
      NoReplicas(c, primary, preferred, es[..|es| - 1]);
      AddsOne(c, Run(c, Start(primary, preferred), es[..|es| - 1]).value, es[|es| - 1]);
    }
  }

  // ---------------------------------------------------------------- every chain is the job's own

  /** A chain means a full of the job on PBS. */
  ghost predicate ChainInv(s: State) {
    (s.chain.Some? ==> HasOwnFull(s.trace)) && LogsHaveFulls(s.trace)
  }

  lemma ChainStep(c: Config, s: State, e: Event)
    requires !c.lossy && !c.othersFull && ChainInv(s) && Next(c, s, e).Some?
    ensures ChainInv(Next(c, s, e).value)
  {
    AddsOne(c, s, e);
    var item := Added(c, s, e);
    if item.Some? { FullsGrow(s.trace, item.value); }
  }

  lemma {:induction false} ChainRun(c: Config, primary: Option<nat>, preferred: Option<nat>, es: seq<Event>)
    requires !c.lossy && !c.othersFull && Run(c, Start(primary, preferred), es).Some?
    ensures ChainInv(Run(c, Start(primary, preferred), es).value)
    decreases |es|
  {
    if es != [] {
      ChainRun(c, primary, preferred, es[..|es| - 1]);
      ChainStep(c, Run(c, Start(primary, preferred), es[..|es| - 1]).value, es[|es| - 1]);
    }
  }

  // ---------------------------------------------------------------- only the primary takes logs

  /** Logs are decided on the primary only, and full runs start only there. */
  predicate PrimaryOnly(c: Config) {
    (c.basic || c.replicas == 1) && !c.fullRunsAnywhere
  }

  ghost predicate PendingLog(s: State) {
    exists r :: r in s.pending && s.pending[r].log
  }

  /** Each machine's record of a full, and each log under way, has a full of the job behind it. */
  ghost predicate RecordInv(c: Config, s: State) {
    && Roles(c, s.primary, s.preferred)
    && (s.localFull != {} ==> HasOwnFull(s.trace))
    && (PendingLog(s) ==> HasOwnFull(s.trace))
    && LogsHaveFulls(s.trace)
  }

  lemma ProbeRecord(c: Config, s: State, r: nat, run: RunKind)
    requires PrimaryOnly(c) && RecordInv(c, s) && r < c.replicas && (run.LogRun? || s.primary == Some(r))
    ensures RecordInv(c, AfterProbe(c, s, r, run))
  {
    var action := Decided(c, s, r, run);
    var t := AfterProbe(c, s, r, run);
    FullsGrow(s.trace, Decision(r, run, action, s.epoch, s.primary, s.preferred));
    if PendingLog(t) && !(action.Backup? && action.log) {
      var o :| o in t.pending && t.pending[o].log;
      assert o in s.pending && s.pending[o].log;
    }
  }

  lemma ExecuteRecord(c: Config, s: State, r: nat, sql: bool, landed: bool, answered: bool)
    requires RecordInv(c, s) && r in s.pending
    ensures RecordInv(c, AfterExecute(c, s, r, sql, landed, answered))
  {
    var w := s.pending[r];
    var t := AfterExecute(c, s, r, sql, landed, answered);
    assert w.log ==> PendingLog(s);
    if Permits(c, s, r, w) && (sql || landed) { FullsGrow(s.trace, Backed(s, r, w, sql, landed)); }
    if PendingLog(t) {
      var o :| o in t.pending && t.pending[o].log;
      assert o in s.pending && s.pending[o].log;
    }
  }

  lemma RecordStep(c: Config, s: State, e: Event)
    requires PrimaryOnly(c) && RecordInv(c, s) && Next(c, s, e).Some?
    ensures RecordInv(c, Next(c, s, e).value)
  {
    if e.Probe? {
      ProbeRecord(c, s, e.replica, e.run);
    } else if e.Execute? {
      ExecuteRecord(c, s, e.replica, e.sql, e.landed, e.answered);
    } else {
      AddsOne(c, s, e);
      var item := Added(c, s, e);
      if item.Some? { FullsGrow(s.trace, item.value); }
    }
  }

  lemma {:induction false} RecordRun(c: Config, primary: Option<nat>, preferred: Option<nat>, es: seq<Event>)
    requires PrimaryOnly(c) && Roles(c, primary, preferred) && Run(c, Start(primary, preferred), es).Some?
    ensures RecordInv(c, Run(c, Start(primary, preferred), es).value)
    decreases |es|
  {
    if es != [] {
      RecordRun(c, primary, preferred, es[..|es| - 1]);
      RecordStep(c, Run(c, Start(primary, preferred), es[..|es| - 1]).value, es[|es| - 1]);
    }
  }

  // ---------------------------------------------------------------- logs without a full

  ghost predicate NoOwnFull(trace: seq<Item>) {
    forall k :: 0 <= k < |trace| ==> !OwnFull(trace[k])
  }

  /** A full that SQL Server completed but PBS never got. */
  function LostRunBy(r: nat): seq<Event> {
    [Probe(r, LogRun), Execute(r, true, false, false)]
  }

  /** A chain with no full of the job: by a full whose upload failed, or by someone else's. */
  lemma ChainWithoutFull(c: Config, s: State, p: nat) returns (es: seq<Event>)
    requires (c.lossy || c.othersFull) && p < c.replicas && s.primary == Some(p) && p !in s.pending
    requires !s.simple && !s.readOnly && s.chain.None? && NoOwnFull(s.trace)
    ensures Run(c, s, es).Some?
    ensures var t := Run(c, s, es).value;
            && t.chain.Some? && NoOwnFull(t.trace) && t.pending == s.pending && t.localFull == s.localFull
            && t.primary == s.primary && t.preferred == s.preferred && !t.simple && !t.readOnly
  {
    if c.lossy {
      es := LostRunBy(p);
      TwoSteps(c, s, es[0], es[1]);
      assert s.pending[p := Pending(false, false, s.epoch)] - {p} == s.pending;
    } else {
      es := [FullByOthers];
      OneStep(c, s, FullByOthers);
    }
  }

  lemma LogWithoutFull(trace: seq<Item>)
    requires trace != [] && OwnLog(trace[|trace| - 1]) && NoOwnFull(trace[..|trace| - 1])
    ensures !LogsHaveFulls(trace)
  {
    assert !HasOwnFull(trace[..|trace| - 1]);
  }

  /** With a chain and no full of the job, one log run of the preferred replica puts a log on PBS without a full. */
  lemma LogsWithoutFull(c: Config, s: State, q: nat)
    requires q < c.replicas && Preferred(c, s.primary, s.preferred, q) && q !in s.pending && NoOwnFull(s.trace)
    requires !s.simple && !s.readOnly && s.chain.Some? && (s.primary == Some(q) ==> q in s.localFull)
    ensures Run(c, s, LogRunBy(q)).Some? && !LogsHaveFulls(Run(c, s, LogRunBy(q)).value.trace)
  {
    PreferredExtends(c, s, q);
    var u := Run(c, s, LogRunBy(q)).value;
    var n := |s.trace|;
    assert u.trace[..n + 1] == s.trace + [u.trace[n]];
    LogWithoutFull(u.trace);
  }

  /** A preferred secondary takes the log of a chain that no full of the job on PBS started. */
  lemma SecondaryLogsWithoutFull(c: Config) returns (es: seq<Event>)
    requires c.replicas >= 2 && !c.basic && (c.lossy || c.othersFull)
    ensures Run(c, Start(Some(0), Some(1)), es).Some?
    ensures !LogsHaveFulls(Run(c, Start(Some(0), Some(1)), es).value.trace)
  {
    var s := Start(Some(0), Some(1));
    var chain := ChainWithoutFull(c, s, 0);
    LogsWithoutFull(c, Run(c, s, chain).value, 1);
    RunConcat(c, s, chain, LogRunBy(1));
    es := chain + LogRunBy(1);
  }

  /** A full run skipped on a secondary counts as a full, so once primary its machine takes logs without one. */
  lemma SkippedFullThenFailover(c: Config) returns (es: seq<Event>)
    requires c.replicas > 0 && c.fullRunsAnywhere && (c.lossy || c.othersFull)
    ensures Run(c, Start(None, None), es).Some? && !LogsHaveFulls(Run(c, Start(None, None), es).value.trace)
  {
    var s := Start(None, None);
    var a, b := Probe(0, FullRun), Failover(Some(0), Some(0));
    TwoSteps(c, s, a, b);
    var t := Run(c, s, [a, b]).value;
    var chain := ChainWithoutFull(c, t, 0);
    LogsWithoutFull(c, Run(c, t, chain).value, 0);
    RunConcat(c, s, [a, b], chain);
    RunConcat(c, s, [a, b] + chain, LogRunBy(0));
    es := [a, b] + chain + LogRunBy(0);
  }

  /**
   * Every log on PBS follows a full of the same job - over all failovers, breaks and failures - if and only if
   * there is no replica, or every chain is started by a full of the job that lands, or only the primary takes
   * logs and full runs start only there, so that no skipped one counts.
   */
  lemma OwnFullFirstExactly(c: Config)
    ensures AlwaysHaveFulls(c) <==> c.replicas == 0 || (!c.lossy && !c.othersFull) || PrimaryOnly(c)
  {
    if c.replicas == 0 || (!c.lossy && !c.othersFull) || PrimaryOnly(c) {
      forall primary, preferred, es | Roles(c, primary, preferred) && Run(c, Start(primary, preferred), es).Some?
        ensures LogsHaveFulls(Run(c, Start(primary, preferred), es).value.trace)
      {
        if c.replicas == 0 {
          NoReplicas(c, primary, preferred, es);
        } else if PrimaryOnly(c) {
          RecordRun(c, primary, preferred, es);
        } else {
          ChainRun(c, primary, preferred, es);
        }
      }
    } else if c.fullRunsAnywhere {
      var es := SkippedFullThenFailover(c);
    } else {
      var es := SecondaryLogsWithoutFull(c);
    }
  }

  // ---------------------------------------------------------------- every log lands

  /** Nobody else takes backups of the database, and what SQL Server completes lands. */
  predicate Alone(c: Config) {
    !c.lossy && !c.othersFull && !c.othersLog
  }

  /** A chain goes back, without a gap, to a full of the job on PBS. */
  ghost predicate Rooted(trace: seq<Item>) {
    exists k: nat :: k < |trace| && OwnFull(trace[k]) && Unbroken(trace, k, |trace|)
  }

  ghost predicate RootInv(s: State) {
    && (s.chain.Some? ==> Rooted(s.trace))
    && forall i :: 0 <= i < |s.trace| && OwnLog(s.trace[i]) ==> Rooted(s.trace[..i])
  }

  lemma RootKept(trace: seq<Item>, item: Item)
    requires Rooted(trace) && !Elsewhere(item)
    ensures Rooted(trace + [item])
  {
    var k: nat :| k < |trace| && OwnFull(trace[k]) && Unbroken(trace, k, |trace|);
    var more := trace + [item];
    assert more[..k + 1] == trace[..k + 1] && OwnFull(more[k]);
    assert Unbroken(more, k, |more|);
  }

  lemma RootStarted(trace: seq<Item>, item: Item)
    requires OwnFull(item) && ChainAfter(ChainAt(trace), item).Some?
    ensures Rooted(trace + [item])
  {
    var more := trace + [item];
    assert more[..|trace|] == trace && more[..|trace| + 1] == more;
    assert OwnFull(more[|trace|]) && Unbroken(more, |trace|, |more|);
  }

  /** Alone, a chain is kept or started by a full of the job that landed, and a log needs one. */
  lemma AloneAdds(c: Config, s: State, e: Event)
    requires Alone(c) && Next(c, s, e).Some? && Added(c, s, e).Some?
    ensures var t, item := Next(c, s, e).value, Added(c, s, e).value;
            && t.chain == ChainAfter(s.chain, item) && (OwnLog(item) ==> s.chain.Some?)
            && (t.chain.Some? && !OwnFull(item) ==> s.chain.Some? && !Elsewhere(item))
  {
  }

  lemma RootGrows(s: State, t: State, item: Item)
    requires RootInv(s) && s.chain == ChainAt(s.trace) && t.trace == s.trace + [item]
    requires t.chain == ChainAfter(s.chain, item) && (OwnLog(item) ==> s.chain.Some?)
    requires t.chain.Some? && !OwnFull(item) ==> s.chain.Some? && !Elsewhere(item)
    ensures RootInv(t)
  {
    if t.chain.Some? {
      if OwnFull(item) { RootStarted(s.trace, item); } else { RootKept(s.trace, item); }
    }
    forall i | 0 <= i < |t.trace| && OwnLog(t.trace[i])
      ensures Rooted(t.trace[..i])
    {
      assert t.trace[..i] == s.trace[..i];
      if i == |s.trace| { assert s.trace[..i] == s.trace; }
    }
  }

  lemma RootStep(c: Config, s: State, e: Event)
    requires Alone(c) && RootInv(s) && LsnInv(s) && Next(c, s, e).Some?
    ensures RootInv(Next(c, s, e).value)
  {
    AddsOne(c, s, e);
    var t, item := Next(c, s, e).value, Added(c, s, e);
    if item.Some? {
      AloneAdds(c, s, e);
      RootGrows(s, t, item.value);
    }
  }

  lemma {:induction false} RootRun(c: Config, primary: Option<nat>, preferred: Option<nat>, es: seq<Event>)
    requires Alone(c) && Run(c, Start(primary, preferred), es).Some?
    ensures RootInv(Run(c, Start(primary, preferred), es).value)
    decreases |es|
  {
    if es != [] {
      RootRun(c, primary, preferred, es[..|es| - 1]);
      LsnRun(c, Start(primary, preferred), es[..|es| - 1]);
      RootStep(c, Run(c, Start(primary, preferred), es[..|es| - 1]).value, es[|es| - 1]);
    }
  }

  lemma RootedReplays(c: Config, primary: Option<nat>, preferred: Option<nat>, es: seq<Event>)
    requires Alone(c) && Run(c, Start(primary, preferred), es).Some?
    ensures LogsReplay(Run(c, Start(primary, preferred), es).value.trace)
  {
    RootRun(c, primary, preferred, es);
    var trace := Run(c, Start(primary, preferred), es).value.trace;
    forall i | 0 <= i < |trace| && OwnLog(trace[i])
      ensures Replays(trace, i)
    {
      var front := trace[..i];
      assert Rooted(front);
      var k: nat :| k < |front| && OwnFull(front[k]) && Unbroken(front, k, |front|);
      assert front[..k + 1] == trace[..k + 1];
      assert forall j :: k < j < i ==> front[j] == trace[j];
      LogReplaysExactly(c, primary, preferred, es, k, i);
    }
  }

  // ---------------------------------------------------------------- logs that fit no full

  /** From item `low` on the log went elsewhere, and there is no full of the job. */
  ghost predicate GapSince(trace: seq<Item>, low: nat) {
    && (forall k :: low <= k < |trace| ==> !OwnFull(trace[k]))
    && (exists k :: low <= k < |trace| && Elsewhere(trace[k]))
  }

  /** The log goes elsewhere: a log of the job that never lands, someone else's, or a new chain after a break. */
  lemma GapOpens(c: Config, s: State) returns (es: seq<Event>)
    requires !Alone(c) && c.replicas > 0 && s.primary == Some(0) && 0 !in s.pending && 0 in s.localFull
    requires !s.simple && !s.readOnly && s.chain.Some? && Preferred(c, s.primary, s.preferred, 0)
    ensures Run(c, s, es).Some?
    ensures var t := Run(c, s, es).value;
            && t.chain.Some? && 0 !in t.pending && t.localFull == s.localFull && !t.simple && !t.readOnly
            && t.primary == s.primary && t.preferred == s.preferred && GapSince(t.trace, |s.trace|)
  {
    var n := |s.trace|;
    if c.lossy {
      es := LostRunBy(0);
      TwoSteps(c, s, es[0], es[1]);
      assert Elsewhere(Run(c, s, es).value.trace[n + 1]);
    } else if c.othersLog {
      es := [LogByOthers];
      OneStep(c, s, LogByOthers);
      assert Elsewhere(Run(c, s, es).value.trace[n]);
    } else {
      es := [BreakChain, FullByOthers];
      TwoSteps(c, s, BreakChain, FullByOthers);
      assert Elsewhere(Run(c, s, es).value.trace[n]);
    }
  }

  /** A log with a gap somewhere before it, and no full since before the gap, replays onto none. */
  lemma GapFitsNone(trace: seq<Item>, low: nat)
    requires Rising(trace) && Continues(trace) && GapSince(trace, low) && OwnLog(trace[|trace| - 1])
    ensures !LogsReplay(trace)
  {
    var last := |trace| - 1;
    var g :| low <= g < |trace| && Elsewhere(trace[g]);
    forall k: nat | k < last && OwnFull(trace[k])
      ensures ReplayOnto(trace, k, last + 1).None?
    {
      assert k < g < last;
      ReplaysWhereUnbroken(trace, k, last);
    }
    assert !Replays(trace, last);
  }

  lemma GapThenOne(before: seq<Item>, trace: seq<Item>, low: nat)
    requires GapSince(before, low) && |trace| == |before| + 2 && trace[..|before|] == before
    requires trace[|before|].Decision? && OwnLog(trace[|before| + 1]) && Rising(trace) && Continues(trace)
    ensures !LogsReplay(trace)
  {
    assert forall k :: 0 <= k < |before| ==> trace[k] == before[k];
    var g :| low <= g < |before| && Elsewhere(before[g]);
    assert Elsewhere(trace[g]);
    GapFitsNone(trace, low);
  }

  lemma LogAfterGap(c: Config, s: State, low: nat)
    requires LsnInv(s) && GapSince(s.trace, low) && c.replicas > 0 && s.primary == Some(0) && 0 !in s.pending
    requires 0 in s.localFull && !s.simple && !s.readOnly && s.chain.Some? && Preferred(c, s.primary, s.preferred, 0)
    ensures Run(c, s, LogRunBy(0)).Some? && !LogsReplay(Run(c, s, LogRunBy(0)).value.trace)
  {
    PreferredExtends(c, s, 0);
    LsnRun(c, s, LogRunBy(0));
    GapThenOne(s.trace, Run(c, s, LogRunBy(0)).value.trace, low);
  }

  lemma GapThenLogFrom(c: Config, s: State) returns (es: seq<Event>)
    requires LsnInv(s) && !Alone(c) && c.replicas > 0 && s.primary == Some(0) && 0 !in s.pending && 0 in s.localFull
    requires !s.simple && !s.readOnly && s.chain.Some? && Preferred(c, s.primary, s.preferred, 0)
    ensures Run(c, s, es).Some? && !LogsReplay(Run(c, s, es).value.trace)
  {
    var gap := GapOpens(c, s);
    LsnRun(c, s, gap);
    LogAfterGap(c, Run(c, s, gap).value, |s.trace|);
    RunConcat(c, s, gap, LogRunBy(0));
    es := gap + LogRunBy(0);
  }

  /** A full of the job, then a gap, then a log that replays onto no full of the job. */
  lemma GapThenLog(c: Config) returns (es: seq<Event>)
    requires !Alone(c) && c.replicas > 0
    ensures Run(c, Start(Some(0), Some(0)), es).Some?
    ensures !LogsReplay(Run(c, Start(Some(0), Some(0)), es).value.trace)
  {
    var s := Start(Some(0), Some(0));
    PrimaryStartsChain(c, s, 0);
    LsnRun(c, s, LogRunBy(0));
    var more := GapThenLogFrom(c, Run(c, s, LogRunBy(0)).value);
    RunConcat(c, s, LogRunBy(0), more);
    es := LogRunBy(0) + more;
  }

  /**
   * Every log on PBS replays onto a full of the same job with the job's own logs if and only if there is no
   * replica, or nobody else takes backups of the database and whatever SQL Server completes lands.
   */
  lemma OwnReplayExactly(c: Config)
    ensures AlwaysReplay(c) <==> c.replicas == 0 || Alone(c)
  {
    if c.replicas == 0 || Alone(c) {
      forall primary, preferred, es | Roles(c, primary, preferred) && Run(c, Start(primary, preferred), es).Some?
        ensures LogsReplay(Run(c, Start(primary, preferred), es).value.trace)
      {
        if c.replicas == 0 { NoReplicas(c, primary, preferred, es); } else { RootedReplays(c, primary, preferred, es); }
      }
    } else {
      var es := GapThenLog(c);
    }
  }
}
