/** One point-in-time job on every replica of an Always On availability group, for one database. */
module Cluster {
  import opened Wrappers
  import opened Plan

  /**
   * `lossy` says whether an upload may fail after SQL Server completed its BACKUP, `othersFull` and `othersLog`
   * whether anyone else takes fulls or logs of the database, `fullRunsAnywhere` whether full runs of the job
   * may start on a replica that is not the primary of the moment.
   */
  datatype Config = Config(replicas: nat, basic: bool, lossy: bool, othersFull: bool, othersLog: bool,
                           fullRunsAnywhere: bool)

  /** A run between its decision, taken in `epoch`, and the backup it decided on. */
  datatype Pending = Pending(log: bool, copyOnly: bool, epoch: nat)

  /**
   * What happened, and at which log position. A backup `Taken` by the job was completed by SQL Server (`sql`),
   * or landed on PBS, or both; a log reaches from `first` to `at`, `starts` marks a full that starts a chain
   * where there is none, `decided` is the epoch of the decision and `epoch` that of the backup.
   */
  datatype Item =
    | Decision(replica: nat, run: RunKind, action: Action, epoch: nat, primary: Option<nat>, preferred: Option<nat>)
    | Taken(replica: nat, log: bool, copyOnly: bool, sql: bool, landed: bool, starts: bool, first: nat, at: nat,
            decided: nat, epoch: nat, primary: Option<nat>, preferred: Option<nat>)
    | OutsideFull(at: nat)
    | OutsideLog(at: nat)
    | ChainBroken(at: nat)

  /**
   * `epoch` counts role assignments, `lsn` is the end of the log, `chain` the position the next log backup starts
   * at if there is a chain, `localFull` each machine's own record of a full by this job.
   */
  datatype State = State(primary: Option<nat>, preferred: Option<nat>, epoch: nat, simple: bool, readOnly: bool,
                         lsn: nat, chain: Option<nat>, localFull: set<nat>, pending: map<nat, Pending>,
                         trace: seq<Item>)

  /** A backup ends with the statement completed or not, the snapshot landed or not, the upload answered or not. */
  datatype Event =
    | Probe(replica: nat, run: RunKind)
    | Execute(replica: nat, sql: bool, landed: bool, answered: bool)
    | Failover(primary: Option<nat>, preferred: Option<nat>)
    | Alter(simple: bool, readOnly: bool)
    | BreakChain
    | FullByOthers
    | LogByOthers
    | Work(n: nat)

  function Start(primary: Option<nat>, preferred: Option<nat>): State {
    State(primary, preferred, 0, false, false, 0, None, {}, map[], [])
  }

  /** Roles are held by replicas of the group. */
  predicate Roles(c: Config, primary: Option<nat>, preferred: Option<nat>) {
    (primary.Some? ==> primary.value < c.replicas) && (preferred.Some? ==> preferred.value < c.replicas)
  }

  /**
   * The replica SQL Server prefers for backups, while the group has a primary. A basic group allows no backups
   * on a secondary, so its primary is the preferred replica.
   */
  predicate Preferred(c: Config, primary: Option<nat>, preferred: Option<nat>, r: nat) {
    primary.Some? && if c.basic then primary == Some(r) else preferred == Some(r)
  }

  /** What SQL Server tells replica `r`; one still resolving its role counts as a secondary. */
  function Observed(c: Config, s: State, r: nat): DbState {
    DbState(if s.primary == Some(r) then Primary else Secondary, Preferred(c, s.primary, s.preferred, r),
            s.simple, s.readOnly, s.chain.Some?)
  }

  function Decided(c: Config, s: State, r: nat, run: RunKind): Action {
    Decide(PointInTime, run, Observed(c, s, r), r in s.localFull)
  }

  /** A full run in which everything was skipped still counts as the machine's full. */
  function AfterProbe(c: Config, s: State, r: nat, run: RunKind): State {
    var action := Decided(c, s, r, run);
    var t := s.(trace := s.trace + [Decision(r, run, action, s.epoch, s.primary, s.preferred)]);
    match action
    case Skip(_) => if run.FullRun? then t.(localFull := t.localFull + {r}) else t
    case Backup(log, copyOnly, _) => t.(pending := t.pending[r := Pending(log, copyOnly, s.epoch)])
  }

  /**
   * SQL Server takes backups only while the group has a primary, and in a basic group only on it; a normal full
   * only on the primary, a copy-only one anywhere, and a log only onto a chain.
   */
  predicate Permits(c: Config, s: State, r: nat, w: Pending) {
    && s.primary.Some? && (c.basic ==> s.primary == Some(r))
    && if w.log then s.chain.Some? else w.copyOnly || s.primary == Some(r)
  }

  /** What a backup leaves behind; it moves the end of the log on. */
  function Backed(s: State, r: nat, w: Pending, sql: bool, landed: bool): Item {
    Taken(r, w.log, w.copyOnly, sql, landed, sql && !w.log && !w.copyOnly && !s.simple,
          if w.log && s.chain.Some? then s.chain.value else s.lsn + 1, s.lsn + 1, w.epoch, s.epoch,
          s.primary, s.preferred)
  }

  /** Where the next log starts after an item. */
  function ChainAfter(chain: Option<nat>, item: Item): Option<nat> {
    match item
    case Decision(_, _, _, _, _, _) => chain
    case Taken(_, log, _, sql, _, starts, _, at, _, _, _, _) =>
      if log then (if sql then Some(at) else chain) else if starts && chain.None? then Some(at) else chain
    case OutsideFull(at) => if chain.None? then Some(at) else chain
    case OutsideLog(at) => Some(at)
    case ChainBroken(_) => None
  }

  /** An item that moves the log on. */
  function Append(s: State, item: Item): State
    requires !item.Decision?
  {
    s.(lsn := item.at, chain := ChainAfter(s.chain, item), trace := s.trace + [item])
  }

  /** Only a backup completed, landed and answered is reported as done; a full so reported is the machine's full. */
  function AfterExecute(c: Config, s: State, r: nat, sql: bool, landed: bool, answered: bool): State
    requires r in s.pending
  {
    var w := s.pending[r];
    var t := s.(pending := s.pending - {r});
    if !Permits(c, s, r, w) || (!sql && !landed) then t
    else
      Append(t, Backed(s, r, w, sql, landed))
      .(localFull := if !w.log && sql && landed && answered then s.localFull + {r} else s.localFull)
  }

  function Next(c: Config, s: State, e: Event): Option<State> {
    match e
    case Probe(r, run) =>
      if r < c.replicas && r !in s.pending && (run.LogRun? || c.fullRunsAnywhere || s.primary == Some(r))
      then Some(AfterProbe(c, s, r, run)) else None
    case Execute(r, sql, landed, answered) =>
      if r in s.pending && (c.lossy || !sql || landed) then Some(AfterExecute(c, s, r, sql, landed, answered)) else None
    case Failover(p, q) =>
      if Roles(c, p, q) then Some(s.(primary := p, preferred := q, epoch := s.epoch + 1)) else None
    case Alter(simple, readOnly) =>
      var t := s.(simple := simple, readOnly := readOnly);
      Some(if simple then Append(t, ChainBroken(s.lsn + 1)) else t)
    case BreakChain => Some(Append(s, ChainBroken(s.lsn + 1)))
    case FullByOthers =>
      if c.othersFull && s.primary.Some? && !s.simple then Some(Append(s, OutsideFull(s.lsn + 1))) else None
    case LogByOthers =>
      if c.othersLog && s.primary.Some? && s.chain.Some? then Some(Append(s, OutsideLog(s.lsn + 1))) else None
    case Work(n) => Some(s.(lsn := s.lsn + n))
  }

  function Run(c: Config, s: State, es: seq<Event>): Option<State>
    decreases |es|
  {
    if es == [] then Some(s)
    else
      var before := Run(c, s, es[..|es| - 1]);
      if before.None? then None else Next(c, before.value, es[|es| - 1])
  }

  // ---------------------------------------------------------------- roles

  /**
   * A decided full is a normal one on the primary; a decided log is on the preferred replica. A full taken is a
   * normal one on the primary; a log taken in the epoch of its decision, or in a basic group, is on the
   * preferred replica.
   */
  predicate Sound(c: Config, item: Item) {
    match item
    case Decision(r, run, action, _, primary, preferred) =>
      (action.Backup? ==>
         && !action.copyOnly
         && (!action.log ==> primary == Some(r))
         && (action.log ==> run.LogRun? && Preferred(c, primary, preferred, r)))
    case Taken(r, log, copyOnly, sql, landed, starts, _, _, decided, epoch, primary, preferred) =>
      && r < c.replicas && !copyOnly && decided <= epoch && (sql || landed) && (starts ==> sql && !log)
      && (!log || c.basic ==> primary == Some(r))
      && (log && decided == epoch ==> Preferred(c, primary, preferred, r))
    case _ => true
  }

  /** A run under way is of a normal backup, and if its log was decided in this epoch it is the preferred replica's. */
  ghost predicate PendingInv(c: Config, s: State) {
    forall r :: r in s.pending ==>
      && r < c.replicas && !s.pending[r].copyOnly && s.pending[r].epoch <= s.epoch
      && (s.pending[r].log && s.pending[r].epoch == s.epoch ==> Preferred(c, s.primary, s.preferred, r))
  }

  /** Items that saw the roles of the moment. */
  predicate SawRoles(item: Item) {
    item.Decision? || item.Taken?
  }

  predicate SameEpoch(a: Item, b: Item) {
    SawRoles(a) && SawRoles(b) && a.epoch == b.epoch
  }

  /** Whatever happened in one epoch saw the same roles. */
  ghost predicate RolesInv(s: State) {
    && (forall i :: 0 <= i < |s.trace| && SawRoles(s.trace[i]) ==> s.trace[i].epoch <= s.epoch)
    && (forall i :: 0 <= i < |s.trace| && SawRoles(s.trace[i]) && s.trace[i].epoch == s.epoch ==>
          s.trace[i].primary == s.primary && s.trace[i].preferred == s.preferred)
    && (forall i, j :: 0 <= i < j < |s.trace| && SameEpoch(s.trace[i], s.trace[j]) ==>
          s.trace[i].primary == s.trace[j].primary && s.trace[i].preferred == s.trace[j].preferred)
  }

  ghost predicate Inv(c: Config, s: State) {
    && Roles(c, s.primary, s.preferred)
    && PendingInv(c, s)
    && (forall i :: 0 <= i < |s.trace| ==> Sound(c, s.trace[i]))
    && RolesInv(s)
  }

  /** Appending one sound item, by the roles of the moment if it saw any, keeps the account of roles. */
  lemma AppendInv(c: Config, s: State, t: State, item: Item)
    requires (forall i :: 0 <= i < |s.trace| ==> Sound(c, s.trace[i])) && RolesInv(s)
    requires t.trace == s.trace + [item] && Sound(c, item)
    requires t.epoch == s.epoch && t.primary == s.primary && t.preferred == s.preferred
    requires SawRoles(item) ==> item.epoch == s.epoch && item.primary == s.primary && item.preferred == s.preferred
    ensures (forall i :: 0 <= i < |t.trace| ==> Sound(c, t.trace[i])) && RolesInv(t)
  {
    assert t.trace[|s.trace|] == item;
    assert forall i :: 0 <= i < |s.trace| ==> t.trace[i] == s.trace[i];
  }

  lemma ProbePending(c: Config, s: State, r: nat, run: RunKind)
    requires PendingInv(c, s) && r < c.replicas
    ensures PendingInv(c, AfterProbe(c, s, r, run))
  {
  }

  lemma PendingStep(c: Config, s: State, e: Event)
    requires PendingInv(c, s) && Next(c, s, e).Some?
    ensures PendingInv(c, Next(c, s, e).value)
  {
    if e.Probe? { ProbePending(c, s, e.replica, e.run); }
  }

  lemma TraceStep(c: Config, s: State, e: Event)
    requires Inv(c, s) && Next(c, s, e).Some?
    ensures var t := Next(c, s, e).value; (forall i :: 0 <= i < |t.trace| ==> Sound(c, t.trace[i])) && RolesInv(t)
  {
    var t := Next(c, s, e).value;
    if e.Probe? {
      AppendInv(c, s, t, Decision(e.replica, e.run, Decided(c, s, e.replica, e.run), s.epoch, s.primary, s.preferred));
    } else if e.Execute? {
      var w := s.pending[e.replica];
      if Permits(c, s, e.replica, w) && (e.sql || e.landed) {
        AppendInv(c, s, t, Backed(s, e.replica, w, e.sql, e.landed));
      }
    } else if e.FullByOthers? {
      AppendInv(c, s, t, OutsideFull(s.lsn + 1));
    } else if e.LogByOthers? {
      AppendInv(c, s, t, OutsideLog(s.lsn + 1));
    } else if e.BreakChain? || (e.Alter? && e.simple) {
      AppendInv(c, s, t, ChainBroken(s.lsn + 1));
    }
  }

  lemma StepInv(c: Config, s: State, e: Event)
    requires Inv(c, s) && Next(c, s, e).Some?
    ensures Inv(c, Next(c, s, e).value)
  {
    TraceStep(c, s, e);
    PendingStep(c, s, e);
  }

  lemma {:induction false} RunInv(c: Config, primary: Option<nat>, preferred: Option<nat>, es: seq<Event>)
    requires Roles(c, primary, preferred) && Run(c, Start(primary, preferred), es).Some?
    ensures Inv(c, Run(c, Start(primary, preferred), es).value)
    decreases |es|
  {
    if es != [] {
      RunInv(c, primary, preferred, es[..|es| - 1]);
      StepInv(c, Run(c, Start(primary, preferred), es[..|es| - 1]).value, es[|es| - 1]);
    }
  }

  // ---------------------------------------------------------------- fulls over every run

  /**
   * However roles move, no full is decided or taken on a secondary, and none is copy-only - although SQL Server
   * would take a copy-only full there.
   */
  lemma {:induction false} FullsAreNormalAndOnPrimary(
      c: Config, primary: Option<nat>, preferred: Option<nat>, es: seq<Event>, i: nat)
    requires Roles(c, primary, preferred) && Run(c, Start(primary, preferred), es).Some?
    requires i < |Run(c, Start(primary, preferred), es).value.trace|
    ensures var item := Run(c, Start(primary, preferred), es).value.trace[i];
            && (item.Decision? && item.action.Backup? ==>
                  !item.action.copyOnly && (!item.action.log ==> item.primary == Some(item.replica)))
            && (item.Taken? ==> !item.copyOnly && (!item.log ==> item.primary == Some(item.replica)))
  {
    RunInv(c, primary, preferred, es);
    assert Sound(c, Run(c, Start(primary, preferred), es).value.trace[i]);
  }

  // ---------------------------------------------------------------- who takes the log

  predicate DecidesLog(item: Item) {
    item.Decision? && item.action.Backup? && item.action.log
  }

  predicate TakesLog(item: Item) {
    item.Taken? && item.log
  }

  /** Under one role assignment any two decisions to take the log are the same replica's. */
  lemma {:induction false} OneReplicaDecidesLogs(
      c: Config, primary: Option<nat>, preferred: Option<nat>, es: seq<Event>, i: nat, j: nat)
    requires Roles(c, primary, preferred) && Run(c, Start(primary, preferred), es).Some?
    requires var trace := Run(c, Start(primary, preferred), es).value.trace;
             i < j < |trace| && SameEpoch(trace[i], trace[j]) && DecidesLog(trace[i]) && DecidesLog(trace[j])
    ensures var trace := Run(c, Start(primary, preferred), es).value.trace; trace[i].replica == trace[j].replica
  {
    RunInv(c, primary, preferred, es);
    var s := Run(c, Start(primary, preferred), es).value;
    assert Sound(c, s.trace[i]) && Sound(c, s.trace[j]);
  }

  /** Under each role assignment at most one replica takes logs. */
  ghost predicate OneTaker(trace: seq<Item>) {
    forall i, j :: 0 <= i < j < |trace| && TakesLog(trace[i]) && TakesLog(trace[j]) && SameEpoch(trace[i], trace[j]) ==>
      trace[i].replica == trace[j].replica
  }

  /** Every log is taken by the replica preferred at that moment. */
  ghost predicate TakenWherePreferred(c: Config, trace: seq<Item>) {
    forall i :: 0 <= i < |trace| && TakesLog(trace[i]) ==>
      Preferred(c, trace[i].primary, trace[i].preferred, trace[i].replica)
  }

  /** Runs in which every log is taken by the replica preferred at that moment have one taker per role assignment. */
  lemma {:induction false} PreferredTakersAreOne(
      c: Config, primary: Option<nat>, preferred: Option<nat>, es: seq<Event>)
    requires Roles(c, primary, preferred) && Run(c, Start(primary, preferred), es).Some?
    ensures var trace := Run(c, Start(primary, preferred), es).value.trace;
            TakenWherePreferred(c, trace) ==> OneTaker(trace)
  {
    RunInv(c, primary, preferred, es);
  }

  /** A log taken on a decision of an earlier epoch, by a replica that is not the preferred one any more. */
  predicate Overtaken(c: Config, item: Item) {
    TakesLog(item) && item.decided < item.epoch && !Preferred(c, item.primary, item.preferred, item.replica)
  }

  /** Two replicas take logs under one role assignment only if the roles moved between one's decision and its backup. */
  lemma {:induction false} TwoTakersMeanOvertaken(
      c: Config, primary: Option<nat>, preferred: Option<nat>, es: seq<Event>, i: nat, j: nat)
    requires Roles(c, primary, preferred) && Run(c, Start(primary, preferred), es).Some?
    requires var trace := Run(c, Start(primary, preferred), es).value.trace;
             && i < j < |trace| && SameEpoch(trace[i], trace[j]) && TakesLog(trace[i]) && TakesLog(trace[j])
             && trace[i].replica != trace[j].replica
    ensures var trace := Run(c, Start(primary, preferred), es).value.trace;
            Overtaken(c, trace[i]) || Overtaken(c, trace[j])
  {
    RunInv(c, primary, preferred, es);
    var s := Run(c, Start(primary, preferred), es).value;
    assert Sound(c, s.trace[i]) && Sound(c, s.trace[j]);
  }

  // ---------------------------------------------------------------- repair

  /** The newest item is a backup by `r` that landed, of the log or a full. */
  predicate EndsWith(trace: seq<Item>, r: nat, log: bool) {
    trace != [] && var item := trace[|trace| - 1];
    item.Taken? && item.sql && item.landed && item.replica == r && item.log == log
  }

  /** One log run by replica `r`: decide, then back up. */
  function LogRunBy(r: nat): seq<Event> {
    [Probe(r, LogRun), Execute(r, true, true, true)]
  }

  lemma {:induction false} RunConcat(c: Config, s: State, a: seq<Event>, b: seq<Event>)
    requires Run(c, s, a).Some?
    ensures Run(c, s, a + b) == Run(c, Run(c, s, a).value, b)
    decreases |b|
  {
    if b == [] {
      assert a + b == a;
    } else {
      RunConcat(c, s, a, b[..|b| - 1]);
      assert (a + b)[..|a + b| - 1] == a + b[..|b| - 1];
    }
  }

  lemma OneStep(c: Config, s: State, e: Event)
    ensures Run(c, s, [e]) == Next(c, s, e)
  {
    assert [e][..0] == [];
  }

  lemma TwoSteps(c: Config, s: State, e: Event, f: Event)
    requires Next(c, s, e).Some?
    ensures Run(c, s, [e, f]) == Next(c, Next(c, s, e).value, f)
  {
    assert [e, f][..1] == [e];
    OneStep(c, s, e);
  }

  /** Two items were added, the decision and what came of it. */
  predicate Adds(s: State, t: State) {
    |t.trace| == |s.trace| + 2 && t.trace[..|s.trace|] == s.trace && t.trace[|s.trace|].Decision?
  }

  /** A log run on a primary without a chain, or without a full of its own, takes a full, preferred replica or not. */
  lemma PrimaryStartsChain(c: Config, s: State, p: nat)
    requires p < c.replicas && s.primary == Some(p) && p !in s.pending && !s.simple && !s.readOnly
    requires s.chain.None? || p !in s.localFull
    ensures Run(c, s, LogRunBy(p)).Some?
    ensures var t := Run(c, s, LogRunBy(p)).value;
            && t.chain.Some? && p in t.localFull && p !in t.pending && t.epoch == s.epoch && !t.simple && !t.readOnly
            && t.primary == s.primary && t.preferred == s.preferred
            && EndsWith(t.trace, p, false) && t.trace[|t.trace| - 1].starts && Adds(s, t)
  {
    TwoSteps(c, s, Probe(p, LogRun), Execute(p, true, true, true));
  }

  /** With a chain, a log run on the preferred replica - with its own full, if it is the primary - takes the log. */
  lemma PreferredExtends(c: Config, s: State, q: nat)
    requires q < c.replicas && Preferred(c, s.primary, s.preferred, q) && q !in s.pending
    requires !s.simple && !s.readOnly && s.chain.Some? && (s.primary == Some(q) ==> q in s.localFull)
    ensures Run(c, s, LogRunBy(q)).Some?
    ensures var t := Run(c, s, LogRunBy(q)).value;
            && t.chain.Some? && EndsWith(t.trace, q, true) && t.trace[|t.trace| - 1].epoch == s.epoch && Adds(s, t)
            && t.pending == s.pending && t.primary == s.primary && t.epoch == s.epoch
  {
    TwoSteps(c, s, Probe(q, LogRun), Execute(q, true, true, true));
    assert s.pending[q := Pending(true, false, s.epoch)] - {q} == s.pending;
  }

  /** Steps that neither move roles nor break the chain. */
  predicate Quiet(es: seq<Event>) {
    forall i :: 0 <= i < |es| ==> QuietEvent(es[i])
  }

  predicate QuietEvent(e: Event) {
    e.Probe? || e.Execute? || e.FullByOthers? || e.LogByOthers? || e.Work?
  }

  lemma QuietStep(c: Config, s: State, e: Event)
    requires Next(c, s, e).Some? && QuietEvent(e)
    ensures var t := Next(c, s, e).value;
            && (s.chain.Some? ==> t.chain.Some?) && s.localFull <= t.localFull && t.primary == s.primary
            && t.preferred == s.preferred && t.simple == s.simple && t.readOnly == s.readOnly
            && t.epoch == s.epoch && s.trace <= t.trace
  {
  }

  lemma {:induction false} QuietKeeps(c: Config, s: State, es: seq<Event>)
    requires Quiet(es) && Run(c, s, es).Some?
    ensures var t := Run(c, s, es).value;
            && (s.chain.Some? ==> t.chain.Some?) && s.localFull <= t.localFull && t.primary == s.primary
            && t.preferred == s.preferred && t.simple == s.simple && t.readOnly == s.readOnly
            && t.epoch == s.epoch && s.trace <= t.trace
    decreases |es|
  {
    if es != [] {
      QuietKeeps(c, s, es[..|es| - 1]);
      QuietStep(c, Run(c, s, es[..|es| - 1]).value, es[|es| - 1]);
    }
  }

  /**
   * From any state of a writable database in a log-keeping recovery model that has no chain, or whose primary
   * has no full of this job: one log run on the primary, then anything short of moving roles or breaking the
   * chain, then a log run on the preferred replica takes the log.
   */
  lemma RepairThenLog(c: Config, s: State, p: nat, q: nat, between: seq<Event>)
    requires p < c.replicas && q < c.replicas && s.primary == Some(p) && Preferred(c, s.primary, s.preferred, q)
    requires !s.simple && !s.readOnly && (s.chain.None? || p !in s.localFull) && p !in s.pending && Quiet(between)
    requires Run(c, s, LogRunBy(p) + between).Some? && q !in Run(c, s, LogRunBy(p) + between).value.pending
    ensures var t := Run(c, s, LogRunBy(p) + between + LogRunBy(q));
            t.Some? && t.value.chain.Some? && EndsWith(t.value.trace, q, true)
  {
    PrimaryStartsChain(c, s, p);
    var t := Run(c, s, LogRunBy(p)).value;
    RunConcat(c, s, LogRunBy(p), between);
    QuietKeeps(c, t, between);
    var u := Run(c, t, between).value;
    RunConcat(c, s, LogRunBy(p) + between, LogRunBy(q));
    PreferredExtends(c, u, q);
  }
}
