/** Which logs of an availability group's job can be replayed onto which of its fulls, by log positions. */
module ClusterReplay {
  import opened Wrappers
  import opened Cluster
  import Chain

  // ---------------------------------------------------------------- positions

  /** Where the next log starts, by what happened so far. */
  function ChainAt(trace: seq<Item>): Option<nat> {
    if trace == [] then None else ChainAfter(ChainAt(trace[..|trace| - 1]), trace[|trace| - 1])
  }

  /** Everything that moves the log on ends further on than what came before. */
  ghost predicate Rising(trace: seq<Item>) {
    forall i, j :: 0 <= i < j < |trace| && !trace[i].Decision? && !trace[j].Decision? ==> trace[i].at < trace[j].at
  }

  /** Every log of the job starts where the chain stood. */
  ghost predicate Continues(trace: seq<Item>) {
    forall i :: 0 <= i < |trace| && TakesLog(trace[i]) ==> ChainAt(trace[..i]) == Some(trace[i].first)
  }

  ghost predicate LsnInv(s: State) {
    && (forall i :: 0 <= i < |s.trace| && !s.trace[i].Decision? ==> s.trace[i].at <= s.lsn)
    && Rising(s.trace)
    && Continues(s.trace)
    && s.chain == ChainAt(s.trace)
  }

  lemma LsnAppend(s: State, t: State, item: Item)
    requires LsnInv(s) && t.trace == s.trace + [item] && t.chain == ChainAfter(s.chain, item)
    requires if item.Decision? then t.lsn == s.lsn else s.lsn < item.at == t.lsn
    requires TakesLog(item) ==> s.chain == Some(item.first)
    ensures LsnInv(t)
  {
    var n := |s.trace|;
    assert t.trace[n] == item && t.trace[..n] == s.trace;
    forall i | 0 <= i < |t.trace| && TakesLog(t.trace[i])
      ensures ChainAt(t.trace[..i]) == Some(t.trace[i].first)
    {
      if i < n { assert t.trace[..i] == s.trace[..i] && t.trace[i] == s.trace[i]; }
    }
  }

  lemma LsnStep(c: Config, s: State, e: Event)
    requires LsnInv(s) && Next(c, s, e).Some?
    ensures LsnInv(Next(c, s, e).value)
  {
    var t := Next(c, s, e).value;
    if e.Probe? {
      LsnAppend(s, t, Decision(e.replica, e.run, Decided(c, s, e.replica, e.run), s.epoch, s.primary, s.preferred));
    } else if e.Execute? {
      var w := s.pending[e.replica];
      if Permits(c, s, e.replica, w) && (e.sql || e.landed) {
        LsnAppend(s, t, Backed(s, e.replica, w, e.sql, e.landed));
      }
    } else if e.FullByOthers? {
      LsnAppend(s, t, OutsideFull(s.lsn + 1));
    } else if e.LogByOthers? {
      LsnAppend(s, t, OutsideLog(s.lsn + 1));
    } else if e.BreakChain? || (e.Alter? && e.simple) {
      LsnAppend(s, t, ChainBroken(s.lsn + 1));
    }
  }

  lemma {:induction false} LsnRun(c: Config, s: State, es: seq<Event>)
    requires LsnInv(s) && Run(c, s, es).Some?
    ensures LsnInv(Run(c, s, es).value)
    decreases |es|
  {
    if es != [] {
      LsnRun(c, s, es[..|es| - 1]);
      LsnStep(c, Run(c, s, es[..|es| - 1]).value, es[|es| - 1]);
    }
  }

  // ---------------------------------------------------------------- replay

  /** A full of the job on PBS. */
  predicate OwnFull(item: Item) {
    item.Taken? && !item.log && item.landed
  }

  /** A log of the job on PBS. */
  predicate OwnLog(item: Item) {
    item.Taken? && item.log && item.landed
  }

  /** The job's logs on PBS, as the restore sees them. */
  function LogsOf(items: seq<Item>): seq<Chain.ChainItem> {
    if items == [] then []
    else
      var front, last := LogsOf(items[..|items| - 1]), items[|items| - 1];
      if OwnLog(last) then front + [Chain.ChainItem(0, true, 0, last.first, last.at)] else front
  }

  /** How far the restore gets from backup `k` with the job's logs that follow it, up to item `n`. */
  function ReplayOnto(trace: seq<Item>, k: nat, n: nat): Option<nat>
    requires k < n <= |trace| && !trace[k].Decision?
  {
    Chain.Replay(trace[k].at, LogsOf(trace[k + 1..n]))
  }

  lemma {:induction false} ReplaySnoc(current: nat, logs: seq<Chain.ChainItem>, last: Chain.ChainItem)
    ensures var before := Chain.Replay(current, logs);
            Chain.Replay(current, logs + [last]) ==
            if before.Some? && last.first <= before.value < last.last then Some(last.last) else None
    decreases |logs|
  {
    var more := logs + [last];
    if logs == [] {
      assert more == [last] && [last][1..] == [];
    } else {
      assert more[1..] == logs[1..] + [last];
      if logs[0].first <= current < logs[0].last { ReplaySnoc(logs[0].last, logs[1..], last); }
    }
  }

  lemma ReplayNext(trace: seq<Item>, k: nat, n: nat)
    requires k < n < |trace| && !trace[k].Decision?
    ensures var before, item := ReplayOnto(trace, k, n), trace[n];
            ReplayOnto(trace, k, n + 1) ==
            if !OwnLog(item) then before
            else if before.Some? && item.first <= before.value < item.at then Some(item.at) else None
  {
    var items := trace[k + 1..n + 1];
    assert items[..|items| - 1] == trace[k + 1..n] && items[|items| - 1] == trace[n];
    if OwnLog(trace[n]) {
      ReplaySnoc(trace[k].at, LogsOf(trace[k + 1..n]), Chain.ChainItem(0, true, 0, trace[n].first, trace[n].at));
    }
  }

  /** The log went elsewhere: a break, someone else's log, or a log completed on SQL Server that never landed. */
  predicate Elsewhere(item: Item) {
    item.ChainBroken? || item.OutsideLog? || (TakesLog(item) && item.sql && !item.landed)
  }

  /** There was a chain at backup `k`, and no log went elsewhere since. */
  ghost predicate Unbroken(trace: seq<Item>, k: nat, n: nat)
    requires k < n <= |trace|
  {
    ChainAt(trace[..k + 1]).Some? && forall j :: k < j < n ==> !Elsewhere(trace[j])
  }

  /** `d` lies before everything from item `n` on. */
  ghost predicate Before(trace: seq<Item>, n: nat, d: nat) {
    forall j :: n <= j < |trace| && !trace[j].Decision? ==> d < trace[j].at
  }

  /** The replay has reached the chain's position if nothing is missing, and never reaches it otherwise. */
  ghost predicate Tracks(trace: seq<Item>, k: nat, n: nat)
    requires k < n <= |trace| && !trace[k].Decision?
  {
    var d, x := ReplayOnto(trace, k, n), ChainAt(trace[..n]);
    && (d.Some? ==> Before(trace, n, d.value))
    && (Unbroken(trace, k, n) ==> d.Some? && x.Some? && x.value <= d.value)
    && (!Unbroken(trace, k, n) ==> d.None? || x.None? || d.value < x.value)
  }

  /** The chain never stands past what has happened. */
  lemma {:induction false} ChainBelow(trace: seq<Item>, n: nat, bound: nat)
    requires n <= |trace| && forall i :: 0 <= i < n && !trace[i].Decision? ==> trace[i].at <= bound
    ensures ChainAt(trace[..n]).Some? ==> ChainAt(trace[..n]).value <= bound
    decreases n
  {
    if n > 0 {
      ChainBelow(trace, n - 1, bound);
      assert trace[..n][..n - 1] == trace[..n - 1];
    }
  }

  lemma TracksFirst(trace: seq<Item>, k: nat)
    requires Rising(trace) && k < |trace| && OwnFull(trace[k])
    ensures Tracks(trace, k, k + 1)
  {
    ChainBelow(trace, k + 1, trace[k].at);
    assert trace[k + 1..k + 1] == [];
  }

  lemma TracksNext(trace: seq<Item>, k: nat, n: nat)
    requires Rising(trace) && Continues(trace) && k < n < |trace| && OwnFull(trace[k]) && Tracks(trace, k, n)
    ensures Tracks(trace, k, n + 1)
  {
    ReplayNext(trace, k, n);
    assert trace[..n + 1][..n] == trace[..n];
    assert Unbroken(trace, k, n + 1) <==> Unbroken(trace, k, n) && !Elsewhere(trace[n]);
  }

  lemma {:induction false} TracksAll(trace: seq<Item>, k: nat, n: nat)
    requires Rising(trace) && Continues(trace) && k < n <= |trace| && OwnFull(trace[k])
    ensures Tracks(trace, k, n)
    decreases n
  {
    if n == k + 1 {
      TracksFirst(trace, k);
    } else {
      TracksAll(trace, k, n - 1);
      TracksNext(trace, k, n - 1);
    }
  }

  lemma ReplaysWhereUnbroken(trace: seq<Item>, k: nat, i: nat)
    requires Rising(trace) && Continues(trace) && k < i < |trace| && OwnFull(trace[k]) && OwnLog(trace[i])
    ensures ReplayOnto(trace, k, i + 1) == if Unbroken(trace, k, i) then Some(trace[i].at) else None
  {
    TracksAll(trace, k, i);
    ReplayNext(trace, k, i);
  }

  /**
   * In every run: a log of the job replays onto a full of the job, with the job's logs between them, if and only
   * if there was a chain after that full and no log went elsewhere in between; and then up to its own end.
   */
  lemma {:induction false} LogReplaysExactly(
      c: Config, primary: Option<nat>, preferred: Option<nat>, es: seq<Event>, k: nat, i: nat)
    requires Run(c, Start(primary, preferred), es).Some?
    requires var trace := Run(c, Start(primary, preferred), es).value.trace;
             k < i < |trace| && OwnFull(trace[k]) && OwnLog(trace[i])
    ensures var trace := Run(c, Start(primary, preferred), es).value.trace;
            ReplayOnto(trace, k, i + 1) == if Unbroken(trace, k, i) then Some(trace[i].at) else None
  {
    LsnRun(c, Start(primary, preferred), es);
    ReplaysWhereUnbroken(Run(c, Start(primary, preferred), es).value.trace, k, i);
  }
}
