/** Exactly when one replica at most takes the logs of a role assignment. */
module ClusterTakers {
  import opened Wrappers
  import opened Plan
  import opened Cluster

  // ---------------------------------------------------------------- over all runs of a configuration

  ghost predicate AlwaysOneTaker(c: Config) {
    forall primary, preferred, es :: Roles(c, primary, preferred) && Run(c, Start(primary, preferred), es).Some? ==>
      OneTaker(Run(c, Start(primary, preferred), es).value.trace)
  }

  /** In a basic group logs are taken on the primary only, and a single replica has no rival. */
  lemma OneTakerThere(c: Config, primary: Option<nat>, preferred: Option<nat>, es: seq<Event>)
    requires (c.basic || c.replicas <= 1) && Roles(c, primary, preferred) && Run(c, Start(primary, preferred), es).Some?
    ensures OneTaker(Run(c, Start(primary, preferred), es).value.trace)
  {
    RunInv(c, primary, preferred, es);
    var trace := Run(c, Start(primary, preferred), es).value.trace;
    forall i, j | 0 <= i < j < |trace| && TakesLog(trace[i]) && TakesLog(trace[j]) && SameEpoch(trace[i], trace[j])
      ensures trace[i].replica == trace[j].replica
    {
      assert Sound(c, trace[i]) && Sound(c, trace[j]);
    }
  }

  /** The preference moves between the decision and the backup: with two replicas, two take logs in one epoch. */
  lemma MovedPreferenceLetsTwoTake(c: Config) returns (es: seq<Event>)
    requires c.replicas >= 2 && !c.basic
    ensures Run(c, Start(Some(0), Some(1)), es).Some? && !OneTaker(Run(c, Start(Some(0), Some(1)), es).value.trace)
  {
    var s := Start(Some(0), Some(1));
    PrimaryStartsChain(c, s, 0);
    var t := Run(c, s, LogRunBy(0)).value;
    var b, f := Probe(1, LogRun), Failover(Some(0), Some(0));
    TwoSteps(c, t, b, f);
    var u := Run(c, t, [b, f]).value;
    PreferredExtends(c, u, 0);
    var v := Run(c, u, LogRunBy(0)).value;
    var e := Execute(1, true, true, true);
    OneStep(c, v, e);
    var w := Next(c, v, e).value;
    RunConcat(c, s, LogRunBy(0), [b, f]);
    RunConcat(c, s, LogRunBy(0) + [b, f], LogRunBy(0));
    RunConcat(c, s, LogRunBy(0) + [b, f] + LogRunBy(0), [e]);
    es := LogRunBy(0) + [b, f] + LogRunBy(0) + [e];
    var n := |v.trace|;
    assert w.trace[n - 1] == v.trace[n - 1] && TakesLog(w.trace[n - 1]) && TakesLog(w.trace[n]);
    assert SameEpoch(w.trace[n - 1], w.trace[n]) && w.trace[n - 1].replica != w.trace[n].replica;
  }

  /** No run has two takers under one role assignment if and only if the group is basic or has at most one replica. */
  lemma OneTakerExactly(c: Config)
    ensures AlwaysOneTaker(c) <==> c.basic || c.replicas <= 1
  {
    if c.basic || c.replicas <= 1 {
      forall primary, preferred, es | Roles(c, primary, preferred) && Run(c, Start(primary, preferred), es).Some?
        ensures OneTaker(Run(c, Start(primary, preferred), es).value.trace)
      {
        OneTakerThere(c, primary, preferred, es);
      }
    } else {
      var es := MovedPreferenceLetsTwoTake(c);
    }
  }

  // ---------------------------------------------------------------- for one log about to be taken

  /** In this epoch, only `r` takes logs. */
  ghost predicate OnlyTaker(trace: seq<Item>, epoch: nat, r: nat) {
    forall i :: 0 <= i < |trace| && TakesLog(trace[i]) && trace[i].epoch == epoch ==> trace[i].replica == r
  }

  ghost predicate OnlyPendingLog(s: State, r: nat) {
    forall o :: o in s.pending && s.pending[o].log ==> o == r
  }

  lemma OnlyTakerStep(c: Config, s: State, e: Event, r: nat)
    requires Preferred(c, s.primary, s.preferred, r) && OnlyPendingLog(s, r) && OnlyTaker(s.trace, s.epoch, r)
    requires QuietEvent(e) && Next(c, s, e).Some?
    ensures var t := Next(c, s, e).value; OnlyPendingLog(t, r) && OnlyTaker(t.trace, s.epoch, r)
  {
  }

  lemma {:induction false} OnlyTakerKeeps(c: Config, s: State, es: seq<Event>, r: nat)
    requires Preferred(c, s.primary, s.preferred, r) && OnlyPendingLog(s, r) && OnlyTaker(s.trace, s.epoch, r)
    requires Quiet(es) && Run(c, s, es).Some?
    ensures var t := Run(c, s, es).value; OnlyPendingLog(t, r) && OnlyTaker(t.trace, s.epoch, r)
    decreases |es|
  {
    if es != [] {
      var front := es[..|es| - 1];
      OnlyTakerKeeps(c, s, front, r);
      QuietKeeps(c, s, front);
      OnlyTakerStep(c, Run(c, s, front).value, es[|es| - 1], r);
    }
  }

  function TakeIt(r: nat): Event {
    Execute(r, true, true, true)
  }

  /** Whatever follows until roles move again, over the whole epoch only `r` takes logs. */
  ghost predicate StaysWith(c: Config, s: State, r: nat) {
    forall more :: Quiet(more) && Run(c, s, [TakeIt(r)] + more).Some? ==>
      OnlyTaker(Run(c, s, [TakeIt(r)] + more).value.trace, s.epoch, r)
  }

  lemma OtherTakerFollows(c: Config, s: State, r: nat, q: nat)
    requires r in s.pending && s.pending[r].log && s.chain.Some? && !s.simple && !s.readOnly
    requires q < c.replicas && q != r && Preferred(c, s.primary, s.preferred, q) && q !in s.pending
    requires s.primary == Some(q) ==> q in s.localFull
    ensures !StaysWith(c, s, r)
  {
    OneStep(c, s, TakeIt(r));
    var t := Next(c, s, TakeIt(r)).value;
    PreferredExtends(c, t, q);
    RunConcat(c, s, [TakeIt(r)], LogRunBy(q));
    var u := Run(c, s, [TakeIt(r)] + LogRunBy(q)).value;
    assert TakesLog(u.trace[|u.trace| - 1]) && u.trace[|u.trace| - 1].replica == q;
    assert Quiet(LogRunBy(q));
  }

  lemma OtherTakerBefore(c: Config, s: State, r: nat)
    requires r in s.pending && s.pending[r].log && !OnlyTaker(s.trace, s.epoch, r)
    ensures !StaysWith(c, s, r)
  {
    OneStep(c, s, TakeIt(r));
    var t := Next(c, s, TakeIt(r)).value;
    assert s.trace <= t.trace;
    var i :| 0 <= i < |s.trace| && TakesLog(s.trace[i]) && s.trace[i].epoch == s.epoch && s.trace[i].replica != r;
    assert t.trace[i] == s.trace[i];
    assert [TakeIt(r)] + [] == [TakeIt(r)];
    assert Quiet([]);
  }

  lemma TakerStays(c: Config, s: State, r: nat)
    requires r in s.pending && s.pending[r].log && OnlyPendingLog(s, r) && Preferred(c, s.primary, s.preferred, r)
    requires OnlyTaker(s.trace, s.epoch, r)
    ensures StaysWith(c, s, r)
  {
    OneStep(c, s, TakeIt(r));
    OnlyTakerStep(c, s, TakeIt(r), r);
    QuietStep(c, s, TakeIt(r));
    forall more | Quiet(more) && Run(c, s, [TakeIt(r)] + more).Some?
      ensures OnlyTaker(Run(c, s, [TakeIt(r)] + more).value.trace, s.epoch, r)
    {
      RunConcat(c, s, [TakeIt(r)], more);
      OnlyTakerKeeps(c, Next(c, s, TakeIt(r)).value, more, r);
    }
  }

  /**
   * The only log under way is, and stays, the only replica's of its whole role assignment if and only if its
   * replica is the preferred one now and no other has taken a log in this assignment yet - whichever epoch
   * decided it, and whatever follows until roles move again.
   */
  lemma StaysExactly(c: Config, s: State, r: nat, q: nat)
    requires r in s.pending && s.pending[r].log && OnlyPendingLog(s, r)
    requires s.chain.Some? && !s.simple && !s.readOnly
    requires q < c.replicas && Preferred(c, s.primary, s.preferred, q) && (q == r || q !in s.pending)
    requires s.primary == Some(q) ==> q in s.localFull
    ensures StaysWith(c, s, r) <==> Preferred(c, s.primary, s.preferred, r) && OnlyTaker(s.trace, s.epoch, r)
  {
    if !OnlyTaker(s.trace, s.epoch, r) {
      OtherTakerBefore(c, s, r);
    } else if Preferred(c, s.primary, s.preferred, r) {
      TakerStays(c, s, r);
    } else {
      OtherTakerFollows(c, s, r, q);
    }
  }
}
