/** Save requests handled at the same time: validation and storing are two steps, and others come between. */
module JobRace {
  import opened Wrappers
  import opened Jobs

  /** An accepted job on its way to the store, and the ids stored since it was validated. */
  datatype Waiting = Waiting(job: Job, since: set<string>)

  datatype State = State(jobs: seq<Job>, waiting: map<nat, Waiting>)

  datatype Event =
    | Accept(caller: nat, job: Job, scheduleOk: bool)
    | Store(caller: nat)
    | Remove(id: string)
    | Note(id: string, time: int, status: string)

  ghost function Next(s: State, e: Event): Option<State> {
    match e
    case Accept(caller, job, scheduleOk) =>
      if caller in s.waiting then None
      else if scheduleOk && (job.destination.Folder? || Admissible(job, s.jobs))
      then Some(s.(waiting := s.waiting[caller := Waiting(job, {})])) else Some(s)
    case Store(caller) => if caller in s.waiting then Some(Stored(s, caller)) else None
    case Remove(id) => Some(s.(jobs := Without(s.jobs, id)))
    case Note(id, time, status) => Some(s.(jobs := Ran(s.jobs, id, time, status)))
  }

  function Stored(s: State, caller: nat): State
    requires caller in s.waiting
  {
    var job := s.waiting[caller].job;
    State(Upsert(s.jobs, job),
          map c | c in s.waiting && c != caller :: s.waiting[c].(since := s.waiting[c].since + {job.id}))
  }

  ghost function Run(jobs: seq<Job>, es: seq<Event>): Option<State>
    decreases |es|
  {
    if es == [] then Some(State(jobs, map[]))
    else
      var before := Run(jobs, es[..|es| - 1]);
      if before.None? then None else Next(before.value, es[|es| - 1])
  }

  /** A job on its way collides with nothing but what was stored since it was validated. */
  ghost predicate WaitInv(s: State) {
    forall c :: c in s.waiting ==> StillFits(s.waiting[c], s.jobs)
  }

  ghost predicate StillFits(w: Waiting, jobs: seq<Job>) {
    && DistinctGroups(Writes(w.job))
    && forall k :: 0 <= k < |jobs| && jobs[k].id != w.job.id && jobs[k].id !in w.since ==> Compatible(w.job, jobs[k])
  }

  /** Nothing stored since the job was validated, and still there, collides with it. */
  ghost predicate Unraced(s: State, caller: nat)
    requires caller in s.waiting
  {
    var w := s.waiting[caller];
    forall k :: 0 <= k < |s.jobs| && s.jobs[k].id != w.job.id && s.jobs[k].id in w.since ==>
      Compatible(w.job, s.jobs[k])
  }

  lemma StoreFits(s: State, caller: nat, w: Waiting)
    requires caller in s.waiting && StillFits(w, s.jobs)
    ensures var job := s.waiting[caller].job; StillFits(w.(since := w.since + {job.id}), Upsert(s.jobs, job))
  {
    var job := s.waiting[caller].job;
    var more := Upsert(s.jobs, job);
    var k := Find(s.jobs, job.id);
    assert more[k] == job && forall i :: 0 <= i < |more| && i != k ==> more[i] == s.jobs[i];
  }

  lemma RemoveFits(w: Waiting, jobs: seq<Job>, id: string)
    requires StillFits(w, jobs)
    ensures StillFits(w, Without(jobs, id))
  {
    var rest := Without(jobs, id);
    forall k | 0 <= k < |rest| && rest[k].id != w.job.id && rest[k].id !in w.since
      ensures Compatible(w.job, rest[k])
    {
      assert rest[k] in rest;
      var i :| 0 <= i < |jobs| && jobs[i] == rest[k];
    }
  }

  lemma NoteFits(w: Waiting, jobs: seq<Job>, id: string, time: int, status: string)
    requires StillFits(w, jobs)
    ensures StillFits(w, Ran(jobs, id, time, status))
  {
    var after := Ran(jobs, id, time, status);
    forall k | 0 <= k < |after| && after[k].id != w.job.id && after[k].id !in w.since
      ensures Compatible(w.job, after[k])
    {
      assert after[k].id == jobs[k].id && Writes(after[k]) == Writes(jobs[k])
             && after[k].destination == jobs[k].destination;
      assert Compatible(w.job, jobs[k]);
    }
  }

  lemma WaitStep(s: State, e: Event)
    requires WaitInv(s) && Next(s, e).Some?
    ensures WaitInv(Next(s, e).value)
  {
    var t := Next(s, e).value;
    forall c | c in t.waiting
      ensures StillFits(t.waiting[c], t.jobs)
    {
      if e.Accept? {
        if c !in s.waiting && e.job.destination.Folder? { FolderAdmissible(e.job, s.jobs); }
      } else if e.Store? {
        StoreFits(s, e.caller, s.waiting[c]);
      } else if e.Remove? {
        RemoveFits(s.waiting[c], s.jobs, e.id);
      } else {
        NoteFits(s.waiting[c], s.jobs, e.id, e.time, e.status);
      }
    }
  }

  lemma {:induction false} WaitRun(jobs: seq<Job>, es: seq<Event>)
    requires Run(jobs, es).Some?
    ensures WaitInv(Run(jobs, es).value)
    decreases |es|
  {
    if es != [] {
      WaitRun(jobs, es[..|es| - 1]);
      WaitStep(Run(jobs, es[..|es| - 1]).value, es[|es| - 1]);
    }
  }

  /**
   * Storing an accepted job keeps the groups isolated if and only if nothing stored since its validation collides
   * with it.
   */
  lemma StoreExactly(s: State, caller: nat)
    requires Isolated(s.jobs) && WaitInv(s) && caller in s.waiting
    ensures Isolated(Stored(s, caller).jobs) <==> Unraced(s, caller)
  {
    var w := s.waiting[caller];
    assert StillFits(w, s.jobs);
    if Unraced(s, caller) {
      assert Admissible(w.job, s.jobs);
      UpsertIsolated(s.jobs, w.job);
    }
    if Isolated(Upsert(s.jobs, w.job)) {
      var m := UpsertAt(s.jobs, w.job);
      var more := Upsert(s.jobs, w.job);
      forall k | 0 <= k < |s.jobs| && s.jobs[k].id != w.job.id && s.jobs[k].id in w.since
        ensures Compatible(w.job, s.jobs[k])
      {
        assert more[k] == s.jobs[k];
        assert Compatible(more[m], more[k]);
      }
    }
  }

  /** Every job was stored unraced. */
  ghost predicate NoRace(jobs: seq<Job>, es: seq<Event>)
    requires Run(jobs, es).Some?
    decreases |es|
  {
    es != [] ==>
      var front, e := es[..|es| - 1], es[|es| - 1];
      NoRace(jobs, front) && (e.Store? ==> Unraced(Run(jobs, front).value, e.caller))
  }

  ghost predicate IsolatedThroughout(jobs: seq<Job>, es: seq<Event>)
    requires Run(jobs, es).Some?
    decreases |es|
  {
    Isolated(Run(jobs, es).value.jobs) && (es != [] ==> IsolatedThroughout(jobs, es[..|es| - 1]))
  }

  lemma StepIsolated(s: State, e: Event)
    requires Isolated(s.jobs) && WaitInv(s) && Next(s, e).Some?
    ensures Isolated(Next(s, e).value.jobs) <==> (e.Store? ==> Unraced(s, e.caller))
  {
    if e.Store? {
      StoreExactly(s, e.caller);
    } else if e.Remove? {
      WithoutIsolated(s.jobs, e.id);
    } else if e.Note? {
      RanIsolated(s.jobs, e.id, e.time, e.status);
    }
  }

  /**
   * Over any interleaving of validations, stores, deletions and recorded runs by any number of callers, the groups
   * stay isolated all along if and only if no job was stored over one that came in since its validation and collides.
   */
  lemma {:induction false} IsolatedExactlyWithoutRace(jobs: seq<Job>, es: seq<Event>)
    requires Isolated(jobs) && Run(jobs, es).Some?
    ensures IsolatedThroughout(jobs, es) <==> NoRace(jobs, es)
    decreases |es|
  {
    if es != [] {
      var front := es[..|es| - 1];
      IsolatedExactlyWithoutRace(jobs, front);
      WaitRun(jobs, front);
      var s := Run(jobs, front).value;
      if IsolatedThroughout(jobs, front) {
        StepIsolated(s, es[|es| - 1]);
      }
    }
  }
}
