/** The job store: a list in memory, its file, and many callers changing both. */
module JobStore {
  import opened Wrappers
  import opened Jobs

  datatype Change = Put(job: Job) | Drop(id: string) | Note(id: string, time: int, status: string)

  function Changed(jobs: seq<Job>, ch: Change): seq<Job> {
    match ch
    case Put(job) => Upsert(jobs, job)
    case Drop(id) => Without(jobs, id)
    case Note(id, time, status) => Ran(jobs, id, time, status)
  }

  // ---------------------------------------------------------------- one caller

  /** `loadError` marks a file that exists but could not be read; the store is then read-only. */
  class Store {
    var jobs: seq<Job>
    var disk: seq<Job>
    const loadError: bool

    constructor (loaded: seq<Job>, file: seq<Job>, loadError: bool)
      ensures jobs == loaded && disk == file && this.loadError == loadError
    {
      jobs, disk, this.loadError := loaded, file, loadError;
    }

    /** Writes the whole list; a failed write leaves the file as it was. */
    method Persist(writes: bool) returns (ok: bool)
      modifies this`disk
      ensures ok <==> !loadError && writes
      ensures disk == if ok then jobs else old(disk)
    {
      if loadError {
        return false;
      }
      if writes {
        disk := jobs;
      }
      ok := writes;
    }

    method IndexOf(id: string) returns (k: nat)
      ensures k == Find(jobs, id)
    {
      k := 0;
      while k < |jobs| && jobs[k].id != id
        invariant k <= |jobs| && forall i :: 0 <= i < k ==> jobs[i].id != id
      {
        k := k + 1;
      }
    }

    method SaveJob(job: Job, writes: bool) returns (ok: bool)
      modifies this
      ensures ok <==> !loadError && writes
      ensures jobs == if loadError then old(jobs) else Changed(old(jobs), Put(job))
      ensures disk == if ok then jobs else old(disk)
    {
      if loadError {
        return false;
      }
      var k := IndexOf(job.id);
      if k < |jobs| {
        jobs := jobs[k := job];
      } else {
        jobs := jobs + [job];
      }
      ok := Persist(writes);
    }

    method Delete(id: string, writes: bool) returns (ok: bool)
      modifies this
      ensures ok <==> !loadError && writes
      ensures jobs == if loadError then old(jobs) else Changed(old(jobs), Drop(id))
      ensures disk == if ok then jobs else old(disk)
    {
      if loadError {
        return false;
      }
      var kept := [];
      for i := 0 to |jobs|
        invariant jobs == old(jobs) && disk == old(disk) && kept == Without(jobs[..i], id)
      {
        assert jobs[..i + 1][..i] == jobs[..i];
        if jobs[i].id != id {
          kept := kept + [jobs[i]];
        }
      }
      assert jobs[..|jobs|] == jobs;
      jobs := kept;
      ok := Persist(writes);
    }

    method RecordRun(id: string, time: int, status: string, writes: bool) returns (ok: bool)
      modifies this
      ensures ok <==> !loadError && writes
      ensures jobs == if loadError then old(jobs) else Changed(old(jobs), Note(id, time, status))
      ensures disk == if ok then jobs else old(disk)
    {
      if loadError {
        return false;
      }
      var k := IndexOf(id);
      if k < |jobs| {
        jobs := jobs[k := jobs[k].(lastRun := Some(time), lastStatus := Some(status))];
      }
      ok := Persist(writes);
    }

    /** A save request, from its checks to the file: a collision-free store stays so. */
    method HandleSave(job: Job, scheduleOk: bool, writes: bool) returns (ok: bool)
      modifies this
      ensures jobs == if loadError then old(jobs) else Handle(old(jobs), Save(job, scheduleOk))
      ensures old(Isolated(jobs)) ==> Isolated(jobs)
      ensures disk == if ok then jobs else old(disk)
      ensures ok ==> job in jobs && Admissible(job, jobs)
    {
      if !scheduleOk {
        return false;
      }
      var collision := ValidateGroups(job, jobs);
      if collision.Some? {
        return false;
      }
      ghost var before := jobs;
      ok := SaveJob(job, writes);
      if job.destination.Folder? { FolderAdmissible(job, before); }
      UpsertKeepsAdmissible(before, job);
      if Isolated(before) { UpsertIsolated(before, job); }
    }
  }

  lemma UpsertKeepsAdmissible(jobs: seq<Job>, job: Job)
    requires Admissible(job, jobs)
    ensures Admissible(job, Upsert(jobs, job)) && job in Upsert(jobs, job)
  {
    var k := Find(jobs, job.id);
    var more := Upsert(jobs, job);
    assert more[k] == job;
    assert forall i :: 0 <= i < |more| && i != k ==> more[i] == jobs[i];
  }

  // ---------------------------------------------------------------- many callers

  /**
   * `history` lists every state the list in memory has had, the last one being the present;
   * `written` is the state last written, `pending` the change each caller has made and not yet
   * persisted, `acked` and `failed` the changes whose callers were told so.
   */
  datatype State = State(writable: bool, history: seq<seq<Job>>, disk: seq<Job>, written: nat, pending: map<nat, nat>,
                         acked: set<nat>, failed: set<nat>)

  datatype Event = Mutate(caller: nat, change: Change) | Persist(caller: nat, writes: bool)

  function Memory(s: State): seq<Job>
    requires s.history != []
  {
    s.history[|s.history| - 1]
  }

  /** The change and the write are separate critical sections; each is one step. */
  function Next(s: State, e: Event): Option<State>
    requires s.history != []
  {
    match e
    case Mutate(caller, change) =>
      if !s.writable then Some(s)
      else if caller in s.pending then None
      else Some(s.(history := s.history + [Changed(Memory(s), change)], pending := s.pending[caller := |s.history|]))
    case Persist(caller, writes) =>
      if caller !in s.pending then None
      else
        var t := s.(pending := s.pending - {caller});
        if writes then
          Some(t.(disk := Memory(s), written := |s.history| - 1, acked := s.acked + {s.pending[caller]}))
        else Some(t.(failed := s.failed + {s.pending[caller]}))
  }

  function Start(writable: bool, loaded: seq<Job>, file: seq<Job>): State {
    State(writable, [loaded], file, 0, map[], {}, {})
  }

  function Run(start: State, es: seq<Event>): (r: Option<State>)
    requires start.history != []
    ensures r.Some? ==> r.value.history != []
    decreases |es|
  {
    if es == [] then Some(start)
    else
      var before := Run(start, es[..|es| - 1]);
      if before.None? then None else Next(before.value, es[|es| - 1])
  }

  /** A change not covered by the last write is some caller's to persist, or was reported as failed. */
  ghost predicate Accounted(s: State, v: nat) {
    v <= s.written || v in s.failed || exists caller :: caller in s.pending && s.pending[caller] == v
  }

  ghost predicate Inv(s: State) {
    && s.history != [] && s.written < |s.history| && s.disk == s.history[s.written]
    && (forall v :: 0 <= v < |s.history| ==> Accounted(s, v))
    && (forall v :: v in s.acked ==> v <= s.written)
    && (forall caller :: caller in s.pending ==> s.pending[caller] < |s.history|)
    && (forall v :: 0 <= v < |s.history| ==> UniqueIds(s.history[v]))
  }

  lemma {:induction false} WithoutUnique(jobs: seq<Job>, id: string)
    requires UniqueIds(jobs)
    ensures UniqueIds(Without(jobs, id))
  {
    if jobs != [] {
      var n := |jobs| - 1;
      WithoutUnique(jobs[..n], id);
      var rest := Without(jobs[..n], id);
      forall i | 0 <= i < |rest|
        ensures rest[i].id != jobs[n].id
      {
        assert rest[i] in rest;
        var k :| 0 <= k < n && jobs[..n][k] == rest[i];
      }
    }
  }

  lemma ChangedUnique(jobs: seq<Job>, change: Change)
    requires UniqueIds(jobs)
    ensures UniqueIds(Changed(jobs, change))
  {
    if change.Drop? {
      WithoutUnique(jobs, change.id);
    } else if change.Put? {
      var k := UpsertAt(jobs, change.job);
    }
  }

  lemma MutateInv(s: State, caller: nat, change: Change)
    requires Inv(s) && s.writable && caller !in s.pending
    ensures Inv(Next(s, Mutate(caller, change)).value)
  {
    var t := Next(s, Mutate(caller, change)).value;
    ChangedUnique(Memory(s), change);
    assert forall v :: 0 <= v < |s.history| ==> t.history[v] == s.history[v];
    forall v | 0 <= v < |t.history|
      ensures Accounted(t, v)
    {
      if v == |s.history| {
        assert t.pending[caller] == v;
      } else {
        assert Accounted(s, v);
        if v > s.written && v !in s.failed {
          var other :| other in s.pending && s.pending[other] == v;
          assert t.pending[other] == v;
        }
      }
    }
  }

  lemma PersistInv(s: State, caller: nat, writes: bool)
    requires Inv(s) && caller in s.pending
    ensures Inv(Next(s, Persist(caller, writes)).value)
  {
    var t := Next(s, Persist(caller, writes)).value;
    forall v | 0 <= v < |t.history|
      ensures Accounted(t, v)
    {
      assert Accounted(s, v);
      if !writes && v > s.written && v !in s.failed && v != s.pending[caller] {
        var other :| other in s.pending && s.pending[other] == v;
        assert t.pending[other] == v;
      }
    }
  }

  lemma {:induction false} RunInv(loaded: seq<Job>, es: seq<Event>)
    requires UniqueIds(loaded) && Run(Start(true, loaded, loaded), es).Some?
    ensures Inv(Run(Start(true, loaded, loaded), es).value) && Run(Start(true, loaded, loaded), es).value.writable
    decreases |es|
  {
    if es != [] {
      RunInv(loaded, es[..|es| - 1]);
      var s := Run(Start(true, loaded, loaded), es[..|es| - 1]).value;
      var e := es[|es| - 1];
      if e.Mutate? { MutateInv(s, e.caller, e.change); } else { PersistInv(s, e.caller, e.writes); }
    }
  }

  // ---------------------------------------------------------------- over every interleaving

  /**
   * If the file and the list differ, some caller has a change newer than the last write still to
   * persist, or was told that its write failed; so with all writes successful and nobody under
   * way, the file is the list.
   */
  lemma {:induction false} DiskLagsOnlyBehindCallers(loaded: seq<Job>, es: seq<Event>)
    requires UniqueIds(loaded) && Run(Start(true, loaded, loaded), es).Some?
    ensures var s := Run(Start(true, loaded, loaded), es).value;
            s.disk != Memory(s) ==>
              (exists v :: v in s.failed && s.written < v)
              || (exists caller :: caller in s.pending && s.written < s.pending[caller])
  {
    RunInv(loaded, es);
    var s := Run(Start(true, loaded, loaded), es).value;
    assert Accounted(s, |s.history| - 1);
  }

  /** An acknowledged change is on disk, or superseded there by a later state of the list; ids stay unique. */
  lemma {:induction false} AcknowledgedIsOnDisk(loaded: seq<Job>, es: seq<Event>, v: nat)
    requires UniqueIds(loaded) && Run(Start(true, loaded, loaded), es).Some?
    requires v in Run(Start(true, loaded, loaded), es).value.acked
    ensures var s := Run(Start(true, loaded, loaded), es).value;
            (exists w :: v <= w < |s.history| && s.disk == s.history[w]) && UniqueIds(s.disk) && UniqueIds(Memory(s))
  {
    RunInv(loaded, es);
    var s := Run(Start(true, loaded, loaded), es).value;
    assert s.disk == s.history[s.written];
  }

  /** Later steps never put an older state on disk. */
  lemma {:induction false} DiskNeverGoesBack(loaded: seq<Job>, es: seq<Event>, n: nat)
    requires UniqueIds(loaded) && n <= |es| && Run(Start(true, loaded, loaded), es).Some?
    ensures Run(Start(true, loaded, loaded), es[..n]).Some?
    ensures Run(Start(true, loaded, loaded), es[..n]).value.written
            <= Run(Start(true, loaded, loaded), es).value.written
    decreases |es|
  {
    if n == |es| {
      assert es[..n] == es;
    } else {
      var front := es[..|es| - 1];
      DiskNeverGoesBack(loaded, front, n);
      assert front[..n] == es[..n];
      RunInv(loaded, front);
    }
  }

  /** A store whose file could not be read keeps both the list and the file as they are. */
  lemma {:induction false} ReadOnlyNeverChanges(loaded: seq<Job>, file: seq<Job>, es: seq<Event>)
    requires Run(Start(false, loaded, file), es).Some?
    ensures Run(Start(false, loaded, file), es).value == Start(false, loaded, file)
    decreases |es|
  {
    if es != [] { ReadOnlyNeverChanges(loaded, file, es[..|es| - 1]); }
  }
}
