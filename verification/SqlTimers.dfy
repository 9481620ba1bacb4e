/** The per-job timing state of SQL jobs: last full and log, by success and by attempt. */
module SqlTimers {
  import opened Wrappers

  datatype Timers = Timers(full: Option<int>, log: Option<int>, fullAttempt: Option<int>, logAttempt: Option<int>,
                           noChainSince: map<string, int>)

  const FRESH: Timers := Timers(None, None, None, None, map[])

  function Or(a: Option<int>, b: Option<int>): Option<int> {
    if a.Some? then a else b
  }

  /** The last attempt, falling back to the last success for state that predates attempt times. */
  function LastFullAttempt(t: Timers): Option<int> {
    Or(t.fullAttempt, t.full)
  }

  function LastLogAttempt(t: Timers): Option<int> {
    Or(t.logAttempt, t.log)
  }

  /** What callers read of a state: the last successes, and the last attempts with their fallback. */
  datatype Readings = Readings(full: Option<int>, log: Option<int>, fullAttempt: Option<int>, logAttempt: Option<int>)

  function Reads(t: Timers): Readings {
    Readings(t.full, t.log, LastFullAttempt(t), LastLogAttempt(t))
  }

  function RecordedFull(t: Timers, time: int): Timers {
    t.(full := Some(time), log := Some(time), fullAttempt := Some(time), logAttempt := Some(time))
  }

  function RecordedLog(t: Timers, time: int): Timers {
    t.(log := Some(time), logAttempt := Some(time))
  }

  function AttemptedFull(t: Timers, time: int): Timers {
    t.(fullAttempt := Some(time))
  }

  function AttemptedLog(t: Timers, time: int): Timers {
    t.(logAttempt := Some(time))
  }

  /** One database's step in its search for a log chain. */
  datatype ChainNote = Note(database: string, now: int) | Clear(database: string)

  function NotedNoChain(t: Timers, database: string, now: int): Timers {
    if database in t.noChainSince then t else t.(noChainSince := t.noChainSince[database := now])
  }

  function ClearedNoChain(t: Timers, database: string): Timers {
    t.(noChainSince := t.noChainSince - {database})
  }

  function Apply(t: Timers, ops: seq<ChainNote>): Timers
    decreases |ops|
  {
    if ops == [] then t
    else
      var before := Apply(t, ops[..|ops| - 1]);
      match ops[|ops| - 1]
      case Note(db, now) => NotedNoChain(before, db, now)
      case Clear(db) => ClearedNoChain(before, db)
  }

  /** The first note of a database since it last backed up. */
  predicate StartsEpisode(ops: seq<ChainNote>, database: string, i: nat)
    requires i < |ops|
  {
    && ops[i].Note? && ops[i].database == database
    && (forall j :: i < j < |ops| ==> ops[j] != Clear(database))
    && (forall j :: 0 <= j < i && ops[j].Note? && ops[j].database == database ==>
          exists k :: j < k < i && ops[k] == Clear(database))
  }

  lemma EpisodeExtends(ops: seq<ChainNote>, op: ChainNote, database: string, i: nat)
    requires i < |ops| && StartsEpisode(ops, database, i) && op != Clear(database)
    ensures StartsEpisode(ops + [op], database, i)
  {
    forall j | 0 <= j < i && (ops + [op])[j].Note? && (ops + [op])[j].database == database
      ensures exists k :: j < k < i && (ops + [op])[k] == Clear(database)
    {
      var k :| j < k < i && ops[k] == Clear(database);
      assert (ops + [op])[k] == Clear(database);
    }
  }

  /** With no episode open, every earlier note of the database was cleared. */
  lemma {:induction false} NoEpisodeMeansCleared(ops: seq<ChainNote>, database: string, j: nat)
    requires database !in Apply(FRESH, ops).noChainSince
    requires j < |ops| && ops[j].Note? && ops[j].database == database
    ensures exists k :: j < k < |ops| && ops[k] == Clear(database)
    decreases |ops|
  {
    var last := |ops| - 1;
    if ops[last] == Clear(database) {
    } else {
      var front := ops[..last];
      NoEpisodeMeansCleared(front, database, j);
      var k :| j < k < |front| && front[k] == Clear(database);
      assert ops[k] == Clear(database);
    }
  }

  /**
   * Over any sequence of notes and clears, a database has an open no-chain episode exactly
   * when it was noted since its last clear, dated by the first such note - never a later one.
   */
  lemma {:induction false} EpisodeKeepsItsStart(ops: seq<ChainNote>, database: string)
    ensures database in Apply(FRESH, ops).noChainSince
       <==> exists i :: 0 <= i < |ops| && StartsEpisode(ops, database, i)
    ensures forall i :: 0 <= i < |ops| && StartsEpisode(ops, database, i) ==>
              Apply(FRESH, ops).noChainSince[database] == ops[i].now
    decreases |ops|
  {
    if ops != [] {
      var last := |ops| - 1;
      var front, op := ops[..last], ops[last];
      assert ops == front + [op];
      EpisodeKeepsItsStart(front, database);
      forall i | 0 <= i < |ops| && StartsEpisode(ops, database, i)
        ensures database in Apply(FRESH, ops).noChainSince && Apply(FRESH, ops).noChainSince[database] == ops[i].now
      {
        if i < last {
          EpisodeRestricts(front, op, database, i);
        } else {
          NoOpenEpisode(front, op, database);
        }
      }
      if database in Apply(FRESH, ops).noChainSince {
        if database in Apply(FRESH, front).noChainSince {
          var i :| 0 <= i < |front| && StartsEpisode(front, database, i);
          EpisodeExtends(front, op, database, i);
        } else {
          forall j | 0 <= j < last && ops[j].Note? && ops[j].database == database
            ensures exists k :: j < k < last && ops[k] == Clear(database)
          {
            NoEpisodeMeansCleared(front, database, j);
            var k :| j < k < |front| && front[k] == Clear(database);
            assert ops[k] == Clear(database);
          }
          assert StartsEpisode(ops, database, last);
        }
      }
    }
  }

  lemma EpisodeRestricts(front: seq<ChainNote>, op: ChainNote, database: string, i: nat)
    requires i < |front| && StartsEpisode(front + [op], database, i)
    ensures StartsEpisode(front, database, i) && op != Clear(database)
  {
    var ops := front + [op];
    assert ops[|front|] == op;
    assert forall j :: 0 <= j < |front| ==> ops[j] == front[j];
    forall j | 0 <= j < i && front[j].Note? && front[j].database == database
      ensures exists k :: j < k < i && front[k] == Clear(database)
    {
      assert ops[j] == front[j];
      var k :| j < k < i && ops[k] == Clear(database);
      assert front[k] == Clear(database);
    }
  }

  /** When the newest note starts an episode, none was open before it. */
  lemma NoOpenEpisode(front: seq<ChainNote>, op: ChainNote, database: string)
    requires StartsEpisode(front + [op], database, |front|)
    requires database in Apply(FRESH, front).noChainSince
        <==> exists i :: 0 <= i < |front| && StartsEpisode(front, database, i)
    ensures database !in Apply(FRESH, front).noChainSince
  {
    var ops := front + [op];
    forall i | 0 <= i < |front|
      ensures !StartsEpisode(front, database, i)
    {
      assert ops[i] == front[i];
      if front[i].Note? && front[i].database == database {
        var k :| i < k < |front| && ops[k] == Clear(database);
        assert front[k] == Clear(database);
      }
    }
  }

  /** The state files, one per job. Every recorder loads, changes and stores its job's state. */
  class TimerStore {
    var files: map<string, Timers>

    constructor ()
      ensures files == map[]
    {
      files := map[];
    }

    /** A missing state reads as fresh. */
    function Load(job: string): Timers
      reads this
    {
      if job in files then files[job] else FRESH
    }

    /** A successful full is the last success and the last attempt of both kinds; it closes no episode. */
    method RecordFull(job: string, time: int)
      modifies this
      ensures Reads(Load(job)) == Readings(Some(time), Some(time), Some(time), Some(time))
      ensures Load(job).noChainSince == old(Load(job)).noChainSince
      ensures forall other :: other != job ==> Load(other) == old(Load(other))
    {
      var s := Load(job);
      s := s.(full := Some(time));
      s := s.(log := Some(time));
      s := s.(fullAttempt := Some(time));
      s := s.(logAttempt := Some(time));
      files := files[job := s];
    }

    /** A successful log leaves what is read of the fulls alone. */
    method RecordLog(job: string, time: int)
      modifies this
      ensures Reads(Load(job)) == Reads(old(Load(job))).(log := Some(time), logAttempt := Some(time))
      ensures Load(job).noChainSince == old(Load(job)).noChainSince
      ensures forall other :: other != job ==> Load(other) == old(Load(other))
    {
      var s := Load(job);
      s := s.(log := Some(time));
      s := s.(logAttempt := Some(time));
      files := files[job := s];
    }

    /** A failed full is read as an attempt, over any older success; the last success and the logs read as before. */
    method RecordFullAttempt(job: string, time: int)
      modifies this
      ensures Reads(Load(job)) == Reads(old(Load(job))).(fullAttempt := Some(time))
      ensures Load(job).noChainSince == old(Load(job)).noChainSince
      ensures forall other :: other != job ==> Load(other) == old(Load(other))
    {
      var s := Load(job);
      s := s.(fullAttempt := Some(time));
      files := files[job := s];
    }

    /** A failed log is read as an attempt, over any older success; everything else reads as before. */
    method RecordLogAttempt(job: string, time: int)
      modifies this
      ensures Reads(Load(job)) == Reads(old(Load(job))).(logAttempt := Some(time))
      ensures Load(job).noChainSince == old(Load(job)).noChainSince
      ensures forall other :: other != job ==> Load(other) == old(Load(other))
    {
      var s := Load(job);
      s := s.(logAttempt := Some(time));
      files := files[job := s];
    }

    /** Notes a log backup that found no chain, and says since when that has been so. */
    method NoteNoChain(job: string, database: string, now: int) returns (since: int)
      modifies this
      ensures files == old(files)[job := NotedNoChain(old(Load(job)), database, now)]
      ensures database in Load(job).noChainSince && since == Load(job).noChainSince[database]
    {
      var s := Load(job);
      if database !in s.noChainSince {
        s := s.(noChainSince := s.noChainSince[database := now]);
      }
      since := s.noChainSince[database];
      files := files[job := s];
    }

    /** Forgets the episode, writing the state back only if there was one. */
    method ClearNoChain(job: string, database: string)
      modifies this
      ensures Load(job) == ClearedNoChain(old(Load(job)), database)
      ensures forall other :: other != job ==> Load(other) == old(Load(other))
      ensures database !in old(Load(job)).noChainSince ==> files == old(files)
    {
      var s := Load(job);
      if database in s.noChainSince {
        s := s.(noChainSince := s.noChainSince - {database});
        files := files[job := s];
      } else {
        assert s.noChainSince - {database} == s.noChainSince;
      }
    }
  }
}
