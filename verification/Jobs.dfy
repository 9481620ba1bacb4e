/** Backup jobs, the PBS snapshot groups they write, and the rule that no two collide. */
module Jobs {
  import opened Wrappers

  datatype Destination = Pbs(serverId: string, backupId: string) | Folder

  datatype Source = Files | Sql(databases: seq<string>, pointInTime: bool)

  datatype Job = Job(
    id: string, source: Source, destination: Destination, lastRun: Option<int>, lastStatus: Option<string>)

  // ---------------------------------------------------------------- groups

  function Slug(c: char): char {
    if 'A' <= c <= 'Z' then (c as int + 32) as char
    else if 'a' <= c <= 'z' || '0' <= c <= '9' || c in "._-" then c
    else '_'
  }

  function Sanitize(value: string): (r: string)
    ensures |r| == |value| && forall i :: 0 <= i < |r| ==> 'a' <= r[i] <= 'z' || '0' <= r[i] <= '9' || r[i] in "._-"
  {
    seq(|value|, i requires 0 <= i < |value| => Slug(value[i]))
  }

  datatype Purpose = FileBackups | FullBackups(database: string) | LogBackups(database: string)

  /** A snapshot group a job writes, and what lands there. */
  datatype Write = Write(group: string, what: Purpose)

  function FullGroup(backupId: string, database: string): string {
    backupId + "-" + Sanitize(database)
  }

  function LogGroup(backupId: string, database: string): string {
    backupId + "-" + Sanitize(database) + "-log"
  }

  function DatabaseWrites(backupId: string, database: string, logs: bool): seq<Write> {
    [Write(FullGroup(backupId, database), FullBackups(database))]
    + if logs then [Write(LogGroup(backupId, database), LogBackups(database))] else []
  }

  function SqlWrites(backupId: string, databases: seq<string>, logs: bool): seq<Write> {
    if databases == [] then []
    else SqlWrites(backupId, databases[..|databases| - 1], logs)
         + DatabaseWrites(backupId, databases[|databases| - 1], logs)
  }

  function Writes(job: Job): seq<Write> {
    if job.destination.Folder? then []
    else if job.source.Files? then [Write(job.destination.backupId, FileBackups)]
    else SqlWrites(job.destination.backupId, job.source.databases, job.source.pointInTime)
  }

  method CollectWrites(job: Job) returns (out: seq<Write>)
    ensures out == Writes(job)
  {
    if job.destination.Folder? {
      return [];
    }
    var backupId := job.destination.backupId;
    if job.source.Files? {
      return [Write(backupId, FileBackups)];
    }
    out := [];
    var dbs := job.source.databases;
    for i := 0 to |dbs|
      invariant out == SqlWrites(backupId, dbs[..i], job.source.pointInTime)
    {
      assert dbs[..i + 1][..i] == dbs[..i];
      ghost var was := out;
      out := out + [Write(FullGroup(backupId, dbs[i]), FullBackups(dbs[i]))];
      if job.source.pointInTime {
        out := out + [Write(LogGroup(backupId, dbs[i]), LogBackups(dbs[i]))];
      }
      assert out == was + DatabaseWrites(backupId, dbs[i], job.source.pointInTime);
    }
    assert dbs[..|dbs|] == dbs;
  }

  // ---------------------------------------------------------------- collisions

  ghost predicate DistinctGroups(ws: seq<Write>) {
    forall a, b :: 0 <= a < b < |ws| ==> ws[a].group != ws[b].group
  }

  ghost predicate DisjointGroups(xs: seq<Write>, ys: seq<Write>) {
    forall a, b :: 0 <= a < |xs| && 0 <= b < |ys| ==> xs[a].group != ys[b].group
  }

  predicate SameServer(j: Job, k: Job) {
    j.destination.Pbs? && k.destination.Pbs? && j.destination.serverId == k.destination.serverId
  }

  /** Two jobs that may be stored together. */
  ghost predicate Compatible(j: Job, k: Job) {
    SameServer(j, k) ==> DisjointGroups(Writes(j), Writes(k))
  }

  datatype Collision =
    | Inside(group: string, what: Purpose, other: Purpose)
    | With(group: string, what: Purpose, job: string, other: Purpose)

  ghost predicate Repeats(ws: seq<Write>, c: Collision) {
    c.Inside? && exists a, b :: 0 <= a < b < |ws| && ws[a] == Write(c.group, c.other) && ws[b] == Write(c.group, c.what)
  }

  predicate Shares(ours: seq<Write>, theirs: seq<Write>, c: Collision) {
    c.With? && Write(c.group, c.what) in ours && Write(c.group, c.other) in theirs
  }

  ghost predicate CollidesWith(job: Job, other: Job, c: Collision) {
    c.With? && other.id == c.job != job.id && SameServer(job, other) && Shares(Writes(job), Writes(other), c)
  }

  /** A collision that is really there. */
  ghost predicate Real(job: Job, existing: seq<Job>, c: Collision) {
    Repeats(Writes(job), c) || exists k :: 0 <= k < |existing| && CollidesWith(job, existing[k], c)
  }

  /** What an accepted job promises of the jobs stored beside it. */
  ghost predicate Admissible(job: Job, existing: seq<Job>) {
    && DistinctGroups(Writes(job))
    && forall k :: 0 <= k < |existing| && existing[k].id != job.id ==> Compatible(job, existing[k])
  }

  /** The scan of a job's own groups, remembering each group's purpose. */
  method FindInside(ws: seq<Write>) returns (r: Option<Collision>)
    ensures r.None? ==> DistinctGroups(ws)
    ensures r.Some? ==> Repeats(ws, r.value)
  {
    var seen: map<string, Purpose> := map[];
    for i := 0 to |ws|
      invariant forall a :: 0 <= a < i ==> ws[a].group in seen
      invariant forall g :: g in seen ==> Write(g, seen[g]) in ws[..i]
      invariant DistinctGroups(ws[..i])
    {
      if ws[i].group in seen {
        var a :| 0 <= a < i && ws[a] == Write(ws[i].group, seen[ws[i].group]);
        return Some(Inside(ws[i].group, ws[i].what, seen[ws[i].group]));
      }
      seen := seen[ws[i].group := ws[i].what];
      assert ws[..i + 1] == ws[..i] + [ws[i]];
    }
    assert ws[..|ws|] == ws;
    r := None;
  }

  /** The first of `ours` writing to `group`. */
  method FindGroup(ours: seq<Write>, group: string) returns (r: Option<Write>)
    ensures r.None? ==> forall a :: 0 <= a < |ours| ==> ours[a].group != group
    ensures r.Some? ==> r.value in ours && r.value.group == group
  {
    for a := 0 to |ours|
      invariant forall b :: 0 <= b < a ==> ours[b].group != group
    {
      if ours[a].group == group {
        return Some(ours[a]);
      }
    }
    r := None;
  }

  method FindShared(ours: seq<Write>, theirs: seq<Write>, id: string) returns (r: Option<Collision>)
    ensures r.None? ==> DisjointGroups(ours, theirs)
    ensures r.Some? ==> Shares(ours, theirs, r.value) && r.value.job == id
  {
    for i := 0 to |theirs|
      invariant DisjointGroups(ours, theirs[..i])
    {
      var hit := FindGroup(ours, theirs[i].group);
      if hit.Some? {
        return Some(With(hit.value.group, hit.value.what, id, theirs[i].what));
      }
      assert theirs[..i + 1] == theirs[..i] + [theirs[i]];
    }
    assert theirs[..|theirs|] == theirs;
    r := None;
  }

  lemma SharesRefutes(ours: seq<Write>, theirs: seq<Write>, c: Collision)
    requires Shares(ours, theirs, c)
    ensures !DisjointGroups(ours, theirs)
  {
    var a :| 0 <= a < |ours| && ours[a] == Write(c.group, c.what);
    var b :| 0 <= b < |theirs| && theirs[b] == Write(c.group, c.other);
  }

  lemma RealRefutes(job: Job, existing: seq<Job>, c: Collision)
    requires Real(job, existing, c)
    ensures !Admissible(job, existing)
  {
    if !Repeats(Writes(job), c) {
      var k :| 0 <= k < |existing| && CollidesWith(job, existing[k], c);
      SharesRefutes(Writes(job), Writes(existing[k]), c);
    }
  }

  /** The scan of the other jobs on the same server. */
  method FindAmong(job: Job, ours: seq<Write>, existing: seq<Job>) returns (r: Option<Collision>)
    requires ours == Writes(job)
    ensures r.None? ==> forall j :: 0 <= j < |existing| && existing[j].id != job.id ==> Compatible(job, existing[j])
    ensures r.Some? ==> exists k :: 0 <= k < |existing| && CollidesWith(job, existing[k], r.value)
  {
    for k := 0 to |existing|
      invariant forall j :: 0 <= j < k && existing[j].id != job.id ==> Compatible(job, existing[j])
    {
      if existing[k].id != job.id && SameServer(job, existing[k]) {
        var theirs := CollectWrites(existing[k]);
        r := FindShared(ours, theirs, existing[k].id);
        if r.Some? {
          assert CollidesWith(job, existing[k], r.value);
          return;
        }
      }
    }
    r := None;
  }

  /** Accepts a job exactly when none of its groups collide; a reported collision is really there. */
  method ValidateGroups(job: Job, existing: seq<Job>) returns (r: Option<Collision>)
    ensures r.None? <==> job.destination.Folder? || Admissible(job, existing)
    ensures r.Some? ==> Real(job, existing, r.value)
  {
    if job.destination.Folder? {
      return None;
    }
    var ours := CollectWrites(job);
    r := FindInside(ours);
    if r.None? {
      r := FindAmong(job, ours, existing);
    }
    if r.Some? {
      RealRefutes(job, existing, r.value);
    }
  }

  // ---------------------------------------------------------------- requests

  /** The position of the first job with an id, or the length. */
  function Find(jobs: seq<Job>, id: string): (k: nat)
    ensures k <= |jobs| && (k < |jobs| ==> jobs[k].id == id) && forall i :: 0 <= i < k ==> jobs[i].id != id
  {
    if jobs == [] || jobs[0].id == id then 0 else 1 + Find(jobs[1..], id)
  }

  function Upsert(jobs: seq<Job>, job: Job): seq<Job> {
    var k := Find(jobs, job.id);
    if k < |jobs| then jobs[k := job] else jobs + [job]
  }

  function Without(jobs: seq<Job>, id: string): (r: seq<Job>)
    ensures forall j :: j in r ==> j in jobs && j.id != id
    ensures forall j :: j in jobs && j.id != id ==> j in r
  {
    if jobs == [] then []
    else Without(jobs[..|jobs| - 1], id) + if jobs[|jobs| - 1].id == id then [] else [jobs[|jobs| - 1]]
  }

  function Ran(jobs: seq<Job>, id: string, time: int, status: string): seq<Job> {
    var k := Find(jobs, id);
    if k < |jobs| then jobs[k := jobs[k].(lastRun := Some(time), lastStatus := Some(status))] else jobs
  }

  ghost predicate UniqueIds(jobs: seq<Job>) {
    forall i, j :: 0 <= i < j < |jobs| ==> jobs[i].id != jobs[j].id
  }

  /** All groups of all jobs on one server are pairwise distinct, within a job and across jobs. */
  ghost predicate Isolated(jobs: seq<Job>) {
    && UniqueIds(jobs)
    && (forall i :: 0 <= i < |jobs| ==> DistinctGroups(Writes(jobs[i])))
    && (forall i, j :: 0 <= i < |jobs| && 0 <= j < |jobs| && i != j ==> Compatible(jobs[i], jobs[j]))
  }

  datatype Request = Save(job: Job, scheduleOk: bool) | Delete(id: string)
    | RecordRun(id: string, time: int, status: string)

  /** One request handled from its validation to its change. */
  ghost function Handle(jobs: seq<Job>, r: Request): seq<Job> {
    match r
    case Save(job, scheduleOk) =>
      if scheduleOk && (job.destination.Folder? || Admissible(job, jobs)) then Upsert(jobs, job) else jobs
    case Delete(id) => Without(jobs, id)
    case RecordRun(id, time, status) => Ran(jobs, id, time, status)
  }

  ghost function HandleAll(jobs: seq<Job>, rs: seq<Request>): seq<Job>
    decreases |rs|
  {
    if rs == [] then jobs else Handle(HandleAll(jobs, rs[..|rs| - 1]), rs[|rs| - 1])
  }

  lemma CompatibleBothWays(j: Job, k: Job)
    requires Compatible(j, k)
    ensures Compatible(k, j)
  {
  }

  lemma FolderAdmissible(job: Job, existing: seq<Job>)
    requires job.destination.Folder?
    ensures Admissible(job, existing)
  {
  }

  lemma UpsertIsolated(jobs: seq<Job>, job: Job)
    requires Isolated(jobs) && Admissible(job, jobs)
    ensures Isolated(Upsert(jobs, job))
  {
    var k := Find(jobs, job.id);
    var more := Upsert(jobs, job);
    assert more[k] == job;
    assert forall i :: 0 <= i < |jobs| && i != k ==> more[i] == jobs[i] && jobs[i].id != job.id;
    forall i, j | 0 <= i < |more| && 0 <= j < |more| && i != j
      ensures Compatible(more[i], more[j])
    {
      if i == k {
        assert Compatible(job, jobs[j]);
      } else if j == k {
        CompatibleBothWays(job, jobs[i]);
      } else {
        assert Compatible(jobs[i], jobs[j]);
      }
    }
  }

  lemma PrefixIsolated(jobs: seq<Job>, n: nat)
    requires n <= |jobs| && Isolated(jobs)
    ensures Isolated(jobs[..n])
  {
    var front := jobs[..n];
    forall i, j | 0 <= i < n && 0 <= j < n && i != j
      ensures Compatible(front[i], front[j])
    {
      assert Compatible(jobs[i], jobs[j]);
    }
  }

  lemma LastAdmissible(jobs: seq<Job>, rest: seq<Job>)
    requires jobs != [] && Isolated(jobs) && forall j :: j in rest ==> j in jobs[..|jobs| - 1]
    ensures Admissible(jobs[|jobs| - 1], rest) && forall j :: j in rest ==> j.id != jobs[|jobs| - 1].id
  {
    var n := |jobs| - 1;
    forall i | 0 <= i < |rest|
      ensures Compatible(jobs[n], rest[i]) && rest[i].id != jobs[n].id
    {
      assert rest[i] in rest;
      var k :| 0 <= k < n && jobs[..n][k] == rest[i];
      assert Compatible(jobs[n], jobs[k]);
    }
  }

  lemma {:induction false} WithoutIsolated(jobs: seq<Job>, id: string)
    requires Isolated(jobs)
    ensures Isolated(Without(jobs, id))
  {
    if jobs != [] {
      var n := |jobs| - 1;
      PrefixIsolated(jobs, n);
      WithoutIsolated(jobs[..n], id);
      var rest := Without(jobs[..n], id);
      LastAdmissible(jobs, rest);
      UpsertIsolated(rest, jobs[n]);
      assert Upsert(rest, jobs[n]) == rest + [jobs[n]];
      assert rest + [] == rest;
    }
  }

  lemma RanIsolated(jobs: seq<Job>, id: string, time: int, status: string)
    requires Isolated(jobs)
    ensures Isolated(Ran(jobs, id, time, status))
  {
    var after := Ran(jobs, id, time, status);
    assert |after| == |jobs|;
    assert forall i :: 0 <= i < |jobs| ==>
             after[i].id == jobs[i].id && Writes(after[i]) == Writes(jobs[i])
             && after[i].destination == jobs[i].destination;
    forall i, j | 0 <= i < |after| && 0 <= j < |after| && i != j
      ensures Compatible(after[i], after[j])
    {
      assert Compatible(jobs[i], jobs[j]);
    }
  }

  /** However requests follow one another, a collision-free store stays collision-free. */
  lemma {:induction false} GroupsStayIsolated(jobs: seq<Job>, rs: seq<Request>)
    requires Isolated(jobs)
    ensures Isolated(HandleAll(jobs, rs))
    decreases |rs|
  {
    if rs != [] {
      var r := rs[|rs| - 1];
      var now := HandleAll(jobs, rs[..|rs| - 1]);
      GroupsStayIsolated(jobs, rs[..|rs| - 1]);
      if r.Save? {
        if r.job.destination.Folder? { FolderAdmissible(r.job, now); }
        if Admissible(r.job, now) { UpsertIsolated(now, r.job); }
      } else if r.Delete? {
        WithoutIsolated(now, r.id);
      } else {
        RanIsolated(now, r.id, r.time, r.status);
      }
    }
  }

  // ---------------------------------------------------------------- two saves at once

  lemma UpsertAt(jobs: seq<Job>, job: Job) returns (k: nat)
    requires UniqueIds(jobs)
    ensures k < |Upsert(jobs, job)| && Upsert(jobs, job)[k] == job && UniqueIds(Upsert(jobs, job))
    ensures forall i :: 0 <= i < |Upsert(jobs, job)| && i != k ==>
              i < |jobs| && Upsert(jobs, job)[i] == jobs[i] && jobs[i].id != job.id
  {
    k := Find(jobs, job.id);
  }

  /**
   * Two saves that were both accepted against the same list, before either was stored, keep the
   * store collision-free exactly when they are the same job or do not collide with each other.
   */
  lemma RacingSaves(jobs: seq<Job>, a: Job, b: Job)
    requires Isolated(jobs) && Admissible(a, jobs) && Admissible(b, jobs)
    ensures Isolated(Upsert(Upsert(jobs, a), b)) <==> a.id == b.id || Compatible(a, b)
  {
    UpsertIsolated(jobs, a);
    var one := Upsert(jobs, a);
    var k := UpsertAt(jobs, a);
    var two := Upsert(one, b);
    var m := UpsertAt(one, b);
    if a.id == b.id || Compatible(a, b) {
      forall i | 0 <= i < |one| && one[i].id != b.id
        ensures Compatible(b, one[i])
      {
        if i == k { CompatibleBothWays(a, b); } else { assert Compatible(b, jobs[i]); }
      }
      UpsertIsolated(one, b);
    } else {
      assert two[m] == b && k < |two| && k != m && two[k] == a;
    }
  }

  /** Names that differ may share a group: spaces and underscores slug alike. */
  lemma SlugsCollide(backupId: string)
    ensures FullGroup(backupId, "My DB") == FullGroup(backupId, "my_db")
    ensures FullGroup(backupId, "sales-log") == LogGroup(backupId, "sales")
  {
    assert Sanitize("My DB") == "my_db" == Sanitize("my_db");
    assert Sanitize("sales-log") == "sales-log" && Sanitize("sales") == "sales";
    assert FullGroup(backupId, "sales-log") == backupId + "-" + "sales-log";
  }
}
