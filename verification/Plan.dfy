/** What one machine does with one database on one run. */
module Plan {
  datatype PlanKind = PointInTime | RestorePoints | SecondaryCopy

  datatype RunKind = FullRun | LogRun

  datatype Role = Standalone | Primary | Secondary

  /** What SQL Server reports about a database on this instance. */
  datatype DbState = DbState(role: Role, preferred: bool, simpleRecovery: bool, readOnly: bool, logChain: bool)

  datatype SkipReason = NotPreferred | FullOnPrimary | SimpleRecovery | ReadOnly

  datatype Note = NoNote | Promoted | FirstFull

  datatype Action = Backup(log: bool, copyOnly: bool, note: Note) | Skip(why: SkipReason)

  /**
   * A secondary takes fulls only copy-only and never under a point-in-time plan; a log needs a point-in-time
   * log run on the preferred replica, and off a secondary a chain and a full of this machine; a plan without
   * logs backs up exactly on the preferred replica, and never disturbs another tool's chain when it must not;
   * a point-in-time log run off a secondary without both chain and full takes a normal full, preferred or not;
   * a point-in-time full run backs up exactly off a secondary; and a skip always gives a reason that applies.
   */
  function Decide(plan: PlanKind, run: RunKind, s: DbState, localFull: bool): (r: Action)
    ensures r.Backup? && !r.log && s.role.Secondary? ==> r.copyOnly && !plan.PointInTime?
    ensures r.Backup? && r.log ==>
              && plan.PointInTime? && run.LogRun? && !r.copyOnly && s.preferred && !s.simpleRecovery && !s.readOnly
              && (!s.role.Secondary? ==> s.logChain && localFull)
    ensures !plan.PointInTime? ==> (r.Backup? <==> s.preferred)
    ensures plan.SecondaryCopy? && r.Backup? ==> r.copyOnly
    ensures (plan.PointInTime? && run.LogRun? && !s.simpleRecovery && !s.readOnly && !s.role.Secondary?
             && !(s.logChain && localFull)) ==> r.Backup? && !r.log && !r.copyOnly
    ensures plan.PointInTime? && run.FullRun? ==>
              if s.role.Secondary? then r == Skip(FullOnPrimary) else r.Backup? && !r.log && !r.copyOnly
    ensures r.Skip? ==>
              match r.why
              case NotPreferred => !s.preferred
              case FullOnPrimary => s.role.Secondary? && plan.PointInTime? && run.FullRun?
              case SimpleRecovery => s.simpleRecovery && plan.PointInTime? && run.LogRun?
              case ReadOnly => s.readOnly && plan.PointInTime? && run.LogRun?
  {
    match plan
    case PointInTime =>
      if run.FullRun? then
        (if s.role.Secondary? then Skip(FullOnPrimary) else Backup(false, false, NoNote))
      else if s.simpleRecovery then Skip(SimpleRecovery)
      else if s.readOnly then Skip(ReadOnly)
      else if !s.role.Secondary? && !s.logChain then Backup(false, false, Promoted)
      else if !s.role.Secondary? && !localFull then Backup(false, false, FirstFull)
      else if !s.preferred then Skip(NotPreferred)
      else Backup(true, false, NoNote)
    case _ =>
      if !s.preferred then Skip(NotPreferred)
      else Backup(false, plan.SecondaryCopy? || s.role.Secondary?, NoNote)
  }
}
