/** The control plane from an empty database: what holds after any sequence of requests, runs,
    drains, sweeps and crashes. */
module BackupSafety {
  import opened BackupPlane
  import opened BackupRuns
  import opened BackupDrain
  import opened BackupIdentity

  const EMPTY: Plane := Plane(Tables(map[], map[], 0, 0), FRESH, [], {}, 0)

  lemma EveryReachableState(acts: seq<Action>)
    ensures var t := Run(EMPTY, acts);
            && OneRunning(t.db) && NamesOk(t.db) && (NeverGivesUp(acts) ==> AllAttended(t))
            && StartsAgree(t.starts) && KinStarts(t.starts)
            && t.mem.live <= t.mem.owned && 0 <= t.mem.waiting <= |t.mem.owned|
            && (forall p, q | p in t.saves && q in t.saves && p.0 == q.0 :: p.1 == q.1)
  {
    assert Busy(EMPTY.mem) == {};
    RowsFinishOnce(EMPTY, acts, 0);
    ResumedRunsKeepSettings(EMPTY, acts);
    if NeverGivesUp(acts) { AttendedRun(EMPTY, acts); }
    EncryptedJobsKeepIdentity(EMPTY, acts);
    CountersAgree(EMPTY, acts);
    KitsReachOneJob(EMPTY, acts);
    NamesStayUnique(EMPTY, acts);
  }
}
