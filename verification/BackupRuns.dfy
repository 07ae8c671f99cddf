/** The life of run rows and run goroutines over every run of the control plane. */
module BackupRuns {
  import opened BackupPlane
  import opened Wrappers

  predicate OneRunning(db: Tables) {
    forall q, r | q in db.rows && r in db.rows && q != r && db.rows[q].config == db.rows[r].config ::
      !(db.rows[q].status.Running? && db.rows[r].status.Running?)
  }

  predicate TablesOk(db: Tables) {
    && (forall c | c in db.configs :: c < db.nextConfig)
    && (forall r | r in db.rows :: r < db.nextRun && db.rows[r].config in db.configs)
    && OneRunning(db)
  }

  /** Row `run` of `config` is still running, or went with its purged job. */
  predicate Alive(db: Tables, run: nat, config: nat) {
    && run < db.nextRun && config < db.nextConfig
    && (run in db.rows ==> db.rows[run] == Row(config, Running))
    && (config in db.configs ==> run in db.rows)
  }

  predicate ThreadsOk(s: Plane) {
    && s.mem.owned == s.mem.threads.Keys && s.mem.live <= s.mem.owned
    && (forall r | r in s.mem.threads :: r < s.db.nextRun)
    && (forall r | r in s.mem.threads && s.mem.threads[r].Working? && r in s.db.rows :: s.db.rows[r].status.Running?)
  }

  predicate StartingOk(s: Plane) {
    s.mem.starting.Inserted? ==>
      var i := s.mem.starting;
      && s.mem.resume.Done? && i.run !in s.mem.threads
      && i.run in s.db.rows && s.db.rows[i.run] == Row(i.config, Running)
      && i.config in s.db.configs && s.db.configs[i.config] == i.settings
  }

  predicate TodoOk(s: Plane, todo: seq<Found>) {
    && (forall i | 0 <= i < |todo| :: Alive(s.db, todo[i].run, todo[i].config) && todo[i].run !in s.mem.threads)
    && (forall i, j | 0 <= i < j < |todo| :: todo[i].run != todo[j].run)
  }

  predicate ResumeOk(s: Plane) {
    match s.mem.resume
    case Unread => s.mem.threads == map[]
    case Visiting(todo) => TodoOk(s, todo)
    case Holding(run, config, settings, todo) =>
      && TodoOk(s, todo) && Alive(s.db, run, config) && run !in s.mem.threads
      && (forall i | 0 <= i < |todo| :: todo[i].run != run)
      && (config in s.db.configs ==> s.db.configs[config] == settings)
    case Done => true
  }

  predicate Inv(s: Plane) { TablesOk(s.db) && ThreadsOk(s) && StartingOk(s) && ResumeOk(s) }

  // ---- one action ----

  predicate IsRequest(a: Action) { a.Create? || a.Update? || a.Delete? || a.Purge? || a.Insert? }

  predicate IsStart(a: Action) { a.Launch? || a.Refuse? || a.ResumeStart? }

  lemma TablesStep(s: Plane, a: Action)
    requires Inv(s)
    ensures TablesOk(Apply(s, a).db)
  {
    if IsRequest(a) { TablesRequest(s, a); }
  }

  lemma TablesRequest(s: Plane, a: Action)
    requires Inv(s) && IsRequest(a)
    ensures TablesOk(Apply(s, a).db)
  {}

  lemma ThreadsStep(s: Plane, a: Action)
    requires Inv(s)
    ensures ThreadsOk(Apply(s, a))
  {
    if IsRequest(a) || IsStart(a) { ThreadsRequest(s, a); }
  }

  lemma ThreadsRequest(s: Plane, a: Action)
    requires Inv(s) && (IsRequest(a) || IsStart(a))
    ensures ThreadsOk(Apply(s, a))
  {}

  lemma StartingStep(s: Plane, a: Action)
    requires Inv(s)
    ensures StartingOk(Apply(s, a))
  {}

  lemma ResumeStep(s: Plane, a: Action)
    requires Inv(s)
    ensures ResumeOk(Apply(s, a))
  {
    if IsRequest(a) { ResumeRequest(s, a); }
    else if IsStart(a) { ResumeSpawn(s, a); }
    else if a.ResumeNext? { ResumeVisit(s); }
  }

  lemma ResumeVisit(s: Plane)
    requires Inv(s)
    ensures ResumeOk(Apply(s, ResumeNext))
  {
    if s.mem.resume.Visiting? && s.mem.resume.todo != [] {
      var todo := s.mem.resume.todo;
      TodoTail(s, todo);
      if todo[0].config !in s.db.configs { GoneTogether(s, todo[0]); }
    }
  }

  lemma TodoTail(s: Plane, todo: seq<Found>)
    requires TodoOk(s, todo) && todo != []
    ensures TodoOk(s, todo[1..]) && forall i | 0 <= i < |todo[1..]| :: todo[1..][i].run != todo[0].run
  {}

  /** The config of a listed run is missing only if the row went with it: nothing is failed. */
  lemma GoneTogether(s: Plane, f: Found)
    requires TablesOk(s.db) && Alive(s.db, f.run, f.config) && f.config !in s.db.configs
    ensures f.run !in s.db.rows && Close(s.db, f.run, Failed) == s.db
  {}

  lemma ResumeRequest(s: Plane, a: Action)
    requires Inv(s) && IsRequest(a)
    ensures ResumeOk(Apply(s, a))
  {}

  lemma ResumeSpawn(s: Plane, a: Action)
    requires Inv(s) && IsStart(a)
    ensures ResumeOk(Apply(s, a))
  {}

  lemma InvStep(s: Plane, a: Action)
    requires Inv(s)
    ensures Inv(Apply(s, a))
  {
    TablesStep(s, a);
    ThreadsStep(s, a);
    StartingStep(s, a);
    ResumeStep(s, a);
  }

  lemma {:induction false} InvRun(s: Plane, acts: seq<Action>)
    requires Inv(s)
    ensures Inv(Run(s, acts))
    decreases acts
  {
    if acts != [] {
      InvStep(s, acts[0]);
      InvRun(Apply(s, acts[0]), acts[1..]);
    }
  }

  // ---- rows leave running once ----

  /** Row `r` has been used, and is not running now. */
  predicate IsOver(db: Tables, r: nat) { r < db.nextRun && (r in db.rows ==> !db.rows[r].status.Running?) }

  lemma OverStep(s: Plane, a: Action, r: nat)
    requires Inv(s) && IsOver(s.db, r)
    ensures var t := Apply(s, a);
            IsOver(t.db, r) && (r in t.db.rows ==> r in s.db.rows && t.db.rows[r] == s.db.rows[r])
  {}

  /** In every run, restarts included: a job has at most one running row; a row that stopped
      running keeps its verdict for good, and one that was deleted stays deleted. */
  lemma {:induction false} RowsFinishOnce(s: Plane, acts: seq<Action>, r: nat)
    requires Inv(s)
    ensures OneRunning(Run(s, acts).db)
    ensures IsOver(s.db, r) ==>
              var t := Run(s, acts);
              IsOver(t.db, r) && (r in t.db.rows ==> r in s.db.rows && t.db.rows[r] == s.db.rows[r])
    decreases acts
  {
    if acts != [] {
      InvStep(s, acts[0]);
      if IsOver(s.db, r) { OverStep(s, acts[0], r); }
      RowsFinishOnce(Apply(s, acts[0]), acts[1..], r);
    }
  }

  // ---- no row is left running by nobody ----

  predicate Attends(s: Plane, r: nat) {
    || IsAt(s, r, Working)
    || (s.mem.starting.Inserted? && s.mem.starting.run == r)
    || s.mem.resume.Unread?
    || (s.mem.resume.Holding? && s.mem.resume.run == r)
    || (!s.mem.resume.Done? && exists i | 0 <= i < |s.mem.resume.todo| :: s.mem.resume.todo[i].run == r)
  }

  predicate AllAttended(s: Plane) {
    forall r | r in s.db.rows && s.db.rows[r].status.Running? :: Attends(s, r)
  }

  lemma AttendedStep(s: Plane, a: Action)
    requires Inv(s) && AllAttended(s) && !a.ResumeGivesUp?
    ensures AllAttended(Apply(s, a))
  {
    if IsRequest(a) { AttendedRequest(s, a); }
    else if a.ResumeNext? || a.ResumeStart? { AttendedResume(s, a); }
  }

  lemma AttendedResume(s: Plane, a: Action)
    requires Inv(s) && AllAttended(s) && (a.ResumeNext? || a.ResumeStart?)
    ensures AllAttended(Apply(s, a))
  {}

  lemma AttendedRequest(s: Plane, a: Action)
    requires Inv(s) && AllAttended(s) && IsRequest(a)
    ensures AllAttended(Apply(s, a))
  {}

  // ---- a resumed run sees the settings it started with ----

  predicate StartOk(db: Tables, e: Start) {
    && e.run < db.nextRun && e.config < db.nextConfig
    && (e.run in db.rows ==> db.rows[e.run].config == e.config)
    && (e.config in db.configs ==> e.run in db.rows)
    && (e.run in db.rows && db.rows[e.run].status.Running? && e.config in db.configs ==>
          db.configs[e.config] == e.settings)
  }

  predicate StartsAgree(starts: seq<Start>) {
    forall i, j | 0 <= i < j < |starts| && starts[i].run == starts[j].run :: starts[i] == starts[j]
  }

  /** What is about to start agrees with what has started. */
  predicate Announced(s: Plane, e: Start) {
    && (s.mem.starting.Inserted? ==> e.run != s.mem.starting.run)
    && match s.mem.resume
       case Visiting(todo) => forall i | 0 <= i < |todo| && todo[i].run == e.run :: todo[i].config == e.config
       case Holding(run, config, settings, todo) =>
         && (run == e.run ==> e == Start(run, config, settings))
         && forall i | 0 <= i < |todo| && todo[i].run == e.run :: todo[i].config == e.config
       case _ => true
  }

  predicate StartsOk(s: Plane) {
    && (forall i | 0 <= i < |s.starts| :: StartOk(s.db, s.starts[i]) && Announced(s, s.starts[i]))
    && StartsAgree(s.starts)
  }

  lemma StartStep(s: Plane, a: Action, e: Start)
    requires Inv(s) && StartOk(s.db, e) && Announced(s, e)
    ensures StartOk(Apply(s, a).db, e) && Announced(Apply(s, a), e)
  {
    if IsRequest(a) { StartRequest(s, a, e); }
  }

  lemma StartRequest(s: Plane, a: Action, e: Start)
    requires Inv(s) && StartOk(s.db, e) && Announced(s, e) && IsRequest(a)
    ensures StartOk(Apply(s, a).db, e) && Announced(Apply(s, a), e)
  {}

  /** A goroutine begins only by `Launch` or `ResumeStart`, with the settings in the table. */
  lemma StartsGrow(s: Plane, a: Action)
    requires Inv(s) && StartsOk(s)
    ensures var t := Apply(s, a);
            || t.starts == s.starts
            || exists e :: t.starts == s.starts + [e] && StartOk(t.db, e) && Announced(t, e)
                           && forall i | 0 <= i < |s.starts| && s.starts[i].run == e.run :: s.starts[i] == e
  {
    var t := Apply(s, a);
    if t.starts != s.starts {
      var e := t.starts[|s.starts|];
      assert t.starts == s.starts + [e];
    }
  }

  lemma StartsStep(s: Plane, a: Action)
    requires Inv(s) && StartsOk(s)
    ensures StartsOk(Apply(s, a))
  {
    var t := Apply(s, a);
    StartsGrow(s, a);
    forall i | 0 <= i < |s.starts| ensures StartOk(t.db, s.starts[i]) && Announced(t, s.starts[i]) {
      StartStep(s, a, s.starts[i]);
    }
  }

  /** Over every run, a run row that is started again after restarts is started with the very
      settings it had the first time. */
  lemma {:induction false} ResumedRunsKeepSettings(s: Plane, acts: seq<Action>)
    requires Inv(s) && StartsOk(s)
    ensures StartsOk(Run(s, acts))
    decreases acts
  {
    if acts != [] {
      InvStep(s, acts[0]);
      StartsStep(s, acts[0]);
      ResumedRunsKeepSettings(Apply(s, acts[0]), acts[1..]);
    }
  }

  predicate NeverGivesUp(acts: seq<Action>) { forall i | 0 <= i < |acts| :: !acts[i].ResumeGivesUp? }

  lemma {:induction false} AttendedRun(s: Plane, acts: seq<Action>)
    requires Inv(s) && AllAttended(s) && NeverGivesUp(acts)
    ensures AllAttended(Run(s, acts))
    decreases acts
  {
    if acts != [] {
      InvStep(s, acts[0]);
      AttendedStep(s, acts[0]);
      AttendedRun(Apply(s, acts[0]), acts[1..]);
    }
  }

  /** A sweep that gives up because the running rows cannot be listed leaves each of them running
      with nobody to finish it. */
  lemma GivingUpOrphans(s: Plane, r: nat)
    requires r in s.db.rows && s.db.rows[r].status.Running?
    ensures !AllAttended(Run(s, [Crash, ResumeGivesUp]))
  {
    assert [Crash, ResumeGivesUp][1..] == [ResumeGivesUp] && [ResumeGivesUp][1..] == [];
    var t := Apply(Apply(s, Crash), ResumeGivesUp);
    assert Run(s, [Crash, ResumeGivesUp]) == Run(Apply(s, Crash), [ResumeGivesUp]) == t;
    assert !Attends(t, r);
  }

  /** Every running row has a goroutine, a handler or the restart sweep to finish it, in every run,
      exactly when the sweep cannot give up. */
  lemma AttendedIffSweepLists(mayGiveUp: bool)
    ensures (forall s, acts | Inv(s) && AllAttended(s) && (mayGiveUp || NeverGivesUp(acts)) :: AllAttended(Run(s, acts)))
            <==> !mayGiveUp
  {
    if mayGiveUp {
      var job := Settings("", false, false, None, "", NoKeys, 0);
      var s := Plane(Tables(map[0 := job], map[0 := Row(0, Running)], 1, 1), FRESH, [], {}, 0);
      GivingUpOrphans(s, 0);
      assert Inv(s) && AllAttended(s);
    } else {
      forall s, acts | Inv(s) && AllAttended(s) && NeverGivesUp(acts) ensures AllAttended(Run(s, acts)) {
        AttendedRun(s, acts);
      }
    }
  }
}
