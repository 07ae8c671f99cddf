/** The backup control plane: jobs, run rows, run goroutines, the restart sweep and the recovery
    kits of encrypted jobs, as one state machine. Tables survive a crash, memory does not. */
module BackupPlane {
  import opened Wrappers

  /** The password and salt of a job: none, or those of one recovery kit. */
  datatype Keys = NoKeys | Kit(session: nat)

  /** A job's settings; `other` stands for the fields no rule below looks at. */
  datatype Settings = Settings(name: string, drive: bool, encrypt: bool, account: Option<nat>, folder: string,
                               keys: Keys, other: nat)

  /** A create or update request. */
  datatype Request = Request(name: string, drive: bool, encrypt: bool, account: Option<nat>, folder: string,
                             other: nat, session: nat, confirmed: bool)

  datatype Status = Running | Completed | Failed

  datatype Row = Row(config: nat, status: Status)

  /** `configs` deletes cascade to `rows`; ids are never used twice. */
  datatype Tables = Tables(configs: map<nat, Settings>, rows: map<nat, Row>, nextConfig: nat, nextRun: nat)

  /** A run goroutine: before its terminal write, after it, after `runWG.Done`. */
  datatype Stage = Working | Written | Counted

  /** `ResumeActiveRuns`: not yet begun, its list still to visit, one config read, finished. */
  datatype Resume =
    | Unread
    | Visiting(todo: seq<Found>)
    | Holding(run: nat, config: nat, settings: Settings, todo: seq<Found>)
    | Done

  datatype Found = Found(run: nat, config: nat)

  /** A handler holding `configMu` between the row insert and `startRun`. */
  datatype Starting = NoStart | Inserted(run: nat, config: nat, settings: Settings)

  datatype Offer = Offer(account: nat, folder: string)

  datatype Memory = Memory(threads: map<nat, Stage>, owned: set<nat>, waiting: int, live: set<nat>,
                           draining: bool, starting: Starting, resume: Resume, sessions: map<nat, Offer>)

  /** A run goroutine began, with these settings. */
  datatype Start = Start(run: nat, config: nat, settings: Settings)

  /** `starts` and `saves` only remember what happened; `nextSession` makes session ids fresh. */
  datatype Plane = Plane(db: Tables, mem: Memory, starts: seq<Start>, saves: set<(nat, nat)>, nextSession: nat)

  datatype Action =
    | Create(req: Request, known: bool)
    | Update(config: nat, req: Request, known: bool)
    | Delete(config: nat)
    | Purge(config: nat)
    | Prepare(offer: Offer)
    | Expire(session: nat)
    | Insert(config: nat)
    | Launch
    | Refuse
    | Progress(run: nat)
    | Finish(run: nat, ok: bool)
    | CountDown(run: nat)
    | Release(run: nat)
    | Drain
    | Crash
    | ResumeList(found: seq<Found>)
    | ResumeGivesUp
    | ResumeNext
    | ResumeStart

  const FRESH: Memory := Memory(map[], {}, 0, {}, false, NoStart, Unread, map[])

  // ---- saving a job ----

  /** The rule of `validateBackupConfig` on Drive fields. */
  predicate Accepted(req: Request) {
    if req.drive then req.account.Some? else !req.encrypt && req.account.None?
  }

  predicate HasRun(db: Tables, config: nat) { exists r | r in db.rows :: db.rows[r].config == config }

  predicate IsActive(db: Tables, config: nat) {
    exists r | r in db.rows :: db.rows[r].config == config && db.rows[r].status.Running?
  }

  /** Another job has the name. */
  predicate IsTaken(db: Tables, name: string, config: nat) {
    exists c | c in db.configs :: c != config && db.configs[c].name == name
  }

  /** `driveFields`: the keys to store, or a refusal. `known`: the account row exists. */
  function DriveFields(req: Request, was: Option<Settings>, hasRun: bool,
                       sessions: map<nat, Offer>, known: bool): Option<Keys>
  {
    if !req.drive then if was.Some? && was.value.encrypt then None else Some(NoKeys)
    else if req.account.None? || !known then None
    else if was.Some? && hasRun && req.encrypt != was.value.encrypt then None
    else if !req.encrypt then Some(NoKeys)
    else if was.Some? && was.value.encrypt then
      if was.value.account != req.account || was.value.folder != req.folder then None else Some(was.value.keys)
    else if req.session in sessions && sessions[req.session] == Offer(req.account.value, req.folder) && req.confirmed
    then Some(Kit(req.session))
    else None
  }

  function Saved(req: Request, keys: Keys): Settings {
    Settings(req.name, req.drive, req.encrypt, req.account, req.folder, keys, req.other)
  }

  /** The job is stored and the session consumed. */
  function Save(s: Plane, config: nat, req: Request, keys: Keys, next: nat): Plane {
    s.(db := s.db.(configs := s.db.configs[config := Saved(req, keys)], nextConfig := next),
       mem := s.mem.(sessions := s.mem.sessions - {req.session}),
       saves := if keys.Kit? then s.saves + {(keys.session, config)} else s.saves)
  }

  function Drop(db: Tables, config: nat): Tables {
    db.(configs := db.configs - {config},
        rows := map r | r in db.rows && db.rows[r].config != config :: db.rows[r])
  }

  // ---- runs ----

  /** A status write; it has no guard, but a row that is gone stays gone. */
  function Close(db: Tables, run: nat, status: Status): Tables {
    if run in db.rows then db.(rows := db.rows[run := db.rows[run].(status := status)]) else db
  }

  /** `startRun` past its checks. */
  function Spawn(s: Plane, run: nat, config: nat, settings: Settings): Plane {
    s.(mem := s.mem.(threads := s.mem.threads[run := Working], owned := s.mem.owned + {run},
                     waiting := s.mem.waiting + 1),
       starts := s.starts + [Start(run, config, settings)])
  }

  predicate IsUnlocked(s: Plane) { s.mem.starting.NoStart? }

  predicate IsAt(s: Plane, run: nat, stage: Stage) { run in s.mem.threads && s.mem.threads[run] == stage }

  /** The running rows, each once, in some order. */
  predicate ListsRunning(db: Tables, found: seq<Found>) {
    && (forall i | 0 <= i < |found| ::
          found[i].run in db.rows && db.rows[found[i].run] == Row(found[i].config, Running))
    && (forall r | r in db.rows && db.rows[r].status.Running? :: Found(r, db.rows[r].config) in found)
    && (forall i, j | 0 <= i < j < |found| :: found[i].run != found[j].run)
  }

  /** A request that is refused, or whose turn it is not, changes nothing. */
  function Apply(s: Plane, a: Action): Plane {
    match a
    case Create(req, known) =>
      var keys := DriveFields(req, None, false, s.mem.sessions, known);
      if IsUnlocked(s) && Accepted(req) && keys.Some? && !IsTaken(s.db, req.name, s.db.nextConfig)
      then Save(s, s.db.nextConfig, req, keys.value, s.db.nextConfig + 1) else s
    case Update(config, req, known) =>
      if IsUnlocked(s) && Accepted(req) && config in s.db.configs && !IsActive(s.db, config) then
        var keys := DriveFields(req, Some(s.db.configs[config]), HasRun(s.db, config), s.mem.sessions, known);
        if keys.Some? && !IsTaken(s.db, req.name, config) then Save(s, config, req, keys.value, s.db.nextConfig) else s
      else s
    case Delete(config) => if IsUnlocked(s) && !IsActive(s.db, config) then s.(db := Drop(s.db, config)) else s
    case Purge(config) => if IsUnlocked(s) then s.(db := Drop(s.db, config)) else s
    case Prepare(offer) =>
      s.(mem := s.mem.(sessions := s.mem.sessions[s.nextSession := offer]), nextSession := s.nextSession + 1)
    case Expire(session) => s.(mem := s.mem.(sessions := s.mem.sessions - {session}))
    case Insert(config) =>
      if IsUnlocked(s) && s.mem.resume.Done? && config in s.db.configs && !IsActive(s.db, config) then
        s.(db := s.db.(rows := s.db.rows[s.db.nextRun := Row(config, Running)], nextRun := s.db.nextRun + 1),
           mem := s.mem.(starting := Inserted(s.db.nextRun, config, s.db.configs[config])))
      else s
    case Launch =>
      if IsUnlocked(s) then s
      else
        var run, free := s.mem.starting.run, s.(mem := s.mem.(starting := NoStart));
        if s.mem.draining || run in s.mem.owned then free.(db := Close(s.db, run, Failed))
        else Spawn(free, run, s.mem.starting.config, s.mem.starting.settings)
    case Refuse =>
      if IsUnlocked(s) then s
      else s.(db := Close(s.db, s.mem.starting.run, Failed), mem := s.mem.(starting := NoStart))
    case Progress(run) =>
      if IsAt(s, run, Working) then s.(mem := s.mem.(live := s.mem.live + {run})) else s
    case Finish(run, ok) =>
      if IsAt(s, run, Working) then
        s.(db := Close(s.db, run, if ok then Completed else Failed),
           mem := s.mem.(threads := s.mem.threads[run := Written]))
      else s
    case CountDown(run) =>
      if IsAt(s, run, Written) then
        s.(mem := s.mem.(threads := s.mem.threads[run := Counted], waiting := s.mem.waiting - 1))
      else s
    case Release(run) =>
      if IsAt(s, run, Counted) then
        s.(mem := s.mem.(threads := s.mem.threads - {run}, owned := s.mem.owned - {run}, live := s.mem.live - {run}))
      else s
    case Drain => s.(mem := s.mem.(draining := true))
    case Crash => s.(mem := FRESH)
    case ResumeList(found) =>
      if s.mem.resume.Unread? && ListsRunning(s.db, found)
      then s.(mem := s.mem.(resume := Left(found))) else s
    case ResumeGivesUp => if s.mem.resume.Unread? then s.(mem := s.mem.(resume := Done)) else s
    case ResumeNext =>
      if !s.mem.resume.Visiting? || s.mem.resume.todo == [] then s
      else
        var f, rest := s.mem.resume.todo[0], s.mem.resume.todo[1..];
        if f.config in s.db.configs
        then s.(mem := s.mem.(resume := Holding(f.run, f.config, s.db.configs[f.config], rest)))
        else s.(db := Close(s.db, f.run, Failed), mem := s.mem.(resume := Left(rest)))
    case ResumeStart =>
      if !s.mem.resume.Holding? then s
      else
        var h, free := s.mem.resume, s.(mem := s.mem.(resume := Left(s.mem.resume.todo)));
        if h.run in s.mem.owned then free else Spawn(free, h.run, h.config, h.settings)
  }

  function Left(todo: seq<Found>): Resume { if todo == [] then Done else Visiting(todo) }

  function Run(s: Plane, acts: seq<Action>): Plane
    decreases acts
  {
    if acts == [] then s else Run(Apply(s, acts[0]), acts[1..])
  }

  lemma {:induction false} RunAppend(s: Plane, a: seq<Action>, b: seq<Action>)
    ensures Run(s, a + b) == Run(Run(s, a), b)
    decreases a
  {
    if a == [] {
      assert a + b == b;
    } else {
      RunAppend(Apply(s, a[0]), a[1..], b);
      assert (a + b)[1..] == a[1..] + b;
    }
  }

  lemma RunSnoc(s: Plane, acts: seq<Action>, a: Action)
    ensures Run(s, acts + [a]) == Apply(Run(s, acts), a)
  {
    RunAppend(s, acts, [a]);
    assert [a][1..] == [] && Run(Run(s, acts), [a]) == Run(Apply(Run(s, acts), a), []);
  }
}
