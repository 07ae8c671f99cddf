/** The handler as written: tables, ownership map, progress map and recovery sessions changed in
    place. Every endpoint, goroutine section and sweep keeps the joint invariant and is tied to
    the actions of `BackupPlane` it performs. */
module BackupHandler {
  import opened Paths
  import opened Wrappers
  import opened BackupPlane
  import opened BackupRuns
  import opened BackupIdentity
  import opened BackupVerdicts

  /** Job `id` is stored as asked, and no other job changed. */
  predicate IsSaved(was: map<nat, Settings>, now: map<nat, Settings>, id: nat, req: Request) {
    && id in now && AsAsked(now[id], req) && now.Keys == was.Keys + {id}
    && forall c | c in was && c != id :: now[c] == was[c]
  }

  class Handler {
    var configs: map<nat, Settings>
    var rows: map<nat, Row>
    var nextConfig: nat
    var nextRun: nat
    var owned: set<nat>
    var waiting: int
    var live: set<nat>
    var draining: bool
    var sessions: map<nat, Offer>
    ghost var threads: map<nat, Stage>
    ghost var starting: Starting
    ghost var resume: Resume
    ghost var starts: seq<Start>
    ghost var saves: set<(nat, nat)>
    var nextSession: nat            // stands for the random session ids

    ghost function View(): Plane reads this {
      Plane(Tables(configs, rows, nextConfig, nextRun),
            Memory(threads, owned, waiting, live, draining, starting, resume, sessions),
            starts, saves, nextSession)
    }

    ghost predicate Valid() reads this { Inv(View()) }

    /** A daemon that has just started on the tables left behind. */
    constructor (db: Tables, ghost past: seq<Start>, ghost kept: set<(nat, nat)>, session: nat)
      requires TablesOk(db)
      ensures Valid() && View() == Plane(db, FRESH, past, kept, session)
    {
      configs, rows, nextConfig, nextRun := db.configs, db.rows, db.nextConfig, db.nextRun;
      owned, waiting, live, draining, sessions := {}, 0, {}, false, map[];
      threads, starting, resume := map[], NoStart, Unread;
      starts, saves, nextSession := past, kept, session;
    }

    // ---- saving jobs ----

    method SelectActive(id: nat) returns (active: bool)
      ensures active == IsActive(View().db, id)
    {
      active := exists r | r in rows :: rows[r].config == id && rows[r].status.Running?;
    }

    /** The unique index on the name column. */
    method SelectName(name: string, id: nat) returns (taken: bool)
      ensures taken == IsTaken(View().db, name, id)
    {
      taken := exists c | c in configs :: c != id && configs[c].name == name;
    }

    /** `driveFields`. */
    method Fields(req: Request, was: Option<Settings>, hasRun: bool, known: bool) returns (keys: Option<Keys>)
      ensures keys == DriveFields(req, was, hasRun, sessions, known)
    {
      if !req.drive {
        if was.Some? && was.value.encrypt { return None; }
        return Some(NoKeys);
      }
      if req.account.None? || !known { return None; }
      if was.Some? && hasRun && req.encrypt != was.value.encrypt { return None; }
      if !req.encrypt { return Some(NoKeys); }
      if was.Some? && was.value.encrypt {
        if was.value.account != req.account || was.value.folder != req.folder { return None; }
        return Some(was.value.keys);
      }
      if req.session !in sessions { return None; }
      var offer := sessions[req.session];
      if offer.account != req.account.value || offer.folder != req.folder || !req.confirmed { return None; }
      return Some(Kit(req.session));
    }

    method CreateConfig(req: Request, known: bool) returns (ok: bool)
      requires Valid() && starting.NoStart?
      modifies this
      ensures Valid() && View() == Apply(old(View()), Create(req, known))
      ensures nextConfig == old(nextConfig) + if ok then 1 else 0
      ensures if ok then IsSaved(old(configs), configs, old(nextConfig), req) else View() == old(View())
      ensures ok <==> && Accepted(req) && MayHold(req, None, false, old(sessions), known)
                      && forall c | c in old(configs) :: old(configs)[c].name != req.name
    {
      InvStep(View(), Create(req, known));
      FieldsGrantedIff(req, None, false, sessions, known);
      ok := SaveNew(req, known);
    }

    method SaveNew(req: Request, known: bool) returns (ok: bool)
      requires starting.NoStart?
      modifies this`configs, this`nextConfig, this`sessions, this`saves
      ensures View() == Apply(old(View()), Create(req, known))
      ensures nextConfig == old(nextConfig) + if ok then 1 else 0
      ensures if ok then IsSaved(old(configs), configs, old(nextConfig), req) else View() == old(View())
      ensures ok <==> && Accepted(req) && DriveFields(req, None, false, old(sessions), known).Some?
                      && !IsTaken(old(View()).db, req.name, old(nextConfig))
    {
      if !Accepted(req) { return false; }
      var keys := Fields(req, None, false, known);
      if keys.None? { return false; }
      var taken := SelectName(req.name, nextConfig);
      if taken { return false; }
      Keep(nextConfig, req, keys.value, nextConfig + 1);
      return true;
    }

    /** The row write and `consumeRecovery`. */
    method Keep(id: nat, req: Request, keys: Keys, next: nat)
      modifies this`configs, this`nextConfig, this`sessions, this`saves
      ensures View() == Save(old(View()), id, req, keys, next) && IsSaved(old(configs), configs, id, req)
    {
      configs, nextConfig := configs[id := Saved(req, keys)], next;
      sessions := sessions - {req.session};
      if keys.Kit? { saves := saves + {(keys.session, id)}; }
    }

    method UpdateConfig(id: nat, req: Request, known: bool) returns (ok: bool)
      requires Valid() && starting.NoStart?
      modifies this
      ensures Valid() && View() == Apply(old(View()), Update(id, req, known))
      ensures if ok then IsSaved(old(configs), configs, id, req) else View() == old(View())
      ensures ok <==> && Accepted(req) && id in old(configs) && !IsActive(old(View()).db, id)
                      && MayHold(req, Some(old(configs)[id]), HasRun(old(View()).db, id), old(sessions), known)
                      && forall c | c in old(configs) && c != id :: old(configs)[c].name != req.name
    {
      InvStep(View(), Update(id, req, known));
      if id in configs { FieldsGrantedIff(req, Some(configs[id]), HasRun(View().db, id), sessions, known); }
      ok := SaveOver(id, req, known);
    }

    method SaveOver(id: nat, req: Request, known: bool) returns (ok: bool)
      requires starting.NoStart?
      modifies this`configs, this`nextConfig, this`sessions, this`saves
      ensures View() == Apply(old(View()), Update(id, req, known))
      ensures if ok then IsSaved(old(configs), configs, id, req) else View() == old(View())
      ensures ok <==> && Accepted(req) && id in old(configs) && !IsActive(old(View()).db, id)
                      && DriveFields(req, Some(old(configs)[id]), HasRun(old(View()).db, id), old(sessions), known).Some?
                      && !IsTaken(old(View()).db, req.name, id)
    {
      if !Accepted(req) || id !in configs { return false; }
      var active := SelectActive(id);
      if active { return false; }
      var hasRun := exists r | r in rows :: rows[r].config == id;
      var keys := Fields(req, Some(configs[id]), hasRun, known);
      if keys.None? { return false; }
      var taken := SelectName(req.name, id);
      if taken { return false; }
      Keep(id, req, keys.value, nextConfig);
      return true;
    }

    method DeleteConfig(id: nat) returns (ok: bool)
      requires Valid() && starting.NoStart?
      modifies this
      ensures Valid() && View() == Apply(old(View()), Delete(id))
      ensures if IsActive(old(View()).db, id) then !ok && View() == old(View())
              else id !in configs && (forall r | r in rows :: rows[r].config != id) && (ok <==> id in old(configs))
      ensures forall c | c in old(configs) && c != id :: c in configs && configs[c] == old(configs)[c]
      ensures forall r | r in old(rows) && old(rows)[r].config != id :: r in rows && rows[r] == old(rows)[r]
    {
      InvStep(View(), Delete(id));
      ok := DropIdle(id);
    }

    method DropIdle(id: nat) returns (ok: bool)
      requires starting.NoStart?
      modifies this`configs, this`rows
      ensures View() == Apply(old(View()), Delete(id))
      ensures if IsActive(old(View()).db, id) then !ok && View() == old(View()) else ok <==> id in old(configs)
    {
      var active := SelectActive(id);
      if active { return false; }
      ok := id in configs;
      Cascade(id);
    }

    /** `DELETE FROM backup_configs`, with the cascade. */
    method Cascade(id: nat)
      modifies this`configs, this`rows
      ensures View().db == Drop(old(View()).db, id)
    {
      configs := configs - {id};
      rows := map r | r in rows && rows[r].config != id :: rows[r];
    }

    /** The recovery endpoint: a kit is offered under a fresh session id, to at most 64 at a time. */
    method PrepareKit(offer: Offer) returns (session: Option<nat>)
      requires Valid()
      modifies this
      ensures session.Some? <==> |old(sessions)| < 64
      ensures Valid() && View() == if session.Some? then Apply(old(View()), Prepare(offer)) else old(View())
      ensures session.Some? ==> session.value in sessions && sessions[session.value] == offer
    {
      if |sessions| >= 64 { return None; }
      InvStep(View(), Prepare(offer));
      session := Some(nextSession);
      sessions, nextSession := sessions[nextSession := offer], nextSession + 1;
    }

    // ---- runs ----

    /** `startRun`: one lock section decides, owns and counts. */
    method StartRun(run: nat, ghost config: nat, settings: Settings, duringDrain: bool) returns (ok: bool)
      modifies this`owned, this`waiting, this`threads, this`starts
      ensures ok == ((duringDrain || !old(draining)) && run !in old(owned))
      ensures View() == if ok then Spawn(old(View()), run, config, settings) else old(View())
    {
      if draining && !duringDrain { return false; }
      if run in owned { return false; }
      owned, waiting := owned + {run}, waiting + 1;
      threads, starts := threads[run := Working], starts + [Start(run, config, settings)];
      return true;
    }

    /** `CompleteBackupRun` and `FailBackupRun`: no guard on the status. */
    method SetStatus(run: nat, status: Status)
      modifies this`rows
      ensures View() == old(View()).(db := Close(old(View()).db, run, status))
    {
      if run in rows { rows := rows[run := rows[run].(status := status)]; }
    }

    /** `CreateBackupRun`, from here the handler is between insert and start. */
    method InsertRun(id: nat) returns (run: Option<nat>)
      requires starting.NoStart? && resume.Done? && id in configs
      modifies this`rows, this`nextRun, this`starting
      ensures View() == Apply(old(View()), Insert(id))
      ensures run.Some? <==> starting.Inserted?
      ensures run.Some? ==> starting == Inserted(run.value, id, configs[id])
      ensures run.None? <==> IsActive(old(View()).db, id)
    {
      var active := SelectActive(id);
      if active { return None; }
      run := Some(nextRun);
      rows, nextRun := rows[nextRun := Row(id, Running)], nextRun + 1;
      starting := Inserted(run.value, id, configs[id]);
    }

    /** The handler's start of the row it inserted, or the row's failure. */
    method LaunchRun(run: nat, settings: Settings) returns (ok: bool)
      requires starting.Inserted? && starting.run == run && starting.settings == settings
      modifies this`rows, this`owned, this`waiting, this`threads, this`starts, this`starting
      ensures View() == Apply(old(View()), Launch) && starting.NoStart?
      ensures ok == (!old(draining) && run !in old(owned))
    {
      ghost var config := starting.config;
      starting := NoStart;
      ok := StartRun(run, config, settings, false);
      if !ok { SetStatus(run, Failed); }
    }

    /** `runBackup`, with `drains` telling whether a shutdown begins between its first check and
        the start. It starts a run exactly when there is no shutdown, the job exists and is idle,
        and the delete guard lets it; a row that was inserted and not started is failed. */
    method RunBackup(id: nat, guard: bool, drains: bool) returns (ok: bool)
      requires Valid() && starting.NoStart? && resume.Done?
      modifies this
      ensures Valid() && starting.NoStart?
      ensures ok <==> Runnable(old(View()), id, guard) && !drains
      ensures View() == if Runnable(old(View()), id, guard)
                        then Apply(Meanwhile(Apply(old(View()), Insert(id)), drains), Launch) else old(View())
    {
      ghost var s := View();
      UnusedId(s);
      InvStep(s, Insert(id));
      InvStep(Apply(s, Insert(id)), Drain);
      InvStep(Meanwhile(Apply(s, Insert(id)), drains), Launch);
      ok := InsertAndLaunch(id, guard, drains);
    }

    method InsertAndLaunch(id: nat, guard: bool, drains: bool) returns (ok: bool)
      requires starting.NoStart? && resume.Done? && nextRun !in owned
      modifies this
      ensures starting.NoStart?
      ensures ok <==> Runnable(old(View()), id, guard) && !drains
      ensures View() == if Runnable(old(View()), id, guard)
                        then Apply(Meanwhile(Apply(old(View()), Insert(id)), drains), Launch) else old(View())
    {
      if draining || id !in configs || !guard { return false; }
      var settings := configs[id];
      var run := InsertRun(id);
      if run.None? { return false; }
      ok := LaunchAfter(run.value, settings, drains);
    }

    method LaunchAfter(run: nat, settings: Settings, drains: bool) returns (ok: bool)
      requires starting.Inserted? && starting.run == run && starting.settings == settings
      modifies this`rows, this`owned, this`waiting, this`threads, this`starts, this`starting, this`draining
      ensures View() == Apply(Meanwhile(old(View()), drains), Launch) && starting.NoStart?
      ensures ok == (!old(draining) && !drains && run !in old(owned))
    {
      if drains { SetDraining(); }
      ok := LaunchRun(run, settings);
    }

    /** The scheduler's start of a due job: it inserts first, and the guard's refusal or a shutdown
        fails the row. */
    method RunScheduled(id: nat, guard: bool, drains: bool) returns (ok: bool)
      requires Valid() && starting.NoStart? && resume.Done?
      modifies this
      ensures Valid() && starting.NoStart?
      ensures View() == Scheduled(old(View()), id, guard, drains)
    {
      ghost var s := View();
      InvStep(s, Insert(id));
      InvStep(Apply(s, Insert(id)), Refuse);
      InvStep(Apply(s, Insert(id)), Drain);
      InvStep(Meanwhile(Apply(s, Insert(id)), drains), Launch);
      ok := InsertThenGuard(id, guard, drains);
    }

    method InsertThenGuard(id: nat, guard: bool, drains: bool) returns (ok: bool)
      requires starting.NoStart? && resume.Done?
      modifies this
      ensures starting.NoStart? && View() == Scheduled(old(View()), id, guard, drains)
    {
      if id !in configs { return false; }
      var settings := configs[id];
      var run := InsertRun(id);
      if run.None? { return false; }
      if guard {
        ok := LaunchAfter(run.value, settings, drains);
      } else {
        RefuseRun(run.value);
        ok := false;
      }
    }

    method RefuseRun(run: nat)
      requires starting.Inserted? && starting.run == run
      modifies this`rows, this`starting
      ensures View() == Apply(old(View()), Refuse) && starting.NoStart?
    {
      starting := NoStart;
      SetStatus(run, Failed);
    }

    method SetDraining()
      modifies this`draining
      ensures View() == Apply(old(View()), Drain)
    {
      draining := true;
    }

    method BeginShutdown()
      requires Valid()
      modifies this
      ensures Valid() && View() == Apply(old(View()), Drain)
    {
      InvStep(View(), Drain);
      SetDraining();
    }

    // ---- the run goroutine ----

    method SetLiveProgress(run: nat)
      requires Valid() && IsAt(View(), run, Working)
      modifies this
      ensures Valid() && View() == Apply(old(View()), Progress(run)) && live == old(live) + {run}
    {
      InvStep(View(), Progress(run));
      live := live + {run};
    }

    /** Its terminal write: the row, if it is still there, says how the run went. */
    method Conclude(run: nat, ok: bool)
      requires Valid() && IsAt(View(), run, Working)
      modifies this
      ensures Valid() && View() == Apply(old(View()), Finish(run, ok))
      ensures rows.Keys == old(rows).Keys && forall r | r in rows && r != run :: rows[r] == old(rows)[r]
      ensures run in rows ==> rows[run] == Row(old(rows)[run].config, if ok then Completed else Failed)
    {
      InvStep(View(), Finish(run, ok));
      WriteTerminal(run, ok);
    }

    method WriteTerminal(run: nat, ok: bool)
      requires IsAt(View(), run, Working)
      modifies this`rows, this`threads
      ensures View() == Apply(old(View()), Finish(run, ok))
      ensures rows.Keys == old(rows).Keys && forall r | r in rows && r != run :: rows[r] == old(rows)[r]
      ensures run in rows ==> rows[run] == Row(old(rows)[run].config, if ok then Completed else Failed)
    {
      SetStatus(run, if ok then Completed else Failed);
      threads := threads[run := Written];
    }

    /** Its deferred exit: `runWG.Done` comes first, the maps are released after. */
    method Leave(run: nat)
      requires Valid() && IsAt(View(), run, Written)
      modifies this
      ensures Valid() && View() == Apply(Apply(old(View()), CountDown(run)), Release(run))
    {
      InvStep(View(), CountDown(run));
      InvStep(Apply(View(), CountDown(run)), Release(run));
      WaitDone(run);
      ReleaseRun(run);
    }

    method WaitDone(run: nat)
      requires IsAt(View(), run, Written)
      modifies this`waiting, this`threads
      ensures View() == Apply(old(View()), CountDown(run)) && IsAt(View(), run, Counted)
    {
      waiting, threads := waiting - 1, threads[run := Counted];
    }

    method ReleaseRun(run: nat)
      requires IsAt(View(), run, Counted)
      modifies this`owned, this`live, this`threads
      ensures View() == Apply(old(View()), Release(run))
    {
      owned, live, threads := owned - {run}, live - {run}, threads - {run};
    }

    // ---- restart and purge ----

    /** `ListActiveBackupRuns`. */
    method ListActive() returns (found: seq<Found>)
      ensures ListsRunning(View().db, found)
    {
      found := [];
      var left := rows.Keys;
      while left != {}
        invariant left <= rows.Keys
        invariant forall i | 0 <= i < |found| ::
                    found[i].run in rows && found[i].run !in left && rows[found[i].run] == Row(found[i].config, Running)
        invariant forall r | r in rows && r !in left && rows[r].status.Running? :: Found(r, rows[r].config) in found
        invariant forall i, j | 0 <= i < j < |found| :: found[i].run != found[j].run
        decreases left
      {
        var r :| r in left;
        left := left - {r};
        if rows[r].status.Running? { found := found + [Found(r, rows[r].config)]; }
      }
    }

    /** `ResumeActiveRuns`, once after start-up: the protocol's sweep over the running rows, or
        nothing if they cannot be listed. */
    method ResumeActiveRuns(listable: bool) returns (found: seq<Found>)
      requires Valid() && resume.Unread?
      modifies this
      ensures Valid() && (listable ==> ListsRunning(old(View()).db, found))
      ensures View() == if listable then Run(old(View()), SweepActs(found)) else Apply(old(View()), ResumeGivesUp)
    {
      ghost var s := View();
      if !listable {
        InvStep(s, ResumeGivesUp);
        resume := Done;
        return [];
      }
      found := VisitRunning();
      SweepIsRun(s, found);
      InvRun(s, SweepActs(found));
    }

    method VisitRunning() returns (found: seq<Found>)
      modifies this`rows, this`owned, this`waiting, this`threads, this`starts, this`resume
      ensures ListsRunning(old(View()).db, found)
      ensures View() == Idle(ResumeEach(old(View()), found))
    {
      found := ListActive();
      ghost var goal := ResumeEach(View(), found);
      for i := 0 to |found|
        invariant ResumeEach(View(), found[i..]) == goal
      {
        assert found[i..][1..] == found[i + 1..];
        ResumeOne(found[i]);
      }
      resume := Done;
    }

    /** One listed run: a missing job fails its row, otherwise it is started even while draining. */
    method ResumeOne(f: Found)
      modifies this`rows, this`owned, this`waiting, this`threads, this`starts
      ensures View() == Resumed(old(View()), f)
    {
      if f.config !in configs {
        SetStatus(f.run, Failed);
      } else {
        var ok := StartRun(f.run, f.config, configs[f.config], true);
      }
    }

    /** `PurgeBackupsUnderPath` over the jobs listed: those whose local path is the mountpoint or
        below it are dropped in order, up to the first delete that fails. */
    method Purge(listed: seq<nat>, localPath: nat -> string, mount: string) returns (hits: seq<nat>, ok: bool)
      requires Valid() && starting.NoStart?
      modifies this
      ensures Valid() && View() == Run(old(View()), Purges(hits))
      ensures forall id :: id in hits ==> id in listed && IsUnder(localPath, mount, id)
      ensures ok ==> forall id :: id in hits <==> id in listed && IsUnder(localPath, mount, id)
    {
      ghost var s := View();
      hits, ok := DropUnder(listed, localPath, mount);
      PurgeIsRun(s, hits);
      InvRun(s, Purges(hits));
    }

    method DropUnder(listed: seq<nat>, localPath: nat -> string, mount: string) returns (hits: seq<nat>, ok: bool)
      modifies this`configs, this`rows
      ensures View() == old(View()).(db := DropEach(old(View()).db, hits))
      ensures forall id :: id in hits ==> id in listed && IsUnder(localPath, mount, id)
      ensures ok ==> forall id :: id in hits <==> id in listed && IsUnder(localPath, mount, id)
    {
      hits := [];
      if mount == "" { return [], true; }
      for i := 0 to |listed|
        invariant View() == old(View()).(db := DropEach(old(View()).db, hits))
        invariant forall id :: id in hits <==> id in listed[..i] && IsUnder(localPath, mount, id)
      {
        var path := localPath(listed[i]);
        if path != mount && !(mount + "/" <= path) { continue; }
        var deleted: bool := *;
        if !deleted { return hits, false; }
        Cascade(listed[i]);
        ghost var before := hits;
        hits := hits + [listed[i]];
        assert hits[..|hits| - 1] == before;
      }
      ok := true;
    }
  }

  /** The job, the guard and the shutdown flag let a run begin. */
  predicate Runnable(s: Plane, id: nat, guard: bool) {
    !s.mem.draining && id in s.db.configs && guard && !IsActive(s.db, id)
  }

  function Scheduled(s: Plane, id: nat, guard: bool, drains: bool): Plane {
    if id !in s.db.configs || IsActive(s.db, id) then s
    else if !guard then Apply(Apply(s, Insert(id)), Refuse)
    else Apply(Meanwhile(Apply(s, Insert(id)), drains), Launch)
  }

  function Meanwhile(s: Plane, drains: bool): Plane { if drains then Apply(s, Drain) else s }

  predicate IsUnder(localPath: nat -> string, mount: string, id: nat) { mount != "" && Under(localPath(id), mount) }

  // ---- the purge ----

  lemma UnusedId(s: Plane)
    requires Inv(s)
    ensures s.db.nextRun !in s.mem.owned
  {}

  function DropEach(db: Tables, ids: seq<nat>): Tables
    decreases ids
  {
    if ids == [] then db else Drop(DropEach(db, ids[..|ids| - 1]), ids[|ids| - 1])
  }

  function Purges(ids: seq<nat>): seq<Action> { seq(|ids|, i requires 0 <= i < |ids| => Action.Purge(ids[i])) }

  lemma {:induction false} PurgeIsRun(s: Plane, ids: seq<nat>)
    requires IsUnlocked(s)
    ensures Run(s, Purges(ids)) == s.(db := DropEach(s.db, ids))
    decreases ids
  {
    if ids != [] {
      var front, last := ids[..|ids| - 1], ids[|ids| - 1];
      PurgeIsRun(s, front);
      RunSnoc(s, Purges(front), Action.Purge(last));
      assert Purges(front) + [Action.Purge(last)] == Purges(ids);
    }
  }

  /** A complete purge takes the jobs under the mountpoint with all their rows, running or not,
      and leaves every other job and row as it was. */
  lemma PurgeTakesExactly(db: Tables, hits: seq<nat>, localPath: nat -> string, mount: string)
    requires Refers(db) && forall id :: id in hits <==> id in db.configs && IsUnder(localPath, mount, id)
    ensures var t := DropEach(db, hits);
            && (forall id :: id in t.configs <==> id in db.configs && !IsUnder(localPath, mount, id))
            && (forall id | id in t.configs :: t.configs[id] == db.configs[id])
            && (forall r :: r in t.rows <==> r in db.rows && !IsUnder(localPath, mount, db.rows[r].config))
            && (forall r | r in t.rows :: t.rows[r] == db.rows[r])
  {
    DropEachAll(db, hits);
  }

  lemma {:induction false} DropEachAll(db: Tables, ids: seq<nat>)
    ensures DropEach(db, ids) == DropAll(db, set id | id in ids)
    decreases ids
  {
    if ids == [] {
      DropNone(db);
      assert (set id | id in ids) == {};
    } else {
      var front, last := ids[..|ids| - 1], ids[|ids| - 1];
      DropEachAll(db, front);
      DropMore(db, (set id | id in front), last);
      assert ids == front + [last];
      assert (set id | id in ids) == (set id | id in front) + {last};
    }
  }

  /** The foreign key from rows to jobs. */
  predicate Refers(db: Tables) { forall r | r in db.rows :: db.rows[r].config in db.configs }

  function DropAll(db: Tables, ids: set<nat>): Tables {
    db.(configs := db.configs - ids, rows := map r | r in db.rows && db.rows[r].config !in ids :: db.rows[r])
  }

  lemma DropNone(db: Tables)
    ensures DropAll(db, {}) == db
  {
    assert DropAll(db, {}).configs == db.configs && DropAll(db, {}).rows == db.rows;
  }

  lemma DropMore(db: Tables, ids: set<nat>, id: nat)
    ensures Drop(DropAll(db, ids), id) == DropAll(db, ids + {id})
  {
    var a, b := Drop(DropAll(db, ids), id), DropAll(db, ids + {id});
    assert a.configs == b.configs && a.rows == b.rows;
  }

  // ---- the restart sweep ----

  function Idle(s: Plane): Plane { s.(mem := s.mem.(resume := Done)) }

  function Resumed(s: Plane, f: Found): Plane {
    if f.config !in s.db.configs then s.(db := Close(s.db, f.run, Failed))
    else if f.run in s.mem.owned then s
    else Spawn(s, f.run, f.config, s.db.configs[f.config])
  }

  function ResumeEach(s: Plane, found: seq<Found>): Plane
    decreases found
  {
    if found == [] then s else ResumeEach(Resumed(s, found[0]), found[1..])
  }

  function Visits(n: nat): seq<Action>
    decreases n
  {
    if n == 0 then [] else [ResumeNext, ResumeStart] + Visits(n - 1)
  }

  function SweepActs(found: seq<Found>): seq<Action> { [ResumeList(found)] + Visits(|found|) }

  function At(s: Plane, resume: Resume): Plane { s.(mem := s.mem.(resume := resume)) }

  /** Each visit is the protocol's two actions. */
  lemma VisitIsTwoActions(s: Plane, todo: seq<Found>)
    requires s.mem.resume == Left(todo) && todo != []
    ensures Apply(Apply(s, ResumeNext), ResumeStart) == At(Resumed(s, todo[0]), Left(todo[1..]))
  {}

  lemma {:induction false} SweepIgnoresStage(s: Plane, resume: Resume, todo: seq<Found>)
    ensures ResumeEach(At(s, resume), todo) == At(ResumeEach(s, todo), resume)
    decreases todo
  {
    if todo != [] {
      assert Resumed(At(s, resume), todo[0]) == At(Resumed(s, todo[0]), resume);
      SweepIgnoresStage(Resumed(s, todo[0]), resume, todo[1..]);
    }
  }

  lemma {:induction false} VisitsAreRun(s: Plane, todo: seq<Found>)
    requires s.mem.resume == Left(todo)
    ensures Run(s, Visits(|todo|)) == Idle(ResumeEach(s, todo))
    decreases todo
  {
    if todo != [] {
      var t := At(Resumed(s, todo[0]), Left(todo[1..]));
      VisitIsTwoActions(s, todo);
      RunTwo(s, ResumeNext, ResumeStart, Visits(|todo| - 1));
      VisitsAreRun(t, todo[1..]);
      SweepIgnoresStage(Resumed(s, todo[0]), Left(todo[1..]), todo[1..]);
    }
  }

  lemma RunTwo(s: Plane, a: Action, b: Action, rest: seq<Action>)
    ensures Run(s, [a, b] + rest) == Run(Apply(Apply(s, a), b), rest)
  {
    assert ([a, b] + rest)[1..] == [b] + rest && ([b] + rest)[1..] == rest;
    assert Run(s, [a, b] + rest) == Run(Apply(s, a), [b] + rest);
  }

  /** The whole sweep is a run of the protocol. */
  lemma SweepIsRun(s: Plane, found: seq<Found>)
    requires s.mem.resume.Unread? && ListsRunning(s.db, found)
    ensures Run(s, SweepActs(found)) == Idle(ResumeEach(s, found))
  {
    assert SweepActs(found)[1..] == Visits(|found|);
    assert Apply(s, ResumeList(found)) == At(s, Left(found));
    VisitsAreRun(At(s, Left(found)), found);
    SweepIgnoresStage(s, Left(found), found);
  }

  /** The sweep gives every running row that has no goroutine yet, and nothing else, a goroutine
      with the settings of its job, and leaves the tables alone. */
  lemma {:induction false} SweepStartsEach(s: Plane, found: seq<Found>)
    requires forall i | 0 <= i < |found| :: found[i].config in s.db.configs && found[i].run !in s.mem.owned
    requires forall i, j | 0 <= i < j < |found| :: found[i].run != found[j].run
    ensures var t := ResumeEach(s, found);
            && t.db == s.db && t.starts == s.starts + Begun(found, s.db.configs)
            && t.mem.owned == s.mem.owned + Runs(found) && t.mem.waiting == s.mem.waiting + |found|
    decreases found
  {
    if found != [] {
      var f := found[0];
      assert Resumed(s, f) == Spawn(s, f.run, f.config, s.db.configs[f.config]);
      SweepStartsEach(Resumed(s, f), found[1..]);
      FirstMore(found, s.db.configs);
      assert s.starts + Begun(found, s.db.configs)
             == s.starts + [Start(f.run, f.config, s.db.configs[f.config])] + Begun(found[1..], s.db.configs);
    }
  }

  function Begun(found: seq<Found>, configs: map<nat, Settings>): seq<Start>
    requires forall i | 0 <= i < |found| :: found[i].config in configs
  {
    seq(|found|, i requires 0 <= i < |found| => Start(found[i].run, found[i].config, configs[found[i].config]))
  }

  function Runs(found: seq<Found>): set<nat> { set i | 0 <= i < |found| :: found[i].run }

  lemma FirstMore(found: seq<Found>, configs: map<nat, Settings>)
    requires found != [] && forall k | 0 <= k < |found| :: found[k].config in configs
    ensures Runs(found) == {found[0].run} + Runs(found[1..])
    ensures Begun(found, configs)
            == [Start(found[0].run, found[0].config, configs[found[0].config])] + Begun(found[1..], configs)
  {
    forall k | 0 < k < |found| ensures found[k].run in Runs(found[1..]) {
      assert found[1..][k - 1] == found[k];
    }
  }
}
