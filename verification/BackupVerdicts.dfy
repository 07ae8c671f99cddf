/** What a run row says at the end is what happened to the run. */
module BackupVerdicts {
  import opened BackupPlane
  import opened BackupRuns

  /** The goroutine at work on the run ends, well or badly. */
  predicate Ends(s: Plane, a: Action, run: nat, ok: bool) { a == Finish(run, ok) && IsAt(s, run, Working) }

  /** The row was inserted, and the delete guard or a shutdown keeps it from starting. */
  predicate IsTurnedAway(s: Plane, a: Action, run: nat) {
    && s.mem.starting.Inserted? && s.mem.starting.run == run
    && (a.Refuse? || (a.Launch? && s.mem.draining))
  }

  predicate Succeeds(s: Plane, a: Action, run: nat) { Ends(s, a, run, true) }

  predicate Fails(s: Plane, a: Action, run: nat) { Ends(s, a, run, false) || IsTurnedAway(s, a, run) }

  predicate DecidesAt(s: Plane, acts: seq<Action>, k: nat, run: nat, ok: bool)
    requires k < |acts|
  {
    var t := Run(s, acts[..k]);
    if ok then Succeeds(t, acts[k], run) else Fails(t, acts[k], run)
  }

  /** Somewhere in the run of the control plane, the backup run came to a good or a bad end. */
  predicate Went(s: Plane, acts: seq<Action>, run: nat, ok: bool) {
    exists k | 0 <= k < |acts| :: DecidesAt(s, acts, k, run, ok)
  }

  lemma WentSnoc(s: Plane, acts: seq<Action>, a: Action, run: nat, ok: bool)
    ensures Went(s, acts + [a], run, ok)
            <==> Went(s, acts, run, ok) || if ok then Succeeds(Run(s, acts), a, run) else Fails(Run(s, acts), a, run)
  {
    var all := acts + [a];
    assert all[..|acts|] == acts;
    forall k | 0 <= k < |acts| ensures DecidesAt(s, all, k, run, ok) <==> DecidesAt(s, acts, k, run, ok) {
      assert all[..k] == acts[..k];
    }
    if if ok then Succeeds(Run(s, acts), a, run) else Fails(Run(s, acts), a, run) {
      assert DecidesAt(s, all, |acts|, run, ok);
    }
  }

  /** The row is still running, or says what happened. */
  predicate Tells(db: Tables, run: nat, well: bool, badly: bool) {
    run in db.rows ==> (db.rows[run].status.Completed? <==> well) && (db.rows[run].status.Failed? <==> badly)
  }

  lemma TellsStep(s: Plane, a: Action, run: nat, well: bool, badly: bool)
    requires Inv(s) && Tells(s.db, run, well, badly) && (well || badly ==> run < s.db.nextRun)
    ensures var t := Apply(s, a); var good, bad := well || Succeeds(s, a, run), badly || Fails(s, a, run);
            Tells(t.db, run, good, bad) && (good || bad ==> run < t.db.nextRun)
  {
    if IsRequest(a) { TellsRequest(s, a, run, well, badly); }
    else if a.ResumeNext? { TellsVisit(s, run, well, badly); }
    else if a.Launch? || a.Refuse? || a.Finish? { TellsEnd(s, a, run, well, badly); }
  }

  lemma TellsEnd(s: Plane, a: Action, run: nat, well: bool, badly: bool)
    requires Inv(s) && Tells(s.db, run, well, badly) && (a.Launch? || a.Refuse? || a.Finish?)
    ensures var t := Apply(s, a); var good, bad := well || Succeeds(s, a, run), badly || Fails(s, a, run);
            Tells(t.db, run, good, bad) && t.db.nextRun == s.db.nextRun
            && (Succeeds(s, a, run) || Fails(s, a, run) ==> run < s.db.nextRun)
  {}

  lemma TellsRequest(s: Plane, a: Action, run: nat, well: bool, badly: bool)
    requires Inv(s) && Tells(s.db, run, well, badly) && (well || badly ==> run < s.db.nextRun) && IsRequest(a)
    ensures Tells(Apply(s, a).db, run, well, badly) && s.db.nextRun <= Apply(s, a).db.nextRun
  {}

  lemma TellsVisit(s: Plane, run: nat, well: bool, badly: bool)
    requires Inv(s) && Tells(s.db, run, well, badly)
    ensures Tells(Apply(s, ResumeNext).db, run, well, badly)
  {
    if s.mem.resume.Visiting? && s.mem.resume.todo != [] && s.mem.resume.todo[0].config !in s.db.configs {
      GoneTogether(s, s.mem.resume.todo[0]);
    }
  }

  /** Over every run, restarts and resumed backups included: while a row exists, it says completed
      exactly if its goroutine came to a good end, and failed exactly if it came to a bad one or
      was turned away before it could start. */
  lemma {:induction false} RowsTellTheTruth(s: Plane, acts: seq<Action>, run: nat)
    requires Inv(s) && (run in s.db.rows ==> s.db.rows[run].status.Running?)
    ensures var t := Run(s, acts);
            && Tells(t.db, run, Went(s, acts, run, true), Went(s, acts, run, false))
            && (Went(s, acts, run, true) || Went(s, acts, run, false) ==> run < t.db.nextRun)
    decreases |acts|
  {
    if acts != [] {
      var front, a := acts[..|acts| - 1], acts[|acts| - 1];
      assert acts == front + [a];
      RowsTellTheTruth(s, front, run);
      InvRun(s, front);
      RunSnoc(s, front, a);
      WentSnoc(s, front, a, run, true);
      WentSnoc(s, front, a, run, false);
      TellsStep(Run(s, front), a, run, Went(s, front, run, true), Went(s, front, run, false));
    }
  }

  // ---- jobs are what was asked for ----

  predicate AsAsked(x: Settings, req: Request) {
    && x.name == req.name && x.drive == req.drive && x.encrypt == req.encrypt
    && x.account == req.account && x.folder == req.folder && x.other == req.other
  }

  /** The action is a request to save job `c`. */
  predicate Asks(s: Plane, a: Action, c: nat) { (a.Create? && c == s.db.nextConfig) || (a.Update? && a.config == c) }

  predicate AskedAt(s: Plane, acts: seq<Action>, k: nat, c: nat, x: Settings)
    requires k < |acts|
  {
    Asks(Run(s, acts[..k]), acts[k], c) && AsAsked(x, acts[k].req)
  }

  predicate WasAsked(s: Plane, acts: seq<Action>, c: nat, x: Settings) {
    exists k | 0 <= k < |acts| :: AskedAt(s, acts, k, c, x)
  }

  /** A job changes only by a request for it, to what that asks; encrypted jobs, and only those,
      have keys. */
  lemma JobStep(s: Plane, a: Action, c: nat)
    requires forall d | d in s.db.configs :: s.db.configs[d].encrypt <==> s.db.configs[d].keys.Kit?
    ensures var t := Apply(s, a);
            && (forall d | d in t.db.configs :: t.db.configs[d].encrypt <==> t.db.configs[d].keys.Kit?)
            && (c in t.db.configs && !(c in s.db.configs && s.db.configs[c] == t.db.configs[c]) ==>
                  Asks(s, a, c) && AsAsked(t.db.configs[c], a.req))
  {}

  /** Over every run from an empty table: every job is what some request for it asked, and it has
      keys exactly if it is encrypted. */
  lemma {:induction false} JobsAreAsAsked(s: Plane, acts: seq<Action>, c: nat)
    requires s.db.configs == map[]
    ensures var t := Run(s, acts);
            && (forall d | d in t.db.configs :: t.db.configs[d].encrypt <==> t.db.configs[d].keys.Kit?)
            && (c in t.db.configs ==> WasAsked(s, acts, c, t.db.configs[c]))
    decreases |acts|
  {
    if acts != [] {
      var front, a := acts[..|acts| - 1], acts[|acts| - 1];
      assert acts == front + [a];
      JobsAreAsAsked(s, front, c);
      RunSnoc(s, front, a);
      JobStep(Run(s, front), a, c);
      StillAsked(s, front, a, c);
    }
  }

  lemma StillAsked(s: Plane, front: seq<Action>, a: Action, c: nat)
    requires var t, u := Run(s, front), Apply(Run(s, front), a);
             c in u.db.configs ==>
               || (c in t.db.configs && u.db.configs[c] == t.db.configs[c] && WasAsked(s, front, c, t.db.configs[c]))
               || (Asks(t, a, c) && AsAsked(u.db.configs[c], a.req))
    ensures var u := Apply(Run(s, front), a); c in u.db.configs ==> WasAsked(s, front + [a], c, u.db.configs[c])
  {
    var u, all := Apply(Run(s, front), a), front + [a];
    if c in u.db.configs {
      if Asks(Run(s, front), a, c) && AsAsked(u.db.configs[c], a.req) {
        assert all[..|front|] == front;
        assert AskedAt(s, all, |front|, c, u.db.configs[c]);
      } else {
        var k :| 0 <= k < |front| && AskedAt(s, front, k, c, u.db.configs[c]);
        assert all[..k] == front[..k];
        assert AskedAt(s, all, k, c, u.db.configs[c]);
      }
    }
  }
}
