/** Graceful shutdown: what `ActiveRunCount() == 0` and `Wait` returning mean. */
module BackupDrain {
  import opened BackupPlane
  import opened BackupRuns

  /** Goroutines that have not yet called `runWG.Done`. */
  function Busy(mem: Memory): set<nat> { set r | r in mem.threads && !mem.threads[r].Counted? }

  predicate CountOk(s: Plane) { s.mem.waiting == |Busy(s.mem)| }

  lemma CountStep(s: Plane, a: Action)
    requires Inv(s) && CountOk(s)
    ensures CountOk(Apply(s, a))
  {
    match a
    case Launch => if !IsUnlocked(s) && !s.mem.draining { CountSpawn(s.mem, s.mem.starting.run); }
    case ResumeStart => if s.mem.resume.Holding? { CountSpawn(s.mem, s.mem.resume.run); }
    case Finish(_, _) | CountDown(_) | Release(_) => CountThread(s, a);
    case Crash => assert Busy(FRESH) == {};
    case _ => assert Busy(Apply(s, a).mem) == Busy(s.mem);
  }

  lemma CountSpawn(mem: Memory, run: nat)
    requires run !in mem.threads
    ensures |Busy(mem.(threads := mem.threads[run := Working]))| == |Busy(mem)| + 1
  {
    assert Busy(mem.(threads := mem.threads[run := Working])) == Busy(mem) + {run};
  }

  lemma CountThread(s: Plane, a: Action)
    requires CountOk(s) && (a.Finish? || a.CountDown? || a.Release?)
    ensures CountOk(Apply(s, a))
  {
    if a.Finish? && IsAt(s, a.run, Working) { CountMove(s.mem, a.run, Written); }
    if a.CountDown? && IsAt(s, a.run, Written) { CountMove(s.mem, a.run, Counted); }
    if a.Release? && IsAt(s, a.run, Counted) { CountGone(s.mem, a.run); }
  }

  lemma CountMove(mem: Memory, run: nat, stage: Stage)
    requires run in mem.threads && !mem.threads[run].Counted?
    ensures |Busy(mem.(threads := mem.threads[run := stage]))| == |Busy(mem)| - if stage.Counted? then 1 else 0
  {
    var after := Busy(mem.(threads := mem.threads[run := stage]));
    if stage.Counted? {
      assert run !in after && Busy(mem) == after + {run};
    } else {
      assert after == Busy(mem);
    }
  }

  lemma CountGone(mem: Memory, run: nat)
    requires run in mem.threads && mem.threads[run].Counted?
    ensures Busy(mem.(threads := mem.threads - {run})) == Busy(mem)
  {}

  /** Live progress only for owned runs; the wait counter never above the number owned. */
  lemma {:induction false} CountersAgree(s: Plane, acts: seq<Action>)
    requires Inv(s) && CountOk(s)
    ensures var t := Run(s, acts);
            CountOk(t) && t.mem.live <= t.mem.owned && 0 <= t.mem.waiting <= |t.mem.owned|
    decreases acts
  {
    if acts == [] {
      Subset(Busy(s.mem), s.mem.owned);
    } else {
      InvStep(s, acts[0]);
      CountStep(s, acts[0]);
      CountersAgree(Apply(s, acts[0]), acts[1..]);
    }
  }

  lemma {:induction false} Subset(a: set<nat>, b: set<nat>)
    requires a <= b
    ensures |a| <= |b|
    decreases a
  {
    if a != {} {
      var x :| x in a;
      Subset(a - {x}, b - {x});
    }
  }

  // ---- draining ----

  /** The service is draining, the restart sweep is over, and no goroutine has a terminal write
      left to make. */
  predicate IsQuiet(s: Plane) {
    s.mem.draining && s.mem.resume.Done? && forall r | r in s.mem.threads :: !s.mem.threads[r].Working?
  }

  lemma QuietStep(s: Plane, a: Action)
    requires IsQuiet(s) && !a.Crash?
    ensures IsQuiet(Apply(s, a)) && Apply(s, a).starts == s.starts
  {}

  lemma {:induction false} QuietRun(s: Plane, acts: seq<Action>)
    requires IsQuiet(s) && forall i | 0 <= i < |acts| :: !acts[i].Crash?
    ensures IsQuiet(Run(s, acts)) && Run(s, acts).starts == s.starts
    decreases acts
  {
    if acts != [] {
      QuietStep(s, acts[0]);
      QuietRun(Apply(s, acts[0]), acts[1..]);
    }
  }

  /** Once draining with the restart sweep over, an empty ownership map or a zero wait counter
      means no goroutine still owes a terminal write, then or for the rest of the process. */
  lemma DrainIsSound(s: Plane, acts: seq<Action>)
    requires Inv(s) && CountOk(s)
    requires s.mem.draining && s.mem.resume.Done? && (s.mem.owned == {} || s.mem.waiting == 0)
    requires forall i | 0 <= i < |acts| :: !acts[i].Crash?
    ensures IsQuiet(s) && IsQuiet(Run(s, acts)) && Run(s, acts).starts == s.starts
  {
    if s.mem.waiting == 0 {
      forall r | r in s.mem.threads ensures !s.mem.threads[r].Working? {
        assert r !in Busy(s.mem);
      }
    }
    QuietRun(s, acts);
  }

  /** The premise on the restart sweep is needed. A daemon that finds a running row and is told to
      stop before it has resumed it owns nothing while draining, and then starts the run. */
  lemma SweepStartsWhileDraining(db: Tables, found: seq<Found>, starts: seq<Start>, saves: set<(nat, nat)>, session: nat)
    requires TablesOk(db) && ListsRunning(db, found) && found != []
    ensures var t := Run(Plane(db, FRESH, starts, saves, session), [ResumeList(found), ResumeNext, Drain]);
            && t.mem.draining && t.mem.owned == {} && t.mem.waiting == 0
            && Apply(t, ResumeStart).starts == starts + [Start(found[0].run, found[0].config, db.configs[found[0].config])]
            && IsAt(Apply(t, ResumeStart), found[0].run, Working)
  {
    var s := Plane(db, FRESH, starts, saves, session);
    RunThree(s, ResumeList(found), ResumeNext, Drain);
    HoldsFirst(s, found);
  }

  lemma HoldsFirst(s: Plane, found: seq<Found>)
    requires TablesOk(s.db) && s.mem == FRESH && ListsRunning(s.db, found) && found != []
    ensures found[0].config in s.db.configs
    ensures Apply(Apply(s, ResumeList(found)), ResumeNext)
            == s.(mem := FRESH.(resume := Holding(found[0].run, found[0].config, s.db.configs[found[0].config], found[1..])))
  {
    assert Apply(s, ResumeList(found)) == s.(mem := FRESH.(resume := Visiting(found)));
  }

  lemma RunThree(s: Plane, a: Action, b: Action, c: Action)
    ensures Run(s, [a, b, c]) == Apply(Apply(Apply(s, a), b), c)
  {
    assert [a, b, c][1..] == [b, c] && [b, c][1..] == [c] && [c][1..] == [];
    assert Run(s, [a, b, c]) == Run(Apply(s, a), [b, c]) == Run(Apply(Apply(s, a), b), [c]);
  }
}
