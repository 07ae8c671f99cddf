/** `cpWithHash`: directories first, then files, each by goroutines that share one context. */
module CopyPool {
  datatype Task = Idle | Running | Skipped | Done | Broken

  datatype Error = NoError | CtxError | TaskError

  datatype Phase = Dirs | Files | Returned(error: Error)

  /** `sent` tasks of the current phase have a goroutine. */
  datatype Copier = Copier(phase: Phase, dirs: seq<Task>, files: seq<Task>, sent: nat, count: nat,
                           failed: bool, cancelled: bool)

  datatype Action = Cancel | Send | Skip(i: nat) | Finish(i: nat, ok: bool) | Join

  function Current(c: Copier): seq<Task> { if c.phase.Dirs? then c.dirs else c.files }

  function With(c: Copier, tasks: seq<Task>): Copier {
    if c.phase.Dirs? then c.(dirs := tasks) else c.(files := tasks)
  }

  predicate Runs(c: Copier, i: nat) { !c.phase.Returned? && i < |Current(c)| && Current(c)[i].Running? }

  /** The loop is over, by exhaustion or by a cancelled context, and `wg.Wait` returned. */
  predicate Joins(c: Copier) {
    && !c.phase.Returned? && (c.sent == |Current(c)| || c.cancelled)
    && forall i | 0 <= i < |Current(c)| :: !Current(c)[i].Running?
  }

  function Apply(c: Copier, a: Action): Copier {
    match a
    case Cancel => c.(cancelled := true)
    case Send =>
      if c.phase.Returned? || c.cancelled || c.sent >= |Current(c)| then c
      else With(c, Current(c)[c.sent := Running]).(sent := c.sent + 1)
    case Skip(i) =>
      if c.phase.Files? && Runs(c, i) && c.cancelled then With(c, c.files[i := Skipped]) else c
    case Finish(i, ok) =>
      if !Runs(c, i) then c
      else if !ok then With(c, Current(c)[i := Broken]).(failed := true)
      else With(c, Current(c)[i := Done]).(count := if c.phase.Files? then c.count + 1 else c.count)
    case Join =>
      if !Joins(c) then c
      else if c.cancelled then c.(phase := Returned(CtxError))
      else if c.failed then c.(phase := Returned(TaskError))
      else if c.phase.Dirs? then c.(phase := Files, sent := 0)
      else c.(phase := Returned(NoError))
  }

  function Run(c: Copier, acts: seq<Action>): Copier
    decreases acts
  {
    if acts == [] then c else Run(Apply(c, acts[0]), acts[1..])
  }

  function Begin(dirs: nat, files: nat): Copier {
    Copier(Dirs, seq(dirs, _ => Idle), seq(files, _ => Idle), 0, 0, false, false)
  }

  predicate AllDone(tasks: seq<Task>) { forall i | 0 <= i < |tasks| :: tasks[i].Done? }

  function Dones(tasks: seq<Task>): nat
    decreases tasks
  {
    if tasks == [] then 0 else Dones(tasks[1..]) + if tasks[0].Done? then 1 else 0
  }

  predicate Began(c: Copier, tasks: seq<Task>) {
    && c.sent <= |tasks|
    && (forall i | 0 <= i < |tasks| :: tasks[i].Idle? <==> c.sent <= i)
    && (forall i | 0 <= i < |tasks| && tasks[i].Broken? :: c.failed)
    && (forall i | 0 <= i < |tasks| && tasks[i].Skipped? :: c.cancelled)
  }

  predicate Untouched(tasks: seq<Task>) { forall i | 0 <= i < |tasks| :: tasks[i].Idle? }

  predicate Inv(c: Copier) {
    && c.count == Dones(c.files)
    && match c.phase
       case Dirs => Began(c, c.dirs) && Untouched(c.files)
       case Files => AllDone(c.dirs) && Began(c, c.files)
       case Returned(e) =>
         && (AllDone(c.dirs) || Untouched(c.files))
         && (e.NoError? ==> AllDone(c.dirs) && AllDone(c.files))
  }

  lemma {:induction false} DonesUpdate(tasks: seq<Task>, i: nat, t: Task)
    requires i < |tasks| && !tasks[i].Done?
    ensures Dones(tasks[i := t]) == Dones(tasks) + if t.Done? then 1 else 0
    decreases tasks
  {
    if i == 0 {
      assert tasks[0 := t][1..] == tasks[1..];
    } else {
      assert tasks[i := t][1..] == tasks[1..][i - 1 := t];
      DonesUpdate(tasks[1..], i - 1, t);
    }
  }

  lemma InvStep(c: Copier, a: Action)
    requires Inv(c)
    ensures Inv(Apply(c, a))
  {
    if a.Join? { JoinStep(c); }
    else if c.phase.Dirs? { DirStep(c, a); }
    else if c.phase.Files? { FileStep(c, a); }
  }

  lemma JoinStep(c: Copier)
    requires Inv(c)
    ensures Inv(Apply(c, Join))
  {}

  lemma DirStep(c: Copier, a: Action)
    requires Inv(c) && c.phase.Dirs? && !a.Join?
    ensures Inv(Apply(c, a))
  {}

  lemma FileStep(c: Copier, a: Action)
    requires Inv(c) && c.phase.Files? && !a.Join?
    ensures Inv(Apply(c, a))
  {
    match a
    case Send => if c.sent < |c.files| { DonesUpdate(c.files, c.sent, Running); }
    case Skip(i) => if Runs(c, i) { DonesUpdate(c.files, i, Skipped); }
    case Finish(i, ok) => if Runs(c, i) { DonesUpdate(c.files, i, if ok then Done else Broken); }
    case _ =>
  }

  lemma {:induction false} InvRun(c: Copier, acts: seq<Action>)
    requires Inv(c)
    ensures Inv(Run(c, acts))
    decreases acts
  {
    if acts != [] {
      InvStep(c, acts[0]);
      InvRun(Apply(c, acts[0]), acts[1..]);
    }
  }

  lemma {:induction false} LengthsStay(c: Copier, acts: seq<Action>)
    ensures |Run(c, acts).files| == |c.files| && |Run(c, acts).dirs| == |c.dirs|
    decreases acts
  {
    if acts != [] { LengthsStay(Apply(c, acts[0]), acts[1..]); }
  }

  lemma {:induction false} DonesAre(tasks: seq<Task>)
    ensures AllDone(tasks) ==> Dones(tasks) == |tasks|
    ensures Untouched(tasks) ==> Dones(tasks) == 0
    decreases tasks
  {
    if tasks != [] {
      DonesAre(tasks[1..]);
      if AllDone(tasks) { assert AllDone(tasks[1..]) && tasks[0].Done?; }
      if Untouched(tasks) { assert Untouched(tasks[1..]) && tasks[0].Idle?; }
    }
  }

  // ---- how the tasks really went ----

  /** The action is the end of the running task `i` of the phase, copied and verified or not. */
  predicate Ends(c: Copier, a: Action, phase: Phase, i: nat, ok: bool) { c.phase == phase && Runs(c, i) && a == Finish(i, ok) }

  predicate EndsAt(c: Copier, acts: seq<Action>, k: nat, phase: Phase, i: nat, ok: bool)
    requires k < |acts|
  {
    Ends(Run(c, acts[..k]), acts[k], phase, i, ok)
  }

  predicate Went(c: Copier, acts: seq<Action>, phase: Phase, i: nat, ok: bool) {
    exists k | 0 <= k < |acts| :: EndsAt(c, acts, k, phase, i, ok)
  }

  predicate Is(c: Copier, phase: Phase, i: nat, t: Task) {
    if phase.Dirs? then i < |c.dirs| && c.dirs[i] == t else phase.Files? && i < |c.files| && c.files[i] == t
  }

  lemma {:induction false} RunSnoc(c: Copier, acts: seq<Action>, a: Action)
    ensures Run(c, acts + [a]) == Apply(Run(c, acts), a)
    decreases acts
  {
    if acts == [] {
      assert acts + [a] == [a] && [a][1..] == [] && Run(c, [a]) == Run(Apply(c, a), []);
    } else {
      assert (acts + [a])[1..] == acts[1..] + [a];
      RunSnoc(Apply(c, acts[0]), acts[1..], a);
    }
  }

  lemma WentSnoc(c: Copier, acts: seq<Action>, a: Action, phase: Phase, i: nat, ok: bool)
    ensures Went(c, acts + [a], phase, i, ok) <==> Went(c, acts, phase, i, ok) || Ends(Run(c, acts), a, phase, i, ok)
  {
    var all := acts + [a];
    assert all[..|acts|] == acts;
    forall k | 0 <= k < |acts| ensures EndsAt(c, all, k, phase, i, ok) <==> EndsAt(c, acts, k, phase, i, ok) {
      assert all[..k] == acts[..k];
    }
    if Ends(Run(c, acts), a, phase, i, ok) { assert EndsAt(c, all, |acts|, phase, i, ok); }
  }

  /** The record of a task is what happened: done exactly when it ran to a good end, broken exactly
      when it ran to a bad one. */
  lemma {:induction false} RecordsAreTrue(dirs: nat, files: nat, acts: seq<Action>, phase: Phase, i: nat, ok: bool)
    requires !phase.Returned?
    ensures Is(Run(Begin(dirs, files), acts), phase, i, if ok then Done else Broken)
            <==> Went(Begin(dirs, files), acts, phase, i, ok)
    decreases |acts|
  {
    if acts != [] {
      var front, a := acts[..|acts| - 1], acts[|acts| - 1];
      assert acts == front + [a];
      RecordsAreTrue(dirs, files, front, phase, i, ok);
      DonesAre(Begin(dirs, files).files);
      InvRun(Begin(dirs, files), front);
      RunSnoc(Begin(dirs, files), front, a);
      WentSnoc(Begin(dirs, files), front, a, phase, i, ok);
      RecordSnoc(Run(Begin(dirs, files), front), a, phase, i, ok);
    }
  }

  lemma RecordSnoc(c: Copier, a: Action, phase: Phase, i: nat, ok: bool)
    requires Inv(c) && !phase.Returned?
    ensures var t := if ok then Done else Broken;
            Is(Apply(c, a), phase, i, t) <==> Is(c, phase, i, t) || Ends(c, a, phase, i, ok)
  {
    if c.phase.Dirs? { DirRecord(c, a, phase, i, ok); }
  }

  lemma DirRecord(c: Copier, a: Action, phase: Phase, i: nat, ok: bool)
    requires Inv(c) && c.phase.Dirs? && !phase.Returned?
    ensures var t := if ok then Done else Broken;
            Is(Apply(c, a), phase, i, t) <==> Is(c, phase, i, t) || Ends(c, a, phase, i, ok)
  {}

  /** Over every interleaving, cancelled or not: no file is touched before every directory was made,
      the count returned is the number of files copied and verified, and a nil error means that
      every directory was made and every file came to a good end. */
  lemma NilMeansEveryFileCopied(dirs: nat, files: nat, acts: seq<Action>)
    ensures var start := Begin(dirs, files); var c := Run(start, acts);
            && ((forall i | 0 <= i < dirs :: Went(start, acts, Dirs, i, true)) || Untouched(c.files))
            && c.count == Dones(c.files)
            && (c.phase == Returned(NoError) ==>
                  && c.count == files
                  && (forall i | 0 <= i < dirs :: Went(start, acts, Dirs, i, true))
                  && (forall i | 0 <= i < files :: Went(start, acts, Files, i, true)))
  {
    var start := Begin(dirs, files);
    forall i ensures Is(Run(start, acts), Dirs, i, Done) <==> Went(start, acts, Dirs, i, true) {
      RecordsAreTrue(dirs, files, acts, Dirs, i, true);
    }
    forall i ensures Is(Run(start, acts), Files, i, Done) <==> Went(start, acts, Files, i, true) {
      RecordsAreTrue(dirs, files, acts, Files, i, true);
    }
    RecordsSuffice(dirs, files, acts);
  }

  lemma RecordsSuffice(dirs: nat, files: nat, acts: seq<Action>)
    ensures var c := Run(Begin(dirs, files), acts);
            && |c.dirs| == dirs && |c.files| == files
            && (AllDone(c.dirs) || Untouched(c.files))
            && c.count == Dones(c.files)
            && (c.phase == Returned(NoError) ==> AllDone(c.dirs) && AllDone(c.files) && c.count == files)
  {
    var c := Run(Begin(dirs, files), acts);
    DonesAre(Begin(dirs, files).files);
    InvRun(Begin(dirs, files), acts);
    LengthsStay(Begin(dirs, files), acts);
    DonesAre(c.files);
  }
}
