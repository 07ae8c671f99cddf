/** What the results on moving a LUN rest on. Each premise is a rule that may or may not be in
    force; for every choice of rules it is decided whether a result holds of all runs, by the
    proofs of `ActiveLun` on one side and by runs that break it on the other. */
module LunLimits {
  import opened ActiveLun

  /** Rules on the environment:
      `waits`: the operator makes no request while a move runs;
      `pins`: pin calls after a move or a crash answer;
      `execReads`, `sweepReads`, `writes`: the executor's and the boot sweep's journal access works;
      `alone`: no reconcile begins during a move;
      `quiet`: no move is let in under a pending reconcile;
      `probes`: pin probes of quiesce and resume answer;
      `stopped`: moves are let in only on targets that are really stopped;
      `elsewhere`: the kernel refuses a plan for the tier the file is on;
      `once`: no move is let in at all. */
  datatype Rules = Rules(waits: bool, pins: bool, execReads: bool, sweepReads: bool, writes: bool, alone: bool,
                         quiet: bool, probes: bool, stopped: bool, elsewhere: bool, once: bool)

  /** Pin calls answer; they may still be on the wrong path. */
  predicate PinsAnswer(s: Lun, a: Action) {
    && (a.SweepPin? ==> a.ok)
    && (a.Drive? && s.exec.At? && (s.exec.pc.Repin? || s.exec.pc.Undo?) ==> a.a.ok)
  }

  predicate Obeys(s: Lun, a: Action, r: Rules) {
    && (r.waits ==> OperatorWaits(s, a))
    && (r.pins ==> PinsAnswer(s, a))
    && (r.execReads ==> ExecReads(s, a))
    && (r.sweepReads ==> SweepReads(s, a))
    && (r.writes ==> Writes(s, a))
    && (r.alone ==> MovesAlone(s, a))
    && (r.quiet ==> ExecuteWaits(s, a))
    && (r.probes ==> ProbesAnswer(s, a))
    && (r.stopped ==> ExecutesStopped(s, a))
    && (r.elsewhere ==> PlansElsewhere(s, a))
    && (r.once ==> !a.Execute?)
  }

  function Under(r: Rules): (Lun, Action) -> bool { (s, a) => Obeys(s, a, r) }

  /** Some run under the rules leads from `s` to `t`. */
  ghost predicate Reaches(s: Lun, t: Lun, r: Rules) {
    exists acts :: Along(s, acts, Under(r)) && Run(s, acts) == t
  }

  // ---- runs, step by step ----

  lemma Reached(t: Lun, r: Rules)
    ensures Reaches(t, t, r)
  {
    assert Along(t, [], Under(r)) && Run(t, []) == t;
  }

  lemma Leads(s: Lun, a: Action, t: Lun, r: Rules)
    requires Obeys(s, a, r) && Reaches(Apply(s, a), t, r)
    ensures Reaches(s, t, r)
  {
    var acts :| Along(Apply(s, a), acts, Under(r)) && Run(Apply(s, a), acts) == t;
    var all := [a] + acts;
    assert all[1..] == acts && Along(s, all, Under(r)) && Run(s, all) == t;
  }

  lemma Joins(s: Lun, t: Lun, u: Lun, r: Rules)
    requires Reaches(s, t, r) && Reaches(t, u, r)
    ensures Reaches(s, u, r)
  {
    var acts :| Along(s, acts, Under(r)) && Run(s, acts) == t;
    JoinsBy(s, acts, t, u, r);
  }

  lemma {:induction false} JoinsBy(s: Lun, acts: seq<Action>, t: Lun, u: Lun, r: Rules)
    requires Along(s, acts, Under(r)) && Run(s, acts) == t && Reaches(t, u, r)
    ensures Reaches(s, u, r)
    decreases acts
  {
    if acts != [] {
      JoinsBy(Apply(s, acts[0]), acts[1..], t, u, r);
      Leads(s, acts[0], u, r);
    }
  }

  lemma {:induction false} AlongWeakens(s: Lun, acts: seq<Action>, p: (Lun, Action) -> bool, q: (Lun, Action) -> bool)
    requires Along(s, acts, p) && forall u, a :: p(u, a) ==> q(u, a)
    ensures Along(s, acts, q)
    decreases acts
  {
    if acts != [] { AlongWeakens(Apply(s, acts[0]), acts[1..], p, q); }
  }

  const YES := Answer(true, true, true, false)
  const NO := Answer(false, true, true, false)
  const GRANTED := Call(true, true, true)

  /** A step in which everything works obeys every rule. */
  lemma Drives(s: Lun, t: Lun, r: Rules)
    requires s.exec.At? && s.daemon.Up? && Reaches(Step(s, YES), t, r)
    requires r.elsewhere && s.exec.pc.Plan? ==> s.tier != s.target
    ensures Reaches(s, t, r)
  {
    Leads(s, Drive(YES), t, r);
  }

  /** One that fails somewhere obeys the rules that allow the failure. */
  lemma DrivesBy(s: Lun, a: Answer, next: Lun, t: Lun, r: Rules)
    requires s.exec.At? && s.daemon.Up? && Step(s, a) == next && Reaches(next, t, r)
    requires (r.execReads ==> a.read) && (r.writes ==> a.write)
    requires r.pins && (s.exec.pc.Repin? || s.exec.pc.Undo?) ==> a.ok
    requires r.elsewhere && s.exec.pc.Plan? && a.ok ==> s.tier != s.target
    ensures Reaches(s, t, r)
  {
    Leads(s, Drive(a), t, r);
  }

  lemma Reads(m: Lun, t: Lun, r: Rules)
    requires m.daemon.Up? && InFlight(m.journal) && m.reconcile.NoReconcile? && m.pinned && (r.alone ==> m.exec.Idle?)
    requires Reaches(m.(reconcile := Deciding(m.dest)), t, r)
    ensures Reaches(m, t, r)
  {
    assert Apply(m, ReconcilePin(true, true)) == m.(reconcile := Deciding(m.dest));
    Leads(m, ReconcilePin(true, true), t, r);
  }

  lemma Dies(m: Lun, t: Lun, r: Rules)
    requires Reaches(m.(exec := Idle, daemon := Down, reconcile := NoReconcile), t, r)
    ensures Reaches(m, t, r)
  {
    Leads(m, Crash, t, r);
  }

  lemma SweptBlind(dead: Lun, t: Lun, r: Rules)
    requires dead.daemon.Down? && !r.sweepReads && Reaches(dead.(daemon := Up), t, r)
    ensures Reaches(dead, t, r)
  {
    assert Apply(dead, SweepPin(false, true)) == dead.(daemon := Up);
    Leads(dead, SweepPin(false, true), t, r);
  }

  // ---- a move, in three stretches ----

  /** Ready for a move: quiesced, pinned, planned, the daemon serving, nothing running. */
  predicate Ready(s: Lun) {
    s.exec.Idle? && s.daemon.Up? && s.journal.Planned? && s.pinned && s.quiesced && !s.live
  }

  /** The state of a move let in at `s`, about to perform `pc`. */
  function UnderWay(s: Lun, pc: Pc): Lun {
    s.(journal := Executing, target := if pc.Prepare? then s.target else s.dest, exec := At(pc, true))
  }

  /** The state once it has dropped the pin and journaled nothing more. */
  function PinOff(s: Lun): Lun {
    s.(pinned := false, journal := Executing, target := s.dest, exec := At(NoteUnpinned, true))
  }

  /** Can a move be let in at `s` under the rules? */
  predicate LetsIn(s: Lun, r: Rules) { !r.once && (r.quiet ==> s.reconcile.NoReconcile?) && (r.stopped ==> !s.live) }

  lemma Starts(s: Lun, t: Lun, r: Rules)
    requires s.exec.Idle? && s.daemon.Up? && s.journal.Planned? && s.pinned && s.quiesced && LetsIn(s, r)
    requires Reaches(UnderWay(s, Prepare), t, r)
    ensures Reaches(s, t, r)
  {
    assert Apply(s, Execute(GRANTED)) == UnderWay(s, Prepare);
    Leads(s, Execute(GRANTED), t, r);
  }

  lemma Opens(s: Lun, r: Rules)
    requires s.daemon.Up?
    ensures Reaches(UnderWay(s, Prepare), UnderWay(s, Unpin), r)
    ensures Reaches(UnderWay(s, Unpin), PinOff(s), r)
  {
    var m := UnderWay(s, Unpin);
    Reached(m, r);
    assert Step(UnderWay(s, Open), YES) == m;
    Drives(UnderWay(s, Open), m, r);
    assert Step(UnderWay(s, Prepare), YES) == UnderWay(s, Open);
    Drives(UnderWay(s, Prepare), m, r);
    Reached(PinOff(s), r);
    assert Step(m, YES) == PinOff(s);
    Drives(m, PinOff(s), r);
  }

  /** The kernel has switched the file; the entry `cutover` is next. */
  function CutOverAt(s: Lun): Lun {
    PinOff(s).(journal := Moving, tier := s.dest, movement := MidFlight, data := s.data.(work := Committed),
               exec := At(NoteCutover, true))
  }

  /** The kernel has taken the plan; the entry `moving` is next. */
  function PlannedAt(s: Lun): Lun {
    PinOff(s).(journal := Unpinned, movement := MidFlight, data := s.data.(work := Accepted), exec := At(NoteMoving, true))
  }

  lemma Switches(s: Lun, r: Rules)
    requires s.daemon.Up? && s.tier != s.dest
    ensures Reaches(PinOff(s), CutOverAt(s), r)
  {
    var m := PlannedAt(s).(journal := Moving, data := s.data.(work := Copied(true)), exec := At(CutOver, true));
    PlansAndInspects(s, r);
    Copies(PlannedAt(s), m, r);
    Reached(CutOverAt(s), r);
    assert Step(m, YES) == CutOverAt(s);
    Drives(m, CutOverAt(s), r);
    Joins(PinOff(s), PlannedAt(s), m, r);
    Joins(PinOff(s), m, CutOverAt(s), r);
  }

  lemma PlansAndInspects(s: Lun, r: Rules)
    requires s.daemon.Up? && (r.elsewhere ==> s.tier != s.dest)
    ensures Reaches(PinOff(s), PlannedAt(s), r)
  {
    var m, noted := PlannedAt(s), PinOff(s).(journal := Unpinned, exec := At(Plan, true));
    Reached(m, r);
    assert Step(m.(exec := At(Inspect, true)), YES) == m;
    Drives(m.(exec := At(Inspect, true)), m, r);
    assert Step(noted, YES) == m.(exec := At(Inspect, true));
    Drives(noted, m, r);
    assert Step(PinOff(s), YES) == noted;
    Drives(PinOff(s), m, r);
  }

  /** Onto itself, the copy truncates what it was to copy. */
  lemma Copies(m: Lun, t: Lun, r: Rules)
    requires m.daemon.Up? && m.exec == At(NoteMoving, true) && !m.journal.Absent? && m.data.work.Accepted?
    requires t == m.(journal := Moving, data := Data(Copied(true), m.data.whole && m.tier != m.target), exec := At(CutOver, true))
    ensures Reaches(m, t, r)
  {
    var copying := m.(journal := Moving, exec := At(Copy, true));
    Reached(t, r);
    assert Step(copying, YES) == t;
    Drives(copying, t, r);
    assert Step(m, YES) == copying;
    Drives(m, t, r);
  }

  /** Cleaned up and pinned again; the entry `repinning` is next. */
  function PinnedAgain(s: Lun): Lun {
    s.(journal := Cutover, target := s.dest, tier := s.dest, movement := Placed, data := s.data.(work := Clean),
       exec := At(NoteRepinning, true))
  }

  lemma Repins(s: Lun, r: Rules)
    requires s.daemon.Up? && s.pinned
    ensures Reaches(CutOverAt(s), PinnedAgain(s), r)
  {
    var placed := CutOverAt(s).(journal := Cutover, movement := Placed, exec := At(Wait, true));
    CleansUp(CutOverAt(s), placed, r);
    Pins(placed, PinnedAgain(s), r);
    Joins(CutOverAt(s), placed, PinnedAgain(s), r);
  }

  lemma CleansUp(m: Lun, placed: Lun, r: Rules)
    requires m.daemon.Up? && m.exec == At(NoteCutover, true) && !m.journal.Absent?
    requires placed == m.(journal := Cutover, movement := Placed, exec := At(Wait, true))
    ensures Reaches(m, placed, r)
  {
    var waiting := m.(journal := Cutover, exec := At(Wait, true));
    Reached(placed, r);
    Leads(waiting, Kernel(Placed), placed, r);
    assert Step(m, YES) == waiting;
    Drives(m, placed, r);
  }

  lemma Pins(placed: Lun, t: Lun, r: Rules)
    requires placed.daemon.Up? && placed.exec == At(Wait, true) && placed.movement.Placed? && placed.data.work.Committed?
    requires t == placed.(pinned := true, data := placed.data.(work := Clean), exec := At(NoteRepinning, true))
    ensures Reaches(placed, t, r)
  {
    var m := placed.(data := placed.data.(work := Clean), exec := At(Repin, true));
    Reached(t, r);
    assert Step(m, YES) == t;
    Drives(m, t, r);
    assert Step(placed, YES) == m;
    Drives(placed, t, r);
  }

  lemma Completes(u: Lun, r: Rules)
    requires u.daemon.Up? && u.exec == At(NoteRepinning, true) && !u.journal.Absent?
    ensures Reaches(u, u.(journal := Completed, live := true, quiesced := false, exec := Idle), r)
  {
    var live := u.(journal := Repinning, live := true, exec := At(ClearFlag, true));
    Resumes(u, live, r);
    Finishes(live, r);
    Joins(u, live, u.(journal := Completed, live := true, quiesced := false, exec := Idle), r);
  }

  lemma Resumes(u: Lun, live: Lun, r: Rules)
    requires u.daemon.Up? && u.exec == At(NoteRepinning, true) && !u.journal.Absent?
    requires live == u.(journal := Repinning, live := true, exec := At(ClearFlag, true))
    ensures Reaches(u, live, r)
  {
    var noted := u.(journal := Repinning, exec := At(ResumeTarget, true));
    Reached(live, r);
    assert Step(noted, YES) == live;
    Drives(noted, live, r);
    assert Step(u, YES) == noted;
    Drives(u, live, r);
  }

  lemma Finishes(live: Lun, r: Rules)
    requires live.daemon.Up? && live.exec == At(ClearFlag, true) && !live.journal.Absent?
    ensures Reaches(live, live.(journal := Completed, quiesced := false, exec := Idle), r)
  {
    var cleared, t := live.(quiesced := false, exec := At(NoteCompleted, true)), live.(journal := Completed, quiesced := false, exec := Idle);
    Reached(t, r);
    assert Step(cleared, YES) == t;
    Drives(cleared, t, r);
    assert Step(live, YES) == cleared;
    Drives(live, t, r);
  }

  /** A whole move up to the entry `repinning`. */
  lemma MovesFile(s: Lun, r: Rules)
    requires Ready(s) && LetsIn(s, r) && s.tier != s.dest
    ensures Reaches(s, PinnedAgain(s), r)
  {
    Opens(s, r);
    Switches(s, r);
    Repins(s, r);
    Joins(UnderWay(s, Prepare), UnderWay(s, Unpin), PinOff(s), r);
    Joins(UnderWay(s, Prepare), PinOff(s), CutOverAt(s), r);
    Joins(UnderWay(s, Prepare), CutOverAt(s), PinnedAgain(s), r);
    Starts(s, PinnedAgain(s), r);
  }

  lemma Unpins(s: Lun, r: Rules)
    requires Ready(s) && LetsIn(s, r)
    ensures Reaches(s, UnderWay(s, Unpin), r) && Reaches(s, PinOff(s), r)
  {
    Opens(s, r);
    Starts(s, UnderWay(s, Unpin), r);
    Joins(s, UnderWay(s, Unpin), PinOff(s), r);
  }

  // ---- a reconcile left pending ----

  /** Some way is open to have a reconcile pending while no move runs. */
  predicate Pending(r: Rules) { !r.alone || !r.execReads || !r.sweepReads || !r.writes }

  /** A move let in at `s` has stopped with its intent still in flight, or a reconcile met it: its
      verdict is pending, and the operator records the next move. */
  lemma LeavesPending(s: Lun, dest: nat, r: Rules)
    requires Ready(s) && s.reconcile.NoReconcile? && LetsIn(s, r) && Pending(r)
    ensures Reaches(s, s.(dest := dest, reconcile := Deciding(s.dest)), r)
  {
    var t := s.(dest := dest, reconcile := Deciding(s.dest));
    var m := UnderWay(s, Prepare);
    if !r.alone {
      MetByReconcile(m, r);
      Records(m.(journal := Failed, exec := Idle, reconcile := Deciding(s.dest)), dest, r);
      Joins(m, m.(journal := Failed, exec := Idle, reconcile := Deciding(s.dest)), t, r);
    } else {
      if !r.sweepReads { Unswept(m, r); } else { Unmarked(m, r); }
      Reconciles(m.(exec := Idle), r);
      Records(m.(exec := Idle, reconcile := Deciding(s.dest)), dest, r);
      Joins(m, m.(exec := Idle), m.(exec := Idle, reconcile := Deciding(s.dest)), r);
      Joins(m, m.(exec := Idle, reconcile := Deciding(s.dest)), t, r);
    }
    Starts(s, t, r);
  }

  lemma Records(s: Lun, dest: nat, r: Rules)
    requires s.daemon.Up? && s.pinned && s.quiesced && (r.waits ==> s.exec.Idle?)
    ensures Reaches(s, s.(journal := Planned, dest := dest), r)
  {
    Reached(s.(journal := Planned, dest := dest), r);
    Leads(s, Record(GRANTED, dest), s.(journal := Planned, dest := dest), r);
  }

  lemma Reconciles(s: Lun, r: Rules)
    requires s.exec.Idle? && s.daemon.Up? && s.pinned && InFlight(s.journal) && s.reconcile.NoReconcile?
    ensures Reaches(s, s.(reconcile := Deciding(s.dest)), r)
  {
    Reached(s.(reconcile := Deciding(s.dest)), r);
    Reads(s, s.(reconcile := Deciding(s.dest)), r);
  }

  /** The reconcile reads the intent of a move that then cannot be prepared. */
  lemma MetByReconcile(m: Lun, r: Rules)
    requires m.exec == At(Prepare, true) && m.daemon.Up? && m.journal.Executing? && m.pinned && m.reconcile.NoReconcile?
    requires !r.alone
    ensures Reaches(m, m.(journal := Failed, exec := Idle, reconcile := Deciding(m.dest)), r)
  {
    var d := m.(reconcile := Deciding(m.dest));
    FailsPreparing(d, YES, r);
    Reads(m, d.(journal := Failed, exec := Idle), r);
  }

  /** A move that cannot be prepared, its failure journaled as `noted` allows. */
  lemma FailsPreparing(m: Lun, noted: Answer, r: Rules)
    requires m.exec == At(Prepare, true) && m.daemon.Up? && m.journal.Executing?
    requires (r.execReads ==> noted.read) && (r.writes ==> noted.write)
    ensures Reaches(m, m.(journal := if noted.read && noted.write then Failed else m.journal, exec := Idle), r)
  {
    var t := m.(journal := if noted.read && noted.write then Failed else m.journal, exec := Idle);
    var failing := m.(exec := At(MarkFailed, true));
    Reached(t, r);
    DrivesBy(failing, noted, t, t, r);
    DrivesBy(m, NO, failing, t, r);
  }

  /** The failure of a move that cannot be prepared is not journaled. */
  lemma Unmarked(m: Lun, r: Rules)
    requires m.exec == At(Prepare, true) && m.daemon.Up? && m.journal.Executing?
    requires !r.execReads || !r.writes
    ensures Reaches(m, m.(exec := Idle), r)
  {
    FailsPreparing(m, if !r.execReads then Answer(true, false, true, false) else Answer(true, true, false, false), r);
  }

  /** The daemon dies, and the boot sweep cannot read the intent. */
  lemma Unswept(m: Lun, r: Rules)
    requires m.daemon.Up? && m.reconcile.NoReconcile? && InFlight(m.journal) && !r.sweepReads
    ensures Reaches(m, m.(exec := Idle), r)
  {
    var dead := m.(exec := Idle, daemon := Down);
    Reached(m.(exec := Idle), r);
    SweptBlind(dead, m.(exec := Idle), r);
    Dies(m, m.(exec := Idle), r);
  }

  // ---- a file left unpinned ----

  /** What one move needs so that it cannot leave its file unpinned behind. */
  predicate MoveRules(r: Rules) { r.waits && r.pins && r.execReads && r.sweepReads && r.alone }

  /** The same for any number of moves: a reconcile pending from an earlier one must not fall on a
      later one. */
  predicate WindowRules(r: Rules) { MoveRules(r) && (r.quiet || r.writes) }

  predicate IsStranded(s: Lun) { s.exec.Idle? && s.daemon.Up? && !s.pinned }

  ghost predicate Strands(s: Lun, r: Rules) { exists t :: Reaches(s, t, r) && IsStranded(t) }

  lemma StrandsFrom(s: Lun, t: Lun, r: Rules)
    requires Reaches(s, t, r) && Strands(t, r)
    ensures Strands(s, r)
  {
    var u :| Reaches(t, u, r) && IsStranded(u);
    Joins(s, t, u, r);
  }

  lemma StrandsAt(s: Lun, t: Lun, r: Rules)
    requires Reaches(s, t, r) && IsStranded(t)
    ensures Strands(s, r)
  {}

  /** A move let in at `s` strands its file when a pin call does not answer, the executor or the
      sweep cannot read the intent, or a reconcile calls the move failed before it unpins. */
  lemma MoveStrands(s: Lun, r: Rules)
    requires s.daemon.Up? && s.pinned && s.reconcile.NoReconcile? && r.waits && !MoveRules(r)
    ensures Strands(UnderWay(s, Prepare), r)
  {
    var m, open := UnderWay(s, Unpin), PinOff(s);
    Opens(s, r);
    Joins(UnderWay(s, Prepare), m, open, r);
    if !r.pins {
      Fails(open, r);
      StrandsAt(open, open.(journal := Failed, exec := Idle), r);
      StrandsFrom(UnderWay(s, Prepare), open, r);
    } else if !r.execReads {
      LosesFile(open, r);
      StrandsAt(open, open.(journal := Failed, exec := Idle), r);
      StrandsFrom(UnderWay(s, Prepare), open, r);
    } else if !r.sweepReads {
      Unswept(open, r);
      StrandsAt(open, open.(exec := Idle), r);
      StrandsFrom(UnderWay(s, Prepare), open, r);
    } else {
      CalledFailed(s.(reconcile := Deciding(s.dest)), r);
      Reads(m, Discarded(s), r);
      StrandsAt(m, Discarded(s), r);
      StrandsFrom(UnderWay(s, Prepare), m, r);
    }
  }

  /** The plan is refused, the re-pin does not answer, and the failure is journaled. */
  lemma Fails(open: Lun, r: Rules)
    requires open.exec == At(NoteUnpinned, true) && open.daemon.Up? && !open.journal.Absent? && !r.pins
    ensures Reaches(open, open.(journal := Failed, exec := Idle), r)
  {
    var planning := open.(journal := Unpinned, exec := At(Plan, true));
    FailsUndoing(planning, NO, r);
    assert Step(open, YES) == planning;
    Drives(open, open.(journal := Failed, exec := Idle), r);
  }

  /** A journal read that fails once makes the executor forget the file: the re-pin after the
      next error is a call on an empty path, and `failed` is journaled over an unpinned LUN. */
  lemma LosesFile(open: Lun, r: Rules)
    requires open.exec == At(NoteUnpinned, true) && open.daemon.Up? && !open.journal.Absent? && !r.execReads
    ensures Reaches(open, open.(journal := Failed, exec := Idle), r)
  {
    var lost := open.(exec := At(Plan, false));
    FailsUndoing(lost, YES, r);
    DrivesBy(open, Answer(true, false, true, false), lost, open.(journal := Failed, exec := Idle), r);
  }

  /** From a refused plan on; `undo` answers the re-pin, which is not made without the file. */
  lemma FailsUndoing(planning: Lun, undo: Answer, r: Rules)
    requires planning.exec.At? && planning.exec.pc.Plan? && planning.daemon.Up? && !planning.journal.Absent?
    requires undo.read && undo.write && (r.pins ==> undo.ok) && (undo.ok ==> !planning.exec.held)
    ensures Reaches(planning, planning.(journal := Failed, exec := Idle), r)
  {
    var held, t := planning.exec.held, planning.(journal := Failed, exec := Idle);
    var undoing, failing := planning.(exec := At(Undo, held)), planning.(exec := At(MarkFailed, held));
    Marks(failing, r);
    UndoesNothing(undoing, undo, t, r);
    DrivesBy(planning, NO, undoing, t, r);
  }

  lemma Marks(failing: Lun, r: Rules)
    requires failing.exec.At? && failing.exec.pc.MarkFailed? && failing.daemon.Up? && !failing.journal.Absent?
    ensures Reaches(failing, failing.(journal := Failed, exec := Idle), r)
  {
    var t := failing.(journal := Failed, exec := Idle);
    Reached(t, r);
    DrivesBy(failing, YES, t, t, r);
  }

  lemma UndoesNothing(undoing: Lun, undo: Answer, t: Lun, r: Rules)
    requires undoing.exec.At? && undoing.exec.pc.Undo? && undoing.daemon.Up?
    requires undo.read && undo.write && (r.pins ==> undo.ok) && (undo.ok ==> !undoing.exec.held)
    requires Reaches(undoing.(exec := At(MarkFailed, undoing.exec.held)), t, r)
    ensures Reaches(undoing, t, r)
  {
    DrivesBy(undoing, undo, undoing.(exec := At(MarkFailed, undoing.exec.held)), t, r);
  }

  /** A move called failed by a reconcile, unpinned after that, and never looked at again. */
  function Discarded(s: Lun): Lun {
    s.(pinned := false, journal := Failed, target := s.dest, exec := Idle, reconcile := NoReconcile)
  }

  /** The pending verdict falls on the move about to unpin; the daemon dies after the unpin, and the
      boot sweep passes over a failed intent. */
  lemma CalledFailed(s: Lun, r: Rules)
    requires s.daemon.Up? && s.reconcile == Deciding(s.dest)
    ensures Reaches(UnderWay(s, Unpin), Discarded(s), r)
  {
    var failed := PinOff(s).(journal := Failed, reconcile := NoReconcile);
    UnpinsFailed(s, r);
    Forgotten(failed, r);
    Joins(UnderWay(s, Unpin), failed, Discarded(s), r);
  }

  lemma UnpinsFailed(s: Lun, r: Rules)
    requires s.daemon.Up? && s.reconcile == Deciding(s.dest)
    ensures Reaches(UnderWay(s, Unpin), PinOff(s).(journal := Failed, reconcile := NoReconcile), r)
  {
    var m, t := UnderWay(s, Unpin), PinOff(s).(journal := Failed, reconcile := NoReconcile);
    var failed := m.(journal := Failed, reconcile := NoReconcile);
    Reached(t, r);
    assert Step(failed, YES) == t;
    Drives(failed, t, r);
    Decides(m, t, r);
  }

  lemma Decides(m: Lun, t: Lun, r: Rules)
    requires m.daemon.Up? && m.reconcile.Deciding?
    requires Reaches(m.(journal := Failed, dest := m.reconcile.goal, reconcile := NoReconcile), t, r)
    ensures Reaches(m, t, r)
  {
    assert Apply(m, ReconcileNote(false, true)) == m.(journal := Failed, dest := m.reconcile.goal, reconcile := NoReconcile);
    Leads(m, ReconcileNote(false, true), t, r);
  }

  lemma Forgotten(m: Lun, r: Rules)
    requires m.daemon.Up? && m.journal.Failed? && m.reconcile.NoReconcile?
    ensures Reaches(m, m.(exec := Idle), r)
  {
    var dead, t := m.(exec := Idle, daemon := Down), m.(exec := Idle);
    Reached(t, r);
    assert Apply(dead, SweepPin(true, true)) == t;
    Leads(dead, SweepPin(true, true), t, r);
    Dies(m, t, r);
  }

  const START := Lun(true, false, true, Planned, 1, 0, 0, Placed, Data(Unplanned, true), Idle, Up, NoReconcile)

  /** Unless the rules of the window are in force, some run from rest strands the file. */
  lemma RestStrands(r: Rules)
    requires !r.once && r.waits && !WindowRules(r)
    ensures Strands(START, r)
  {
    if !MoveRules(r) {
      Reached(UnderWay(START, Prepare), r);
      Starts(START, UnderWay(START, Prepare), r);
      MoveStrands(START, r);
      StrandsFrom(START, UnderWay(START, Prepare), r);
    } else {
      StaleVerdictStrands(START, r);
    }
  }

  /** A reconcile pending from an earlier move calls the next one failed. */
  lemma StaleVerdictStrands(s: Lun, r: Rules)
    requires Ready(s) && s.reconcile.NoReconcile? && LetsIn(s, r) && !r.quiet && !r.writes
    ensures Strands(s, r)
  {
    var d := s.(reconcile := Deciding(s.dest));
    LeavesPending(s, s.dest, r);
    Unpins(d, r);
    CalledFailed(d, r);
    Joins(s, d, UnderWay(d, Unpin), r);
    Joins(s, UnderWay(d, Unpin), Discarded(s), r);
    StrandsAt(s, Discarded(s), r);
  }

  // ---- 1. the pin window ----

  /** The executor still knows its file. */
  predicate HeldInv(s: Lun) { s.exec.At? ==> s.exec.held && !s.journal.Absent? && s.daemon.Up? }

  lemma HeldStep(s: Lun, a: Action, r: Rules)
    requires HeldInv(s) && MoveRules(r) && (r.quiet || r.once) && Obeys(s, a, r)
    ensures HeldInv(Apply(s, a)) && WindowPremise(s, a)
  {
    HeldKept(s, a);
  }

  lemma HeldKept(s: Lun, a: Action)
    requires HeldInv(s) && ExecReads(s, a) && OperatorWaits(s, a)
    ensures HeldInv(Apply(s, a))
  {}

  lemma {:induction false} HeldRun(s: Lun, acts: seq<Action>, r: Rules)
    requires HeldInv(s) && MoveRules(r) && (r.quiet || r.once) && Along(s, acts, Under(r))
    ensures Along(s, acts, WindowPremise)
    decreases acts
  {
    if acts != [] {
      HeldStep(s, acts[0], r);
      HeldRun(Apply(s, acts[0]), acts[1..], r);
    }
  }

  /** With a store that works, no reconcile is ever pending outside a move. */
  lemma {:induction false} NeverPending(s: Lun, acts: seq<Action>, r: Rules)
    requires JournalInv(s) && r.waits && !Pending(r) && Along(s, acts, Under(r))
    ensures Along(s, acts, JournalPremise) && Along(s, acts, MovedPremise)
    ensures r.pins ==> Along(s, acts, WindowPremise)
    decreases acts
  {
    if acts != [] {
      JournalStep(s, acts[0]);
      NeverPending(Apply(s, acts[0]), acts[1..], r);
    }
  }

  /** The rules of the window give the premises of its proof. */
  lemma WindowHolds(s: Lun, acts: seq<Action>, r: Rules)
    requires AtRest(s) && WindowRules(r) && Along(s, acts, Under(r))
    ensures Along(s, acts, WindowPremise)
  {
    if r.quiet { HeldRun(s, acts, r); } else { NeverPending(s, acts, r); }
  }

  /** For every choice of rules: the pin window is kept by every run from rest exactly when the
      operator waits, pin calls answer, neither the executor's nor the sweep's journal reads can
      fail, no reconcile meets a move, and either no move is let in under a pending reconcile or
      journal writes cannot fail either. */
  lemma WindowIff(r: Rules)
    requires !r.once
    ensures (forall s, t | AtRest(s) && Reaches(s, t, r) :: PinWindow(t)) <==> WindowRules(r)
  {
    if WindowRules(r) {
      forall s, t | AtRest(s) && Reaches(s, t, r) ensures PinWindow(t) {
        var acts :| Along(s, acts, Under(r)) && Run(s, acts) == t;
        WindowHolds(s, acts, r);
        UnpinnedOnlyInWindow(s, acts);
      }
    } else {
      var t := LeavesWindow(r);
      assert AtRest(START);
    }
  }

  /** An abort during the move, or a clear once the file is stranded. */
  lemma LeavesWindow(r: Rules) returns (t: Lun)
    requires !r.once && !WindowRules(r)
    ensures Reaches(START, t, r) && !PinWindow(t)
  {
    if !r.waits {
      AbortsOpen(r);
      t := PinOff(START).(journal := Planned);
    } else {
      RestStrands(r);
      var u :| Reaches(START, u, r) && IsStranded(u);
      t := u.(journal := Absent);
      Clears(u, r);
      Joins(START, u, t, r);
    }
  }

  lemma Aborts(s: Lun, r: Rules)
    requires s.daemon.Up? && Abortable(s.journal) && (r.waits ==> s.exec.Idle?)
    ensures Reaches(s, s.(journal := Planned), r)
  {
    Reached(s.(journal := Planned), r);
    Leads(s, Abort(GRANTED), s.(journal := Planned), r);
  }

  lemma Clears(s: Lun, r: Rules)
    requires s.daemon.Up? && s.exec.Idle?
    ensures Reaches(s, s.(journal := Absent), r)
  {
    Reached(s.(journal := Absent), r);
    Leads(s, Clear(GRANTED), s.(journal := Absent), r);
  }

  // ---- 2. an unpinned LUN stays quiesced, and 3. none is live ----

  /** A probe that fails counts as "not on smoothfs", and a resume of a stranded file goes through. */
  lemma ResumesBlind(s: Lun, r: Rules)
    requires IsStranded(s) && !r.probes
    ensures Reaches(s, s.(live := true, quiesced := false), r)
  {
    var t := s.(live := true, quiesced := false);
    Reached(t, r);
    Leads(s, Resume(Call(false, true, true)), t, r);
  }

  /** A resume during the move, of a target still pinned, and then the unpin. */
  lemma ResumesUnpinning(s: Lun, r: Rules)
    requires s.daemon.Up? && s.pinned && !r.waits
    ensures Reaches(UnderWay(s, Unpin), PinOff(s).(live := true, quiesced := false), r)
  {
    var m, t := UnderWay(s, Unpin), PinOff(s).(live := true, quiesced := false);
    var resumed := m.(live := true, quiesced := false);
    Reached(t, r);
    assert Step(resumed, YES) == t;
    Drives(resumed, t, r);
    assert Apply(m, Resume(GRANTED)) == resumed;
    Leads(m, Resume(GRANTED), t, r);
  }

  /** From rest to a live target on an unpinned file with the flag cleared. */
  lemma ExposesUnflagged(r: Rules) returns (t: Lun)
    requires !r.once && (!r.waits || (!r.probes && !WindowRules(r)))
    ensures Reaches(START, t, r) && t.live && !t.pinned && !t.quiesced
  {
    if !r.waits {
      Unpins(START, r);
      ResumesUnpinning(START, r);
      t := PinOff(START).(live := true, quiesced := false);
      Joins(START, UnderWay(START, Unpin), t, r);
    } else {
      RestStrands(r);
      var u :| Reaches(START, u, r) && IsStranded(u);
      t := u.(live := true, quiesced := false);
      ResumesBlind(u, r);
      Joins(START, u, t, r);
    }
  }

  predicate QuiesceRules(r: Rules) { r.waits && (r.probes || WindowRules(r)) }

  /** For every choice of rules: unpinned implies quiesced in every run from rest exactly when the
      operator waits and either pin probes cannot fail or no file can be left unpinned. */
  lemma QuiescedIff(r: Rules)
    requires !r.once
    ensures (forall s, t | AtRest(s) && Reaches(s, t, r) :: !t.pinned ==> t.quiesced) <==> QuiesceRules(r)
  {
    if QuiesceRules(r) {
      forall s, t | AtRest(s) && Reaches(s, t, r) && !t.pinned ensures t.quiesced {
        var acts :| Along(s, acts, Under(r)) && Run(s, acts) == t;
        if r.probes {
          AlongWeakens(s, acts, Under(r), QuiescePremise);
          QuiesceRun(s, acts);
        } else {
          WindowHolds(s, acts, r);
          PinnedRun(s, acts);
        }
      }
    } else {
      var t := ExposesUnflagged(r);
      assert AtRest(START);
    }
  }

  /** While the window holds, a resume can only meet a pinned file, whatever its probe says. */
  lemma {:induction false} PinnedRun(s: Lun, acts: seq<Action>)
    requires WindowInv(s) && QuiesceInv(s) && Along(s, acts, WindowPremise)
    ensures QuiesceInv(Run(s, acts))
    decreases acts
  {
    if acts != [] {
      WindowStep(s, acts[0]);
      PinnedStep(s, acts[0]);
      PinnedRun(Apply(s, acts[0]), acts[1..]);
    }
  }

  lemma PinnedStep(s: Lun, a: Action)
    requires WindowInv(s) && QuiesceInv(s) && WindowPremise(s, a)
    ensures QuiesceInv(Apply(s, a))
  {
    if !a.Resume? { QuiesceStep(s, if a.Quiesce? then Quiesce(a.c.(probe := true)) else a); }
  }

  predicate LiveRules(r: Rules) { QuiesceRules(r) && r.stopped }

  /** For every choice of rules: a live target is on a pinned file in every run from rest exactly
      when, besides, moves are let in only on targets that are really stopped. */
  lemma LiveIff(r: Rules)
    requires !r.once
    ensures (forall s, t | AtRest(s) && Reaches(s, t, r) :: LivePinned(t)) <==> LiveRules(r)
  {
    if LiveRules(r) {
      forall s, t | AtRest(s) && Reaches(s, t, r) ensures LivePinned(t) {
        var acts :| Along(s, acts, Under(r)) && Run(s, acts) == t;
        if r.probes {
          AlongWeakens(s, acts, Under(r), StoppedPremise);
          StoppedMovesStaySafe(s, acts);
        } else {
          WindowHolds(s, acts, r);
          StoppedRun(s, acts, r);
        }
      }
    } else if !QuiesceRules(r) {
      var t := ExposesUnflagged(r);
      assert AtRest(START) && !LivePinned(t);
    } else {
      var s := START.(live := true);
      Opens(s, r);
      Starts(s, UnderWay(s, Unpin), r);
      Joins(s, UnderWay(s, Unpin), PinOff(s), r);
      assert AtRest(s) && !LivePinned(PinOff(s));
    }
  }

  lemma {:induction false} StoppedRun(s: Lun, acts: seq<Action>, r: Rules)
    requires WindowInv(s) && StoppedInv(s) && Along(s, acts, WindowPremise) && Along(s, acts, Under(r))
    requires r.stopped || r.once
    ensures StoppedInv(Run(s, acts))
    decreases acts
  {
    if acts != [] {
      WindowStep(s, acts[0]);
      StoppedPinned(s, acts[0]);
      StoppedRun(Apply(s, acts[0]), acts[1..], r);
    }
  }

  lemma StoppedPinned(s: Lun, a: Action)
    requires WindowInv(s) && StoppedInv(s) && WindowPremise(s, a) && ExecutesStopped(s, a)
    ensures StoppedInv(Apply(s, a))
  {
    if !a.Resume? { StoppedStep(s, if a.Quiesce? then Quiesce(a.c.(probe := true)) else a); }
  }

  /** The flag is not enough. For every choice of rules: one move that is let in keeps a live target
      off an unpinned file, over failures, crashes, sweeps and later requests, exactly when the
      target is really stopped at that moment, the operator waits, and either later pin probes
      cannot fail or the move cannot leave its file unpinned. */
  lemma MoveSafeIff(s: Lun, c: Call, r: Rules)
    requires StoppedInv(s) && s.exec.Idle? && s.daemon == Up && s.reconcile.NoReconcile? && r.once
    requires s.journal.Planned? && Preflight(s, c) && c.write
    ensures (forall t | Reaches(Apply(s, Execute(c)), t, r) :: LivePinned(t))
            <==> !s.live && r.waits && (r.probes || MoveRules(r))
  {
    var s1 := Apply(s, Execute(c));
    assert s1 == UnderWay(s, Prepare);
    if !s.live && r.waits && (r.probes || MoveRules(r)) {
      forall t | Reaches(s1, t, r) ensures LivePinned(t) {
        var acts :| Along(s1, acts, Under(r)) && Run(s1, acts) == t;
        if r.probes {
          AlongWeakens(s1, acts, Under(r), StoppedPremise);
          StoppedMovesStaySafe(s1, acts);
        } else {
          HeldRun(s1, acts, r);
          StoppedRun(s1, acts, r);
        }
      }
    } else {
      var t := MoveExposes(s, r);
    }
  }

  lemma MoveExposes(s: Lun, r: Rules) returns (t: Lun)
    requires s.daemon.Up? && s.pinned && s.reconcile.NoReconcile?
    requires s.live || !r.waits || (!r.probes && !MoveRules(r))
    ensures Reaches(UnderWay(s, Prepare), t, r) && !LivePinned(t)
  {
    Opens(s, r);
    if !r.waits {
      ResumesUnpinning(s, r);
      t := PinOff(s).(live := true, quiesced := false);
      Joins(UnderWay(s, Prepare), UnderWay(s, Unpin), t, r);
    } else if s.live {
      t := PinOff(s);
      Joins(UnderWay(s, Prepare), UnderWay(s, Unpin), t, r);
    } else {
      MoveStrands(s, r);
      var u :| Reaches(UnderWay(s, Prepare), u, r) && IsStranded(u);
      t := u.(live := true, quiesced := false);
      ResumesBlind(u, r);
      Joins(UnderWay(s, Prepare), u, t, r);
    }
  }

  /** And a stopped-looking target can be live: a resume whose flag write fails leaves the flag
      set, and the next move is let in and unpins it, with every rule but `stopped` in force. */
  lemma StaleFlagUnpinsLiveTarget()
    ensures var r := Rules(true, true, true, true, true, true, true, true, false, true, false);
            exists t :: Reaches(START, t, r) && t.live && !t.pinned && t.quiesced
  {
    var r := Rules(true, true, true, true, true, true, true, true, false, true, false);
    var lying := START.(live := true);
    Opens(lying, r);
    Starts(lying, UnderWay(lying, Unpin), r);
    Joins(lying, UnderWay(lying, Unpin), PinOff(lying), r);
    assert Apply(START, Resume(Call(true, true, false))) == lying;
    Leads(START, Resume(Call(true, true, false)), PinOff(lying), r);
  }

  // ---- 4. the journal's automaton ----

  /** Some run from rest reaches a state in which an allowed action leaves the automaton. */
  ghost predicate Strays(r: Rules) {
    exists s, t, a :: AtRest(s) && Reaches(s, t, r) && Obeys(t, a, r) && !Edge(t.journal, Apply(t, a).journal)
  }

  /** For every choice of rules: every action of every run from rest follows the automaton exactly
      when the operator waits, the store works and no reconcile meets a move. */
  lemma AutomatonIff(r: Rules)
    requires !r.once
    ensures !Strays(r) <==> r.waits && !Pending(r)
  {
    if r.waits && !Pending(r) {
      forall s, t, a | AtRest(s) && Reaches(s, t, r) && Obeys(t, a, r) ensures Edge(t.journal, Apply(t, a).journal) {
        var acts :| Along(s, acts, Under(r)) && Run(s, acts) == t;
        NeverPending(s, acts, r);
        JournalFollowsAutomaton(s, acts);
        JournalStep(t, a);
      }
    } else {
      var t, a := LeavesAutomaton(r);
      assert AtRest(START);
    }
  }

  lemma LeavesAutomaton(r: Rules) returns (t: Lun, a: Action)
    requires !r.once && (!r.waits || Pending(r))
    ensures Reaches(START, t, r) && Obeys(t, a, r) && !Edge(t.journal, Apply(t, a).journal)
  {
    if r.waits && r.alone && r.execReads && r.writes {
      t, a := START.(reconcile := Deciding(1)), ReconcileNote(false, true);
      LeavesPending(START, 1, r);
    } else {
      a := Drive(YES);
      t := MisplacesEntry(r);
      NextEntry(t);
    }
  }

  /** About to write an entry that does not follow on the one in the journal: after an abort, over a
      reconcile's verdict, or past an entry that was not written. */
  lemma MisplacesEntry(r: Rules) returns (t: Lun)
    requires !r.once && (!r.waits || !r.alone || !r.execReads || !r.writes)
    ensures Reaches(START, t, r) && t.exec.At? && t.daemon.Up? && Notes(t.exec.pc) && !t.journal.Absent?
    ensures !Edge(t.journal, Entry(t.exec.pc))
  {
    var m, open := UnderWay(START, Unpin), PinOff(START);
    Unpins(START, r);
    if !r.waits {
      t := open.(journal := Planned);
      AbortsOpen(r);
    } else if !r.alone {
      t := open.(journal := Failed);
      JournalsFailed(r);
      Joins(START, m, t, r);
    } else {
      t := SkipsFromRest(r);
    }
  }

  lemma SkipsFromRest(r: Rules) returns (t: Lun)
    requires !r.once && (!r.execReads || !r.writes)
    ensures Reaches(START, t, r) && t.exec.At? && t.daemon.Up? && t.exec.pc.NoteMoving? && t.journal.Executing?
  {
    Unpins(START, r);
    t := SkipsEntry(PinOff(START), r);
    Joins(START, PinOff(START), t, r);
  }

  lemma AbortsOpen(r: Rules)
    requires !r.once && !r.waits
    ensures Reaches(START, PinOff(START).(journal := Planned), r)
  {
    Unpins(START, r);
    Aborts(PinOff(START), r);
    Joins(START, PinOff(START), PinOff(START).(journal := Planned), r);
  }

  lemma JournalsFailed(r: Rules)
    requires !r.alone
    ensures Reaches(UnderWay(START, Unpin), PinOff(START).(journal := Failed), r)
  {
    var m := UnderWay(START, Unpin);
    UnpinsFailed(START.(reconcile := Deciding(1)), r);
    assert UnderWay(START.(reconcile := Deciding(1)), Unpin) == m.(reconcile := Deciding(m.dest));
    Reads(m, PinOff(START).(journal := Failed), r);
  }

  lemma NextEntry(s: Lun)
    requires s.exec.At? && s.daemon.Up? && Notes(s.exec.pc) && !s.journal.Absent?
    ensures Apply(s, Drive(YES)).journal == Entry(s.exec.pc)
  {}

  /** About to journal `moving` although `unpinned` was never written. */
  lemma SkipsEntry(open: Lun, r: Rules) returns (t: Lun)
    requires open.exec == At(NoteUnpinned, true) && open.daemon.Up? && !open.journal.Absent? && (!r.execReads || !r.writes)
    requires open.tier != open.target
    ensures Reaches(open, t, r)
    ensures t == open.(movement := MidFlight, data := open.data.(work := Accepted), exec := At(NoteMoving, r.execReads))
  {
    var lost := if !r.execReads then Answer(true, false, true, false) else Answer(true, true, false, false);
    var planning := open.(exec := At(Plan, r.execReads));
    t := open.(movement := MidFlight, data := open.data.(work := Accepted), exec := At(NoteMoving, r.execReads));
    var inspecting := t.(exec := At(Inspect, r.execReads));
    Reached(t, r);
    assert Step(inspecting, YES) == t;
    Drives(inspecting, t, r);
    assert Step(planning, YES) == inspecting;
    Drives(planning, t, r);
    DrivesBy(open, lost, planning, t, r);
  }

  // ---- 5. completed means moved ----

  predicate MovedRules(r: Rules) { r.waits && (r.quiet || !Pending(r)) }

  /** For every choice of rules: a journal that says completed has the file on its destination tier,
      in every run from a rest that says so truly, exactly when the operator waits and either no
      move is let in under a pending reconcile or none can be pending. */
  lemma MovedIff(r: Rules)
    requires !r.once
    ensures (forall s, t | AtRest(s) && MovedInv(s) && Reaches(s, t, r) :: t.journal.Completed? ==> t.tier == t.dest)
            <==> MovedRules(r)
  {
    if MovedRules(r) {
      forall s, t | AtRest(s) && MovedInv(s) && Reaches(s, t, r) && t.journal.Completed? ensures t.tier == t.dest {
        var acts :| Along(s, acts, Under(r)) && Run(s, acts) == t;
        if r.quiet { AlongWeakens(s, acts, Under(r), MovedPremise); } else { NeverPending(s, acts, r); }
        CompletedMeansMoved(s, acts);
      }
    } else {
      var t := CompletesElsewhere(r);
      assert AtRest(START) && MovedInv(START);
    }
  }

  /** The destination changes while the move's last entries are still to come: by a record during
      the move, or by a reconcile that writes back the intent it read before. */
  lemma CompletesElsewhere(r: Rules) returns (t: Lun)
    requires !r.once && !MovedRules(r)
    ensures Reaches(START, t, r) && t.journal.Completed? && t.tier != t.dest
  {
    var u: Lun;
    if !r.waits {
      MovesFile(START, r);
      u := PinnedAgain(START).(journal := Planned, dest := 2);
      Records(PinnedAgain(START), 2, r);
      Joins(START, PinnedAgain(START), u, r);
    } else {
      var s := START.(dest := 2, reconcile := Deciding(1));
      LeavesPending(START, 2, r);
      MovesFile(s, r);
      Joins(START, s, PinnedAgain(s), r);
      u := PinnedAgain(s).(journal := Failed, dest := 1, reconcile := NoReconcile);
      Reached(u, r);
      Decides(PinnedAgain(s), u, r);
      Joins(START, PinnedAgain(s), u, r);
    }
    t := u.(journal := Completed, live := true, quiesced := false, exec := Idle);
    Completes(u, r);
    Joins(START, u, t, r);
  }

  // ---- 6. the bytes come along ----

  /** For every choice of rules: what the kernel serves is all that initiators wrote, in every run
      from a rest where it was, exactly when the operator waits, moves are let in only on targets
      that are really stopped, and the kernel refuses a move to the tier the file is on. */
  lemma WholeIff(r: Rules)
    requires !r.once
    ensures (forall s, t | AtRest(s) && s.data.whole && Reaches(s, t, r) :: t.data.whole)
            <==> r.waits && r.stopped && r.elsewhere
  {
    if r.waits && r.stopped && r.elsewhere {
      forall s, t | AtRest(s) && s.data.whole && Reaches(s, t, r) ensures t.data.whole {
        var acts :| Along(s, acts, Under(r)) && Run(s, acts) == t;
        AlongWeakens(s, acts, Under(r), WholePremise);
        NoWriteIsLost(s, acts);
      }
    } else {
      var s, t := LosesBytes(r);
    }
  }

  lemma LosesBytes(r: Rules) returns (s: Lun, t: Lun)
    requires !r.once && !(r.waits && r.stopped && r.elsewhere)
    ensures AtRest(s) && s.data.whole && Reaches(s, t, r) && !t.data.whole
  {
    if !r.elsewhere {
      s := START.(tier := 1);
      Unpins(s, r);
      t := TruncatesItself(s, r);
      Joins(s, PinOff(s), t, r);
    } else if !r.stopped {
      s := START.(live := true);
      Opens(s, r);
      Starts(s, UnderWay(s, Unpin), r);
      Joins(s, UnderWay(s, Unpin), PinOff(s), r);
      t := MissesWrite(s, r);
      Joins(s, PinOff(s), t, r);
    } else {
      s := START;
      Unpins(s, r);
      ResumesUnpinning(s, r);
      var exposed := START.(live := true, quiesced := false);
      assert PinOff(exposed) == PinOff(s).(live := true, quiesced := false);
      Joins(s, UnderWay(s, Unpin), PinOff(exposed), r);
      t := MissesWrite(exposed, r);
      Joins(s, PinOff(exposed), t, r);
    }
  }

  /** A move to the tier the file is on opens the file itself as the destination. */
  lemma TruncatesItself(s: Lun, r: Rules) returns (t: Lun)
    requires s.daemon.Up? && s.tier == s.dest && !r.elsewhere
    ensures Reaches(PinOff(s), t, r) && !t.data.whole
  {
    t := PlannedAt(s).(journal := Moving, data := Data(Copied(true), false), exec := At(CutOver, true));
    PlansAndInspects(s, r);
    Copies(PlannedAt(s), t, r);
    Joins(PinOff(s), PlannedAt(s), t, r);
  }

  /** An initiator of a live target writes after the copy and before the switch. */
  lemma MissesWrite(s: Lun, r: Rules) returns (t: Lun)
    requires s.daemon.Up? && s.live && s.tier != s.dest
    ensures Reaches(PinOff(s), t, r) && !t.data.whole
  {
    var m := PlannedAt(s).(journal := Moving, data := s.data.(work := Copied(true)), exec := At(CutOver, true));
    PlansAndInspects(s, r);
    Copies(PlannedAt(s), m, r);
    Joins(PinOff(s), PlannedAt(s), m, r);
    t := CutOverAt(s).(data := Data(Committed, false));
    WritesBehind(m, t, r);
    Joins(PinOff(s), m, t, r);
  }

  lemma WritesBehind(m: Lun, t: Lun, r: Rules)
    requires m.daemon.Up? && m.live && m.exec == At(CutOver, true) && m.data.work.Copied?
    requires t == m.(tier := m.target, movement := MidFlight, data := Data(Committed, false), exec := At(NoteCutover, true))
    ensures Reaches(m, t, r)
  {
    var behind := m.(data := m.data.(work := Copied(false)));
    Reached(t, r);
    assert Step(behind, YES) == t;
    Drives(behind, t, r);
    assert Apply(m, Write) == behind;
    Leads(m, Write, t, r);
  }

  // ---- and a move can succeed ----

  /** Quiesced, and the move to `dest` recorded. */
  function ReadyFor(s: Lun, dest: nat): Lun { s.(live := false, quiesced := true, journal := Planned, dest := dest) }

  /** The move done: on the destination with all its bytes, pinned, live and no longer quiesced. */
  function Moved(s: Lun, dest: nat): Lun {
    s.(live := true, quiesced := false, journal := Completed, dest := dest, target := dest, tier := dest,
       movement := Placed, data := s.data.(work := Clean), exec := Idle)
  }

  /** From any rest, with every rule obeyed: quiesce, record and execute bring the file to any other
      tier, whole, and the target back to life. */
  lemma MoveCompletes(s: Lun, dest: nat, r: Rules)
    requires AtRest(s) && s.tier != dest && !r.once
    ensures Reaches(s, Moved(s, dest), r)
  {
    var q, u := ReadyFor(s, dest), PinnedAgain(ReadyFor(s, dest));
    GetsReady(s, dest, r);
    MovesFile(q, r);
    Completes(u, r);
    assert Moved(s, dest) == u.(journal := Completed, live := true, quiesced := false, exec := Idle);
    Joins(s, q, u, r);
    Joins(s, u, Moved(s, dest), r);
  }

  lemma GetsReady(s: Lun, dest: nat, r: Rules)
    requires AtRest(s)
    ensures Reaches(s, ReadyFor(s, dest), r)
  {
    var stopped := s.(live := false, quiesced := true);
    Records(stopped, dest, r);
    assert Apply(s, Quiesce(GRANTED)) == stopped;
    Leads(s, Quiesce(GRANTED), ReadyFor(s, dest), r);
  }
}
