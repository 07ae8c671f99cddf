/** Moving a live iSCSI LUN between tiers: the journaled protocol of one file-backed target.
    Every effect of the executor, of the operator's endpoints and of the start-up sweep is one
    action; a crash may fall between any two. */
module ActiveLun {
  /** The journaled intent's state; `Absent` when no intent is recorded. */
  datatype Phase = Absent | Planned | Executing | Unpinned | Moving | Cutover | Repinning | Completed | Failed

  /** `iscsiLUNMoveIntentNonTerminal`. */
  predicate InFlight(p: Phase) { p.Executing? || p.Unpinned? || p.Moving? || p.Cutover? || p.Repinning? }

  /** `iscsiLUNMoveIntentAbortable`. */
  predicate Abortable(p: Phase) { InFlight(p) || p == Failed }

  /** The kernel's movement state for the file, as far as tierd tells them apart. */
  datatype Movement = Placed | CleanupComplete | MidFlight | MoveFailed | Stale

  predicate Settled(m: Movement) { m.Placed? || m.CleanupComplete? }

  /** Where the executor goroutine stands: the effect it is about to perform. */
  datatype Pc =
    | Prepare | Open | Unpin | NoteUnpinned | Plan | Inspect | NoteMoving | Copy | CutOver
    | NoteCutover | Wait | Repin | NoteRepinning | ResumeTarget | ClearFlag | NoteCompleted
    | Undo | MarkFailed

  /** `held`: the executor's copy of the intent still names the backing file. It is replaced
      after every journal entry by what was read back, which is empty if the read failed. */
  datatype Exec = Idle | At(pc: Pc, held: bool)

  /** `Down`: dead or not yet swept. `Swept`: re-pinned, verdict not yet journaled. */
  datatype Daemon = Up | Down | Swept

  /** A sweep run while the daemon serves, by a pool teardown that rewrites the sharing config:
      between its pin and its journal write it holds the destination of the intent it read. */
  datatype Reconcile = NoReconcile | Deciding(goal: nat)

  /** How far the file's latest move has come: the kernel took the plan, the bytes were copied (up
      to date unless an initiator wrote since), it switched the file, it reported the old copy gone. */
  datatype Work = Unplanned | Accepted | Copied(current: bool) | Committed | Clean

  /** `whole`: what the kernel serves is all that initiators wrote. */
  datatype Data = Data(work: Work, whole: bool)

  /** `dest` is the journaled destination, `target` the executor's own; `tier` is where the kernel
      serves the file from. */
  datatype Lun = Lun(pinned: bool, live: bool, quiesced: bool, journal: Phase, dest: nat, target: nat,
                     tier: nat, movement: Movement, data: Data,
                     exec: Exec, daemon: Daemon, reconcile: Reconcile)

  /** The environment's answers to one effect: the call, the journal read and write, the clock. For
      the copy, `write` is whether it came as far as opening its destination. */
  datatype Answer = Answer(ok: bool, read: bool, write: bool, expired: bool)

  /** The answers to one operator request: was the pin readable, did LIO obey, did the write land. */
  datatype Call = Call(probe: bool, lio: bool, write: bool)

  datatype Action =
    | Drive(a: Answer)
    | Crash
    | SweepPin(read: bool, ok: bool)
    | SweepNote(reached: bool, write: bool)
    | ReconcilePin(read: bool, ok: bool)
    | ReconcileNote(reached: bool, write: bool)
    | Kernel(m: Movement)
    | Write
    | Quiesce(c: Call)
    | Resume(c: Call)
    | Record(c: Call, dest: nat)
    | Execute(c: Call)
    | Abort(c: Call)
    | Clear(c: Call)

  // ---- the executor ----

  /** The state journaled by a step that writes the journal. */
  function Entry(pc: Pc): Phase {
    match pc
    case NoteUnpinned => Unpinned
    case NoteMoving => Moving
    case NoteCutover => Cutover
    case NoteRepinning => Repinning
    case NoteCompleted => Completed
    case MarkFailed => Failed
    case _ => Absent
  }

  /** What the executor's next effect does to the file's bytes. A copy truncates its destination as
      it opens it, also if that is the source. */
  function Handled(s: Lun, a: Answer): Data
    requires s.exec.At?
  {
    var d := s.data;
    match s.exec.pc
    case Plan => if a.ok then d.(work := Accepted) else d
    case Copy =>
      Data(if a.ok && d.work.Accepted? then Copied(true) else d.work,
           d.whole && !((a.ok || a.write) && s.tier == s.target))
    case CutOver => if a.ok then Data(Committed, d.whole && d.work == Copied(true)) else d
    case Wait => if a.ok && Settled(s.movement) && d.work.Committed? then d.(work := Clean) else d
    case _ => d
  }

  /** What it does to everything else, by the environment's answer. */
  function Changed(s: Lun, a: Answer): Lun
    requires s.exec.At?
  {
    match s.exec.pc
    case Open | Inspect | Copy | Wait => s
    case Prepare => if a.ok && s.journal.Executing? then s.(target := s.dest) else s
    case Unpin => if a.ok then s.(pinned := false) else s
    case Plan => if a.ok then s.(movement := MidFlight) else s
    case CutOver => if a.ok then s.(tier := s.target, movement := MidFlight) else s
    case Repin | Undo => if a.ok && s.exec.held then s.(pinned := true) else s
    case ResumeTarget => if a.ok then s.(live := true) else s
    case ClearFlag => if a.ok then s.(quiesced := false) else s
    case _ => if a.read && a.write && !s.journal.Absent? then s.(journal := Entry(s.exec.pc)) else s
  }

  function Effect(s: Lun, a: Answer): Lun
    requires s.exec.At?
  {
    Changed(s, a).(data := Handled(s, a))
  }

  /** The forward path. */
  function Ahead(pc: Pc): Pc {
    match pc
    case Prepare => Open
    case Open => Unpin
    case Unpin => NoteUnpinned
    case NoteUnpinned => Plan
    case Plan => Inspect
    case Inspect => NoteMoving
    case NoteMoving => Copy
    case Copy => CutOver
    case CutOver => NoteCutover
    case NoteCutover => Wait
    case Wait => Repin
    case Repin => NoteRepinning
    case NoteRepinning => ResumeTarget
    case ResumeTarget => ClearFlag
    case ClearFlag => NoteCompleted
    case NoteCompleted => NoteCompleted
    case Undo => MarkFailed
    case MarkFailed => MarkFailed
  }

  /** The error exits: those between unpin and re-pin first try to pin again. */
  function Away(pc: Pc): Pc {
    if pc.Plan? || pc.Inspect? || pc.Copy? || pc.CutOver? || pc.Wait? then Undo else MarkFailed
  }

  predicate Notes(pc: Pc) { pc.NoteUnpinned? || pc.NoteMoving? || pc.NoteCutover? || pc.NoteRepinning? }

  /** Does the step go ahead? A journal entry always does, whether or not it was written. */
  predicate Passes(s: Lun, a: Answer)
    requires s.exec.At?
  {
    if Notes(s.exec.pc) || s.exec.pc.Undo? then true
    else if s.exec.pc.Prepare? then a.ok && s.journal.Executing?
    else if s.exec.pc.Wait? then a.ok && Settled(s.movement)
    else if s.exec.pc.Repin? then a.ok && s.exec.held
    else a.ok
  }

  /** The poll found the kernel still at work and the deadline not reached. */
  predicate PollsAgain(s: Lun, a: Answer)
    requires s.exec.At?
  {
    s.exec.pc.Wait? && a.ok && s.movement.MidFlight? && !a.expired
  }

  /** One effect of `runActiveLUNMove`. */
  function Step(s: Lun, a: Answer): Lun
    requires s.exec.At?
  {
    if PollsAgain(s, a) then s
    else if s.exec.pc.NoteCompleted? || s.exec.pc.MarkFailed? then Effect(s, a).(exec := Idle)
    else
      var next := if Passes(s, a) then Ahead(s.exec.pc) else Away(s.exec.pc);
      var held := if Notes(s.exec.pc) then a.read && !s.journal.Absent? else s.exec.held;
      Effect(s, a).(exec := At(next, held))
  }

  // ---- everything else ----

  /** `decideRecoveredActiveLUNState`: `reached` is the whole chain up to a kernel answer. */
  function Verdict(reached: bool, movement: Movement, tier: nat, dest: nat): Phase {
    if reached && Settled(movement) && tier == dest then Completed else Failed
  }

  /** `validateISCSIFileTargetMovePreflight`. */
  predicate Preflight(s: Lun, c: Call) { s.quiesced && c.probe && s.pinned }

  predicate Serving(s: Lun) { s.daemon == Up }

  /** A request that is refused, or whose turn it is not, changes nothing. An accepted one can
      stop after its first effect: LIO is switched, the flag is not. */
  function Apply(s: Lun, act: Action): Lun {
    match act
    case Drive(a) => if s.exec.At? && Serving(s) then Step(s, a) else s
    case Crash => s.(exec := Idle, daemon := Down, reconcile := NoReconcile)
    case SweepPin(read, ok) =>
      if s.daemon != Down then s
      else if !read || !InFlight(s.journal) then s.(daemon := Up)
      else s.(pinned := s.pinned || ok, daemon := Swept)
    case SweepNote(reached, write) =>
      if s.daemon != Swept then s
      else s.(journal := if write then Verdict(reached, s.movement, s.tier, s.dest) else s.journal, daemon := Up)
    case ReconcilePin(read, ok) =>
      if !Serving(s) || s.reconcile.Deciding? || !read || !InFlight(s.journal) then s
      else s.(pinned := s.pinned || ok, reconcile := Deciding(s.dest))
    case ReconcileNote(reached, write) =>
      if !Serving(s) || s.reconcile.NoReconcile? then s
      else if !write then s.(reconcile := NoReconcile)
      else s.(journal := Verdict(reached, s.movement, s.tier, s.reconcile.goal), dest := s.reconcile.goal,
              reconcile := NoReconcile)
    case Kernel(m) => s.(movement := m)
    case Write => if s.live && s.data.work.Copied? then s.(data := s.data.(work := Copied(false))) else s
    case Quiesce(c) =>
      if !Serving(s) || (c.probe && !s.pinned) || !c.lio then s
      else s.(live := false, quiesced := s.quiesced || c.write)
    case Resume(c) =>
      if !Serving(s) || (c.probe && !s.pinned) || !c.lio then s
      else s.(live := true, quiesced := s.quiesced && !c.write)
    case Record(c, dest) =>
      if Serving(s) && Preflight(s, c) && c.write then s.(journal := Planned, dest := dest) else s
    case Execute(c) =>
      if Serving(s) && s.exec.Idle? && s.journal.Planned? && Preflight(s, c) && c.write
      then s.(journal := Executing, exec := At(Prepare, true)) else s
    case Abort(c) =>
      if Serving(s) && Abortable(s.journal) && c.write
      then s.(journal := Planned) else s
    case Clear(c) => if Serving(s) && c.write then s.(journal := Absent) else s
  }

  function Run(s: Lun, acts: seq<Action>): Lun
    decreases acts
  {
    if acts == [] then s else Run(Apply(s, acts[0]), acts[1..])
  }

  /** Premise `p` holds of every action of the run, in the state where it is taken. */
  predicate Along(s: Lun, acts: seq<Action>, p: (Lun, Action) -> bool)
    decreases acts
  {
    acts != [] ==> p(s, acts[0]) && Along(Apply(s, acts[0]), acts[1..], p)
  }

  /** A target at rest: pinned, nothing in flight, the daemon serving. */
  predicate AtRest(s: Lun) {
    s.pinned && s.exec.Idle? && s.daemon == Up && s.reconcile.NoReconcile? && !InFlight(s.journal)
  }

  // ---- premises ----

  predicate IsRequest(a: Action) { a.Quiesce? || a.Resume? || a.Record? || a.Execute? || a.Abort? || a.Clear? }

  predicate OperatorWaits(s: Lun, a: Action) { IsRequest(a) ==> s.exec.Idle? }

  predicate PinsSucceed(s: Lun, a: Action) {
    && (a.Drive? && s.exec.At? && (s.exec.pc.Repin? || s.exec.pc.Undo?) ==> a.a.ok && s.exec.held)
    && (a.SweepPin? ==> a.ok)
  }

  predicate SweepReads(s: Lun, a: Action) { a.SweepPin? ==> a.read }

  predicate ProbesAnswer(s: Lun, a: Action) { a.Quiesce? || a.Resume? ==> a.c.probe }

  predicate ExecReads(s: Lun, a: Action) { a.Drive? ==> a.a.read }

  predicate Writes(s: Lun, a: Action) { (a.Drive? ==> a.a.write) && (a.SweepNote? ==> a.write) }

  predicate StoreWorks(s: Lun, a: Action) { ExecReads(s, a) && SweepReads(s, a) && Writes(s, a) }

  /** No teardown reconciles the sharing config while a move is under way. */
  predicate MovesAlone(s: Lun, a: Action) { a.ReconcilePin? ==> s.exec.Idle? }

  /** No move is let in while a reconcile's verdict is pending. */
  predicate ExecuteWaits(s: Lun, a: Action) { a.Execute? ==> s.reconcile.NoReconcile? }

  /** The real portal group is down whenever a move is let in, whatever the flag says. */
  predicate ExecutesStopped(s: Lun, a: Action) { a.Execute? ==> !s.live }

  // ---- 1. the pin window ----

  predicate InWindow(j: Phase) { InFlight(j) && !j.Repinning? }

  predicate PinWindow(s: Lun) { !s.pinned ==> InWindow(s.journal) }

  predicate WindowPremise(s: Lun, a: Action) {
    OperatorWaits(s, a) && PinsSucceed(s, a) && SweepReads(s, a) && MovesAlone(s, a) && ExecuteWaits(s, a)
  }

  predicate WindowInv(s: Lun) {
    && PinWindow(s)
    && (s.daemon == Up && s.exec.Idle? ==> s.pinned)
    && (s.daemon == Swept ==> s.pinned)
    && (s.daemon != Up ==> s.exec.Idle?)
    && (s.exec.At? ==> s.reconcile.NoReconcile?)
    && (s.exec.At? ==>
          match Zone(s.exec.pc)
          case Before => s.pinned && s.journal.Executing?
          case Within => InWindow(s.journal)
          case After => s.pinned)
  }

  /** Executor steps with the pin still on, off or in doubt, and back on. */
  datatype Zones = Before | Within | After

  function Zone(pc: Pc): Zones {
    match pc
    case Prepare | Open | Unpin => Before
    case NoteRepinning | ResumeTarget | ClearFlag | NoteCompleted | MarkFailed => After
    case _ => Within
  }

  lemma WindowStep(s: Lun, act: Action)
    requires WindowInv(s) && WindowPremise(s, act)
    ensures WindowInv(Apply(s, act))
  {
    if act.Drive? { WindowDrive(s, act.a); }
  }

  lemma WindowDrive(s: Lun, a: Answer)
    requires WindowInv(s) && PinsSucceed(s, Drive(a))
    ensures WindowInv(Apply(s, Drive(a)))
  {
    if s.exec.At? {
      match Zone(s.exec.pc)
      case Before => WindowBefore(s, a);
      case Within => WindowWithin(s, a);
      case After =>
    }
  }

  lemma WindowBefore(s: Lun, a: Answer)
    requires WindowInv(s) && s.exec.At? && Zone(s.exec.pc).Before?
    ensures WindowInv(Apply(s, Drive(a)))
  {
    ZoneAhead(s.exec.pc);
  }

  lemma WindowWithin(s: Lun, a: Answer)
    requires WindowInv(s) && PinsSucceed(s, Drive(a)) && s.exec.At? && Zone(s.exec.pc).Within?
    ensures WindowInv(Apply(s, Drive(a)))
  {
    if s.exec.pc.Repin? || s.exec.pc.Undo? { WindowCloses(s, a); } else { ZoneAhead(s.exec.pc); }
  }

  lemma WindowCloses(s: Lun, a: Answer)
    requires WindowInv(s) && PinsSucceed(s, Drive(a)) && s.exec.At? && (s.exec.pc.Repin? || s.exec.pc.Undo?)
    ensures WindowInv(Apply(s, Drive(a)))
  {}

  /** The pin leaves at `Unpin` and is back at `Repin` or `Undo`, on every path. */
  lemma ZoneAhead(pc: Pc)
    ensures pc.Unpin? || pc.Repin? || pc.Undo? || Zone(Ahead(pc)) == Zone(pc)
    ensures Zone(Away(pc)) == Within <==> pc.Plan? || pc.Inspect? || pc.Copy? || pc.CutOver? || pc.Wait?
  {}

  lemma {:induction false} WindowRun(s: Lun, acts: seq<Action>)
    requires WindowInv(s) && Along(s, acts, WindowPremise)
    ensures WindowInv(Run(s, acts))
    decreases acts
  {
    if acts != [] {
      WindowStep(s, acts[0]);
      WindowRun(Apply(s, acts[0]), acts[1..]);
    }
  }

  /** In every reachable state an unpinned file is inside the journaled movement window. */
  lemma UnpinnedOnlyInWindow(s: Lun, acts: seq<Action>)
    requires AtRest(s) && Along(s, acts, WindowPremise)
    ensures PinWindow(Run(s, acts))
  {
    WindowRun(s, acts);
  }

  // ---- 2. an unpinned LUN stays quiesced ----

  predicate QuiescePremise(s: Lun, a: Action) { OperatorWaits(s, a) && ProbesAnswer(s, a) }

  predicate QuiesceInv(s: Lun) {
    && (!s.pinned ==> s.quiesced)
    && (s.exec.At? && !s.exec.pc.NoteCompleted? && !s.exec.pc.MarkFailed? ==> s.quiesced)
    && (s.exec.At? && Zone(s.exec.pc).After? && !s.exec.pc.MarkFailed? ==> s.pinned)
  }

  lemma QuiesceStep(s: Lun, act: Action)
    requires QuiesceInv(s) && QuiescePremise(s, act)
    ensures QuiesceInv(Apply(s, act))
  {}

  lemma {:induction false} QuiesceRun(s: Lun, acts: seq<Action>)
    requires QuiesceInv(s) && Along(s, acts, QuiescePremise)
    ensures QuiesceInv(Run(s, acts))
    decreases acts
  {
    if acts != [] {
      QuiesceStep(s, acts[0]);
      QuiesceRun(Apply(s, acts[0]), acts[1..]);
    }
  }

  /** Even when re-pins fail, as long as pin probes answer: an unpinned LUN is recorded as quiesced
      and a resume is refused. */
  lemma UnpinnedStaysQuiesced(s: Lun, acts: seq<Action>, c: Call)
    requires AtRest(s) && Along(s, acts, QuiescePremise)
    ensures var t := Run(s, acts);
            !t.pinned ==> t.quiesced && (c.probe ==> Apply(t, Resume(c)) == t)
  {
    QuiesceRun(s, acts);
  }

  // ---- 3. no live target on an unpinned file ----

  predicate LivePinned(s: Lun) { s.live ==> s.pinned }

  predicate StoppedPremise(s: Lun, a: Action) { QuiescePremise(s, a) && ExecutesStopped(s, a) }

  predicate StoppedInv(s: Lun) {
    && LivePinned(s)
    && (s.exec.At? && !Zone(s.exec.pc).After? ==> !s.live)
    && (s.exec.At? && Zone(s.exec.pc).After? && !s.exec.pc.MarkFailed? ==> s.pinned)
  }

  lemma StoppedStep(s: Lun, act: Action)
    requires StoppedInv(s) && StoppedPremise(s, act)
    ensures StoppedInv(Apply(s, act))
  {}

  /** At every step, crash and sweep of every run whose moves start from a stopped target, as long
      as pin probes answer. */
  lemma {:induction false} StoppedMovesStaySafe(s: Lun, acts: seq<Action>)
    requires StoppedInv(s) && Along(s, acts, StoppedPremise)
    ensures StoppedInv(Run(s, acts))
    decreases acts
  {
    if acts != [] {
      StoppedStep(s, acts[0]);
      StoppedMovesStaySafe(Apply(s, acts[0]), acts[1..]);
    }
  }

  // ---- 4. the journal is a path of the documented automaton ----

  /** Forward path, any error to failed, recovery's verdicts, abort from any state in flight, and
      the operator's recording or clearing of an intent that is not in flight. */
  predicate Edge(j: Phase, k: Phase) {
    || j == k
    || (j.Planned? && k.Executing?) || (j.Executing? && k.Unpinned?) || (j.Unpinned? && k.Moving?)
    || (j.Moving? && k.Cutover?) || (j.Cutover? && k.Repinning?) || (j.Repinning? && k.Completed?)
    || (InFlight(j) && (k.Failed? || k.Completed? || k.Planned?))
    || (!InFlight(j) && (k.Planned? || k.Absent?))
  }

  predicate JournalPremise(s: Lun, a: Action) { OperatorWaits(s, a) && StoreWorks(s, a) && MovesAlone(s, a) }

  /** The entry the executor last wrote before reaching `pc`. */
  function Written(pc: Pc): Phase {
    match pc
    case Prepare | Open | Unpin | NoteUnpinned => Executing
    case Plan | Inspect | NoteMoving => Unpinned
    case Copy | CutOver | NoteCutover => Moving
    case Wait | Repin | NoteRepinning => Cutover
    case ResumeTarget | ClearFlag | NoteCompleted => Repinning
    case Undo | MarkFailed => Failed
  }

  predicate JournalInv(s: Lun) {
    && (s.exec.At? ==> s.daemon.Up? && s.exec.held && InFlight(s.journal))
    && (s.exec.At? && !Written(s.exec.pc).Failed? ==> s.journal == Written(s.exec.pc))
    && (s.daemon.Up? && s.exec.Idle? ==> !InFlight(s.journal))
    && (s.daemon.Swept? ==> InFlight(s.journal))
    && s.reconcile.NoReconcile?
  }

  lemma JournalStep(s: Lun, act: Action)
    requires JournalInv(s) && JournalPremise(s, act)
    ensures JournalInv(Apply(s, act)) && Edge(s.journal, Apply(s, act).journal)
  {
    if act.Drive? && s.exec.At? { JournalDrive(s, act.a); }
  }

  lemma JournalDrive(s: Lun, a: Answer)
    requires JournalInv(s) && s.exec.At? && a.read && a.write
    ensures JournalInv(Step(s, a)) && Edge(s.journal, Step(s, a).journal)
  {
    if Entry(s.exec.pc).Absent? { JournalKept(s, a); } else { WrittenAhead(s.exec.pc); }
  }

  lemma JournalKept(s: Lun, a: Answer)
    requires JournalInv(s) && s.exec.At? && Entry(s.exec.pc).Absent?
    ensures JournalInv(Step(s, a)) && Step(s, a).journal == s.journal
  {
    WrittenAhead(s.exec.pc);
  }

  /** Only a journal entry changes what was last written, and to what it wrote. */
  lemma WrittenAhead(pc: Pc)
    ensures Written(Away(pc)).Failed?
    ensures Entry(pc).Absent? && !pc.Undo? ==> Written(Ahead(pc)) == Written(pc)
    ensures Notes(pc) ==> Written(Ahead(pc)) == Entry(pc)
    ensures Entry(pc).Absent? || Notes(pc) || pc.NoteCompleted? || pc.MarkFailed?
  {}

  /** Every journal history follows the automaton, and while the daemon serves, an intent is in
      flight exactly while its executor runs. */
  lemma {:induction false} JournalFollowsAutomaton(s: Lun, acts: seq<Action>)
    requires JournalInv(s) && Along(s, acts, JournalPremise)
    ensures JournalInv(Run(s, acts))
    ensures forall k | 0 <= k < |acts| :: Edge(Run(s, acts[..k]).journal, Run(s, acts[..k + 1]).journal)
    decreases acts
  {
    if acts != [] {
      JournalStep(s, acts[0]);
      var s1, rest := Apply(s, acts[0]), acts[1..];
      JournalFollowsAutomaton(s1, rest);
      forall k | 0 <= k < |acts| ensures Edge(Run(s, acts[..k]).journal, Run(s, acts[..k + 1]).journal) {
        assert acts[..k + 1][1..] == rest[..k];
        if k > 0 { assert acts[..k][1..] == rest[..k - 1]; }
      }
    }
  }

  // ---- 5. completed means moved ----

  /** Executor steps after the kernel accepted the cutover. */
  predicate Switched(pc: Pc) {
    pc.NoteCutover? || pc.Wait? || pc.Repin? || pc.NoteRepinning? || pc.ResumeTarget? || pc.ClearFlag? || pc.NoteCompleted?
  }

  predicate MovedInv(s: Lun) {
    && (s.journal.Completed? || (s.exec.At? && Switched(s.exec.pc)) ==> s.tier == s.dest)
    && (s.exec.At? && !s.exec.pc.Prepare? && !s.exec.pc.MarkFailed? ==> s.target == s.dest)
    && (s.exec.At? && s.reconcile.Deciding? ==> s.reconcile.goal == s.dest)
  }

  predicate MovedPremise(s: Lun, a: Action) { OperatorWaits(s, a) && ExecuteWaits(s, a) }

  lemma MovedStep(s: Lun, act: Action)
    requires MovedInv(s) && MovedPremise(s, act)
    ensures MovedInv(Apply(s, act))
  {
    if act.Drive? && s.exec.At? { MovedDrive(s, act.a); }
  }

  lemma MovedDrive(s: Lun, a: Answer)
    requires MovedInv(s) && s.exec.At?
    ensures MovedInv(Step(s, a))
  {
    if Switched(s.exec.pc) {
      MovedAfter(s, a);
    } else if s.exec.pc.CutOver? || s.exec.pc.Prepare? {
      MovedAt(s, a);
    } else {
      MovedBefore(s, a);
    }
  }

  lemma MovedBefore(s: Lun, a: Answer)
    requires MovedInv(s) && s.exec.At? && !Switched(s.exec.pc) && !s.exec.pc.CutOver? && !s.exec.pc.Prepare?
    ensures MovedInv(Step(s, a))
  {
    SwitchedAhead(s.exec.pc);
  }

  lemma MovedAt(s: Lun, a: Answer)
    requires MovedInv(s) && s.exec.At? && (s.exec.pc.CutOver? || s.exec.pc.Prepare?)
    ensures MovedInv(Step(s, a))
  {}

  lemma MovedAfter(s: Lun, a: Answer)
    requires MovedInv(s) && s.exec.At? && Switched(s.exec.pc)
    ensures MovedInv(Step(s, a))
  {}

  lemma SwitchedAhead(pc: Pc)
    ensures Switched(Ahead(pc)) ==> Switched(pc) || pc.CutOver?
    ensures !Switched(Away(pc)) && !Ahead(pc).Prepare? && !Away(pc).Prepare?
  {}

  /** A journal that says completed, by the executor or by recovery, has the file on the
      destination tier, whatever failed on the way. */
  lemma {:induction false} CompletedMeansMoved(s: Lun, acts: seq<Action>)
    requires MovedInv(s) && Along(s, acts, MovedPremise)
    ensures MovedInv(Run(s, acts))
    decreases acts
  {
    if acts != [] {
      MovedStep(s, acts[0]);
      CompletedMeansMoved(Apply(s, acts[0]), acts[1..]);
    }
  }

  // ---- 6. the bytes come along ----

  /** What a step may rely on: a copy that worked before the switch, the switch before the wait, the
      kernel's settled answer before the pin, the resume and `completed`. */
  predicate WorkInv(s: Lun) {
    s.exec.At? ==>
      match s.exec.pc
      case Inspect | NoteMoving | Copy => s.data.work.Accepted?
      case CutOver => s.data.work.Copied?
      case NoteCutover | Wait => s.data.work.Committed?
      case Repin | NoteRepinning | ResumeTarget | ClearFlag | NoteCompleted => s.data.work.Clean?
      case _ => true
  }

  lemma WorkStep(s: Lun, act: Action)
    requires WorkInv(s)
    ensures WorkInv(Apply(s, act))
  {}

  lemma {:induction false} WorkRun(s: Lun, acts: seq<Action>)
    requires WorkInv(s)
    ensures WorkInv(Run(s, acts))
    decreases acts
  {
    if acts != [] {
      WorkStep(s, acts[0]);
      WorkRun(Apply(s, acts[0]), acts[1..]);
    }
  }

  /** In every run, whatever fails and whoever interferes: the file changes tier only after the
      bytes were copied for a plan the kernel took, the executor pins it again, makes the target
      live and journals `completed` only after the kernel reported that move settled. */
  lemma StepsAreEarned(s: Lun, acts: seq<Action>, a: Action)
    requires AtRest(s)
    ensures var t := Run(s, acts); var u := Apply(t, a);
            && (u.tier != t.tier ==> t.data.work.Copied?)
            && (a.Drive? && u.live && !t.live ==> t.data.work.Clean?)
            && (a.Drive? && u.journal.Completed? && !t.journal.Completed? ==> t.data.work.Clean?)
            && (a.Drive? && u.pinned && !t.pinned && t.exec.pc.Repin? ==> t.data.work.Clean?)
  {
    WorkRun(s, acts);
  }

  /** The kernel refuses to move a file to the tier it is on. */
  predicate PlansElsewhere(s: Lun, a: Action) {
    a.Drive? && s.exec.At? && s.exec.pc.Plan? && a.a.ok ==> s.tier != s.target
  }

  predicate WholePremise(s: Lun, a: Action) { OperatorWaits(s, a) && ExecutesStopped(s, a) && PlansElsewhere(s, a) }

  predicate WholeInv(s: Lun) {
    && s.data.whole && WorkInv(s)
    && (s.exec.At? && !Zone(s.exec.pc).After? ==> !s.live)
    && (s.exec.At? && (s.exec.pc.Inspect? || s.exec.pc.NoteMoving? || s.exec.pc.Copy?) ==> s.tier != s.target)
    && (s.exec.At? && s.exec.pc.CutOver? ==> s.data.work == Copied(true))
  }

  lemma WholeStep(s: Lun, act: Action)
    requires WholeInv(s) && WholePremise(s, act)
    ensures WholeInv(Apply(s, act))
  {
    WorkStep(s, act);
    if act.Drive? && s.exec.At? {
      if Handles(s.exec.pc) { WholeHandled(s, act.a); } else { WholeElsewhere(s, act.a); }
    }
  }

  predicate Handles(pc: Pc) { pc.Plan? || pc.Inspect? || pc.NoteMoving? || pc.Copy? || pc.CutOver? }

  lemma WholeHandled(s: Lun, a: Answer)
    requires WholeInv(s) && s.exec.At? && Handles(s.exec.pc) && PlansElsewhere(s, Drive(a)) && WorkInv(Step(s, a))
    ensures WholeInv(Step(s, a))
  {}

  lemma WholeElsewhere(s: Lun, a: Answer)
    requires WholeInv(s) && s.exec.At? && !Handles(s.exec.pc) && WorkInv(Step(s, a))
    ensures WholeInv(Step(s, a))
  {
    ZoneAhead(s.exec.pc);
  }

  /** Nothing an initiator wrote is lost: where the kernel serves the file from, all of it is there,
      over every failure, crash, sweep and reconcile, as long as moves start from stopped targets,
      the operator waits and the kernel refuses a move to the same tier. */
  lemma {:induction false} NoWriteIsLost(s: Lun, acts: seq<Action>)
    requires WholeInv(s) && Along(s, acts, WholePremise)
    ensures WholeInv(Run(s, acts))
    decreases acts
  {
    if acts != [] {
      WholeStep(s, acts[0]);
      NoWriteIsLost(Apply(s, acts[0]), acts[1..]);
    }
  }
}
