/** `driveActiveLUNMove` as written, on the state it changes. The ghost part records each effect
    as an action of `ActiveLun` and the state after it, so every point at which tierd could die
    is a state of one of its runs. */
module LunExecutor {
  import opened ActiveLun

  /** One effect of the executor, or of the kernel beside it. */
  predicate Linked(s: Lun, act: Action, t: Lun) { (act.Drive? || act.Kernel?) && t == Apply(s, act) }

  /** The states passed through while `acts` were performed from `origin`. */
  ghost predicate Trail(origin: Lun, acts: seq<Action>, states: seq<Lun>, now: Lun) {
    && |states| == |acts| + 1 && states[0] == origin && states[|acts|] == now
    && forall i | 0 <= i < |acts| :: Linked(states[i], acts[i], states[i + 1])
  }

  lemma TrailGrows(origin: Lun, acts: seq<Action>, states: seq<Lun>, before: Lun, act: Action)
    requires Trail(origin, acts, states, before) && (act.Drive? || act.Kernel?)
    ensures Trail(origin, acts + [act], states + [Apply(before, act)], Apply(before, act))
  {
    var acts1, states1 := acts + [act], states + [Apply(before, act)];
    forall i | 0 <= i < |acts1| ensures Linked(states1[i], acts1[i], states1[i + 1]) {
      if i < |acts| { assert Linked(states[i], acts[i], states[i + 1]); }
    }
  }

  /** A recorded trail is a run of the protocol, and so is every prefix of it. */
  lemma {:induction false} TrailIsRun(origin: Lun, acts: seq<Action>, states: seq<Lun>, now: Lun, k: nat)
    requires Trail(origin, acts, states, now) && k <= |acts|
    ensures Run(origin, acts[..k]) == states[k]
    decreases k
  {
    if k > 0 {
      TrailIsRun(origin, acts, states, now, k - 1);
      RunSnoc(origin, acts[..k - 1], acts[k - 1]);
      assert acts[..k - 1] + [acts[k - 1]] == acts[..k];
      assert Linked(states[k - 1], acts[k - 1], states[k]);
    }
  }

  lemma EveryPointSafe(origin: Lun, acts: seq<Action>, states: seq<Lun>, now: Lun, k: nat)
    requires Trail(origin, acts, states, now) && k <= |acts| && StoppedInv(origin)
    ensures StoppedInv(states[k])
  {
    TrailIsRun(origin, acts, states, now, k);
    forall i | 0 <= i < k ensures acts[..k][i].Drive? || acts[..k][i].Kernel? {
      assert Linked(states[i], acts[i], states[i + 1]);
    }
    OwnSteps(origin, acts[..k]);
    StoppedMovesStaySafe(origin, acts[..k]);
  }

  lemma {:induction false} OwnSteps(s: Lun, acts: seq<Action>)
    requires forall i | 0 <= i < |acts| :: acts[i].Drive? || acts[i].Kernel?
    ensures Along(s, acts, StoppedPremise)
    decreases acts
  {
    if acts != [] {
      assert acts[0].Drive? || acts[0].Kernel?;
      OwnSteps(Apply(s, acts[0]), acts[1..]);
    }
  }

  lemma {:induction false} RunSnoc(s: Lun, acts: seq<Action>, a: Action)
    ensures Run(s, acts + [a]) == Apply(Run(s, acts), a)
    decreases acts
  {
    if acts == [] {
      assert [a][1..] == [] && acts + [a] == [a];
      assert Run(s, [a]) == Run(Apply(s, a), []);
    } else {
      RunSnoc(Apply(s, acts[0]), acts[1..], a);
      assert (acts + [a])[1..] == acts[1..] + [a];
    }
  }

  function Said(ok: bool): Answer { Answer(ok, true, true, false) }

  /** One answer of the environment; it can be bad only where not everything `works`. */
  method Ask(works: bool) returns (ok: bool)
    ensures works ==> ok
  {
    ok := *;
    ok := ok || works;
  }

  class LunHost {
    var pinned: bool
    var live: bool
    var quiesced: bool
    var journal: Phase
    const dest: nat
    var target: nat
    var tier: nat
    var movement: Movement
    var data: Data
    ghost var exec: Exec
    ghost var acts: seq<Action>
    ghost var states: seq<Lun>
    ghost const origin: Lun

    ghost function View(): Lun reads this {
      Lun(pinned, live, quiesced, journal, dest, target, tier, movement, data, exec, Up, NoReconcile)
    }

    ghost predicate Valid() reads this { Trail(origin, acts, states, View()) }

    ghost predicate Stands(pc: Pc, held: bool) reads this { Valid() && exec == At(pc, held) }

    constructor (s: Lun)
      requires s.daemon == Up && s.reconcile.NoReconcile?
      ensures Valid() && View() == s && origin == s
    {
      pinned, live, quiesced, journal := s.pinned, s.live, s.quiesced, s.journal;
      dest, target, tier, movement, data, exec := s.dest, s.target, s.tier, s.movement, s.data, s.exec;
      acts, states, origin := [], [s], s;
    }

    /** Records that the executor's effect changed `before` to the present state. */
    ghost method Did(a: Answer, before: Lun)
      requires Trail(origin, acts, states, before) && before.exec.At? && before.daemon.Up?
      requires View() == Effect(before, a).(exec := exec)
      modifies this`acts, this`states, this`exec
      ensures Valid() && exec == Step(before, a).exec
    {
      TrailGrows(origin, acts, states, before, Drive(a));
      acts, states, exec := acts + [Drive(a)], states + [Step(before, a)], Step(before, a).exec;
    }

    ghost method DidCopy(ok: bool, truncated: bool, before: Lun)
      requires Trail(origin, acts, states, before) && before.exec.At? && before.daemon.Up? && before.exec.pc.Copy?
      requires before.data.work.Accepted?
      requires View() == before.(exec := exec, data := Data(if ok then Copied(true) else Accepted,
                                   before.data.whole && !((ok || truncated) && before.tier == before.target)))
      modifies this`acts, this`states, this`exec
      ensures Stands(if ok then CutOver else Undo, before.exec.held)
    {
      Did(Answer(ok, true, truncated, false), before);
    }

    ghost method DidPoll(answers: bool, last: bool, before: Lun)
      requires Trail(origin, acts, states, before) && before.exec.At? && before.daemon.Up? && before.exec.pc.Wait?
      requires before.data.work.Committed?
      requires View() == before.(exec := exec, data := if answers && Settled(before.movement) then before.data.(work := Clean) else before.data)
      modifies this`acts, this`states, this`exec
      ensures Stands(if answers && before.movement.MidFlight? && !last then Wait
                     else if answers && Settled(before.movement) then Repin else Undo, before.exec.held)
    {
      Did(Answer(answers, true, true, last), before);
    }

    ghost method DidNote(read: bool, write: bool, before: Lun)
      requires Trail(origin, acts, states, before) && before.exec.At? && before.daemon.Up? && !Entry(before.exec.pc).Absent?
      requires View() == before.(exec := exec, journal := if read && write && !before.journal.Absent? then Entry(before.exec.pc) else before.journal)
      modifies this`acts, this`states, this`exec
      ensures Valid()
      ensures exec == if Notes(before.exec.pc) then At(Ahead(before.exec.pc), read && !before.journal.Absent?) else Idle
    {
      Did(Answer(true, read, write, false), before);
    }

    // ---- journal entries ----

    /** `transitionActiveLUNMove`: tells whether the intent read back still names the file. */
    method Transition(state: Phase, works: bool) returns (held: bool)
      requires Valid() && exec.At? && Notes(exec.pc) && Entry(exec.pc) == state
      modifies this`journal, this`acts, this`states, this`exec
      ensures Stands(Ahead(old(exec.pc)), held)
      ensures journal == old(journal) || journal == state
      ensures works && old(journal) != Absent ==> held && journal == state
    {
      var read := Ask(works);
      var write := Ask(works);
      ghost var before := View();
      held := read && journal != Absent;
      if held && write { journal := state; }
      DidNote(read, write, before);
    }

    /** The last entry: `completed`, or `failed` by `markActiveLUNMoveFailed`. */
    method Finish(ok: bool, ghost held: bool, works: bool)
      requires Stands(if ok then NoteCompleted else MarkFailed, held)
      modifies this`journal, this`acts, this`states, this`exec
      ensures Valid() && exec.Idle?
      ensures journal == old(journal) || journal == if ok then Completed else Failed
      ensures works && old(journal) != Absent ==> journal == if ok then Completed else Failed
    {
      var read := Ask(works);
      var write := Ask(works);
      ghost var before := View();
      if read && write && journal != Absent { journal := if ok then Completed else Failed; }
      DidNote(read, write, before);
    }

    /** The best-effort re-pin of an error exit, then `markActiveLUNMoveFailed`. */
    method UndoAndFail(held: bool, works: bool) returns (ok: bool)
      requires Stands(Undo, held)
      modifies this`pinned, this`journal, this`acts, this`states, this`exec
      ensures Valid() && exec.Idle? && (ok ==> held)
      ensures pinned == (old(pinned) || ok) && (journal == old(journal) || journal == Failed)
    {
      ok := PinFile(held, works);
      Finish(false, held, works);
    }

    /** `iscsi.PinLUN`: on an empty path it always fails. */
    method PinFile(held: bool, works: bool) returns (ok: bool)
      requires Stands(Repin, held) || Stands(Undo, held)
      modifies this`pinned, this`acts, this`states, this`exec
      ensures Stands(if ok || old(exec.pc).Undo? then Ahead(old(exec.pc)) else MarkFailed, held)
      ensures pinned == (old(pinned) || ok) && (ok ==> held) && (works && held ==> ok)
    {
      ok := Ask(works);
      ok := ok && held;
      ghost var before := View();
      if ok { pinned := true; }
      Did(Said(ok), before);
    }

    /** A call that leaves nothing behind: it works or it does not. */
    method Try(ghost held: bool, works: bool) returns (ok: bool)
      requires Stands(Open, held) || Stands(Inspect, held)
      modifies this`acts, this`states, this`exec
      ensures Stands(if ok then Ahead(old(exec.pc)) else Away(old(exec.pc)), held) && (works ==> ok)
    {
      ok := Ask(works);
      Did(Said(ok), View());
    }

    // ---- the move ----

    /** `runActiveLUNMove`. Success is claimed only for a pinned, live, unquiesced LUN whose bytes were
        copied to the destination tier, switched and reported settled there. Whatever fails, the
        bytes are all there if the destination is another tier, and the target is never live on an
        unpinned file, at any of the points where the daemon could die. Where everything `works`, a
        move that was let in succeeds and is journaled as completed. */
    method RunMove(works: bool) returns (ok: bool)
      requires Stands(Prepare, true)
      modifies this
      ensures Valid() && exec.Idle?
      ensures ok ==> pinned && live && !quiesced && tier == dest && data.work.Clean?
      ensures old(data.whole) && old(tier) != dest ==> data.whole
      ensures works && old(journal) == Executing ==> ok && journal == Completed
      ensures StoppedInv(origin) ==> forall k | 0 <= k < |states| :: StoppedInv(states[k])
    {
      ok := Steps(works);
      if StoppedInv(origin) {
        forall k | 0 <= k < |states| ensures StoppedInv(states[k]) {
          EveryPointSafe(origin, acts, states, View(), k);
        }
      }
    }

    method Steps(works: bool) returns (ok: bool)
      requires Stands(Prepare, true)
      modifies this
      ensures Valid() && exec.Idle?
      ensures ok ==> pinned && live && !quiesced && tier == dest && data.work.Clean?
      ensures old(data.whole) && old(tier) != dest ==> data.whole
      ensures works && old(journal) == Executing ==> ok && journal == Completed
    {
      var prepared := PrepareMove(works);
      if !prepared { Finish(false, true, works); return false; }
      var held: bool;
      ok, held := OpenWindow(works);
      if !ok { return; }
      ok, held := MoveFile(held, works);
      if !ok { return; }
      ok := Close(held, works);
    }

    /** `prepareActiveLUNMove` fixes the destination. */
    method PrepareMove(works: bool) returns (ok: bool)
      requires Stands(Prepare, true)
      modifies this`target, this`acts, this`states, this`exec
      ensures Stands(if ok then Open else MarkFailed, true) && (ok ==> target == dest)
      ensures works && journal == Executing ==> ok
    {
      ok := Ask(works);
      ok := ok && journal == Executing;
      ghost var before := View();
      if ok { target := dest; }
      Did(Said(ok), before);
    }

    method OpenWindow(works: bool) returns (ok: bool, held: bool)
      requires Stands(Open, true)
      modifies this`pinned, this`journal, this`acts, this`states, this`exec
      ensures if ok then Stands(Plan, held) && !pinned else Valid() && exec.Idle?
      ensures works && old(journal) != Absent ==> ok && held && journal != Absent
    {
      ok := Try(true, works);
      if ok { ok := UnpinFile(works); }
      if !ok { Finish(false, true, works); return false, true; }
      held := Transition(Unpinned, works);
    }

    method UnpinFile(works: bool) returns (ok: bool)
      requires Stands(Unpin, true)
      modifies this`pinned, this`acts, this`states, this`exec
      ensures Stands(if ok then NoteUnpinned else MarkFailed, true)
      ensures pinned == (old(pinned) && !ok) && (works ==> ok)
    {
      ok := Ask(works);
      ghost var before := View();
      if ok { pinned := false; }
      Did(Said(ok), before);
    }

    method MoveFile(before: bool, works: bool) returns (ok: bool, held: bool)
      requires Stands(Plan, before)
      modifies this`pinned, this`journal, this`movement, this`tier, this`data, this`acts, this`states, this`exec
      ensures if ok then Stands(Wait, held) && tier == target && data.work.Committed? else Valid() && exec.Idle?
      ensures old(data.whole) && old(tier) != target ==> data.whole
      ensures works && old(journal) != Absent ==> ok && held && journal != Absent
    {
      held := before;
      ok := PlanAndInspect(held, works);
      if !ok { var restored := UndoAndFail(held, works); return; }
      held := Transition(Moving, works);
      ok := CopyAndCommit(held, works);
      if !ok { var restored := UndoAndFail(held, works); return; }
      held := Transition(Cutover, works);
    }

    method PlanAndInspect(ghost held: bool, works: bool) returns (ok: bool)
      requires Stands(Plan, held)
      modifies this`movement, this`data, this`acts, this`states, this`exec
      ensures Stands(if ok then NoteMoving else Undo, held)
      ensures data.whole == old(data.whole) && (ok ==> data.work.Accepted?) && (works ==> ok)
    {
      ok := PlanMove(held, works);
      if ok { ok := Try(held, works); }
    }

    method CopyAndCommit(ghost held: bool, works: bool) returns (ok: bool)
      requires Stands(Copy, held) && data.work.Accepted?
      modifies this`movement, this`tier, this`data, this`acts, this`states, this`exec
      ensures Stands(if ok then NoteCutover else Undo, held)
      ensures ok ==> tier == target && data.work.Committed?
      ensures (old(data.whole) && old(tier) != target ==> data.whole) && (works ==> ok)
    {
      ok := CopyFile(held, works);
      if ok { ok := CommitCutover(held, works); }
    }

    /** `copyLowerFileForActiveLUNMove`; it opens its destination truncating it, and may fail before
        or after that. */
    method CopyFile(ghost held: bool, works: bool) returns (ok: bool)
      requires Stands(Copy, held) && data.work.Accepted?
      modifies this`data, this`acts, this`states, this`exec
      ensures Stands(if ok then CutOver else Undo, held)
      ensures (ok ==> data.work == Copied(true)) && (old(data.whole) && tier != target ==> data.whole) && (works ==> ok)
    {
      ok := Ask(works);
      var truncated: bool := *;
      ghost var before := View();
      data := Data(if ok then Copied(true) else data.work, data.whole && !((ok || truncated) && tier == target));
      DidCopy(ok, truncated, before);
    }

    method PlanMove(ghost held: bool, works: bool) returns (ok: bool)
      requires Stands(Plan, held)
      modifies this`movement, this`data, this`acts, this`states, this`exec
      ensures Stands(if ok then Inspect else Undo, held)
      ensures data.whole == old(data.whole) && (ok ==> data.work.Accepted?) && (works ==> ok)
    {
      ok := Ask(works);
      ghost var before := View();
      if ok { movement, data := MidFlight, data.(work := Accepted); }
      Did(Said(ok), before);
    }

    method CommitCutover(ghost held: bool, works: bool) returns (ok: bool)
      requires Stands(CutOver, held) && data.work == Copied(true)
      modifies this`movement, this`tier, this`data, this`acts, this`states, this`exec
      ensures Stands(if ok then NoteCutover else Undo, held)
      ensures data.whole == old(data.whole) && (ok ==> tier == target && data.work.Committed?) && (works ==> ok)
    {
      ok := Ask(works);
      ghost var before := View();
      if ok { movement, tier, data := MidFlight, target, data.(work := Committed); }
      Did(Said(ok), before);
    }

    method Close(before: bool, works: bool) returns (ok: bool)
      requires Stands(Wait, before) && data.work.Committed?
      modifies this`pinned, this`live, this`quiesced, this`journal, this`movement, this`data, this`acts, this`states, this`exec
      ensures Valid() && exec.Idle? && data.whole == old(data.whole)
      ensures ok ==> pinned && live && !quiesced && data.work.Clean?
      ensures works && before && old(journal) != Absent ==> ok && journal == Completed
    {
      ok := WaitForCleanup(before, works);
      if ok { ok := Reopen(before, works); } else { var restored := UndoAndFail(before, works); }
    }

    method Reopen(held: bool, works: bool) returns (ok: bool)
      requires Stands(Repin, held) && data.work.Clean?
      modifies this`pinned, this`live, this`quiesced, this`journal, this`acts, this`states, this`exec
      ensures Valid() && exec.Idle?
      ensures ok ==> pinned && live && !quiesced
      ensures works && held && old(journal) != Absent ==> ok && journal == Completed
    {
      ok := PinFile(held, works);
      if !ok { Finish(false, held, works); return; }
      var still := Transition(Repinning, works);
      ok := Reactivate(still, works);
      Finish(ok, still, works);
    }

    method Reactivate(ghost held: bool, works: bool) returns (ok: bool)
      requires Stands(ResumeTarget, held)
      modifies this`live, this`quiesced, this`acts, this`states, this`exec
      ensures Stands(if ok then NoteCompleted else MarkFailed, held)
      ensures (ok ==> live && !quiesced) && (works ==> ok)
    {
      ok := ResumeLio(held, works);
      if ok { ok := ClearQuiesced(held, works); }
    }

    /** `waitActiveLUNMoveCleanup`: polls until the kernel settles or gives up, or time is up.
        `polls` is how many polls fit before the deadline. */
    method WaitForCleanup(ghost held: bool, works: bool) returns (ok: bool)
      requires Stands(Wait, held) && data.work.Committed?
      modifies this`movement, this`data, this`acts, this`states, this`exec
      ensures Stands(if ok then Repin else Undo, held)
      ensures data.whole == old(data.whole) && (ok ==> Settled(movement) && data.work.Clean?) && (works ==> ok)
    {
      var polls: nat := *;
      while true
        invariant Stands(Wait, held) && data == old(data)
        decreases polls
      {
        Wakes(works);
        var again;
        ok, again := Poll(held, polls == 0, works);
        if !again { return; }
        polls := polls - 1;
      }
    }

    /** One `Inspect` of the loop, the last one before the deadline or not. */
    method Poll(ghost held: bool, last: bool, works: bool) returns (ok: bool, again: bool)
      requires Stands(Wait, held) && data.work.Committed?
      modifies this`data, this`acts, this`states, this`exec
      ensures Stands(if again then Wait else if ok then Repin else Undo, held) && !(again && (ok || last))
      ensures data.whole == old(data.whole) && data.work == (if ok then Clean else Committed) && (ok ==> Settled(movement))
      ensures works && Settled(movement) ==> ok
    {
      var answers := Ask(works);
      again := answers && movement.MidFlight? && !last;
      ok := answers && (movement.Placed? || movement.CleanupComplete?);
      ghost var before := View();
      if ok { data := data.(work := Clean); }
      DidPoll(answers, last, before);
    }

    /** The kernel moved on between two polls. */
    method Wakes(works: bool)
      requires Valid()
      modifies this`movement, this`acts, this`states
      ensures Valid() && (works ==> Settled(movement))
    {
      var m: Movement := *;
      if works && !Settled(m) { m := Placed; }
      ghost var before := View();
      movement := m;
      TrailGrows(origin, acts, states, before, Kernel(m));
      acts, states := acts + [Kernel(m)], states + [View()];
    }

    method ResumeLio(ghost held: bool, works: bool) returns (ok: bool)
      requires Stands(ResumeTarget, held)
      modifies this`live, this`acts, this`states, this`exec
      ensures Stands(if ok then ClearFlag else MarkFailed, held)
      ensures (ok ==> live) && (works ==> ok)
    {
      ok := Ask(works);
      ghost var before := View();
      if ok { live := true; }
      Did(Said(ok), before);
    }

    method ClearQuiesced(ghost held: bool, works: bool) returns (ok: bool)
      requires Stands(ClearFlag, held)
      modifies this`quiesced, this`acts, this`states, this`exec
      ensures Stands(if ok then NoteCompleted else MarkFailed, held)
      ensures (ok ==> !quiesced) && (works ==> ok)
    {
      ok := Ask(works);
      ghost var before := View();
      if ok { quiesced := false; }
      Did(Said(ok), before);
    }
  }
}
