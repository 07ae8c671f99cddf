/** Destroying a tier pool: confirmed deletes, crashes, and the automatic resume at boot with its
    data guard. One pool; its slots are torn down one by one. */
module TierDestruction {
  import opened Wrappers

  /** Slack for an empty filesystem's own metadata. */
  const SLACK := 128 * 1024 * 1024

  datatype Kind = Zfs | Mounted

  /** `Hidden`: data is there, but the pool is not imported or the backing is not mounted. */
  datatype Backing = Nothing | Hidden(used: nat) | Visible(used: nat)

  /** What the guard is told about a slot; `Missing` is "does not exist". */
  datatype Reading = Unreadable | Missing | Used(bytes: nat)

  /** `volume`: the backing is a logical volume or a source directory, which goes without its mount. */
  datatype Slot = Slot(kind: Kind, volume: bool, backing: Backing)

  /** A teardown can destroy the backing: it can be reached, or needs no reaching. */
  predicate IsRemovable(s: Slot) { s.backing.Visible? || (s.backing.Hidden? && s.volume) }

  /** The guard lets the slot pass. */
  predicate Passes(kind: Kind, r: Reading) { (r.Missing? && kind.Zfs?) || (r.Used? && r.bytes <= SLACK) }

  /** `tierBackingHoldsData`; `None` when the slots cannot be listed. */
  method TierBackingHoldsData(kinds: Option<seq<Kind>>, readings: seq<Reading>) returns (held: bool)
    requires kinds.Some? ==> |readings| == |kinds.value|
    ensures held <==> kinds.None? || exists i | 0 <= i < |readings| :: !Passes(kinds.value[i], readings[i])
  {
    if kinds.None? { return true; }
    for i := 0 to |readings|
      invariant forall k | 0 <= k < i :: Passes(kinds.value[k], readings[k])
    {
      var r := readings[i];
      if kinds.value[i].Zfs? {
        if r.Unreadable? { return true; }
        if r.Used? && r.bytes > SLACK { return true; }
        continue;
      }
      if !r.Used? { return true; }
      if r.bytes > SLACK { return true; }
    }
    return false;
  }

  // ---- what a mounted backing's reading is worth ----

  /** The stored baseline that `backingFSUsage` takes off; one above a twentieth is discarded. */
  function Baseline(stored: nat, capacity: nat): nat { if stored > capacity / 20 then 0 else stored }

  /** `backingFSUsage`: used blocks less the baseline. */
  function FsUsage(raw: nat, stored: nat, capacity: nat): nat {
    var b := Baseline(stored, capacity);
    if raw > b then raw - b else 0
  }

  /** The reading is the user's data exactly when the baseline in force is the empty file system's
      own use, or there is no data and the baseline covers that use. In any case it hides at most
      a twentieth of the capacity. */
  lemma ReadingIsDataIff(data: nat, overhead: nat, stored: nat, capacity: nat)
    ensures FsUsage(data + overhead, stored, capacity) == data
            <==> Baseline(stored, capacity) == overhead || (data == 0 && overhead <= Baseline(stored, capacity))
    ensures data <= FsUsage(data + overhead, stored, capacity) + capacity / 20
  {}

  // ---- the protocol ----

  /** `Removing` is about to destroy slot `next`, `Clearing` to clear its assignment. */
  datatype Stage = Guarding | Removing(next: nat) | Clearing(next: nat) | Over

  /** A slot's kind when the guard came to it, and what it read. */
  datatype Seen = Seen(kind: Kind, reading: Reading)

  /** A run of `destroyTierPool`, with what its guard has read so far. */
  datatype Job = Job(explicit: bool, seen: seq<Seen>, stage: Stage)

  /** A backing was destroyed: by which kind of job, on what reading, with how much in it. */
  datatype Removal = Removal(slot: nat, explicit: bool, seen: Option<Seen>, lost: nat)

  /** `destroying` and `slots` persist; `jobs` die with the daemon. `confirmed`: some DELETE was
      accepted since the start of the run. */
  datatype Pool = Pool(destroying: bool, gone: bool, slots: seq<Slot>, jobs: seq<Job>, confirmed: bool,
                       removals: seq<Removal>)

  datatype Action =
    | Delete(named: bool, consumers: nat, force: bool)
    | Crash
    | Boot
    | Read(j: nat, r: Reading)
    | Destroy(j: nat, works: bool)
    | Clear(j: nat)
    | Abort(j: nat)
    | Close(j: nat)
    | Write(i: nat, used: nat)
    | Reach(i: nat, visible: bool)

  /** `deleteTier`: the name is typed in full, and consumers need the second confirmation. */
  predicate Accepts(p: Pool, named: bool, consumers: nat, force: bool) {
    !p.gone && named && (consumers == 0 || force)
  }

  function SetJob(p: Pool, j: nat, stage: Stage): Pool
    requires j < |p.jobs|
  {
    p.(jobs := p.jobs[j := p.jobs[j].(stage := stage)])
  }

  function GuardStep(p: Pool, j: nat, r: Reading): Pool
    requires j < |p.jobs|
  {
    var job := p.jobs[j];
    if !job.stage.Guarding? then p
    else if |job.seen| >= |p.slots| then SetJob(p, j, Removing(0))
    else if Passes(p.slots[|job.seen|].kind, r)
    then p.(jobs := p.jobs[j := job.(seen := job.seen + [Seen(p.slots[|job.seen|].kind, r)])])
    else SetJob(p, j, Over)
  }

  /** A backend that fails is logged and passed over; so is a backing that is not there. */
  function DestroyStep(p: Pool, j: nat, works: bool): Pool
    requires j < |p.jobs|
  {
    var job := p.jobs[j];
    if !job.stage.Removing? || job.stage.next >= |p.slots| then p
    else
      var k := job.stage.next;
      var after := SetJob(p, j, Clearing(k));
      if !works || !IsRemovable(p.slots[k]) then after
      else
        var seen := if k < |job.seen| then Some(job.seen[k]) else None;
        after.(slots := p.slots[k := p.slots[k].(backing := Nothing)],
               removals := p.removals + [Removal(k, job.explicit, seen, p.slots[k].backing.used)])
  }

  /** `ClearTierAssignment` makes the slot an empty mdadm one, whatever became of its backing. */
  function ClearStep(p: Pool, j: nat): Pool
    requires j < |p.jobs|
  {
    var job := p.jobs[j];
    if !job.stage.Clearing? || job.stage.next >= |p.slots| then p
    else
      var k := job.stage.next;
      SetJob(p, j, Removing(k + 1)).(slots := p.slots[k := p.slots[k].(kind := Mounted)])
  }

  function Apply(p: Pool, a: Action): Pool {
    match a
    case Delete(named, consumers, force) =>
      if Accepts(p, named, consumers, force)
      then p.(destroying := true, confirmed := true, jobs := p.jobs + [Job(true, [], Removing(0))]) else p
    case Crash => p.(jobs := [])
    case Boot => if p.destroying && !p.gone then p.(jobs := p.jobs + [Job(false, [], Guarding)]) else p
    case Read(j, r) => if j < |p.jobs| then GuardStep(p, j, r) else p
    case Destroy(j, works) => if j < |p.jobs| then DestroyStep(p, j, works) else p
    case Clear(j) => if j < |p.jobs| then ClearStep(p, j) else p
    case Abort(j) => if j < |p.jobs| then SetJob(p, j, Over) else p
    case Close(j) =>
      if j < |p.jobs| && p.jobs[j].stage == Removing(|p.slots|) then SetJob(p, j, Over).(gone := true) else p
    case Write(i, used) =>
      if i < |p.slots| && p.slots[i].backing.Visible?
      then p.(slots := p.slots[i := p.slots[i].(backing := Visible(used))]) else p
    case Reach(i, visible) =>
      if i < |p.slots| && !p.slots[i].backing.Nothing? then
        var used := p.slots[i].backing.used;
        p.(slots := p.slots[i := p.slots[i].(backing := if visible then Visible(used) else Hidden(used))])
      else p
  }

  function Run(p: Pool, acts: seq<Action>): Pool
    decreases acts
  {
    if acts == [] then p else Run(Apply(p, acts[0]), acts[1..])
  }

  // ---- the guard is never skipped ----

  /** The guard, if any, is behind it. */
  predicate IsPast(job: Job) { job.stage.Removing? || job.stage.Clearing? }

  predicate JobOk(p: Pool, job: Job) {
    && (job.explicit ==> p.confirmed)
    && (!job.explicit ==>
          && |job.seen| <= |p.slots|
          && (IsPast(job) ==> |job.seen| == |p.slots|)
          && forall i | 0 <= i < |job.seen| :: Passes(job.seen[i].kind, job.seen[i].reading))
  }

  predicate RemovalOk(p: Pool, e: Removal) {
    && (e.explicit ==> p.confirmed)
    && (!e.explicit ==> e.seen.Some? && Passes(e.seen.value.kind, e.seen.value.reading))
  }

  predicate Inv(p: Pool) {
    && (forall j | 0 <= j < |p.jobs| :: JobOk(p, p.jobs[j]))
    && (forall i | 0 <= i < |p.removals| :: RemovalOk(p, p.removals[i]))
  }

  lemma InvStep(p: Pool, a: Action)
    requires Inv(p)
    ensures Inv(Apply(p, a))
  {
    JobsStep(p, a);
    RemovalsStep(p, a);
  }

  lemma JobsStep(p: Pool, a: Action)
    requires Inv(p)
    ensures var t := Apply(p, a); forall j | 0 <= j < |t.jobs| :: JobOk(t, t.jobs[j])
  {
    if a.Read? && a.j < |p.jobs| { ReadStep(p, a.j, a.r); }
  }

  lemma ReadStep(p: Pool, j: nat, r: Reading)
    requires Inv(p) && j < |p.jobs|
    ensures var t := GuardStep(p, j, r); forall k | 0 <= k < |t.jobs| :: JobOk(t, t.jobs[k])
  {}

  lemma RemovalsStep(p: Pool, a: Action)
    requires Inv(p)
    ensures var t := Apply(p, a); forall i | 0 <= i < |t.removals| :: RemovalOk(t, t.removals[i])
  {}

  lemma {:induction false} InvRun(p: Pool, acts: seq<Action>)
    requires Inv(p)
    ensures Inv(Run(p, acts))
    decreases acts
  {
    if acts != [] {
      InvStep(p, acts[0]);
      InvRun(Apply(p, acts[0]), acts[1..]);
    }
  }

  /** Over every run of deletes, crashes and boots, whatever state the pool was left in: what an
      automatic teardown destroys was measured by its own guard and found within the slack or
      absent, so more than the slack is lost only where that reading had gone stale; anything else
      was destroyed by a teardown begun from a confirmed DELETE. */
  lemma BootRemovesOnlyMeasured(p: Pool, acts: seq<Action>, i: nat)
    requires p.jobs == [] && p.removals == [] && !p.confirmed
    requires i < |Run(p, acts).removals|
    ensures var t := Run(p, acts); var e := t.removals[i];
            if e.explicit then t.confirmed && exists k | 0 <= k < |acts| :: ConfirmsAt(p, acts, k)
            else
              && e.seen.Some? && Passes(e.seen.value.kind, e.seen.value.reading)
              && (e.lost > SLACK ==> e.seen.value.reading != Used(e.lost))
  {
    InvRun(p, acts);
    ConfirmedMeansDeleted(p, acts);
    assert RemovalOk(Run(p, acts), Run(p, acts).removals[i]);
  }

  /** The operator's delete, confirmed by the full name and, where something uses the pool, again. */
  predicate ConfirmsAt(p: Pool, acts: seq<Action>, k: nat)
    requires k < |acts|
  {
    acts[k].Delete? && acts[k].named && (acts[k].consumers == 0 || acts[k].force) && !Run(p, acts[..k]).gone
  }

  /** A teardown is explicit only after such a delete, and from then on until the pool is gone it is
      marked for destruction, so that every boot takes it up again. */
  lemma {:induction false} ConfirmedMeansDeleted(p: Pool, acts: seq<Action>)
    requires !p.confirmed
    ensures var t := Run(p, acts);
            && (t.confirmed <==> exists k | 0 <= k < |acts| :: ConfirmsAt(p, acts, k))
            && (t.confirmed && !t.gone ==> t.destroying && Apply(t, Boot).jobs == t.jobs + [Job(false, [], Guarding)])
    decreases |acts|
  {
    if acts != [] {
      var front, a := acts[..|acts| - 1], acts[|acts| - 1];
      assert acts == front + [a];
      ConfirmedMeansDeleted(p, front);
      RunSnoc(p, front, a);
      forall k | 0 <= k < |front| ensures ConfirmsAt(p, acts, k) <==> ConfirmsAt(p, front, k) {
        assert acts[..k] == front[..k];
      }
      ConfirmStep(Run(p, front), a);
      if ConfirmsAt(p, acts, |front|) { assert acts[..|front|] == front; }
    }
  }

  lemma ConfirmStep(p: Pool, a: Action)
    ensures var t := Apply(p, a);
            && (t.confirmed <==> p.confirmed || (a.Delete? && a.named && (a.consumers == 0 || a.force) && !p.gone))
            && (!(p.confirmed && !p.gone && !p.destroying) ==> !(t.confirmed && !t.gone && !t.destroying))
            && (p.gone ==> t.gone)
  {}

  /** What a teardown has left behind it is cleared, and so is everything in a pool that is gone. */
  predicate AllCleared(p: Pool, n: nat) { forall i | 0 <= i < n && i < |p.slots| :: p.slots[i].kind.Mounted? }

  predicate ClearedInv(p: Pool) {
    && (p.gone ==> AllCleared(p, |p.slots|))
    && forall j | 0 <= j < |p.jobs| && IsPast(p.jobs[j]) :: AllCleared(p, p.jobs[j].stage.next)
  }

  lemma ClearedStep(p: Pool, a: Action)
    requires ClearedInv(p)
    ensures ClearedInv(Apply(p, a)) && |Apply(p, a).slots| == |p.slots|
  {
    if a.Clear? && a.j < |p.jobs| { ClearedClear(p, a.j); }
    else if a.Destroy? && a.j < |p.jobs| { ClearedDestroy(p, a.j, a.works); }
    else if a.Write? || a.Reach? { ClearedOutside(p, a); }
  }

  lemma ClearedDestroy(p: Pool, j: nat, works: bool)
    requires ClearedInv(p) && j < |p.jobs|
    ensures ClearedInv(DestroyStep(p, j, works))
  {}

  lemma ClearedOutside(p: Pool, a: Action)
    requires ClearedInv(p) && (a.Write? || a.Reach?)
    ensures ClearedInv(Apply(p, a))
  {}

  lemma ClearedClear(p: Pool, j: nat)
    requires ClearedInv(p) && j < |p.jobs|
    ensures ClearedInv(ClearStep(p, j))
  {}

  /** A pool's record goes only after each of its slots was cleared, whoever's teardown that was. */
  lemma {:induction false} GoneMeansCleared(p: Pool, acts: seq<Action>)
    requires ClearedInv(p)
    ensures var t := Run(p, acts); ClearedInv(t) && |t.slots| == |p.slots| && (t.gone ==> AllCleared(t, |p.slots|))
    decreases acts
  {
    if acts != [] {
      ClearedStep(p, acts[0]);
      GoneMeansCleared(Apply(p, acts[0]), acts[1..]);
    }
  }

  // ---- and it protects the data ----

  predicate Tells(s: Slot, r: Reading) {
    && (r.Used? ==> s.backing == Visible(r.bytes))
    && (r.Missing? ==> !IsRemovable(s))
  }

  predicate Light(s: Slot) { IsRemovable(s) ==> s.backing.used <= SLACK }

  /** Some automatic teardown has already read slot `i`. */
  predicate IsRead(p: Pool, i: nat) {
    exists j | 0 <= j < |p.jobs| :: !p.jobs[j].explicit && !p.jobs[j].stage.Over? && i < |p.jobs[j].seen|
  }

  /** Readings are true when taken. */
  predicate Truthful(p: Pool, a: Action) {
    a.Read? && a.j < |p.jobs| && |p.jobs[a.j].seen| < |p.slots| ==> Tells(p.slots[|p.jobs[a.j].seen|], a.r)
  }

  /** A slot that was read gains no data and does not appear. */
  predicate Still(p: Pool, a: Action) {
    match a
    case Write(i, used) => used > SLACK ==> !IsRead(p, i)
    case Reach(i, visible) => visible ==> !IsRead(p, i)
    case _ => true
  }

  predicate Along(p: Pool, acts: seq<Action>, still: bool)
    decreases acts
  {
    acts != [] ==>
      Truthful(p, acts[0]) && (still ==> Still(p, acts[0])) && Along(Apply(p, acts[0]), acts[1..], still)
  }

  predicate ReadLight(p: Pool) {
    forall j, i | 0 <= j < |p.jobs| && !p.jobs[j].explicit && !p.jobs[j].stage.Over?
                  && 0 <= i < |p.jobs[j].seen| && i < |p.slots| :: Light(p.slots[i])
  }

  predicate NoHeavyLoss(removals: seq<Removal>) {
    forall i | 0 <= i < |removals| && removals[i].lost > SLACK :: removals[i].explicit
  }

  lemma LightStep(p: Pool, a: Action)
    requires Inv(p) && ReadLight(p) && Truthful(p, a) && Still(p, a)
    ensures ReadLight(Apply(p, a))
  {
    if a.Read? && a.j < |p.jobs| { LightRead(p, a.j, a.r); }
    else if a.Destroy? && a.j < |p.jobs| { LightDestroy(p, a.j, a.works); }
    else if a.Clear? && a.j < |p.jobs| { LightClear(p, a.j); }
  }

  lemma LightDestroy(p: Pool, j: nat, works: bool)
    requires ReadLight(p) && j < |p.jobs|
    ensures ReadLight(DestroyStep(p, j, works))
  {}

  lemma LightClear(p: Pool, j: nat)
    requires ReadLight(p) && j < |p.jobs|
    ensures ReadLight(ClearStep(p, j))
  {}

  lemma LightRead(p: Pool, j: nat, r: Reading)
    requires Inv(p) && ReadLight(p) && j < |p.jobs| && Truthful(p, Read(j, r))
    ensures ReadLight(GuardStep(p, j, r))
  {}

  lemma LossStep(p: Pool, a: Action)
    requires Inv(p) && ReadLight(p) && NoHeavyLoss(p.removals)
    ensures NoHeavyLoss(Apply(p, a).removals)
  {}

  /** While no slot is disturbed between its reading and its removal, every backing that is
      destroyed with more than the slack in it was destroyed by a confirmed DELETE. */
  lemma {:induction false} DataLostOnlyByConfirmedDelete(p: Pool, acts: seq<Action>)
    requires Inv(p) && ReadLight(p) && NoHeavyLoss(p.removals) && Along(p, acts, true)
    ensures var t := Run(p, acts);
            NoHeavyLoss(t.removals) && forall i | 0 <= i < |t.removals| && t.removals[i].lost > SLACK :: t.confirmed
    decreases acts
  {
    if acts != [] {
      InvStep(p, acts[0]);
      LightStep(p, acts[0]);
      LossStep(p, acts[0]);
      DataLostOnlyByConfirmedDelete(Apply(p, acts[0]), acts[1..]);
    }
  }

  predicate IsFresh(p: Pool) { p.jobs == [] && p.removals == [] && !p.confirmed }

  /** With true readings, no run destroys more than the slack unconfirmed, exactly when slots are
      left still between reading and removal. */
  lemma BootSafeIffStill(still: bool)
    ensures (forall p, acts | IsFresh(p) && Along(p, acts, still) :: NoHeavyLoss(Run(p, acts).removals)) <==> still
  {
    if still {
      forall p, acts | IsFresh(p) && Along(p, acts, still) ensures NoHeavyLoss(Run(p, acts).removals) {
        DataLostOnlyByConfirmedDelete(p, acts);
      }
    } else {
      var p, acts := LateImportIsDestroyed(SLACK + 1);
      assert Run(p, acts).removals[0].lost > SLACK && !Run(p, acts).removals[0].explicit;
    }
  }

  /** A ZFS pool that is imported after the guard truly found its dataset missing. */
  lemma LateImportIsDestroyed(used: nat) returns (p: Pool, acts: seq<Action>)
    ensures IsFresh(p) && Along(p, acts, false) && p.slots == [Slot(Zfs, false, Hidden(used))]
    ensures Run(p, acts).removals == [Removal(0, false, Some(Seen(Zfs, Missing)), used)]
  {
    p := Pool(true, false, [Slot(Zfs, false, Hidden(used))], [], false, []);
    acts := [Boot, Read(0, Missing), Read(0, Missing), Reach(0, true), Destroy(0, true)];
    var seen := Seen(Zfs, Missing);
    var p1 := p.(jobs := [Job(false, [], Guarding)]);
    var p2 := p.(jobs := [Job(false, [seen], Guarding)]);
    var p3 := p.(jobs := [Job(false, [seen], Removing(0))]);
    var p4 := p3.(slots := [Slot(Zfs, false, Visible(used))]);
    GuardsHidden(p, used);
    ImportsAndLoses(p3, used);
    OneMore(p4, acts[4], []);
    OneMore(p3, acts[3], [acts[4]]);
    OneMore(p2, acts[2], [acts[3], acts[4]]);
    OneMore(p1, acts[1], [acts[2], acts[3], acts[4]]);
    OneMore(p, acts[0], [acts[1], acts[2], acts[3], acts[4]]);
  }

  lemma GuardsHidden(p: Pool, used: nat)
    requires p == Pool(true, false, [Slot(Zfs, false, Hidden(used))], [], false, [])
    ensures var p1, seen := p.(jobs := [Job(false, [], Guarding)]), Seen(Zfs, Missing);
            && Apply(p, Boot) == p1
            && Apply(p1, Read(0, Missing)) == p.(jobs := [Job(false, [seen], Guarding)])
            && Apply(p.(jobs := [Job(false, [seen], Guarding)]), Read(0, Missing))
               == p.(jobs := [Job(false, [seen], Removing(0))])
  {
    var seen := Seen(Zfs, Missing);
    var p1, p2 := p.(jobs := [Job(false, [], Guarding)]), p.(jobs := [Job(false, [seen], Guarding)]);
    assert [] + [seen] == [seen] && Apply(p1, Read(0, Missing)).jobs == p2.jobs;
    assert Apply(p2, Read(0, Missing)).jobs == [Job(false, [seen], Removing(0))];
  }

  lemma ImportsAndLoses(p: Pool, used: nat)
    requires p.slots == [Slot(Zfs, false, Hidden(used))] && p.jobs == [Job(false, [Seen(Zfs, Missing)], Removing(0))]
    requires p.removals == []
    ensures var p4 := p.(slots := [Slot(Zfs, false, Visible(used))]);
            && Apply(p, Reach(0, true)) == p4
            && Apply(p4, Destroy(0, true)).removals == [Removal(0, false, Some(Seen(Zfs, Missing)), used)]
  {
    assert Apply(p, Reach(0, true)).slots == [Slot(Zfs, false, Visible(used))];
  }

  lemma OneMore(p: Pool, a: Action, rest: seq<Action>)
    requires Truthful(p, a) && Along(Apply(p, a), rest, false)
    ensures Along(p, [a] + rest, false) && Run(p, [a] + rest) == Run(Apply(p, a), rest)
  {
    assert ([a] + rest)[1..] == rest;
  }

  // ---- what gets past the guard at boot ----

  /** No automatic teardown has got past slot `i`, which is cleared and has nothing to measure. */
  predicate IsBlocked(p: Pool, i: nat) {
    && i < |p.slots| && p.slots[i].kind.Mounted? && p.slots[i].backing.Nothing?
    && forall j | 0 <= j < |p.jobs| && !p.jobs[j].explicit :: !IsPast(p.jobs[j]) && |p.jobs[j].seen| <= i
  }

  predicate OnlyExplicit(removals: seq<Removal>, from: nat) {
    forall k | from <= k < |removals| :: removals[k].explicit
  }

  lemma BlockedStep(p: Pool, a: Action, i: nat)
    requires IsBlocked(p, i) && Truthful(p, a)
    ensures IsBlocked(Apply(p, a), i)
    ensures p.removals <= Apply(p, a).removals && OnlyExplicit(Apply(p, a).removals, |p.removals|)
  {
    if a.Read? && a.j < |p.jobs| { BlockedRead(p, a.j, a.r, i); }
    else if (a.Destroy? || a.Clear?) && a.j < |p.jobs| { BlockedTeardown(p, a, i); }
  }

  lemma BlockedTeardown(p: Pool, a: Action, i: nat)
    requires IsBlocked(p, i) && (a.Destroy? || a.Clear?) && a.j < |p.jobs|
    ensures IsBlocked(Apply(p, a), i)
    ensures p.removals <= Apply(p, a).removals && OnlyExplicit(Apply(p, a).removals, |p.removals|)
  {}

  lemma BlockedRead(p: Pool, j: nat, r: Reading, i: nat)
    requires IsBlocked(p, i) && Truthful(p, Read(j, r)) && j < |p.jobs|
    ensures IsBlocked(GuardStep(p, j, r), i)
  {}

  /** A slot that an interrupted teardown destroyed and cleared ends automatic teardown for good:
      on true readings no boot ever gets past it, and whatever goes after that goes by DELETE. */
  lemma {:induction false} ClearedSlotBlocksBoots(p: Pool, acts: seq<Action>, i: nat)
    requires IsBlocked(p, i) && Along(p, acts, false)
    ensures IsBlocked(Run(p, acts), i)
    ensures p.removals <= Run(p, acts).removals && OnlyExplicit(Run(p, acts).removals, |p.removals|)
    decreases acts
  {
    if acts != [] {
      BlockedStep(p, acts[0], i);
      ClearedSlotBlocksBoots(Apply(p, acts[0]), acts[1..], i);
    }
  }

  /** A true reading of the slot can pass: it is there and light, or a ZFS slot out of reach. */
  predicate Passable(s: Slot) { Light(s) && (s.backing.Visible? || (s.kind.Zfs? && !IsRemovable(s))) }

  function Reads(j: nat, readings: seq<Reading>): (acts: seq<Action>)
    ensures |acts| == |readings| && forall i | 0 <= i < |acts| :: acts[i] == Read(j, readings[i])
  {
    seq(|readings|, i requires 0 <= i < |readings| => Read(j, readings[i]))
  }

  /** On true readings some guard run gets job `j` through. */
  ghost predicate CanPass(p: Pool, j: nat) {
    exists readings :: Along(p, Reads(j, readings), false) && j < |Run(p, Reads(j, readings)).jobs|
                       && IsPast(Run(p, Reads(j, readings)).jobs[j])
  }

  /** A boot's teardown can get past its guard exactly when every slot is passable. So a slot that
      was cleared without being destroyed, and is still mounted and light, does not stop it. */
  lemma BootPassesIff(p: Pool, j: nat)
    requires j < |p.jobs| && p.jobs[j] == Job(false, [], Guarding)
    ensures CanPass(p, j) <==> forall i | 0 <= i < |p.slots| :: Passable(p.slots[i])
  {
    if CanPass(p, j) {
      var readings :| Along(p, Reads(j, readings), false) && j < |Run(p, Reads(j, readings)).jobs|
                      && IsPast(Run(p, Reads(j, readings)).jobs[j]);
      PassedAreLight(p, j, readings);
    } else if forall i | 0 <= i < |p.slots| :: Passable(p.slots[i]) {
      var readings := Passing(p, j);
      assert false;
    }
  }

  lemma {:induction false} PassedAreLight(p: Pool, j: nat, readings: seq<Reading>)
    requires j < |p.jobs| && p.jobs[j].stage.Guarding? && |p.jobs[j].seen| <= |p.slots|
    requires Along(p, Reads(j, readings), false) && j < |Run(p, Reads(j, readings)).jobs|
    requires IsPast(Run(p, Reads(j, readings)).jobs[j])
    ensures forall i | |p.jobs[j].seen| <= i < |p.slots| :: Passable(p.slots[i])
    decreases readings
  {
    if readings != [] {
      assert Reads(j, readings)[1..] == Reads(j, readings[1..]);
      var t := Apply(p, Read(j, readings[0]));
      ReadLeaves(p, j, readings[0]);
      if t.jobs[j].stage.Guarding? {
        PassedAreLight(t, j, readings[1..]);
      } else if t.jobs[j].stage.Over? {
        StaysOver(t, j, readings[1..]);
      }
    }
  }

  /** After one reading the guard goes on past a passable slot, is through, or is over. */
  lemma ReadLeaves(p: Pool, j: nat, r: Reading)
    requires j < |p.jobs| && p.jobs[j].stage.Guarding? && Truthful(p, Read(j, r)) && |p.jobs[j].seen| <= |p.slots|
    ensures var t, k := Apply(p, Read(j, r)), |p.jobs[j].seen|;
            && t.slots == p.slots && |t.jobs| == |p.jobs| && !t.jobs[j].stage.Clearing?
            && (t.jobs[j].stage.Guarding? ==> k < |p.slots| && Passable(p.slots[k]) && |t.jobs[j].seen| == k + 1)
            && (t.jobs[j].stage.Removing? ==> k == |p.slots|)
  {}

  lemma {:induction false} StaysOver(p: Pool, j: nat, readings: seq<Reading>)
    requires j < |p.jobs| && p.jobs[j].stage.Over?
    ensures Run(p, Reads(j, readings)) == p
    decreases readings
  {
    if readings != [] {
      assert Reads(j, readings)[1..] == Reads(j, readings[1..]);
      StaysOver(p, j, readings[1..]);
    }
  }

  function ReadingOf(s: Slot): Reading { if s.backing.Visible? then Used(s.backing.used) else Missing }

  lemma {:induction false} Passing(p: Pool, j: nat) returns (readings: seq<Reading>)
    requires j < |p.jobs| && p.jobs[j].stage.Guarding? && |p.jobs[j].seen| <= |p.slots|
    requires forall i | |p.jobs[j].seen| <= i < |p.slots| :: Passable(p.slots[i])
    ensures Along(p, Reads(j, readings), false) && j < |Run(p, Reads(j, readings)).jobs|
    ensures IsPast(Run(p, Reads(j, readings)).jobs[j])
    decreases |p.slots| - |p.jobs[j].seen|
  {
    var k := |p.jobs[j].seen|;
    var r := if k < |p.slots| then ReadingOf(p.slots[k]) else Missing;
    var t := Apply(p, Read(j, r));
    var rest: seq<Reading> := [];
    if k < |p.slots| { rest := Passing(t, j); }
    readings := [r] + rest;
    assert Reads(j, readings)[1..] == Reads(j, rest);
  }

  // ---- one teardown, as written ----

  lemma {:induction false} RunAppend(p: Pool, a: seq<Action>, b: seq<Action>)
    ensures Run(p, a + b) == Run(Run(p, a), b)
    decreases a
  {
    if a == [] {
      assert a + b == b;
    } else {
      RunAppend(Apply(p, a[0]), a[1..], b);
      assert (a + b)[1..] == a[1..] + b;
    }
  }

  lemma RunSnoc(p: Pool, acts: seq<Action>, a: Action)
    ensures Run(p, acts + [a]) == Apply(Run(p, acts), a)
  {
    RunAppend(p, acts, [a]);
    assert [a][1..] == [] && Run(Run(p, acts), [a]) == Run(Apply(Run(p, acts), a), []);
  }

  /** What a teardown may do to a slot: leave its backing, or destroy it if it can go. */
  predicate Spared(was: Slot, now: Slot) {
    now.backing == was.backing || (IsRemovable(was) && now.backing.Nothing?)
  }

  /** A slot after the loop has passed it, by whether its backend's destroy worked. */
  function Cleared(s: Slot, works: bool): Slot {
    Slot(Mounted, s.volume, if works && IsRemovable(s) then Nothing else s.backing)
  }

  predicate LetsThrough(slots: seq<Slot>, readings: Option<seq<Reading>>) {
    && readings.Some? && |readings.value| == |slots|
    && forall i | 0 <= i < |slots| :: Passes(slots[i].kind, readings.value[i])
  }

  class TierStorage {
    var slots: seq<Slot>
    var gone: bool
    ghost var job: Job
    ghost var removals: seq<Removal>

    ghost function View(): Pool reads this { Pool(true, gone, slots, [job], job.explicit, removals) }

    constructor (s: seq<Slot>, explicit: bool)
      ensures slots == s && !gone && removals == []
      ensures job == Job(explicit, [], if explicit then Removing(0) else Guarding)
    {
      slots, gone, removals := s, false, [];
      job := Job(explicit, [], if explicit then Removing(0) else Guarding);
    }

    /** The guard's readings, as actions. */
    ghost method Guard(readings: seq<Reading>) returns (acts: seq<Action>)
      requires job == Job(false, [], Guarding) && |readings| == |slots|
      modifies this`job
      ensures View() == Run(old(View()), acts) && !job.explicit
      ensures job.stage == if forall i | 0 <= i < |slots| :: Passes(slots[i].kind, readings[i]) then Removing(0) else Over
    {
      acts := [];
      ghost var start := View();
      for i := 0 to |slots|
        invariant View() == Run(start, acts) && !job.explicit && job.stage.Guarding? && |job.seen| == i
        invariant forall k | 0 <= k < i :: Passes(slots[k].kind, readings[k])
      {
        RunSnoc(start, acts, Read(0, readings[i]));
        acts := acts + [Read(0, readings[i])];
        job := GuardStep(View(), 0, readings[i]).jobs[0];
        if job.stage.Over? { return; }
      }
      RunSnoc(start, acts, Read(0, Missing));
      acts := acts + [Read(0, Missing)];
      job := job.(stage := Removing(0));
    }

    /** The slot loop; it stops at a slot whose assignment cannot be cleared, leaving that slot's
        backing destroyed or not. */
    method RemoveSlots(works: seq<bool>, smooth: bool) returns (ok: bool, ghost acts: seq<Action>)
      requires job.stage == Removing(0) && |works| == |slots|
      modifies this`slots, this`job, this`removals
      ensures View() == Run(old(View()), acts) && job.explicit == old(job.explicit)
      ensures |slots| == |old(slots)| && forall i | 0 <= i < |slots| :: Spared(old(slots)[i], slots[i])
      ensures (ok ==> job.stage == Removing(|slots|)) && (smooth ==> ok)
      ensures ok ==> forall i | 0 <= i < |slots| :: slots[i] == Cleared(old(slots)[i], works[i])
    {
      acts := [];
      ghost var start := View();
      for k := 0 to |slots|
        invariant |slots| == |old(slots)| && View() == Run(start, acts)
        invariant job.stage == Removing(k) && job.explicit == old(job.explicit)
        invariant forall i | 0 <= i < k :: slots[i] == Cleared(old(slots)[i], works[i])
        invariant forall i | k <= i < |slots| :: slots[i] == old(slots)[i]
      {
        RunSnoc(start, acts, Destroy(0, works[k]));
        acts := acts + [Destroy(0, works[k])];
        DestroySlot(k, works[k]);
        var cleared: bool := *;
        if !cleared && !smooth { return false, acts; }
        RunSnoc(start, acts, Clear(0));
        acts := acts + [Clear(0)];
        ClearSlot(k);
      }
      return true, acts;
    }

    /** One slot's destroy: an unmounted volume goes too, a dataset out of reach does not. */
    method DestroySlot(k: nat, works: bool)
      requires job.stage == Removing(k) && k < |slots|
      modifies this`slots, this`job, this`removals
      ensures View() == Apply(old(View()), Destroy(0, works)) && job == old(job).(stage := Clearing(k))
      ensures slots == old(slots)[k := old(slots)[k].(backing := Cleared(old(slots)[k], works).backing)]
    {
      if works && IsRemovable(slots[k]) {
        removals := removals + [Removal(k, job.explicit, if k < |job.seen| then Some(job.seen[k]) else None, slots[k].backing.used)];
        slots := slots[k := slots[k].(backing := Nothing)];
      }
      job := job.(stage := Clearing(k));
    }

    /** `ClearTierAssignment`. */
    method ClearSlot(k: nat)
      requires job.stage == Clearing(k) && k < |slots|
      modifies this`slots, this`job
      ensures View() == Apply(old(View()), Clear(0)) && job == old(job).(stage := Removing(k + 1))
      ensures slots == old(slots)[k := old(slots)[k].(kind := Mounted)]
    {
      slots := slots[k := slots[k].(kind := Mounted)];
      job := job.(stage := Removing(k + 1));
    }

    /** `destroyTierPool` is a run of the protocol. Automatic and refused: nothing is touched.
        Automatic on true readings: nothing with more than the slack in it is destroyed. Where the
        unmount and every clear work (`smooth`), it succeeds unless its guard refuses. */
    method Teardown(explicit: bool, readings: Option<seq<Reading>>, works: seq<bool>, smooth: bool) returns (ok: bool, ghost acts: seq<Action>)
      requires (readings.Some? ==> |readings.value| == |slots|) && |works| == |slots|
      requires job == Job(explicit, [], if explicit then Removing(0) else Guarding)
      modifies this
      ensures View() == Run(old(View()), acts)
      ensures |slots| == |old(slots)| && forall i | 0 <= i < |slots| :: Spared(old(slots)[i], slots[i])
      ensures !explicit && (readings.None? || exists i | 0 <= i < |readings.value| ::
                              !Passes(old(slots)[i].kind, readings.value[i])) ==>
                !ok && slots == old(slots) && gone == old(gone)
      ensures !explicit && readings.Some? && (forall i | 0 <= i < |readings.value| :: Tells(old(slots)[i], readings.value[i])) ==>
                forall i | 0 <= i < |slots| :: slots[i].backing == old(slots)[i].backing || Light(old(slots)[i])
      ensures ok ==> gone && forall i | 0 <= i < |slots| :: slots[i] == Cleared(old(slots)[i], works[i])
      ensures smooth && (explicit || LetsThrough(old(slots), readings)) ==> ok
    {
      ghost var start := View();
      acts := [];
      if !explicit {
        var held := true;
        held, acts := Guarded(readings);
        if held { return false, acts; }
      }
      var unmounted: bool := *;
      if !unmounted && !smooth { return false, acts; }
      ghost var teardown;
      ok, teardown := RemoveSlots(works, smooth);
      RunAppend(start, acts, teardown);
      acts := acts + teardown;
      if ok {
        RunSnoc(start, acts, Close(0));
        acts := acts + [Close(0)];
        gone := true;
        job := job.(stage := Over);
      }
    }

    method Guarded(readings: Option<seq<Reading>>) returns (held: bool, ghost acts: seq<Action>)
      requires job == Job(false, [], Guarding) && (readings.Some? ==> |readings.value| == |slots|)
      modifies this`job
      ensures View() == Run(old(View()), acts) && !job.explicit
      ensures held <==> readings.None? || exists i | 0 <= i < |slots| :: !Passes(slots[i].kind, readings.value[i])
      ensures !held ==> job.stage == Removing(0)
    {
      if readings.None? { held := TierBackingHoldsData(None, []); return held, []; }
      var kinds := seq(|slots|, i requires 0 <= i < |slots| reads this => slots[i].kind);
      held := TierBackingHoldsData(Some(kinds), readings.value);
      acts := Guard(readings.value);
    }
  }
}
