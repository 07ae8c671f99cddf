/** Daily schedule slots: `schedule.Due`, the compare-and-set claim, and `scheduleTick`. Times are
    seconds; `None` is the empty `last_scheduled_at` of a job never scheduled. */
module ScheduleSlots {
  import opened Wrappers

  const DAY := 86400

  predicate IsAfter(t: int, previous: Option<int>) { previous.Some? ==> previous.value < t }

  const MINUTE := 60

  /** The wall clock of the NAS: where the day `back` days before now begins and ends, the minutes
      since midnight it shows at a time, and whether that weekday is selected. */
  datatype Calendar = Calendar(start: nat -> int, end: nat -> int, shows: int -> int, selected: nat -> bool)

  /** The first whole minute from `t` on whose wall clock has reached `target`, or the end of day. */
  function FirstAt(shows: int -> int, target: int, t: int, end: int): (s: int)
    ensures s == end || (t <= s < end && shows(s) >= target)
    decreases end - t
  {
    if t >= end then end else if shows(t) >= target then t else FirstAt(shows, target, t + MINUTE, end)
  }

  /** So a wall-clock time that daylight saving skips moves to the first minute after the gap, and
      one that it repeats is its first occurrence. */
  lemma {:induction false} FirstAtIsFirst(shows: int -> int, target: int, t: int, end: int, k: nat)
    requires t + k * MINUTE < end
    ensures FirstAt(shows, target, t, end) > t + k * MINUTE ==> shows(t + k * MINUTE) < target
    decreases k
  {
    if k > 0 && shows(t) < target { FirstAtIsFirst(shows, target, t + MINUTE, end, k - 1); }
  }

  /** `schedule.slot`. */
  method Slot(shows: int -> int, target: int, start: int, end: int) returns (s: int)
    ensures s == FirstAt(shows, target, start, end)
  {
    s := start;
    while s < end
      invariant FirstAt(shows, target, s, end) == FirstAt(shows, target, start, end)
      decreases end - s
    {
      if shows(s) >= target { return; }
      s := s + MINUTE;
    }
    s := end;
  }

  function SlotOf(cal: Calendar, target: int, back: nat): int {
    FirstAt(cal.shows, target, cal.start(back), cal.end(back))
  }

  predicate Qualifies(cal: Calendar, target: int, now: int, previous: Option<int>, back: nat) {
    && cal.selected(back) && SlotOf(cal, target, back) <= now && now - SlotOf(cal, target, back) <= DAY
    && IsAfter(SlotOf(cal, target, back), previous)
  }

  /** `schedule.Due`: the most recent day of the last three whose slot qualifies. */
  method Due(cal: Calendar, target: int, now: int, previous: Option<int>) returns (slot: Option<int>)
    ensures slot.Some? ==> IsAfter(slot.value, previous) && slot.value <= now <= slot.value + DAY
    ensures slot.None? ==> forall i | 0 <= i < 3 :: !Qualifies(cal, target, now, previous, i)
    ensures slot.Some? ==> exists i | 0 <= i < 3 ::
              && Qualifies(cal, target, now, previous, i) && slot.value == SlotOf(cal, target, i)
              && forall j | 0 <= j < i :: !Qualifies(cal, target, now, previous, j)
  {
    for i := 0 to 3
      invariant forall j | 0 <= j < i :: !Qualifies(cal, target, now, previous, j)
    {
      if !cal.selected(i) { continue; }
      var s := Slot(cal.shows, target, cal.start(i), cal.end(i));
      if s <= now && now - s <= DAY && IsAfter(s, previous) {
        assert Qualifies(cal, target, now, previous, i);
        return Some(s);
      }
    }
    return None;
  }

  // ---- claims ----

  /** One `ClaimBackupSlot` call: what the tick read, however long ago, and the slot it wants. */
  datatype Claim = Claim(job: nat, previous: Option<int>, slot: int)

  /** `last_scheduled_at` of the jobs with the schedule enabled, the others', and the claims won. */
  datatype Book = Book(last: map<nat, Option<int>>, enabled: set<nat>, won: seq<Claim>, next: nat)

  datatype Action = Try(c: Claim) | Add(on: bool) | Toggle(job: nat, on: bool) | Remove(job: nat)

  predicate Wins(b: Book, c: Claim) { c.job in b.last && c.job in b.enabled && b.last[c.job] == c.previous }

  function Apply(b: Book, a: Action): Book {
    match a
    case Try(c) =>
      if Wins(b, c) then b.(last := b.last[c.job := Some(c.slot)], won := b.won + [c]) else b
    case Add(on) =>
      Book(b.last[b.next := None], if on then b.enabled + {b.next} else b.enabled - {b.next}, b.won, b.next + 1)
    case Toggle(job, on) => b.(enabled := if on then b.enabled + {job} else b.enabled - {job})
    case Remove(job) => b.(last := b.last - {job})
  }

  function Run(b: Book, acts: seq<Action>): Book
    decreases acts
  {
    if acts == [] then b else Run(Apply(b, acts[0]), acts[1..])
  }

  /** What `Due` promises of every slot it hands out. */
  predicate FromDue(acts: seq<Action>) {
    forall i | 0 <= i < |acts| && acts[i].Try? :: IsAfter(acts[i].c.slot, acts[i].c.previous)
  }

  /** Of one job, the later claim begins no earlier than the slot of the one before. */
  predicate Ordered(c: Claim, d: Claim) {
    c.job == d.job ==> d.previous.Some? && c.slot <= d.previous.value && c.slot < d.slot
  }

  predicate Inv(b: Book) {
    && (forall j | j in b.last :: j < b.next)
    && (forall i | 0 <= i < |b.won| ::
          b.won[i].job < b.next && IsAfter(b.won[i].slot, b.won[i].previous)
          && (b.won[i].job in b.last ==> b.last[b.won[i].job].Some? && b.won[i].slot <= b.last[b.won[i].job].value))
    && (forall i, j | 0 <= i < j < |b.won| :: Ordered(b.won[i], b.won[j]))
  }

  lemma InvStep(b: Book, a: Action)
    requires Inv(b) && FromDue([a])
    ensures Inv(Apply(b, a))
  {
    assert a.Try? ==> IsAfter([a][0].c.slot, [a][0].c.previous);
  }

  lemma {:induction false} InvRun(b: Book, acts: seq<Action>)
    requires Inv(b) && FromDue(acts)
    ensures Inv(Run(b, acts))
    decreases acts
  {
    if acts != [] {
      InvStep(b, acts[0]);
      InvRun(Apply(b, acts[0]), acts[1..]);
    }
  }

  /** Whatever stale values the ticks act on: of each job, one claim at most succeeds per previous
      value, and the slots won strictly increase. */
  lemma SlotsStrictlyIncrease(b: Book, acts: seq<Action>)
    requires Inv(b) && FromDue(acts)
    ensures var won := Run(b, acts).won;
            forall i, j | 0 <= i < j < |won| && won[i].job == won[j].job ::
              won[i].slot < won[j].slot && won[i].previous != won[j].previous
  {
    InvRun(b, acts);
    var won := Run(b, acts).won;
    forall i, j | 0 <= i < j < |won| && won[i].job == won[j].job
      ensures won[i].slot < won[j].slot && won[i].previous != won[j].previous
    {
      assert Ordered(won[i], won[j]) && IsAfter(won[i].slot, won[i].previous);
    }
  }

  // ---- the tick ----

  /** What a tick read of one job. */
  datatype Listed = Listed(job: nat, on: bool, previous: Option<int>, target: int, cal: Calendar)

  ghost function DueSlot(l: Listed, now: int): Option<int> {
    if Qualifies(l.cal, l.target, now, l.previous, 0) then Some(SlotOf(l.cal, l.target, 0))
    else if Qualifies(l.cal, l.target, now, l.previous, 1) then Some(SlotOf(l.cal, l.target, 1))
    else if Qualifies(l.cal, l.target, now, l.previous, 2) then Some(SlotOf(l.cal, l.target, 2))
    else None
  }

  /** The tick should have this job's slot: it is on, due, and nobody moved its last slot. */
  ghost predicate IsWanted(b: Book, l: Listed, now: int) {
    l.on && DueSlot(l, now).Some? && Wins(b, Claim(l.job, l.previous, DueSlot(l, now).value))
  }

  predicate Distinct(listed: seq<Listed>) { forall i, j | 0 <= i < j < |listed| :: listed[i].job != listed[j].job }

  predicate Increasing(indices: seq<nat>, bound: nat) {
    && (forall i | 0 <= i < |indices| :: indices[i] < bound)
    && (forall i, j | 0 <= i < j < |indices| :: indices[i] < indices[j])
  }

  class Scheduler {
    var last: map<nat, Option<int>>
    var enabled: set<nat>
    ghost var won: seq<Claim>
    ghost var next: nat
    ghost var begun: seq<nat>       // for each run begun by a tick, the claim it is for

    ghost function View(): Book reads this { Book(last, enabled, won, next) }

    ghost predicate Valid() reads this { Inv(View()) && Increasing(begun, |won|) }

    constructor ()
      ensures Valid() && View() == Book(map[], {}, [], 0) && begun == []
    {
      last, enabled, won, next, begun := map[], {}, [], 0, [];
    }

    /** `ClaimBackupSlot`. */
    method TryClaim(c: Claim) returns (ok: bool)
      requires Valid() && IsAfter(c.slot, c.previous)
      modifies this`last, this`won
      ensures Valid() && View() == Apply(old(View()), Try(c))
      ensures ok <==> c.job in old(last) && c.job in old(enabled) && old(last)[c.job] == c.previous
      ensures won == old(won) + (if ok then [c] else []) && last == if ok then old(last)[c.job := Some(c.slot)] else old(last)
    {
      InvStep(View(), Try(c));
      ok := c.job in last && c.job in enabled && last[c.job] == c.previous;
      if ok {
        last := last[c.job := Some(c.slot)];
        won := won + [c];
      }
    }

    /** The job's due slot is its last one now, and its run is begun unless one is active. */
    ghost predicate IsServed(l: Listed, now: int, active: set<nat>) reads this {
      && DueSlot(l, now).Some? && l.job in last && last[l.job] == DueSlot(l, now)
      && (l.job !in active ==>
            exists n :: n in begun && n < |won| && won[n] == Claim(l.job, l.previous, DueSlot(l, now).value))
    }

    /** `scheduleTick` on a list read at any time before: every run it begins is for a claim of its
        own, one run per claim at most. Where everything `works`, every job that is on and due and
        whose last slot is unchanged gets that slot, and its run unless one is active; whatever
        fails, no other job's slot moves. During a shutdown nothing does. */
    method Tick(listed: seq<Listed>, now: int, active: set<nat>, draining: bool, works: bool) returns (ghost acts: seq<Action>)
      requires Valid()
      modifies this`last, this`won, this`begun
      ensures Valid() && FromDue(acts) && View() == Run(old(View()), acts)
      ensures old(begun) <= begun
      ensures draining ==> View() == old(View()) && begun == old(begun)
      ensures works && !draining && Distinct(listed) ==>
                forall i | 0 <= i < |listed| && IsWanted(old(View()), listed[i], now) :: IsServed(listed[i], now, active)
      ensures Distinct(listed) ==>
                forall j | j in last && j in old(last) && last[j] != old(last)[j] ::
                  exists i | 0 <= i < |listed| :: listed[i].job == j && IsWanted(old(View()), listed[i], now)
    {
      acts := [];
      if draining { return; }
      for i := 0 to |listed|
        invariant Valid() && FromDue(acts) && View() == Run(old(View()), acts)
        invariant old(begun) <= begun && last.Keys == old(last).Keys && enabled == old(enabled)
        invariant Distinct(listed) ==> forall k | i <= k < |listed| && listed[k].job in last :: last[listed[k].job] == old(last)[listed[k].job]
        invariant works && Distinct(listed) ==>
                    forall k | 0 <= k < i && IsWanted(old(View()), listed[k], now) :: IsServed(listed[k], now, active)
        invariant Distinct(listed) ==>
                    forall j | j in last && last[j] != old(last)[j] ::
                      exists k | 0 <= k < i :: listed[k].job == j && IsWanted(old(View()), listed[k], now)
      {
        ghost var act := Serve(listed[i], now, listed[i].job in active, works);
        if act.Some? {
          RunSnoc(old(View()), acts, act.value);
          acts := acts + [act.value];
        }
      }
    }

    /** One job's turn; a claim that errs is passed over. */
    method Serve(l: Listed, now: int, active: bool, works: bool) returns (ghost act: Option<Action>)
      requires Valid()
      modifies this`last, this`won, this`begun
      ensures Valid() && View() == if act.Some? then Apply(old(View()), act.value) else old(View())
      ensures act.Some? ==> FromDue([act.value])
      ensures old(begun) <= begun && old(won) <= won
      ensures last.Keys == old(last).Keys && forall j | j in last && j != l.job :: last[j] == old(last)[j]
      ensures !IsWanted(old(View()), l, now) ==> View() == old(View())
      ensures works && IsWanted(old(View()), l, now) ==> IsServed(l, now, if active then {l.job} else {})
    {
      act := None;
      if !l.on { return; }
      var slot := Due(l.cal, l.target, now, l.previous);
      assert slot == DueSlot(l, now);
      if slot.None? { return; }
      var c := Claim(l.job, l.previous, slot.value);
      var answers: bool, starts: bool := *, *;
      if !answers && !works { return; }
      act := Some(Try(c));
      var ok := TryClaim(c);
      if ok {
        Begin(c, active, starts || works);
        if !active && works { assert begun[|begun| - 1] == |won| - 1; }
      }
    }

    /** The claim is the tick's own now: begin its run, unless one is running or it is refused. */
    method Begin(c: Claim, active: bool, starts: bool)
      requires Valid() && won != [] && won[|won| - 1] == c && Increasing(begun, |won| - 1)
      modifies this`begun
      ensures Valid() && begun == old(begun) + if !active && starts then [|won| - 1] else []
    {
      if active { return; }
      if starts { begun := begun + [|won| - 1]; }
    }
  }

  lemma {:induction false} RunSnoc(b: Book, acts: seq<Action>, a: Action)
    ensures Run(b, acts + [a]) == Apply(Run(b, acts), a)
    decreases acts
  {
    if acts == [] {
      assert [a][1..] == [] && acts + [a] == [a];
      assert Run(b, [a]) == Run(Apply(b, a), []);
    } else {
      RunSnoc(Apply(b, acts[0]), acts[1..], a);
      assert (acts + [a])[1..] == acts[1..] + [a];
    }
  }

  predicate TakenAt(b: Book, acts: seq<Action>, k: nat, c: Claim)
    requires k < |acts|
  {
    var t := Run(b, acts[..k]);
    acts[k] == Try(c) && c.job in t.enabled && c.job in t.last && t.last[c.job] == c.previous
  }

  /** Every claim won was won for a job that was there and enabled at that time, from the very last
      slot it had. */
  lemma {:induction false} ClaimsAreFair(b: Book, acts: seq<Action>, c: Claim)
    requires b.won == []
    ensures c in Run(b, acts).won <==> exists k | 0 <= k < |acts| :: TakenAt(b, acts, k, c)
    decreases |acts|
  {
    if acts != [] {
      var front, a := acts[..|acts| - 1], acts[|acts| - 1];
      assert acts == front + [a] && acts[..|front|] == front;
      ClaimsAreFair(b, front, c);
      RunSnoc(b, front, a);
      forall k | 0 <= k < |front| ensures TakenAt(b, acts, k, c) <==> TakenAt(b, front, k, c) {
        assert acts[..k] == front[..k];
      }
      WonStep(Run(b, front), a, c);
      if c in Run(b, acts).won && c !in Run(b, front).won { assert TakenAt(b, acts, |front|, c); }
    }
  }

  lemma WonStep(b: Book, a: Action, c: Claim)
    ensures c in Apply(b, a).won
            <==> c in b.won || (a == Try(c) && c.job in b.enabled && c.job in b.last && b.last[c.job] == c.previous)
  {}

  /** So the slots for which runs begin strictly increase, job by job. */
  lemma BegunSlotsIncrease(b: Book, begun: seq<nat>)
    requires Inv(b) && Increasing(begun, |b.won|)
    ensures forall i, j | 0 <= i < j < |begun| && b.won[begun[i]].job == b.won[begun[j]].job ::
              b.won[begun[i]].slot < b.won[begun[j]].slot
  {
    forall i, j | 0 <= i < j < |begun| && b.won[begun[i]].job == b.won[begun[j]].job
      ensures b.won[begun[i]].slot < b.won[begun[j]].slot
    {
      assert Ordered(b.won[begun[i]], b.won[begun[j]]);
    }
  }
}
