/** The start-up sweep over every target (`recoverActiveLUNMoveIntents`): each intent that a dead
    tierd left in flight is re-pinned and given a terminal state. */
module LunSweep {
  import opened ActiveLun

  datatype Target = Target(iqn: string, isFile: bool)

  /** What the intent key of a target holds. */
  datatype Stored = Corrupt | Intent(file: string, dest: string, phase: Phase)

  /** The chain from pool lookup to the kernel's answer either breaks or says where the file is. */
  datatype Inspection = Broken | Seen(movement: Movement, tier: nat, dest: nat)

  /** The environment during one sweep: what fails, and what the kernel says of a file. */
  datatype World = World(unreadable: set<string>, unpinnable: set<string>, unwritable: set<string>,
                         inspect: (string, string) -> Inspection)

  predicate Finished(i: Inspection) { i.Seen? && Settled(i.movement) && i.tier == i.dest }

  function Recovered(i: Inspection): Phase {
    if i.Seen? then Verdict(true, i.movement, i.tier, i.dest) else Failed
  }

  /** A readable intent that is still in flight. */
  predicate IsDue(intents: map<string, Stored>, w: World, iqn: string) {
    iqn in intents && iqn !in w.unreadable && intents[iqn].Intent? && InFlight(intents[iqn].phase)
  }

  function DecidedOne(intents: map<string, Stored>, iqn: string, w: World): map<string, Stored> {
    if IsDue(intents, w, iqn) && iqn !in w.unwritable
    then intents[iqn := intents[iqn].(phase := Recovered(w.inspect(intents[iqn].file, intents[iqn].dest)))]
    else intents
  }

  function RepinnedOne(intents: map<string, Stored>, iqn: string, w: World): set<string> {
    if IsDue(intents, w, iqn) && intents[iqn].file !in w.unpinnable then {intents[iqn].file} else {}
  }

  predicate IsListed(targets: seq<Target>, iqn: string) {
    exists i | 0 <= i < |targets| :: targets[i].isFile && targets[i].iqn == iqn
  }

  /** Such an intent of a listed file-backed target. */
  predicate IsStuck(intents: map<string, Stored>, targets: seq<Target>, w: World, iqn: string) {
    IsDue(intents, w, iqn) && IsListed(targets, iqn)
  }

  /** The journal afterwards: exactly the stuck intents whose write lands are decided. */
  function Decided(intents: map<string, Stored>, targets: seq<Target>, w: World): map<string, Stored> {
    map iqn | iqn in intents ::
      if IsStuck(intents, targets, w, iqn) && iqn !in w.unwritable
      then intents[iqn].(phase := Recovered(w.inspect(intents[iqn].file, intents[iqn].dest)))
      else intents[iqn]
  }

  function Repinned(intents: map<string, Stored>, targets: seq<Target>, w: World): set<string> {
    set iqn | iqn in intents && IsStuck(intents, targets, w, iqn) && intents[iqn].file !in w.unpinnable
            :: intents[iqn].file
  }

  class LunStore {
    var intents: map<string, Stored>
    var pins: set<string>
    var quiesced: set<string>

    constructor (m: map<string, Stored>, p: set<string>, q: set<string>)
      ensures intents == m && pins == p && quiesced == q
    {
      intents, pins, quiesced := m, p, q;
    }

    method Recover(targets: seq<Target>, w: World)
      modifies this`intents, this`pins
      ensures intents == Decided(old(intents), targets, w)
      ensures pins == old(pins) + Repinned(old(intents), targets, w)
    {
      for i := 0 to |targets|
        invariant intents == Decided(old(intents), targets[..i], w)
        invariant pins == old(pins) + Repinned(old(intents), targets[..i], w)
      {
        ListedMore(targets, i);
        if targets[i].isFile { RecoverOne(targets[i].iqn, w); }
        SweepGrows(old(intents), targets, i, w);
      }
      assert targets[..|targets|] == targets;
    }

    method RecoverOne(iqn: string, w: World)
      modifies this`intents, this`pins
      ensures intents == DecidedOne(old(intents), iqn, w)
      ensures pins == old(pins) + RepinnedOne(old(intents), iqn, w)
    {
      if iqn !in intents || iqn in w.unreadable { return; }
      var intent := intents[iqn];
      if intent.Corrupt? || !InFlight(intent.phase) { return; }
      if intent.file !in w.unpinnable { pins := pins + {intent.file}; }
      var decided := intent.(phase := Recovered(w.inspect(intent.file, intent.dest)));
      if iqn !in w.unwritable { intents := intents[iqn := decided]; }
    }
  }

  lemma ListedMore(targets: seq<Target>, i: nat)
    requires i < |targets|
    ensures forall iqn :: IsListed(targets[..i + 1], iqn) <==>
                          IsListed(targets[..i], iqn) || (targets[i].isFile && targets[i].iqn == iqn)
  {
    forall iqn ensures IsListed(targets[..i + 1], iqn) <==>
                       IsListed(targets[..i], iqn) || (targets[i].isFile && targets[i].iqn == iqn)
    {
      if IsListed(targets[..i], iqn) {
        var k :| 0 <= k < i && targets[..i][k].isFile && targets[..i][k].iqn == iqn;
        assert targets[..i + 1][k].isFile;
      }
      assert targets[..i + 1][i] == targets[i];
    }
  }

  /** One more target: a second visit to the same one finds it decided and adds nothing. */
  lemma SweepGrows(intents: map<string, Stored>, targets: seq<Target>, i: nat, w: World)
    requires i < |targets|
    ensures var now := Decided(intents, targets[..i], w);
            var t := targets[i];
            && Decided(intents, targets[..i + 1], w) == (if t.isFile then DecidedOne(now, t.iqn, w) else now)
            && Repinned(intents, targets[..i + 1], w)
               == Repinned(intents, targets[..i], w) + (if t.isFile then RepinnedOne(now, t.iqn, w) else {})
  {
    ListedMore(targets, i);
  }

  // ---- what the sweep achieves ----

  /** An intent is still in flight afterwards exactly when it was and the store failed on it, or
      no file-backed target carries it. */
  lemma LeftInFlight(intents: map<string, Stored>, targets: seq<Target>, w: World, iqn: string)
    requires iqn in intents && intents[iqn].Intent?
    ensures var after := Decided(intents, targets, w)[iqn];
            && after.Intent? && after.file == intents[iqn].file && after.dest == intents[iqn].dest
            && (InFlight(after.phase) <==>
                  InFlight(intents[iqn].phase)
                  && (iqn in w.unreadable || iqn in w.unwritable || !IsListed(targets, iqn)))
  {}

  /** It is called completed exactly when it was already, or when it was in flight and the kernel
      had settled on the destination tier. */
  lemma CompletedIffFinished(intents: map<string, Stored>, targets: seq<Target>, w: World, iqn: string)
    requires iqn in intents && intents[iqn].Intent? && iqn !in w.unwritable
    ensures Decided(intents, targets, w)[iqn].phase.Completed? <==>
              intents[iqn].phase.Completed?
              || (IsStuck(intents, targets, w, iqn) && Finished(w.inspect(intents[iqn].file, intents[iqn].dest)))
  {}

  /** A sweep cut short by another crash can simply be run again, whatever failed before and
      whatever the kernel says by then: an intent keeps the verdict of the first sweep if that one
      wrote it, and otherwise gets what the second alone would give it. */
  lemma SweepResumes(intents: map<string, Stored>, targets: seq<Target>, w: World, done: nat, later: World, iqn: string)
    requires done <= |targets| && iqn in intents
    ensures var half := Decided(intents, targets[..done], w);
            Decided(half, targets, later)[iqn]
            == if IsStuck(intents, targets[..done], w, iqn) && iqn !in w.unwritable then half[iqn]
               else Decided(intents, targets, later)[iqn]
  {}

  /** If nothing changed in between, the two together leave what one full sweep leaves. In
      particular a second full sweep changes nothing. */
  lemma SweepRepeats(intents: map<string, Stored>, targets: seq<Target>, w: World, done: nat)
    requires done <= |targets|
    ensures var half := Decided(intents, targets[..done], w);
            && Decided(half, targets, w) == Decided(intents, targets, w)
            && Repinned(intents, targets[..done], w) + Repinned(half, targets, w) == Repinned(intents, targets, w)
  {
    forall iqn | IsListed(targets[..done], iqn) ensures IsListed(targets, iqn) {
      var k :| 0 <= k < done && targets[..done][k].isFile && targets[..done][k].iqn == iqn;
      assert targets[k].isFile;
    }
    var half := Decided(intents, targets[..done], w);
    forall file | file in Repinned(intents, targets, w)
      ensures file in Repinned(intents, targets[..done], w) + Repinned(half, targets, w)
    {
      var iqn :| iqn in intents && IsStuck(intents, targets, w, iqn) && intents[iqn].file == file;
      assert IsStuck(intents, targets[..done], w, iqn) || IsStuck(half, targets, w, iqn);
    }
  }

  /** On each listed target the sweep is the protocol's two recovery actions. */
  lemma SweepIsRecovery(intents: map<string, Stored>, targets: seq<Target>, w: World, iqn: string, s: Lun)
    requires iqn in intents && intents[iqn].Intent? && IsListed(targets, iqn)
    requires s.daemon.Down? && s.journal == intents[iqn].phase
    requires var i := w.inspect(intents[iqn].file, intents[iqn].dest);
             i.Seen? ==> i == Seen(s.movement, s.tier, s.dest)
    ensures var at, file := w.inspect(intents[iqn].file, intents[iqn].dest), intents[iqn].file;
            var pinned := Apply(s, SweepPin(iqn !in w.unreadable, file !in w.unpinnable));
            var t := Apply(pinned, SweepNote(at.Seen?, iqn !in w.unwritable));
            && t.journal == Decided(intents, targets, w)[iqn].phase
            && t.daemon.Up? && t.live == s.live && t.quiesced == s.quiesced
            && (t.pinned ==> s.pinned || file in Repinned(intents, targets, w))
            && (IsStuck(intents, targets, w, iqn) && file !in w.unpinnable ==> t.pinned)
  {
    if IsStuck(intents, targets, w, iqn) && intents[iqn].file !in w.unpinnable {
      assert intents[iqn].file in Repinned(intents, targets, w);
    }
  }

  /** And run while the daemon serves it is the protocol's reconcile. */
  lemma SweepIsReconcile(intents: map<string, Stored>, targets: seq<Target>, w: World, iqn: string, s: Lun)
    requires iqn in intents && intents[iqn].Intent? && IsListed(targets, iqn)
    requires s.daemon.Up? && s.reconcile.NoReconcile? && s.journal == intents[iqn].phase
    requires var i := w.inspect(intents[iqn].file, intents[iqn].dest);
             i.Seen? ==> i == Seen(s.movement, s.tier, s.dest)
    ensures var at, file := w.inspect(intents[iqn].file, intents[iqn].dest), intents[iqn].file;
            var pinned := Apply(s, ReconcilePin(iqn !in w.unreadable, file !in w.unpinnable));
            var t := Apply(pinned, ReconcileNote(at.Seen?, iqn !in w.unwritable));
            && t == s.(journal := Decided(intents, targets, w)[iqn].phase, pinned := t.pinned)
            && t.pinned == (s.pinned || (IsStuck(intents, targets, w, iqn) && file !in w.unpinnable))
  {}
}
