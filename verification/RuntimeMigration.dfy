/** Moving the container runtime's files off the system disk (`migrateRuntimeStorage`), with a
    crash possible between any two effects and any number of boots. */
module RuntimeMigration {
  import opened Wrappers

  /** A path below the directory, by components. */
  type Path = seq<string>

  datatype Entry = Dir | File(content: string)

  type Tree = map<Path, Entry>

  const MARKER: Path := [".migrated-from-var-lib"]

  function Parent(p: Path): Path
    requires p != []
  {
    p[..|p| - 1]
  }

  /** What a file system guarantees: every entry below the top lies in a directory. */
  predicate Closed(t: Tree) {
    forall p | p in t :: p != [] && (|p| > 1 ==> Parent(p) in t && t[Parent(p)].Dir?)
  }

  datatype Phase = Idle | Copying | Marking | Removing

  /** `old` is None once the directory is gone; an absent `new` is an empty one. */
  datatype State = State(old_: Option<Tree>, new_: Tree, phase: Phase)

  /** The effects of the procedure and its environment, one at a time. */
  datatype Action =
    | Boot(markerSeen: bool, mkdirOk: bool)
    | Copy(path: Path)
    | CopyTemp(path: Path, content: string)
    | RsyncExit(ok: bool)
    | WriteMarker(ok: bool, created: bool)
    | Remove(path: Path)
    | RemoveExit(ok: bool)
    | Crash

  predicate Copied(from: Tree, to: Tree) { forall p | p in from :: p in to && to[p] == from[p] }

  /** There is a directory in the target for the entry to go into. */
  predicate HasPlace(t: Tree, p: Path) { p != [] && (|p| > 1 ==> Parent(p) in t && t[Parent(p)].Dir?) }

  /** A path for rsync's temporary data: never the marker's, a source entry's or a directory's. */
  predicate IsTemp(from: Tree, to: Tree, p: Path) {
    p !in from && p != MARKER && HasPlace(to, p) && (p in to ==> to[p].File?)
  }

  /** The tree without `p` and everything below it. */
  function Pruned(t: Tree, p: Path): Tree { map q | q in t && !(p <= q) :: t[q] }

  /** The marker is there if an entry of any kind has its name, as a stat tells; writing it fails on
      a directory and empties a file. */
  function Step(s: State, a: Action): State {
    match a
    case Boot(markerSeen, mkdirOk) =>
      if s.phase != Idle || s.old_.None? then s
      else if MARKER in s.new_ && markerSeen then s.(phase := Removing)
      else if s.new_ != map[] || !mkdirOk then s
      else s.(phase := Copying)
    case Copy(p) =>
      if s.phase == Copying && s.old_.Some? && p in s.old_.value && p !in s.new_ && HasPlace(s.new_, p)
      then s.(new_ := s.new_[p := s.old_.value[p]]) else s
    case CopyTemp(p, content) =>
      if s.phase == Copying && s.old_.Some? && IsTemp(s.old_.value, s.new_, p)
      then s.(new_ := s.new_[p := File(content)]) else s
    case RsyncExit(ok) =>
      if s.phase != Copying then s
      else if ok && s.old_.Some? && Copied(s.old_.value, s.new_) then s.(phase := Marking)
      else s.(phase := Idle)
    case WriteMarker(ok, created) =>
      if s.phase != Marking then s
      else if MARKER in s.new_ && s.new_[MARKER].Dir? then s.(phase := Idle)
      else if ok then s.(new_ := s.new_[MARKER := File("")], phase := Removing)
      else if created then s.(new_ := s.new_[MARKER := File("")], phase := Idle)
      else s.(phase := Idle)
    case Remove(p) =>
      if s.phase == Removing && s.old_.Some? then s.(old_ := Some(Pruned(s.old_.value, p))) else s
    case RemoveExit(ok) =>
      if s.phase != Removing then s
      else if ok && s.old_ == Some(map[]) then State(None, s.new_, Idle)
      else s.(phase := Idle)
    case Crash => s.(phase := Idle)
  }

  function Run(s: State, acts: seq<Action>): State
    decreases acts
  {
    if acts == [] then s else Run(Step(s, acts[0]), acts[1..])
  }

  /** The trees stay file-system trees, so an entry below the marker comes only after it. */
  predicate AllClosed(s: State) { Closed(s.new_) && (s.old_.Some? ==> Closed(s.old_.value)) }

  lemma ClosedStep(s: State, a: Action)
    requires AllClosed(s)
    ensures AllClosed(Step(s, a))
  {
    if a.Remove? && s.old_.Some? { PrunedClosed(s.old_.value, a.path); }
  }

  lemma PrunedClosed(t: Tree, p: Path)
    requires Closed(t)
    ensures Closed(Pruned(t, p))
  {
    forall q | q in Pruned(t, p) && |q| > 1 ensures Parent(q) in Pruned(t, p) {
      assert p <= Parent(q) ==> p <= q;
    }
  }

  lemma {:induction false} ClosedRun(s: State, acts: seq<Action>)
    requires AllClosed(s)
    ensures AllClosed(Run(s, acts))
    decreases acts
  {
    if acts != [] {
      ClosedStep(s, acts[0]);
      ClosedRun(Step(s, acts[0]), acts[1..]);
    }
  }

  // ---- nothing is lost ----

  /** Every entry first in the old directory is still there, or is in the new one under the marker. */
  predicate Kept(first: Tree, s: State) {
    forall p | p in first ::
      || (s.old_.Some? && p in s.old_.value && s.old_.value[p] == first[p])
      || (MARKER in s.new_ && p in s.new_ && s.new_[p] == first[p])
  }

  /** Alone in the directory and nothing to lose: an empty file or an empty directory. */
  predicate IsLoneMarker(first: Tree) { first == map[MARKER := File("")] || first == map[MARKER := Dir] }

  /** When the marker can be trusted: a stale one stands for a finished copy, and the old
      directory holds no entry of the marker's name, unless it is alone and empty. */
  predicate MarkerIsSound(first: Tree, target: Tree) {
    && (MARKER in target ==> Copied(first, target))
    && (target == map[] && MARKER in first ==> IsLoneMarker(first))
  }

  function Start(first: Tree, target: Tree): State { State(Some(first), target, Idle) }

  predicate Inv(first: Tree, s: State) {
    && (MARKER in s.new_ ==> Copied(first, s.new_))
    && (s.phase == Removing ==> MARKER in s.new_)
    && (s.phase.Copying? || s.phase.Marking? ==> (MARKER in s.new_ || MARKER in first) ==> IsLoneMarker(first))
    && (s.new_ == map[] && MARKER in first ==> IsLoneMarker(first))
    && (s.phase == Marking ==> Copied(first, s.new_))
    && (MARKER !in s.new_ ==> s.old_ == Some(first))
    && (s.old_.Some? ==> forall p | p in s.old_.value :: p in first && s.old_.value[p] == first[p])
  }

  lemma InvStep(first: Tree, s: State, a: Action)
    requires Inv(first, s)
    ensures Inv(first, Step(s, a))
  {}

  lemma {:induction false} InvRun(first: Tree, s: State, acts: seq<Action>)
    requires Inv(first, s)
    ensures Inv(first, Run(s, acts))
    decreases acts
  {
    if acts != [] {
      InvStep(first, s, acts[0]);
      InvRun(first, Step(s, acts[0]), acts[1..]);
    }
  }

  /** No run of boots, failures and crashes loses an entry, exactly when the marker is sound. */
  lemma CrashSafeIffMarkerSound(first: Tree, target: Tree)
    ensures (forall acts :: Kept(first, Run(Start(first, target), acts))) <==> MarkerIsSound(first, target)
  {
    if MarkerIsSound(first, target) {
      forall acts ensures Kept(first, Run(Start(first, target), acts)) {
        InvRun(first, Start(first, target), acts);
      }
    } else {
      var acts := LosingRun(first, target);
    }
  }

  /** An unmarked copy, however far it got, is never taken for a finished one: entries leave the
      old directory only while a complete copy lies under the marker. */
  lemma RemovalNeedsCompleteCopy(first: Tree, target: Tree, acts: seq<Action>, p: Path)
    requires MarkerIsSound(first, target)
    requires var s := Run(Start(first, target), acts); Step(s, Remove(p)) != s
    ensures var s := Run(Start(first, target), acts); MARKER in s.new_ && Copied(first, s.new_)
  {
    InvRun(first, Start(first, target), acts);
  }

  lemma LosingRun(first: Tree, target: Tree) returns (acts: seq<Action>)
    requires !MarkerIsSound(first, target)
    ensures !Kept(first, Run(Start(first, target), acts))
  {
    var s := Start(first, target);
    var boot := Boot(true, true);
    if MARKER in target {
      var p :| p in first && (p !in target || target[p] != first[p]);
      acts := [boot, Remove(p)];
      RunTwo(s, boot, Remove(p));
      assert p !in Run(s, acts).old_.value;
    } else {
      var s2 := Step(Step(s, boot), Copy(MARKER));
      assert s2 == State(Some(first), map[MARKER := first[MARKER]], Copying);
      var b, c, d := LosesAfterMarker(first, s2);
      acts := [boot, Copy(MARKER)] + ([b] + [c, d]);
      RunAppend(s, [boot, Copy(MARKER)], [b] + [c, d]);
      RunTwo(s, boot, Copy(MARKER));
      assert ([b] + [c, d])[1..] == [c, d];
      RunTwo(Step(s2, b), c, d);
    }
  }

  /** With nothing copied but the marker's own entry: either a crash makes the copy look finished,
      or the marker is written over the file of its name. */
  lemma LosesAfterMarker(first: Tree, s2: State) returns (b: Action, c: Action, d: Action)
    requires MARKER in first && !IsLoneMarker(first)
    requires s2 == State(Some(first), map[MARKER := first[MARKER]], Copying)
    ensures !Kept(first, Step(Step(Step(s2, b), c), d))
  {
    if p :| p in first && p != MARKER {
      b, c, d := Crash, Boot(true, true), Remove(p);
      assert p !in Step(Step(Step(s2, b), c), d).old_.value;
    } else {
      assert first == map[MARKER := first[MARKER]];
      b, c, d := RsyncExit(true), WriteMarker(true, true), Remove(MARKER);
      assert MARKER !in Step(Step(Step(s2, b), c), d).old_.value;
    }
  }

  lemma RunTwo(s: State, a: Action, b: Action)
    ensures Run(s, [a, b]) == Step(Step(s, a), b)
  {
    assert [a, b][1..] == [b] && [b][1..] == [];
    assert Run(Step(s, a), [b]) == Run(Step(Step(s, a), b), []);
  }

  lemma {:induction false} RunAppend(s: State, a: seq<Action>, b: seq<Action>)
    ensures Run(s, a + b) == Run(Run(s, a), b)
    decreases a
  {
    if a == [] {
      assert a + b == b;
    } else {
      RunAppend(Step(s, a[0]), a[1..], b);
      assert (a + b)[1..] == a[1..] + b;
    }
  }

  // ---- the procedure as written ----

  /** A shortest path still to copy has its directory in place. */
  lemma NextToCopy(from: Tree, to: Tree, todo: set<Path>)
    requires Closed(from) && todo <= from.Keys && todo != {}
    requires forall p <- from :: p in todo || (p in to && to[p] == from[p])
    ensures exists p :: p in todo && HasPlace(to, p)
  {
    var p := Shortest(todo);
    assert |p| > 1 ==> |Parent(p)| < |p| && Parent(p) !in todo;
    assert HasPlace(to, p);
  }

  lemma {:induction false} Shortest(paths: set<Path>) returns (p: Path)
    requires paths != {}
    ensures p in paths && forall q <- paths :: |p| <= |q|
    decreases |paths|
  {
    p :| p in paths;
    if paths != {p} {
      assert paths - {p} != {};
      var q := Shortest(paths - {p});
      if |q| < |p| { p := q; }
    }
  }

  predicate IsDirAt(t: Tree, p: Path) { p in t && t[p].Dir? }

  /** One answer of the environment; it can be bad only where not everything `works`. */
  method Ask(works: bool) returns (ok: bool)
    ensures works ==> ok
  {
    ok := *;
    ok := ok || works;
  }

  lemma Smaller<T>(a: set<T>, b: set<T>, x: T)
    requires a <= b && x in b && x !in a
    ensures |a| < |b|
  {
    assert b == a + (b - a) && x in b - a;
  }

  /** The two directories. The ghost part records the effects so far, so that every point
      at which the process could die is a state of `Run`. */
  class RuntimeDirs {
    var old_: Option<Tree>
    var new_: Tree
    ghost var acts: seq<Action>
    ghost var phase: Phase
    ghost const origin: State

    ghost function View(): State reads this { State(old_, new_, phase) }

    ghost predicate Valid() reads this { Run(origin, acts) == View() && AllClosed(View()) }

    /** Wherever the process stands, or died, nothing first in the old directory is lost. */
    lemma NothingLost()
      requires Valid() && origin.old_.Some? && origin.phase.Idle? && MarkerIsSound(origin.old_.value, origin.new_)
      ensures Kept(origin.old_.value, View())
    {
      InvRun(origin.old_.value, origin, acts);
    }

    constructor (old_: Option<Tree>, new_: Tree)
      requires Closed(new_) && (old_.Some? ==> Closed(old_.value))
      ensures Valid() && View() == State(old_, new_, Idle) && origin == View()
    {
      this.old_, this.new_, this.acts, this.phase := old_, new_, [], Idle;
      this.origin := State(old_, new_, Idle);
    }

    ghost method Did(a: Action, before: State)
      requires Run(origin, acts) == before && AllClosed(before) && View() == Step(before, a).(phase := phase)
      modifies this`acts, this`phase
      ensures Valid() && acts == old(acts) + [a] && View() == Step(before, a)
    {
      RunAppend(origin, acts, [a]);
      ClosedStep(before, a);
      acts, phase := acts + [a], Step(before, a).phase;
    }

    /** `migrateRuntimeStorage`. Each failure is the environment's choice; where nothing fails
        (`works`), it goes through on an empty or a marked target, unless a directory has the
        marker's name and stands in the way, and then everything is in the new directory. */
    method Migrate(works: bool) returns (ok: bool)
      requires Valid() && phase == Idle
      modifies this
      ensures Valid() && old(acts) <= acts && phase == Idle
      ensures ok <==> old_.None?
      ensures works && old(old_).Some? ==> (ok <==> MARKER in old(new_) || (old(new_) == map[] && !IsDirAt(old(old_).value, MARKER)))
      ensures ok && old(old_).Some? && old(new_) == map[] ==> MARKER in new_ && Copied(old(old_).value - {MARKER}, new_)
      ensures MARKER in old(new_) ==> new_ == old(new_)
    {
      if old_.None? { return true; }
      var markerSeen := Ask(works);
      if MARKER in new_ && markerSeen {
        Did(Boot(markerSeen, true), View());
        ok := RemoveOld(works);
        return;
      }
      if new_ != map[] { return false; }
      var mkdirOk := Ask(works);
      if !mkdirOk { return false; }
      Did(Boot(markerSeen, true), View());
      var rsyncOk := Rsync(works);
      if !rsyncOk { return false; }
      var marked := Mark(works);
      if !marked { return false; }
      ok := RemoveOld(works);
    }

    /** `os.WriteFile(marker, nil, 0o644)`, which may fail with or without the file. */
    method Mark(works: bool) returns (ok: bool)
      requires Valid() && phase == Marking
      modifies this
      ensures Valid() && old(acts) <= acts && old_ == old(old_)
      ensures phase == if ok then Removing else Idle
      ensures (ok ==> new_ == old(new_)[MARKER := File("")]) && (works ==> (ok <==> !IsDirAt(old(new_), MARKER)))
    {
      ghost var before := View();
      var written := Ask(works);
      var created: bool := *;
      var isDir := MARKER in new_ && new_[MARKER].Dir?;
      if !isDir && (written || created) { new_ := new_[MARKER := File("")]; }
      Did(WriteMarker(written, created), before);
      ok := !isDir && written;
    }

    /** rsync copies entries in any order, a directory before what it holds, and may stop anywhere. */
    method Rsync(works: bool) returns (ok: bool)
      requires Valid() && phase == Copying && old_.Some? && new_ == map[]
      modifies this
      ensures Valid() && old(acts) <= acts && old_ == old(old_)
      ensures phase == if ok then Marking else Idle
      ensures (works ==> ok) && (ok ==> Copied(old_.value, new_)) && (MARKER !in old_.value ==> MARKER !in new_)
    {
      var todo := old_.value.Keys;
      while todo != {}
        invariant Valid() && phase == Copying && old_ == old(old_) && old(acts) <= acts
        invariant todo <= old_.value.Keys && todo !! new_.Keys && (MARKER !in old_.value ==> MARKER !in new_)
        invariant forall p <- old_.value :: p in todo || (p in new_ && new_[p] == old_.value[p])
        decreases |todo|
      {
        var stop: bool := *;
        if stop && !works {
          Did(RsyncExit(false), View());
          return false;
        }
        WriteTemp();
        NextToCopy(old_.value, new_, todo);
        var p :| p in todo && HasPlace(new_, p);
        ghost var before := View();
        new_ := new_[p := old_.value[p]];
        Did(Copy(p), before);
        todo := todo - {p};
      }
      Did(RsyncExit(true), View());
      ok := true;
    }

    /** Temporary data may appear where no source entry goes. */
    method WriteTemp()
      requires Valid() && phase == Copying && old_.Some?
      modifies this
      ensures Valid() && old(acts) <= acts && old_ == old(old_) && phase == Copying
      ensures forall p <- old_.value :: p in new_ <==> p in old(new_)
      ensures forall p <- old_.value | p in new_ :: new_[p] == old(new_)[p]
      ensures MARKER in new_ <==> MARKER in old(new_)
    {
      var temp: Path := *;
      if IsTemp(old_.value, new_, temp) {
        var partial: string := *;
        ghost var before := View();
        new_ := new_[temp := File(partial)];
        Did(CopyTemp(temp, partial), before);
      }
    }

    /** `os.RemoveAll(oldPath)`, entry by entry; it may stop anywhere with an error. */
    method RemoveOld(works: bool) returns (ok: bool)
      requires Valid() && phase == Removing && old_.Some?
      modifies this
      ensures Valid() && old(acts) <= acts && phase == Idle && new_ == old(new_)
      ensures (ok <==> old_.None?) && (works ==> ok)
    {
      var todo := old_.value.Keys;
      while todo != {}
        invariant Valid() && phase == Removing && old_.Some? && old(acts) <= acts && new_ == old(new_)
        invariant todo == old_.value.Keys
        decreases |todo|
      {
        var stop: bool := *;
        if stop && !works {
          Did(RemoveExit(false), View());
          return false;
        }
        var p :| p in todo;
        ghost var before := View();
        old_ := Some(Pruned(old_.value, p));
        Did(Remove(p), before);
        assert p !in old_.value && old_.value.Keys <= todo;
        Smaller(old_.value.Keys, todo, p);
        todo := old_.value.Keys;
      }
      ghost var before := View();
      old_ := None;
      Did(RemoveExit(true), before);
      ok := true;
    }
  }
}
