/** Splitting a backup source tree into independent rsync work units
    (`walkRsyncWorkUnits`). Every interesting claim is about every finite tree. */
module WorkUnits {
  import opened Paths
  import opened Wrappers

  /** A source tree. `readable` is the outcome of `os.ReadDir` on that directory. */
  datatype Node = File | Dir(readable: bool, entries: seq<Entry>)
  datatype Entry = Entry(name: string, node: Node)

  type Path = seq<string>

  class UnitList {
    var units: seq<string>
    constructor () ensures units == [] { units := []; }
  }

  predicate HasSubdir(es: seq<Entry>) { exists e <- es :: e.node.Dir? }

  predicate Skipped(name: string) { name == "." || name == ".." || '/' in name }

  /** What a real file system guarantees: proper entry names, distinct in each directory. */
  predicate WellFormed(n: Node) {
    n.Dir? ==>
      && (forall i | 0 <= i < |n.entries| :: IsName(n.entries[i].name) && WellFormed(n.entries[i].node))
      && (forall i, j | 0 <= i < j < |n.entries| :: n.entries[i].name != n.entries[j].name)
  }

  // ---- the units, as component paths ----

  function Whole(at: Path): seq<Path> { if at == [] then [] else [at] }

  /** The units for directory `n` found at `at`, with `room` levels left; none on a read error. */
  function Units(n: Node, at: Path, room: nat): Option<seq<Path>>
    requires n.Dir?
    decreases n, |n.entries| + 1
  {
    if room == 0 then Some(Whole(at))
    else if !n.readable then None
    else if n.entries == [] then Some(Whole(at))
    else if !HasSubdir(n.entries) && at != [] then Some([at])
    else UnitsOfFirst(n, |n.entries|, at, room)
  }

  function UnitsOfFirst(n: Node, k: nat, at: Path, room: nat): Option<seq<Path>>
    requires n.Dir? && k <= |n.entries| && room > 0
    decreases n, k
  {
    if k == 0 then Some([])
    else
      var e := n.entries[k - 1];
      var before := UnitsOfFirst(n, k - 1, at, room);
      if before.None? || Skipped(e.name) then before
      else
        var here := EntryUnits(e, at, room);
        if here.None? then None else Some(before.value + here.value)
  }

  function EntryUnits(e: Entry, at: Path, room: nat): Option<seq<Path>>
    requires room > 0
    decreases e, 0
  {
    if e.node.Dir? then Units(e.node, at + [e.name], room - 1) else Some([at + [e.name]])
  }

  function Rels(us: seq<Path>): (rs: seq<string>)
    ensures |rs| == |us| && forall i | 0 <= i < |us| :: rs[i] == Join(us[i])
  {
    seq(|us|, i requires 0 <= i < |us| => Join(us[i]))
  }

  lemma RelsAppend(a: seq<Path>, b: seq<Path>)
    ensures Rels(a + b) == Rels(a) + Rels(b)
  {}

  // ---- the walk, as written ----

  /** `filepath.Join(rel, name)` on names the kernel hands out is plain concatenation. */
  lemma JoinName(at: Path, name: string)
    requires AllNames(at) && at != [] && IsName(name)
    ensures Clean(Join(at) + "/" + name) == Join(at + [name])
  {
    var cs := at + [name];
    JoinAppend(at, [name]);
    assert AllFree(cs) && Settled(cs, false);
    SplitJoin(cs);
    JoinStart(cs);
    ReduceKeeps(cs, false, []);
    assert [] + cs == cs;
  }

  /** `at` is the component form of `rel`; it exists only to state the result. */
  method Walk(n: Node, rel: string, maxDepth: nat, depth: nat, out: UnitList, ghost at: Path)
    returns (ok: bool)
    requires WellFormed(n) && n.Dir?
    requires depth <= maxDepth && AllNames(at) && rel == Join(at) && (rel == "" <==> at == [])
    modifies out
    ensures ok <==> Units(n, at, maxDepth - depth).Some?
    ensures ok ==> out.units == old(out.units) + Rels(Units(n, at, maxDepth - depth).value)
    decreases n, 1
  {
    if depth >= maxDepth {
      if rel != "" { out.units := out.units + [rel]; }
      return true;
    }
    if !n.readable { return false; }
    if |n.entries| == 0 {
      if rel != "" { out.units := out.units + [rel]; }
      return true;
    }
    var hasSubdir := false;
    for i := 0 to |n.entries|
      invariant hasSubdir <==> HasSubdir(n.entries[..i])
    {
      assert n.entries[..i + 1] == n.entries[..i] + [n.entries[i]];
      if n.entries[i].node.Dir? { hasSubdir := true; break; }
    }
    assert n.entries[..|n.entries|] == n.entries;
    assert hasSubdir <==> HasSubdir(n.entries);
    if !hasSubdir && rel != "" {
      out.units := out.units + [rel];
      return true;
    }
    ok := WalkEntries(n, rel, maxDepth, depth, out, at);
  }

  /** The loop over the entries. With no subdirectory it is the root's own loop, whose
      entries are all files. */
  method WalkEntries(n: Node, rel: string, maxDepth: nat, depth: nat, out: UnitList, ghost at: Path)
    returns (ok: bool)
    requires WellFormed(n) && n.Dir?
    requires depth < maxDepth && AllNames(at) && rel == Join(at) && (rel == "" <==> at == [])
    modifies out
    ensures ok <==> UnitsOfFirst(n, |n.entries|, at, maxDepth - depth).Some?
    ensures ok ==> out.units == old(out.units) + Rels(UnitsOfFirst(n, |n.entries|, at, maxDepth - depth).value)
    decreases n, 0
  {
    ghost var room := maxDepth - depth;
    ghost var start := out.units;
    for i := 0 to |n.entries|
      invariant UnitsOfFirst(n, i, at, room).Some?
      invariant out.units == start + Rels(UnitsOfFirst(n, i, at, room).value)
    {
      var e := n.entries[i];
      assert IsName(e.name);
      if e.name == "." || e.name == ".." || '/' in e.name { continue; }
      ok := WalkEntry(e, rel, maxDepth, depth, out, at);
      if !ok {
        NoneStays(n, i + 1, at, room);
        return false;
      }
      RelsAppend(UnitsOfFirst(n, i, at, room).value, EntryUnits(e, at, room).value);
    }
    ok := true;
  }

  method WalkEntry(e: Entry, rel: string, maxDepth: nat, depth: nat, out: UnitList, ghost at: Path)
    returns (ok: bool)
    requires WellFormed(e.node) && IsName(e.name)
    requires depth < maxDepth && AllNames(at) && rel == Join(at) && (rel == "" <==> at == [])
    modifies out
    ensures ok <==> EntryUnits(e, at, maxDepth - depth).Some?
    ensures ok ==> out.units == old(out.units) + Rels(EntryUnits(e, at, maxDepth - depth).value)
    decreases e, 0
  {
    var childRel := e.name;
    if rel != "" {
      JoinName(at, e.name);
      childRel := Clean(rel + "/" + e.name);
    }
    ghost var childAt := at + [e.name];
    assert AllNames(childAt);
    JoinStart(childAt);
    if e.node.Dir? {
      ok := Walk(e.node, childRel, maxDepth, depth + 1, out, childAt);
    } else {
      out.units := out.units + [childRel];
      ok := true;
    }
  }

  lemma {:induction false} NoneStays(n: Node, k: nat, at: Path, room: nat)
    requires n.Dir? && k <= |n.entries| && room > 0 && UnitsOfFirst(n, k, at, room).None?
    ensures UnitsOfFirst(n, |n.entries|, at, room).None?
    decreases |n.entries| - k
  {
    if k < |n.entries| { NoneStays(n, k + 1, at, room); }
  }

  // ---- what the units are ----

  /** Following `p` down from `n` ends at `leaf`. */
  ghost predicate LeadsTo(n: Node, p: Path, leaf: Node) {
    if p == [] then n == leaf
    else n.Dir? && exists i | 0 <= i < |n.entries| ::
                     n.entries[i].name == p[0] && LeadsTo(n.entries[i].node, p[1..], leaf)
  }

  ghost predicate HasFile(n: Node, p: Path) { LeadsTo(n, p, File) }

  ghost predicate HasDir(n: Node, p: Path) { exists d: Node :: d.Dir? && LeadsTo(n, p, d) }

  /** No unit is repeated and none lies inside another. */
  predicate Antichain(us: seq<Path>) {
    forall i, j | 0 <= i < |us| && 0 <= j < |us| && i != j :: !(us[i] <= us[j])
  }

  predicate Comparable(a: Path, b: Path) { a <= b || b <= a }

  /** Each unit extends the entry name of one of the first `k` entries. */
  predicate ExtendsEntry(n: Node, k: nat, at: Path, room: nat, u: Path)
    requires n.Dir? && k <= |n.entries|
  {
    |u| <= |at| + room && exists i | 0 <= i < k :: at + [n.entries[i].name] <= u
  }

  lemma {:induction false} UnitsShape(n: Node, at: Path, room: nat)
    requires WellFormed(n) && n.Dir? && Units(n, at, room).Some?
    ensures var us := Units(n, at, room).value;
            Antichain(us) && forall u <- us :: at <= u && |u| <= |at| + room && u != []
    decreases n, |n.entries| + 1
  {
    if room > 0 && n.entries != [] && (HasSubdir(n.entries) || at == []) {
      FirstShape(n, |n.entries|, at, room);
    }
  }

  lemma {:induction false} FirstShape(n: Node, k: nat, at: Path, room: nat)
    requires WellFormed(n) && n.Dir? && k <= |n.entries| && room > 0 && UnitsOfFirst(n, k, at, room).Some?
    ensures var us := UnitsOfFirst(n, k, at, room).value;
            Antichain(us) && forall u <- us :: ExtendsEntry(n, k, at, room, u)
    decreases n, k
  {
    if k > 0 {
      var e := n.entries[k - 1];
      assert IsName(e.name);
      FirstShape(n, k - 1, at, room);
      EntryShape(e, at, room);
      var before, here := UnitsOfFirst(n, k - 1, at, room).value, EntryUnits(e, at, room).value;
      forall u, v | u in before && v in here ensures !Comparable(u, v) {
        var i :| 0 <= i < k - 1 && at + [n.entries[i].name] <= u;
        assert u[|at|] == n.entries[i].name && v[|at|] == e.name;
      }
      AntichainAppend(before, here);
    }
  }

  lemma EntryShape(e: Entry, at: Path, room: nat)
    requires WellFormed(e.node) && room > 0 && EntryUnits(e, at, room).Some?
    ensures var us := EntryUnits(e, at, room).value;
            Antichain(us) && forall u <- us :: at + [e.name] <= u && |u| <= |at| + room
    decreases e, 0
  {
    if e.node.Dir? { UnitsShape(e.node, at + [e.name], room - 1); }
  }

  lemma AntichainAppend(a: seq<Path>, b: seq<Path>)
    requires Antichain(a) && Antichain(b) && forall u <- a, v <- b :: !Comparable(u, v)
    ensures Antichain(a + b)
  {
    var us := a + b;
    forall i, j | 0 <= i < |us| && 0 <= j < |us| && i != j ensures !(us[i] <= us[j]) {
      if i < |a| && j >= |a| {
        assert us[i] in a && us[j] in b && !Comparable(us[i], us[j]);
      } else if i >= |a| && j < |a| {
        assert us[j] in a && us[i] in b && !Comparable(us[j], us[i]);
      }
    }
  }

  /** Every file below `n` lies at or under a unit. */
  lemma {:induction false} FileCovered(n: Node, at: Path, room: nat, p: Path)
    requires n.Dir? && WellFormed(n) && Units(n, at, room).Some? && HasFile(n, p) && (at != [] || room > 0)
    ensures exists u <- Units(n, at, room).value :: u <= at + p
    decreases n
  {
    if at in Units(n, at, room).value {
      assert at <= at + p;
    } else {
      var i :| 0 <= i < |n.entries| && n.entries[i].name == p[0] && LeadsTo(n.entries[i].node, p[1..], File);
      var e := n.entries[i];
      EntryKept(n, i, |n.entries|, at, room);
      assert at + p == at + [e.name] + p[1..];
      if e.node.Dir? {
        FileCovered(e.node, at + [e.name], room - 1, p[1..]);
      } else {
        assert at + [e.name] in EntryUnits(e, at, room).value;
      }
    }
  }

  /** Below the root, a directory always yields a unit. */
  lemma {:induction false} UnitsNonEmpty(n: Node, at: Path, room: nat)
    requires n.Dir? && WellFormed(n) && Units(n, at, room).Some? && at != []
    ensures Units(n, at, room).value != []
    decreases n
  {
    if room > 0 && n.entries != [] && HasSubdir(n.entries) {
      var e := n.entries[0];
      EntryKept(n, 0, |n.entries|, at, room);
      if e.node.Dir? { UnitsNonEmpty(e.node, at + [e.name], room - 1); }
      assert EntryUnits(e, at, room).value[0] in EntryUnits(e, at, room).value;
    }
  }

  /** Every directory below `n` is inside a unit or has a unit inside it. */
  lemma {:induction false} DirTouched(n: Node, at: Path, room: nat, p: Path)
    requires n.Dir? && WellFormed(n) && Units(n, at, room).Some? && HasDir(n, p)
    requires at != [] || (room > 0 && p != [])
    ensures exists u <- Units(n, at, room).value :: Comparable(u, at + p)
    decreases n
  {
    var us := Units(n, at, room).value;
    if p == [] {
      UnitsNonEmpty(n, at, room);
      UnitsShape(n, at, room);
      assert us[0] in us && at + p == at;
    } else if at in us {
      assert at <= at + p;
    } else {
      var d: Node :| d.Dir? && LeadsTo(n, p, d);
      var i :| 0 <= i < |n.entries| && n.entries[i].name == p[0] && LeadsTo(n.entries[i].node, p[1..], d);
      var e := n.entries[i];
      EntryKept(n, i, |n.entries|, at, room);
      assert at + p == at + [e.name] + p[1..];
      DirTouched(e.node, at + [e.name], room - 1, p[1..]);
    }
  }

  lemma {:induction false} EntryKept(n: Node, i: nat, k: nat, at: Path, room: nat)
    requires n.Dir? && WellFormed(n) && i < k <= |n.entries| && room > 0 && UnitsOfFirst(n, k, at, room).Some?
    ensures EntryUnits(n.entries[i], at, room).Some?
    ensures forall u <- EntryUnits(n.entries[i], at, room).value :: u in UnitsOfFirst(n, k, at, room).value
    decreases k
  {
    assert IsName(n.entries[k - 1].name);
    if i < k - 1 { EntryKept(n, i, k - 1, at, room); }
  }

  /** Every unit names something in the tree. */
  lemma {:induction false} UnitInTree(n: Node, at: Path, room: nat, u: Path)
    requires n.Dir? && WellFormed(n) && Units(n, at, room).Some? && u in Units(n, at, room).value
    ensures at <= u && exists leaf :: LeadsTo(n, u[|at|..], leaf)
    decreases n, |n.entries| + 1
  {
    if u == at {
      assert LeadsTo(n, u[|at|..], n);
    } else {
      FirstInTree(n, |n.entries|, at, room, u);
    }
  }

  lemma {:induction false} FirstInTree(n: Node, k: nat, at: Path, room: nat, u: Path)
    requires n.Dir? && WellFormed(n) && k <= |n.entries| && room > 0
    requires UnitsOfFirst(n, k, at, room).Some? && u in UnitsOfFirst(n, k, at, room).value
    ensures at <= u && exists leaf :: LeadsTo(n, u[|at|..], leaf)
    decreases n, k
  {
    var e := n.entries[k - 1];
    assert IsName(e.name);
    if u in UnitsOfFirst(n, k - 1, at, room).value {
      FirstInTree(n, k - 1, at, room, u);
    } else {
      var down := at + [e.name];
      if e.node.Dir? { UnitInTree(e.node, down, room - 1, u); } else { assert LeadsTo(e.node, u[|down|..], e.node); }
      var leaf :| LeadsTo(e.node, u[|down|..], leaf);
      var p := u[|at|..];
      assert p[0] == e.name && p[1..] == u[|down|..];
      assert LeadsTo(n, p, leaf);
    }
  }

  lemma {:induction false} PathHasNames(n: Node, p: Path, leaf: Node)
    requires WellFormed(n) && LeadsTo(n, p, leaf)
    ensures AllNames(p)
    decreases p
  {
    if p != [] {
      var i :| 0 <= i < |n.entries| && n.entries[i].name == p[0] && LeadsTo(n.entries[i].node, p[1..], leaf);
      PathHasNames(n.entries[i].node, p[1..], leaf);
      assert p == [p[0]] + p[1..];
    }
  }

  // ---- the result, on the strings handed to rsync ----

  predicate Disjoint(rels: seq<string>) {
    forall i, j | 0 <= i < |rels| && 0 <= j < |rels| && i != j :: !Under(rels[j], rels[i])
  }

  ghost predicate InExactlyOne(rels: seq<string>, path: string) {
    exists i | 0 <= i < |rels| :: Under(path, rels[i]) && forall j | 0 <= j < |rels| && Under(path, rels[j]) :: j == i
  }

  /** Units never overlap; each file goes to exactly one; each directory but the root is
      inside a unit or contains one; no unit is deeper than `maxDepth` or outside the tree. */
  ghost predicate DisjointCover(tree: Node, maxDepth: nat, rels: seq<string>) {
    && Disjoint(rels)
    && (forall p | HasFile(tree, p) :: InExactlyOne(rels, Join(p)))
    && (forall p | p != [] && HasDir(tree, p) ::
          exists i | 0 <= i < |rels| :: Under(Join(p), rels[i]) || Under(rels[i], Join(p)))
    && (forall i | 0 <= i < |rels| :: Shallow(tree, maxDepth, rels[i]))
  }

  ghost predicate Shallow(tree: Node, maxDepth: nat, rel: string) {
    |Split(rel)| <= maxDepth && exists p, leaf :: rel == Join(p) && LeadsTo(tree, p, leaf)
  }

  /** A source that is no directory cannot be listed, like one that cannot be read. */
  method EnumerateWorkUnits(src: Node) returns (r: Option<seq<string>>)
    requires WellFormed(src)
    ensures r.Some? <==> src.Dir? && Units(src, [], 2).Some?
    ensures r.Some? ==> DisjointCover(src, 2, r.value)
  {
    if src.File? { return None; }
    var out := new UnitList();
    var ok := Walk(src, "", 2, 0, out, []);
    if !ok { return None; }
    WalkCovers(src, 2);
    assert out.units == Rels(Units(src, [], 2).value);
    r := Some(out.units);
  }

  /** The main result, for every depth limit. */
  lemma WalkCovers(tree: Node, maxDepth: nat)
    requires WellFormed(tree) && tree.Dir? && maxDepth >= 1 && Units(tree, [], maxDepth).Some?
    ensures DisjointCover(tree, maxDepth, Rels(Units(tree, [], maxDepth).value))
  {
    UnitsDisjoint(tree, maxDepth);
    UnitsInside(tree, maxDepth);
    var rels := Rels(Units(tree, [], maxDepth).value);
    forall p | HasFile(tree, p) ensures InExactlyOne(rels, Join(p)) { FileInOne(tree, maxDepth, p); }
    forall p | p != [] && HasDir(tree, p)
      ensures exists i | 0 <= i < |rels| :: Under(Join(p), rels[i]) || Under(rels[i], Join(p))
    {
      var i := DirByUnit(tree, maxDepth, p);
    }
  }

  lemma UnitsDisjoint(tree: Node, maxDepth: nat)
    requires WellFormed(tree) && tree.Dir? && maxDepth >= 1 && Units(tree, [], maxDepth).Some?
    ensures Disjoint(Rels(Units(tree, [], maxDepth).value))
  {
    var us := Units(tree, [], maxDepth).value;
    UnitsShape(tree, [], maxDepth);
    forall i, j | 0 <= i < |us| && 0 <= j < |us| && i != j ensures !Under(Join(us[j]), Join(us[i])) {
      var _ := UnitPath(tree, maxDepth, us[i]);
      var _ := UnitPath(tree, maxDepth, us[j]);
      UnderIsPrefix(us[j], us[i]);
    }
  }

  lemma UnitsInside(tree: Node, maxDepth: nat)
    requires WellFormed(tree) && tree.Dir? && maxDepth >= 1 && Units(tree, [], maxDepth).Some?
    ensures forall rel <- Rels(Units(tree, [], maxDepth).value) :: Shallow(tree, maxDepth, rel)
  {
    var us := Units(tree, [], maxDepth).value;
    forall i | 0 <= i < |us| ensures Shallow(tree, maxDepth, Rels(us)[i]) {
      var leaf := UnitPath(tree, maxDepth, us[i]);
      assert Rels(us)[i] == Join(us[i]) && LeadsTo(tree, us[i], leaf);
    }
  }

  lemma UnitPath(tree: Node, maxDepth: nat, u: Path) returns (leaf: Node)
    requires WellFormed(tree) && tree.Dir? && maxDepth >= 1 && Units(tree, [], maxDepth).Some?
    requires u in Units(tree, [], maxDepth).value
    ensures AllNames(u) && AllFree(u) && u != [] && LeadsTo(tree, u, leaf) && |Split(Join(u))| <= maxDepth
  {
    UnitsShape(tree, [], maxDepth);
    UnitInTree(tree, [], maxDepth, u);
    assert u[0..] == u;
    leaf :| LeadsTo(tree, u, leaf);
    PathHasNames(tree, u, leaf);
    SplitJoin(u);
  }

  lemma DirByUnit(tree: Node, maxDepth: nat, p: Path) returns (i: nat)
    requires WellFormed(tree) && tree.Dir? && maxDepth >= 1 && Units(tree, [], maxDepth).Some?
    requires p != [] && HasDir(tree, p)
    ensures var rels := Rels(Units(tree, [], maxDepth).value);
            i < |rels| && (Under(Join(p), rels[i]) || Under(rels[i], Join(p)))
  {
    var us := Units(tree, [], maxDepth).value;
    DirTouched(tree, [], maxDepth, p);
    assert [] + p == p;
    i :| i < |us| && Comparable(us[i], p);
    var _ := UnitPath(tree, maxDepth, us[i]);
    var d: Node :| d.Dir? && LeadsTo(tree, p, d);
    PathHasNames(tree, p, d);
    UnderIsPrefix(p, us[i]);
    UnderIsPrefix(us[i], p);
  }

  lemma FileInOne(tree: Node, maxDepth: nat, p: Path)
    requires WellFormed(tree) && tree.Dir? && maxDepth >= 1 && Units(tree, [], maxDepth).Some? && HasFile(tree, p)
    ensures InExactlyOne(Rels(Units(tree, [], maxDepth).value), Join(p))
  {
    var us := Units(tree, [], maxDepth).value;
    var rels := Rels(us);
    UnitsShape(tree, [], maxDepth);
    PathHasNames(tree, p, File);
    FileCovered(tree, [], maxDepth, p);
    assert [] + p == p;
    var i :| 0 <= i < |us| && us[i] <= p;
    forall j | 0 <= j < |us| ensures Under(Join(p), rels[j]) <==> j == i {
      var _ := UnitPath(tree, maxDepth, us[j]);
      UnderIsPrefix(p, us[j]);
      if us[j] <= p { PrefixesCompare(us[i], us[j], p); }
    }
  }

  lemma PrefixesCompare(a: Path, b: Path, p: Path)
    requires a <= p && b <= p
    ensures Comparable(a, b)
  {
    assert if |a| <= |b| then a == b[..|a|] else b == a[..|b|];
  }
}
