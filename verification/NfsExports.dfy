/** NFS export create, update and delete: a database row and the exports file kept in step,
    with roll-back when a write fails. All three run under one mutex. */
module NfsExports {
  import opened Paths
  import opened Wrappers
  import PoolLookup

  datatype Row = Row(id: nat, path: string, networks: string, sync: bool, rootSquash: bool, readOnly: bool)

  datatype Export = Export(path: string, networks: seq<string>, sync: bool, rootSquash: bool, readOnly: bool, fsid: string)

  /** What the handlers ask of the rest of the system. */
  datatype World = World(resolve: string -> Option<string>, pools: seq<PoolLookup.Pool>,
                         fsid: (PoolLookup.Pool, string) -> string, acceptsNetwork: string -> bool,
                         isDirectory: string -> bool)

  datatype Outcome = Done | Refused | Failed

  datatype Request =
    | CreateExport(path: string, networks: seq<string>, sync: bool, rootSquash: bool, readOnly: bool)
    | UpdateExport(id: nat, sync: bool)
    | DeleteExport(id: nat)

  /** The last attempt to write the exports file in a request. */
  datatype Write = NotTried | Written | WriteFailed

  // ---- rows, clients, and the file built from them ----

  function Client(c: string): string { if c == "" then "*" else c }

  function ClientsOf(cs: seq<string>): set<string> { set c <- cs :: Client(c) }

  /** The clients a stored `networks` column stands for. */
  function Clients(networks: string): set<string> { ClientsOf(Split(networks, ',')) }

  predicate ValidNetwork(w: World, n: string) { n != "" && Free(n, ',') && w.acceptsNetwork(n) }

  /** Storing a list of valid networks and splitting it again loses nothing. */
  lemma ClientsRoundTrip(w: World, networks: seq<string>)
    requires forall i | 0 <= i < |networks| :: ValidNetwork(w, networks[i])
    ensures Clients(Join(networks, ',')) == if networks == [] then {"*"} else set n <- networks
  {
    if networks == [] {
      assert Split("", ',') == [""];
      assert Client("") == "*" && ClientsOf([""]) == {"*"};
    } else {
      SplitJoin(networks, ',');
      assert forall n <- networks :: Client(n) == n;
    }
  }

  predicate Clash(a: Row, b: Row) {
    Clean(a.path) == Clean(b.path) && Clients(a.networks) * Clients(b.networks) != {}
  }

  /** Row `a` precedes row `b` and no client gets the same directory from both. */
  predicate Fits(a: Row, b: Row) { a.id < b.id && !Clash(a, b) }

  predicate Pairwise(rows: seq<Row>, rel: (Row, Row) -> bool) {
    forall i, j | 0 <= i < j < |rows| :: rel(rows[i], rows[j])
  }

  predicate IdsBelow(rows: seq<Row>, nextId: nat) { forall i | 0 <= i < |rows| :: rows[i].id < nextId }

  /** Some smoothfs pool holds the path. */
  predicate IsPooled(w: World, path: string) { exists p <- w.pools :: PoolLookup.Holds(p, path) }

  /** What the file says for a row: the resolved path, the row's clients and options; on a pool root
      is never squashed and the file system id is that of the nearest pool, elsewhere there is none. */
  ghost predicate Renders(w: World, r: Row, e: Export) {
    && w.resolve(r.path) == Some(e.path)
    && Join(e.networks, ',') == r.networks && ClientsOf(e.networks) == Clients(r.networks)
    && e.sync == r.sync && e.readOnly == r.readOnly
    && e.rootSquash == (r.rootSquash && !IsPooled(w, e.path))
    && (if IsPooled(w, e.path)
        then exists p :: PoolLookup.IsNearest(e.path, w.pools, p) && e.fsid == w.fsid(p, e.path)
        else e.fsid == "")
  }

  ghost predicate Agrees(w: World, rows: seq<Row>, file: seq<Export>) {
    |file| == |rows| && forall i | 0 <= i < |rows| :: Renders(w, rows[i], file[i])
  }

  predicate Resolvable(w: World, rows: seq<Row>) { forall i | 0 <= i < |rows| :: w.resolve(rows[i].path).Some? }

  function Without(rows: seq<Row>, id: nat): seq<Row> {
    if rows == [] then []
    else
      var init, r := Without(rows[..|rows| - 1], id), rows[|rows| - 1];
      if r.id == id then init else init + [r]
  }

  function SetSync(rows: seq<Row>, id: nat, sync: bool): (s: seq<Row>)
    ensures |s| == |rows|
  {
    seq(|rows|, i requires 0 <= i < |rows| => if rows[i].id == id then rows[i].(sync := sync) else rows[i])
  }

  lemma {:induction false} WithoutKeeps(rows: seq<Row>, id: nat, rel: (Row, Row) -> bool)
    requires Pairwise(rows, rel)
    ensures Pairwise(Without(rows, id), rel)
    ensures forall r :: r in Without(rows, id) <==> r in rows && r.id != id
  {
    if rows != [] {
      var init, last := rows[..|rows| - 1], rows[|rows| - 1];
      WithoutKeeps(init, id, rel);
      var kept := Without(init, id);
      assert rows == init + [last];
      forall k | 0 <= k < |kept| ensures rel(kept[k], last) {
        assert kept[k] in kept;
        var i :| 0 <= i < |init| && init[i] == kept[k];
        assert rows[i] == kept[k];
      }
    }
  }

  lemma {:induction false} WithoutAbsent(rows: seq<Row>, id: nat)
    requires forall r <- rows :: r.id != id
    ensures Without(rows, id) == rows
  {
    if rows != [] { WithoutAbsent(rows[..|rows| - 1], id); }
  }

  lemma SetSyncKeeps(rows: seq<Row>, id: nat, sync: bool)
    requires Pairwise(rows, Fits)
    ensures Pairwise(SetSync(rows, id, sync), Fits)
  {
    var s := SetSync(rows, id, sync);
    forall i, j | 0 <= i < j < |rows| ensures Fits(s[i], s[j]) {
      assert Fits(rows[i], rows[j]);
    }
  }

  // ---- building the file ----

  /** One turn of the loop in `buildNFSExports`. */
  method BuildExport(w: World, e: Row) returns (r: Option<Export>)
    ensures r.None? <==> w.resolve(e.path).None?
    ensures r.Some? ==> Renders(w, e, r.value)
  {
    var path := w.resolve(e.path);
    if path.None? { return None; }
    var exp := Export(path.value, Split(e.networks, ','), e.sync, e.rootSquash, e.readOnly, "");
    var pool := PoolLookup.PoolForPath(path.value, w.pools);
    PoolLookup.PathPickIsNearest(path.value, w.pools);
    JoinSplit(e.networks, ',');
    if pool.Some? {
      exp := exp.(rootSquash := false, fsid := w.fsid(pool.value, path.value));
      assert PoolLookup.IsNearest(exp.path, w.pools, pool.value);
    }
    r := Some(exp);
  }

  method BuildExports(w: World, rows: seq<Row>) returns (r: Option<seq<Export>>)
    ensures r.Some? ==> Agrees(w, rows, r.value)
    ensures r.Some? <==> Resolvable(w, rows)
  {
    var exports: seq<Export> := [];
    for i := 0 to |rows|
      invariant |exports| == i
      invariant forall k | 0 <= k < i :: Renders(w, rows[k], exports[k])
      invariant forall k | 0 <= k < i :: w.resolve(rows[k].path).Some?
    {
      var exp := BuildExport(w, rows[i]);
      if exp.None? { return None; }
      exports := exports + [exp.value];
    }
    r := Some(exports);
  }

  predicate HasId(rows: seq<Row>, id: nat) { exists k | 0 <= k < |rows| :: rows[k].id == id }

  /** The row with that id has the flag, and nothing else changed. */
  predicate IsSynced(was: seq<Row>, now: seq<Row>, id: nat, sync: bool) {
    && |now| == |was|
    && forall i | 0 <= i < |was| :: if was[i].id == id then now[i] == was[i].(sync := sync) else now[i] == was[i]
  }

  method AllValid(w: World, networks: seq<string>) returns (valid: bool)
    ensures valid <==> forall i | 0 <= i < |networks| :: ValidNetwork(w, networks[i])
  {
    for i := 0 to |networks|
      invariant forall k | 0 <= k < i :: ValidNetwork(w, networks[k])
    {
      if !ValidNetwork(w, networks[i]) { return false; }
    }
    valid := true;
  }

  // ---- the duplicate check of createNFSExport ----

  method Repeats(clients: seq<string>) returns (again: bool)
    ensures again <==> exists i, j | 0 <= i < j < |clients| :: clients[i] == clients[j]
  {
    var seen: set<string> := {};
    for i := 0 to |clients|
      invariant seen == set k | 0 <= k < i :: clients[k]
      invariant forall j, k | 0 <= j < k < i :: clients[j] != clients[k]
    {
      if clients[i] in seen { return true; }
      seen := seen + {clients[i]};
    }
    again := false;
  }

  method AnySeen(cs: seq<string>, seen: set<string>) returns (hit: bool)
    ensures hit <==> ClientsOf(cs) * seen != {}
  {
    for j := 0 to |cs|
      invariant forall k | 0 <= k < j :: Client(cs[k]) !in seen
    {
      var client := cs[j];
      if client == "" { client := "*"; }
      if client in seen {
        assert client == Client(cs[j]) && client in ClientsOf(cs) * seen;
        return true;
      }
    }
    assert forall c <- ClientsOf(cs) :: c !in seen;
    hit := false;
  }

  method TakenBy(existing: seq<Row>, path: string, seen: set<string>) returns (taken: bool)
    ensures taken <==> exists i | 0 <= i < |existing| :: Holds(existing[i], path, seen)
  {
    for i := 0 to |existing|
      invariant forall k | 0 <= k < i :: !Holds(existing[k], path, seen)
    {
      if Clean(existing[i].path) != Clean(path) { continue; }
      var hit := AnySeen(Split(existing[i].networks, ','), seen);
      if hit { return true; }
    }
    taken := false;
  }

  /** Row `r` already gives one of `seen` the directory `path`. */
  predicate Holds(r: Row, path: string, seen: set<string>) {
    Clean(r.path) == Clean(path) && Clients(r.networks) * seen != {}
  }

  // ---- the handlers ----

  datatype Reply = Reply(dbOk: bool, last: Write)

  /** What the file was built from: the system at the last request that went through, which a
      request that failed half-way forgets and one that tried nothing keeps. */
  function AsOf(before: Option<World>, requests: seq<(Request, World)>, log: seq<Reply>): Option<World>
    requires |log| == |requests|
    decreases log
  {
    if log == [] then before
    else
      var n := |log| - 1;
      if log[n] == Reply(true, Written) then Some(requests[n].1)
      else if log[n] == Reply(true, NotTried) then AsOf(before, requests[..n], log[..n])
      else None
  }

  /** One answer of the rest of the system; it can be bad only where not everything `works`. */
  method Ask(works: bool) returns (ok: bool)
    ensures works ==> ok
  {
    ok := *;
    ok := ok || works;
  }

  function Asked(networks: seq<string>): seq<string> { if networks == [] then ["*"] else networks }

  /** A create request that the handler has no reason to refuse. */
  ghost predicate Admissible(w: World, rows: seq<Row>, path: string, networks: seq<string>) {
    var p := w.resolve(path);
    && p.Some? && w.isDirectory(p.value)
    && (forall i | 0 <= i < |networks| :: ValidNetwork(w, networks[i]))
    && (forall i, j | 0 <= i < j < |networks| :: networks[i] != networks[j])
    && forall i | 0 <= i < |rows| :: !Holds(rows[i], p.value, set c <- Asked(networks))
  }

  class ExportService {
    var rows: seq<Row>
    var nextId: nat
    var file: seq<Export>

    /** Rows are ordered by id, below the next one, and no two clash. */
    ghost predicate Valid() reads this { Pairwise(rows, Fits) && IdsBelow(rows, nextId) }

    /** The file is the one built from the table when the rest of the system was as in `w`. */
    ghost predicate InStep(w: World) reads this { Agrees(w, rows, file) }

    constructor ()
      ensures Valid() && rows == [] && file == []
    {
      rows, nextId, file := [], 0, [];
    }

    /** `writeNFSExports`: a failed write may leave anything behind. */
    method WriteExports(exports: seq<Export>, works: bool) returns (ok: bool)
      modifies this`file
      ensures (ok ==> file == exports) && (works ==> ok)
    {
      ok := Ask(works);
      if ok { file := exports; } else { file := *; }
    }

    method Regenerate(w: World, works: bool) returns (ok: bool, dbOk: bool, last: Write)
      modifies this`file
      ensures ok <==> last == Written
      ensures works && Resolvable(w, rows) ==> ok
      ensures last == Written ==> InStep(w)
      ensures last == NotTried ==> file == old(file)
      ensures ok ==> dbOk
    {
      dbOk := Ask(works);
      if !dbOk { return false, false, NotTried; }
      var exports := BuildExports(w, rows);
      if exports.None? { return false, dbOk, NotTried; }
      ok := WriteExports(exports.value, works);
      last := if ok then Written else WriteFailed;
    }

    /** The checks before anything is changed: the row to insert, or why not. */
    method Admit(w: World, path: string, networks: seq<string>, sync: bool, rootSquash: bool, readOnly: bool, works: bool)
      returns (outcome: Outcome, dbOk: bool, row: Option<Row>)
      requires Valid()
      ensures row.Some? <==> outcome == Done
      ensures !dbOk ==> row.None?
      ensures outcome == Refused ==> !Admissible(w, rows, path, networks)
      ensures outcome == Done ==> Admissible(w, rows, path, networks)
      ensures works ==> outcome != Failed
      ensures row.Some? ==>
                && row.value.id == nextId && Admits(w, path, networks, sync, rootSquash, readOnly, row.value)
                && (forall i | 0 <= i < |rows| :: Fits(rows[i], row.value))
    {
      outcome, dbOk, row := Refused, true, None;
      var resolved := w.resolve(path);
      if resolved.None? || !w.isDirectory(resolved.value) { return; }
      var valid := AllValid(w, networks);
      if !valid { return; }
      var squash := rootSquash;
      var pool := PoolLookup.PoolForPath(resolved.value, w.pools);
      PoolLookup.PathPickIsNearest(resolved.value, w.pools);
      if pool.Some? { squash := false; }
      dbOk := Ask(works);
      if !dbOk { outcome := Failed; return; }
      var free := IsFree(resolved.value, Asked(networks));
      if !free { return; }
      var serving := Ask(works);
      if !serving { outcome := Failed; return; }
      var r := Row(nextId, resolved.value, Join(networks, ','), sync, squash, readOnly);
      NewRowFits(w, networks, r);
      outcome, row := Done, Some(r);
    }

    /** The duplicate check: no client twice in the request, none that has the directory already. */
    method IsFree(path: string, clients: seq<string>) returns (free: bool)
      ensures free <==> && (forall i, j | 0 <= i < j < |clients| :: clients[i] != clients[j])
                        && (forall i | 0 <= i < |rows| :: !Holds(rows[i], path, set c <- clients))
    {
      var again := Repeats(clients);
      if again { return false; }
      var taken := TakenBy(rows, path, set c <- clients);
      free := !taken;
    }

    lemma NewRowFits(w: World, networks: seq<string>, r: Row)
      requires Valid() && r.id == nextId && r.networks == Join(networks, ',')
      requires forall i | 0 <= i < |networks| :: ValidNetwork(w, networks[i])
      requires forall i | 0 <= i < |rows| :: !Holds(rows[i], r.path, set c <- Asked(networks))
      ensures Clients(r.networks) == set c <- Asked(networks)
      ensures forall i | 0 <= i < |rows| :: Fits(rows[i], r)
    {
      ClientsRoundTrip(w, networks);
      assert Clients(r.networks) == set c <- Asked(networks);
      assert forall i | 0 <= i < |rows| :: !Holds(rows[i], r.path, Clients(r.networks));
    }

    /** What the request asked for is what the row says; on a pool root is not squashed. */
    ghost predicate Admits(w: World, path: string, networks: seq<string>, sync: bool, rootSquash: bool, readOnly: bool, row: Row) {
      && w.resolve(path) == Some(row.path)
      && Clients(row.networks) == (set n <- Asked(networks))
      && row.sync == sync && row.readOnly == readOnly
      && row.rootSquash == (rootSquash && !IsPooled(w, row.path))
    }

    /** Whatever fails, the duplicate-free table survives; if the database answered and the
        last write went through, the file is the table's; a failed request changed no row. Where
        everything works, an admissible request goes through and any other is refused. */
    method Create(w: World, path: string, networks: seq<string>, sync: bool, rootSquash: bool, readOnly: bool, works: bool)
      returns (outcome: Outcome, dbOk: bool, last: Write)
      requires Valid()
      modifies this`rows, this`nextId, this`file
      ensures Valid()
      ensures dbOk && last == Written ==> InStep(w)
      ensures dbOk && outcome != Done ==> rows == old(rows)
      ensures last == NotTried ==> file == old(file)
      ensures outcome == Done ==>
                && last == Written && |rows| == |old(rows)| + 1 && rows[..|old(rows)|] == old(rows)
                && Admits(w, path, networks, sync, rootSquash, readOnly, rows[|old(rows)|])
      ensures works ==> (outcome == Refused <==> !Admissible(w, old(rows), path, networks))
      ensures works && Admissible(w, old(rows), path, networks) && Resolvable(w, old(rows)) ==>
                w.resolve(w.resolve(path).value).Some? ==> outcome == Done
    {
      var row: Option<Row>;
      last := NotTried;
      outcome, dbOk, row := Admit(w, path, networks, sync, rootSquash, readOnly, works);
      if row.None? { return; }
      var inserted := Ask(works);
      if !inserted { return Failed, false, NotTried; }
      outcome, dbOk, last := Insert(w, row.value, works);
    }

    method Insert(w: World, row: Row, works: bool) returns (outcome: Outcome, dbOk: bool, last: Write)
      requires Valid() && row.id == nextId && forall i | 0 <= i < |rows| :: Fits(rows[i], row)
      modifies this`rows, this`nextId, this`file
      ensures Valid()
      ensures dbOk && last == Written ==> InStep(w)
      ensures dbOk && outcome != Done ==> rows == old(rows)
      ensures last == NotTried ==> file == old(file)
      ensures outcome != Refused && (works && Resolvable(w, old(rows) + [row]) ==> outcome == Done)
      ensures outcome == Done ==> last == Written && rows == old(rows) + [row]
    {
      rows, nextId := rows + [row], nextId + 1;
      var ok, db1, w1 := Regenerate(w, works);
      if ok { return Done, true, Written; }
      var deleted := Ask(works);
      if deleted {
        WithoutAbsent(old(rows), row.id);
        assert rows[..|rows| - 1] == old(rows);
        rows := Without(rows, row.id);
      }
      var ok2, db2, w2 := Regenerate(w, works);
      outcome, dbOk, last := Failed, db1 && deleted && db2, if w2 == NotTried then w1 else w2;
    }

    /** The row's present flag, if there is such a row. */
    method SyncOf(id: nat) returns (sync: bool, found: bool)
      ensures found <==> exists k | 0 <= k < |rows| :: rows[k].id == id
      ensures Valid() ==> forall k | 0 <= k < |rows| && rows[k].id == id :: sync == rows[k].sync
    {
      sync, found := false, false;
      for i := 0 to |rows|
        invariant found <==> exists k | 0 <= k < i :: rows[k].id == id
        invariant Valid() ==> forall k | 0 <= k < i && rows[k].id == id :: sync == rows[k].sync
      {
        if rows[i].id == id { sync, found := rows[i].sync, true; }
      }
    }

    method Update(w: World, id: nat, sync: bool, works: bool) returns (outcome: Outcome, dbOk: bool, last: Write)
      requires Valid()
      modifies this`rows, this`file
      ensures Valid()
      ensures dbOk && last == Written ==> InStep(w)
      ensures dbOk && outcome != Done ==> rows == old(rows)
      ensures last == NotTried ==> file == old(file)
      ensures outcome == Done ==> last == Written && HasId(old(rows), id) && IsSynced(old(rows), rows, id, sync)
      ensures works ==> (outcome == Refused <==> !HasId(old(rows), id))
      ensures works && HasId(old(rows), id) && Resolvable(w, old(rows)) ==> outcome == Done
    {
      outcome, last := Failed, NotTried;
      dbOk := Ask(works);
      if !dbOk { return; }
      var oldSync, found := SyncOf(id);
      dbOk := Ask(works);
      if !dbOk { return; }
      if !found { outcome := Refused; return; }
      outcome, dbOk, last := ChangeSync(w, id, sync, oldSync, works);
    }

    method ChangeSync(w: World, id: nat, sync: bool, oldSync: bool, works: bool) returns (outcome: Outcome, dbOk: bool, last: Write)
      requires Valid() && forall k | 0 <= k < |rows| && rows[k].id == id :: oldSync == rows[k].sync
      modifies this`rows, this`file
      ensures Valid()
      ensures dbOk && last == Written ==> InStep(w)
      ensures dbOk && outcome != Done ==> rows == old(rows)
      ensures last == NotTried ==> file == old(file)
      ensures outcome != Refused && (works && Resolvable(w, old(rows)) ==> outcome == Done)
      ensures outcome == Done ==> last == Written && IsSynced(old(rows), rows, id, sync)
    {
      outcome := Failed;
      rows := SetSync(rows, id, sync);
      SetSyncKeeps(old(rows), id, sync);
      var ok, db1, w1 := Regenerate(w, works);
      if ok { return Done, true, Written; }
      var restored := Ask(works);
      if restored {
        rows := SetSync(rows, id, oldSync);
        assert rows == old(rows);
      }
      var ok2, db2, w2 := Regenerate(w, works);
      dbOk, last := db1 && restored && db2, if w2 == NotTried then w1 else w2;
    }

    /** `nfsExportsWithout`, up to the list. */
    method Others(id: nat) returns (filtered: seq<Row>, found: bool)
      ensures filtered == Without(rows, id) && (found <==> HasId(rows, id))
    {
      filtered, found := [], false;
      for i := 0 to |rows|
        invariant filtered == Without(rows[..i], id)
        invariant found <==> exists k | 0 <= k < i :: rows[k].id == id
      {
        assert rows[..i + 1][..i] == rows[..i];
        if rows[i].id == id { found := true; continue; }
        filtered := filtered + [rows[i]];
      }
      assert rows[..|rows|] == rows;
    }

    method Delete(w: World, id: nat, works: bool) returns (outcome: Outcome, dbOk: bool, last: Write)
      requires Valid()
      modifies this`rows, this`file
      ensures Valid()
      ensures dbOk && last == Written ==> InStep(w)
      ensures outcome != Done ==> rows == old(rows)
      ensures last == NotTried ==> file == old(file)
      ensures outcome == Done ==> last == Written && HasId(old(rows), id) && rows == Without(old(rows), id)
      ensures outcome == Done ==> forall r :: r in rows <==> r in old(rows) && r.id != id
      ensures works ==> (outcome == Refused <==> !HasId(old(rows), id))
      ensures works && HasId(old(rows), id) && Resolvable(w, Without(old(rows), id)) ==> outcome == Done
    {
      outcome, last := Failed, NotTried;
      dbOk := Ask(works);
      if !dbOk { return; }
      var filtered, found := Others(id);
      if !found { outcome := Refused; return; }
      outcome, dbOk, last := Replace(w, id, filtered, works);
    }

    /** The file first, then the row. */
    method Replace(w: World, id: nat, filtered: seq<Row>, works: bool) returns (outcome: Outcome, dbOk: bool, last: Write)
      requires Valid() && filtered == Without(rows, id)
      modifies this`rows, this`file
      ensures Valid()
      ensures dbOk && last == Written ==> InStep(w)
      ensures rows == if outcome == Done then filtered else old(rows)
      ensures last == NotTried ==> file == old(file)
      ensures outcome == Done ==> last == Written && forall r :: r in rows <==> r in old(rows) && r.id != id
      ensures outcome != Refused && (works && Resolvable(w, filtered) ==> outcome == Done)
    {
      outcome, last, dbOk := Failed, NotTried, true;
      var exports := BuildExports(w, filtered);
      if exports.None? { return; }
      var ok := WriteExports(exports.value, works);
      if !ok {
        var ok2, db2, w2 := Regenerate(w, works);
        return Failed, db2, if w2 == NotTried then WriteFailed else w2;
      }
      var deleted := Ask(works);
      if !deleted { return Failed, false, Written; }
      WithoutKeeps(rows, id, Fits);
      rows := filtered;
      outcome, last := Done, Written;
    }

    /** Any sequence of requests, with failures anywhere and a system that changes in between: the
        table never holds a clash, and the file is the table's, as of the last request whose
        database calls and write all succeeded, unless a later one failed half-way. */
    method Serve(requests: seq<(Request, World)>, ghost before: Option<World>) returns (log: seq<Reply>)
      requires Valid() && (before.Some? ==> InStep(before.value))
      modifies this`rows, this`nextId, this`file
      ensures Valid() && |log| == |requests|
      ensures AsOf(before, requests, log).Some? ==> InStep(AsOf(before, requests, log).value)
    {
      log := [];
      for i := 0 to |requests|
        invariant Valid() && |log| == i
        invariant var w := AsOf(before, requests[..i], log); w.Some? ==> InStep(w.value)
      {
        var outcome, dbOk, last := Handle(requests[i].0, requests[i].1, false);
        log := log + [Reply(dbOk, last)];
        assert log[..i] == log[..|log| - 1] && requests[..i + 1][..i] == requests[..i];
      }
      assert requests[..|requests|] == requests;
    }

    /** One request. Whatever came before, if its database calls and its last write succeed, the
        file agrees with the table; if it tried no write and the database answered, neither moved. */
    method Handle(r: Request, w: World, works: bool) returns (outcome: Outcome, dbOk: bool, last: Write)
      requires Valid()
      modifies this`rows, this`nextId, this`file
      ensures Valid()
      ensures dbOk && last == Written ==> InStep(w)
      ensures dbOk && last == NotTried ==> rows == old(rows) && file == old(file)
      ensures dbOk && outcome != Done ==> rows == old(rows)
    {
      match r {
        case CreateExport(path, networks, sync, rootSquash, readOnly) =>
          outcome, dbOk, last := Create(w, path, networks, sync, rootSquash, readOnly, works);
        case UpdateExport(id, sync) =>
          outcome, dbOk, last := Update(w, id, sync, works);
        case DeleteExport(id) =>
          outcome, dbOk, last := Delete(w, id, works);
      }
    }
  }
}
