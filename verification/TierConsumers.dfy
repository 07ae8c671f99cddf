/** What still uses a tier pool (`tierConsumers`) and what a forced delete removes
    (`releaseTierConsumers`): the second must undo exactly what the first reports. */
module TierConsumers {
  import opened Paths
  import opened Wrappers

  datatype Kind = Smb | Nfs | Iscsi

  /** A row of one of the three sharing tables: its unique key and the path or device it serves. */
  datatype Row = Row(key: string, place: string)

  function MountPoint(pool: string): string { "/mnt/" + pool }

  function DataVolume(pool: string): string { "/dev/tier-" + pool + "/data" }

  predicate Uses(k: Kind, pool: string, r: Row) {
    if k == Iscsi then r.place == DataVolume(pool) else Under(r.place, MountPoint(pool))
  }

  function Label(k: Kind, r: Row): string {
    match k
    case Smb => "smb:" + r.key
    case Nfs => "nfs:" + r.place
    case Iscsi => "iscsi:" + r.key
  }

  predicate UniqueKeys(rows: seq<Row>) { forall i, j | 0 <= i < j < |rows| :: rows[i].key != rows[j].key }

  /** The report's lines for one table, in row order. */
  function Lines(k: Kind, pool: string, rows: seq<Row>): seq<string> {
    if rows == [] then []
    else
      var init, r := Lines(k, pool, rows[..|rows| - 1]), rows[|rows| - 1];
      if Uses(k, pool, r) then init + [Label(k, r)] else init
  }

  function Without(rows: seq<Row>, keys: set<string>): seq<Row> {
    if rows == [] then []
    else
      var init, r := Without(rows[..|rows| - 1], keys), rows[|rows| - 1];
      if r.key in keys then init else init + [r]
  }

  // ---- pools do not share consumers ----

  /** Names that are prefixes of one another are no trouble: a path lies under one pool at most. */
  lemma OnePoolPerRow(k: Kind, p: string, q: string, r: Row)
    requires Free(p) && Free(q) && p != q && Uses(k, p, r)
    ensures !Uses(k, q, r)
  {
    if Uses(k, q, r) {
      if k == Iscsi {
        VolumeNames(p, q);
      } else {
        MountName(p, r.place);
        MountName(q, r.place);
      }
    }
  }

  lemma VolumeNames(p: string, q: string)
    requires DataVolume(p) == DataVolume(q)
    ensures p == q
  {
    var head := |"/dev/tier-"|;
    assert DataVolume(p)[head..|DataVolume(p)| - 5] == p;
    assert DataVolume(q)[head..|DataVolume(q)| - 5] == q;
  }

  /** The third component of a path under a pool's mountpoint is the pool's name. */
  lemma MountName(pool: string, place: string)
    requires Free(pool) && Under(place, MountPoint(pool))
    ensures |Split(place)| >= 3 && Split(place)[2] == pool
  {
    var cs := ["", "mnt", pool];
    assert cs[1..] == ["mnt", pool] && cs[1..][1..] == [pool];
    assert Join([pool]) == pool && Join(["mnt", pool]) == "mnt/" + pool;
    assert Join(cs) == MountPoint(pool);
    assert Free("mnt") && Free("");
    SplitJoin(cs);
    if place != MountPoint(pool) {
      var t := Remainder(place, MountPoint(pool));
      SplitJoinThen(cs, t);
    }
  }

  // ---- the report ----

  /** The lines are the labels of the rows at `at`, which are, in order and once each, the rows that
      use the pool. */
  predicate ReportsAt(k: Kind, pool: string, rows: seq<Row>, lines: seq<string>, at: seq<nat>) {
    && |at| == |lines|
    && (forall n | 0 <= n < |at| :: at[n] < |rows| && Uses(k, pool, rows[at[n]]) && lines[n] == Label(k, rows[at[n]]))
    && (forall m, n | 0 <= m < n < |at| :: at[m] < at[n])
    && (forall i | 0 <= i < |rows| && Uses(k, pool, rows[i]) :: i in at)
  }

  ghost predicate Reports(k: Kind, pool: string, rows: seq<Row>, lines: seq<string>) {
    exists at :: ReportsAt(k, pool, rows, lines, at)
  }

  predicate IsUnused(k: Kind, pool: string, rows: seq<Row>) { forall i | 0 <= i < |rows| :: !Uses(k, pool, rows[i]) }

  lemma {:induction false} LinesReport(k: Kind, pool: string, rows: seq<Row>) returns (at: seq<nat>)
    ensures ReportsAt(k, pool, rows, Lines(k, pool, rows), at)
  {
    at := [];
    if rows != [] {
      var init, r := rows[..|rows| - 1], rows[|rows| - 1];
      at := LinesReport(k, pool, init);
      if Uses(k, pool, r) {
        forall i | 0 <= i < |rows| && Uses(k, pool, rows[i]) ensures i in at + [|init|] {
          assert i < |init| ==> Uses(k, pool, init[i]);
        }
        at := at + [|init|];
      } else {
        forall i | 0 <= i < |rows| && Uses(k, pool, rows[i]) ensures i in at { assert Uses(k, pool, init[i]); }
      }
    }
  }

  lemma EmptyIffUnused(k: Kind, pool: string, rows: seq<Row>)
    ensures Lines(k, pool, rows) == [] <==> IsUnused(k, pool, rows)
  {
    var at := LinesReport(k, pool, rows);
    if at != [] { assert Uses(k, pool, rows[at[0]]); }
  }

  method ListTable(k: Kind, pool: string, rows: seq<Row>) returns (lines: seq<string>)
    ensures lines == Lines(k, pool, rows) && Reports(k, pool, rows, lines)
  {
    lines := [];
    var lvPath := DataVolume(pool);
    var mountPoint := MountPoint(pool);
    for i := 0 to |rows|
      invariant lines == Lines(k, pool, rows[..i])
    {
      assert rows[..i + 1][..i] == rows[..i];
      var r := rows[i];
      if k == Iscsi {
        if r.place == lvPath { lines := lines + [Label(k, r)]; }
      } else if r.place == mountPoint || mountPoint + "/" <= r.place {
        lines := lines + [Label(k, r)];
      }
    }
    assert rows[..|rows|] == rows;
    ghost var at := LinesReport(k, pool, rows);
  }

  /** Deleting rows no part of the report leaves it as it was. */
  lemma {:induction false} LinesUnchanged(k: Kind, pool: string, rows: seq<Row>, keys: set<string>)
    requires forall i | 0 <= i < |rows| && rows[i].key in keys :: !Uses(k, pool, rows[i])
    ensures Lines(k, pool, Without(rows, keys)) == Lines(k, pool, rows)
  {
    if rows != [] {
      var init, r := rows[..|rows| - 1], rows[|rows| - 1];
      LinesUnchanged(k, pool, init, keys);
      if r.key !in keys { assert (Without(init, keys) + [r])[..|Without(init, keys)|] == Without(init, keys); }
    }
  }

  lemma {:induction false} WithoutMore(rows: seq<Row>, keys: set<string>, key: string)
    ensures Without(Without(rows, keys), {key}) == Without(rows, keys + {key})
  {
    if rows != [] {
      var init, r := rows[..|rows| - 1], rows[|rows| - 1];
      WithoutMore(init, keys, key);
      if r.key !in keys { assert (Without(init, keys) + [r])[..|Without(init, keys)|] == Without(init, keys); }
    }
  }

  lemma {:induction false} WithoutNone(rows: seq<Row>)
    ensures Without(rows, {}) == rows
  { if rows != [] { WithoutNone(rows[..|rows| - 1]); } }

  // ---- the release ----

  /** Rows come out of the old table, and none that does not use the pool is missing. */
  predicate SparesUnused(k: Kind, pool: string, before: seq<Row>, after: seq<Row>) {
    (forall r <- after :: r in before) && forall r <- before :: !Uses(k, pool, r) ==> r in after
  }

  /** One table's release loop. A delete that fails leaves its row and the loop goes on. */
  method DeleteUsed(k: Kind, pool: string, rows: seq<Row>, works: bool)
    returns (left: seq<Row>, allDeleted: bool, ghost gone: set<string>)
    ensures works ==> allDeleted
    ensures left == Without(rows, gone)
    ensures forall key <- gone :: exists j | 0 <= j < |rows| :: rows[j].key == key && Uses(k, pool, rows[j])
    ensures allDeleted ==> forall j | 0 <= j < |rows| && Uses(k, pool, rows[j]) :: rows[j].key in gone
  {
    left, allDeleted, gone := rows, true, {};
    WithoutNone(rows);
    for i := 0 to |rows|
      invariant left == Without(rows, gone) && (works ==> allDeleted)
      invariant forall key <- gone :: exists j | 0 <= j < i :: rows[j].key == key && Uses(k, pool, rows[j])
      invariant allDeleted ==> forall j | 0 <= j < i && Uses(k, pool, rows[j]) :: rows[j].key in gone
    {
      if !Uses(k, pool, rows[i]) { continue; }
      var deleted: bool := *;
      if !deleted && !works { allDeleted := false; continue; }
      WithoutMore(rows, gone, rows[i].key);
      left := Without(left, {rows[i].key});
      gone := gone + {rows[i].key};
    }
  }

  /** `works`: no delete fails. */
  method ReleaseTable(k: Kind, pool: string, rows: seq<Row>, works: bool) returns (left: seq<Row>, allDeleted: bool)
    requires UniqueKeys(rows)
    ensures UniqueKeys(left)
    ensures (allDeleted ==> IsUnused(k, pool, left)) && (works ==> allDeleted)
    ensures SparesUnused(k, pool, rows, left)
    ensures Free(pool) ==> forall other | Free(other) && other != pool :: Lines(k, other, left) == Lines(k, other, rows)
  {
    ghost var gone;
    left, allDeleted, gone := DeleteUsed(k, pool, rows, works);
    WithoutUnique(rows, gone);
    if allDeleted {
      forall i | 0 <= i < |left| ensures !Uses(k, pool, left[i]) { assert left[i] in left; }
    }
    forall other | Free(pool) && Free(other) && other != pool
      ensures Lines(k, other, left) == Lines(k, other, rows)
    {
      OthersKept(k, pool, other, rows, gone);
    }
  }

  // ---- the store ----

  class SharingStore {
    var smb: seq<Row>
    var nfs: seq<Row>
    var iscsi: seq<Row>

    ghost predicate Valid() reads this { UniqueKeys(smb) && UniqueKeys(nfs) && UniqueKeys(iscsi) }

    constructor ()
      ensures Valid() && smb == [] && nfs == [] && iscsi == []
    { smb, nfs, iscsi := [], [], []; }

    function Report(pool: string): seq<string> reads this {
      Lines(Smb, pool, smb) + Lines(Nfs, pool, nfs) + Lines(Iscsi, pool, iscsi)
    }

    /** No share or export lies at or below the pool's mountpoint and no target serves its volume. */
    predicate IsFree(pool: string) reads this {
      && (forall i | 0 <= i < |smb| :: !Under(smb[i].place, "/mnt/" + pool))
      && (forall i | 0 <= i < |nfs| :: !Under(nfs[i].place, "/mnt/" + pool))
      && (forall i | 0 <= i < |iscsi| :: iscsi[i].place != "/dev/tier-" + pool + "/data")
    }

    lemma ReportsNothingIffFree(pool: string)
      ensures Report(pool) == [] <==> IsFree(pool)
      ensures IsFree(pool) <==> IsUnused(Smb, pool, smb) && IsUnused(Nfs, pool, nfs) && IsUnused(Iscsi, pool, iscsi)
    {
      EmptyIffUnused(Smb, pool, smb);
      EmptyIffUnused(Nfs, pool, nfs);
      EmptyIffUnused(Iscsi, pool, iscsi);
      FreeIsUnused(pool);
    }

    lemma FreeIsUnused(pool: string)
      ensures IsFree(pool) <==> IsUnused(Smb, pool, smb) && IsUnused(Nfs, pool, nfs) && IsUnused(Iscsi, pool, iscsi)
    {
      assert MountPoint(pool) == "/mnt/" + pool && DataVolume(pool) == "/dev/tier-" + pool + "/data";
    }

    /** `tierConsumers`: an error if a table or the plugin host cannot be asked. The lines of the
        tables come one after the other, and there are none exactly if nothing uses the pool. */
    method Consumers(pool: string, readable: bool, plugins: Option<seq<string>>) returns (consumers: Option<seq<string>>)
      ensures consumers.Some? <==> readable && plugins.Some?
      ensures consumers.Some? ==> IsReport(pool, plugins.value, consumers.value)
      ensures consumers.Some? ==> (consumers.value == [] <==> IsFree(pool) && plugins.value == [])
    {
      if !readable { return None; }
      var s := ListTable(Smb, pool, smb);
      var n := ListTable(Nfs, pool, nfs);
      var t := ListTable(Iscsi, pool, iscsi);
      if plugins.None? { return None; }
      var p := ListPlugins(plugins.value);
      Whole(pool, s, n, t, plugins.value);
      consumers := Some(s + n + t + p);
    }

    ghost predicate IsReport(pool: string, plugins: seq<string>, lines: seq<string>) reads this {
      exists s, n, t ::
        && Reports(Smb, pool, smb, s) && Reports(Nfs, pool, nfs, n) && Reports(Iscsi, pool, iscsi, t)
        && lines == s + n + t + PluginLines(plugins)
    }

    lemma Whole(pool: string, s: seq<string>, n: seq<string>, t: seq<string>, plugins: seq<string>)
      requires Reports(Smb, pool, smb, s) && Reports(Nfs, pool, nfs, n) && Reports(Iscsi, pool, iscsi, t)
      requires s == Lines(Smb, pool, smb) && n == Lines(Nfs, pool, nfs) && t == Lines(Iscsi, pool, iscsi)
      ensures IsReport(pool, plugins, s + n + t + PluginLines(plugins))
      ensures s + n + t + PluginLines(plugins) == [] <==> IsFree(pool) && plugins == []
    {
      ReportsNothingIffFree(pool);
    }

    /** A table that cannot be read is skipped. The pool's own report is emptied when every table
        is read and every delete succeeds, which leaves nothing that uses it; whatever fails, no
        other pool's report changes. */
    method Release(pool: string, smbReads: bool, nfsReads: bool, iscsiReads: bool, works: bool) returns (allDeleted: bool)
      requires Valid() && Free(pool)
      modifies this
      ensures Valid()
      ensures allDeleted ==> smbReads && nfsReads && iscsiReads && IsFree(pool) && Report(pool) == []
      ensures works && smbReads && nfsReads && iscsiReads ==> allDeleted
      ensures SparesUnused(Smb, pool, old(smb), smb) && SparesUnused(Nfs, pool, old(nfs), nfs)
      ensures SparesUnused(Iscsi, pool, old(iscsi), iscsi)
      ensures forall other | Free(other) && other != pool :: Report(other) == old(Report(other))
    {
      var okS, okN, okI := false, false, false;
      if smbReads { smb, okS := ReleaseTable(Smb, pool, smb, works); }
      if nfsReads { nfs, okN := ReleaseTable(Nfs, pool, nfs, works); }
      if iscsiReads { iscsi, okI := ReleaseTable(Iscsi, pool, iscsi, works); }
      allDeleted := okS && okN && okI;
      if allDeleted { ReportsNothingIffFree(pool); }
    }
  }

  method ListPlugins(plugins: seq<string>) returns (lines: seq<string>)
    ensures lines == PluginLines(plugins)
  {
    lines := [];
    for i := 0 to |plugins|
      invariant lines == PluginLines(plugins[..i])
    {
      lines := lines + ["plugin:" + plugins[i]];
    }
    assert plugins[..|plugins|] == plugins;
  }

  function PluginLines(plugins: seq<string>): seq<string> {
    seq(|plugins|, i requires 0 <= i < |plugins| => "plugin:" + plugins[i])
  }

  lemma OthersKept(k: Kind, pool: string, other: string, rows: seq<Row>, gone: set<string>)
    requires UniqueKeys(rows) && Free(pool) && Free(other) && other != pool
    requires forall key <- gone :: exists j | 0 <= j < |rows| :: rows[j].key == key && Uses(k, pool, rows[j])
    ensures Lines(k, other, Without(rows, gone)) == Lines(k, other, rows)
  {
    forall i | 0 <= i < |rows| && rows[i].key in gone ensures !Uses(k, other, rows[i]) {
      var j :| 0 <= j < |rows| && rows[j].key == rows[i].key && Uses(k, pool, rows[j]);
      assert j == i;
      OnePoolPerRow(k, pool, other, rows[i]);
    }
    LinesUnchanged(k, other, rows, gone);
  }

  lemma {:induction false} WithoutUnique(rows: seq<Row>, keys: set<string>)
    requires UniqueKeys(rows)
    ensures UniqueKeys(Without(rows, keys))
    ensures forall r :: r in Without(rows, keys) <==> r in rows && r.key !in keys
  {
    if rows != [] {
      var init, last := rows[..|rows| - 1], rows[|rows| - 1];
      WithoutUnique(init, keys);
      var kept := Without(init, keys);
      forall i | 0 <= i < |kept| ensures kept[i].key != last.key {
        assert kept[i] in kept;
        var j :| 0 <= j < |init| && init[j] == kept[i];
        assert rows[j].key != rows[|rows| - 1].key;
      }
    }
  }
}
