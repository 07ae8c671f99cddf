/** The two "which smoothfs pool holds this path" lookups: one serves backups and NFS
    exports, the other the active-LUN executor. They are written differently and must agree. */
module PoolLookup {
  import opened Paths
  import opened Wrappers

  datatype Pool = Pool(name: string, mountpoint: string)

  /** `strings.TrimRight(s, "/")`. */
  function TrimSlashes(s: string): string {
    if |s| > 0 && s[|s| - 1] == '/' then TrimSlashes(s[..|s| - 1]) else s
  }

  // ---- findSmoothfsPoolForBackingFile ----

  function BackingPick(path: string, pools: seq<Pool>): Option<Pool> {
    if pools == [] then None
    else
      var best, p := BackingPick(path, pools[..|pools| - 1]), pools[|pools| - 1];
      var mp := TrimSlashes(p.mountpoint);
      // The length on the right is that of the stored mountpoint, not of the trimmed one.
      if mp != "" && Under(path, mp) && (best.None? || |mp| > |best.value.mountpoint|)
      then Some(p) else best
  }

  method FindPoolForBackingFile(path: string, pools: seq<Pool>) returns (match_: Option<Pool>)
    ensures match_ == BackingPick(path, pools)
  {
    match_ := None;
    for i := 0 to |pools|
      invariant match_ == BackingPick(path, pools[..i])
    {
      assert pools[..i + 1][..i] == pools[..i];
      var mp := TrimSlashes(pools[i].mountpoint);
      if mp == "" { continue; }
      if path == mp || mp + "/" <= path {
        if match_ == None || |mp| > |match_.value.mountpoint| {
          match_ := Some(pools[i]);
        }
      }
    }
    assert pools[..|pools|] == pools;
  }

  // ---- smoothfsPoolForPath ----

  function PathPick(path: string, pools: seq<Pool>): Option<Pool> {
    if pools == [] then None
    else
      var best, p := PathPick(path, pools[..|pools| - 1]), pools[|pools| - 1];
      var mnt := Clean(p.mountpoint);
      if Under(Clean(path), mnt) && (best.None? || |mnt| > |Clean(best.value.mountpoint)|)
      then Some(p) else best
  }

  method PoolForPath(path: string, pools: seq<Pool>) returns (best: Option<Pool>)
    ensures best == PathPick(path, pools)
  {
    var cleaned := Clean(path);
    best := None;
    var bestLen := -1;
    for i := 0 to |pools|
      invariant best == PathPick(path, pools[..i])
      invariant bestLen == if best.Some? then |Clean(best.value.mountpoint)| else -1
    {
      assert pools[..i + 1][..i] == pools[..i];
      var mnt := Clean(pools[i].mountpoint);
      if cleaned != mnt && !(mnt + "/" <= cleaned) { continue; }
      if |mnt| > bestLen {
        best := Some(pools[i]);
        bestLen := |mnt|;
      }
    }
    assert pools[..|pools|] == pools;
  }

  // ---- what both are for ----

  /** `r` is the pool with the longest mountpoint at or above `path`; none when there is none. */
  predicate IsLongest(path: string, pools: seq<Pool>, r: Option<Pool>) {
    && (r.None? ==> forall p <- pools :: !Under(path, p.mountpoint))
    && (r.Some? ==>
          && r.value in pools && Under(path, r.value.mountpoint)
          && forall p <- pools :: Under(path, p.mountpoint) ==> |p.mountpoint| <= |r.value.mountpoint|)
  }

  predicate CleanMounts(pools: seq<Pool>) {
    forall p <- pools :: Clean(p.mountpoint) == p.mountpoint
  }

  predicate DistinctMounts(pools: seq<Pool>) {
    forall p <- pools, q <- pools :: p.mountpoint == q.mountpoint ==> p == q
  }

  ghost predicate SamePools(a: seq<Pool>, b: seq<Pool>) {
    forall p :: p in a <==> p in b
  }

  /** For clean absolute paths and distinct clean mountpoints the two lookups give one
      answer, it is the longest covering mountpoint, and list order does not matter. */
  lemma LookupsAgree(path: string, pools: seq<Pool>, reordered: seq<Pool>)
    requires Clean(path) == path && Rooted(path) && path != "/"
    requires CleanMounts(pools) && DistinctMounts(pools) && SamePools(pools, reordered)
    ensures BackingPick(path, pools) == PathPick(path, reordered)
    ensures IsLongest(path, pools, PathPick(path, pools))
    ensures BackingPick(path, reordered) == BackingPick(path, pools)
  {
    assert CleanMounts(reordered);
    BackingPickIsLongest(path, pools);
    BackingPickIsLongest(path, reordered);
    PathPickIsLongest(path, pools);
    PathPickIsLongest(path, reordered);
    LongestIsUnique(path, pools, reordered, BackingPick(path, pools), PathPick(path, reordered));
    LongestIsUnique(path, pools, reordered, BackingPick(path, pools), BackingPick(path, reordered));
  }

  /** Looking up any spelling of a path is looking up its clean form. */
  lemma {:induction false} PathPickCleans(path: string, pools: seq<Pool>)
    ensures PathPick(path, pools) == PathPick(Clean(path), pools)
  {
    CleanIdempotent(path);
    if pools != [] { PathPickCleans(path, pools[..|pools| - 1]); }
  }

  lemma LongestIsUnique(path: string, a: seq<Pool>, b: seq<Pool>, r: Option<Pool>, q: Option<Pool>)
    requires DistinctMounts(a) && SamePools(a, b)
    requires IsLongest(path, a, r) && IsLongest(path, b, q)
    ensures r == q
  {
    if r.Some? && q.Some? {
      UnderSameLength(path, r.value.mountpoint, q.value.mountpoint);
    }
  }

  lemma UnderSameLength(path: string, m: string, n: string)
    requires Under(path, m) && Under(path, n) && |m| == |n|
    ensures m == n
  {
    assert path[..|m|] == m && path[..|n|] == n;
  }

  /** A clean path other than the root has no trailing slash and no doubled leading one. */
  lemma CleanShape(p: string)
    requires Clean(p) == p && p != "/"
    ensures TrimSlashes(p) == p && p != "" && !("//" <= p)
  {
    var kept := Reduce(Split(p), Rooted(p), []);
    ReduceSettles(Split(p), Rooted(p), []);
    if kept != [] {
      JoinEnd(kept);
      JoinStart(kept);
      if Rooted(p) { assert p == "/" + Join(kept); assert p[1] == Join(kept)[0]; }
    }
  }

  lemma {:induction false} JoinEnd(cs: seq<string>)
    requires |cs| >= 1 && forall i | 0 <= i < |cs| :: Free(cs[i]) && cs[i] != ""
    ensures Join(cs) != "" && Join(cs)[|Join(cs)| - 1] != '/'
  {
    if |cs| == 1 {
      assert cs[0][|cs[0]| - 1] in cs[0];
    } else {
      JoinEnd(cs[1..]);
    }
  }

  /** Mountpoint and path compared as the backup lookup does, whatever their spelling. */
  predicate Holds(p: Pool, path: string) { Under(Clean(path), Clean(p.mountpoint)) }

  /** `p` holds the path, and no pool of the list does so from a longer mountpoint. */
  predicate IsNearest(path: string, pools: seq<Pool>, p: Pool) {
    && p in pools && Holds(p, path)
    && forall q <- pools :: Holds(q, path) ==> |Clean(q.mountpoint)| <= |Clean(p.mountpoint)|
  }

  /** The first of the pools that hold something from the greatest length. */
  function Pick(pools: seq<Pool>, holds: Pool -> bool, length: Pool -> nat): Option<Pool> {
    if pools == [] then None
    else
      var best, p := Pick(pools[..|pools| - 1], holds, length), pools[|pools| - 1];
      if holds(p) && (best.None? || length(p) > length(best.value)) then Some(p) else best
  }

  lemma {:induction false} PickIsNearest(pools: seq<Pool>, holds: Pool -> bool, length: Pool -> nat)
    ensures var r := Pick(pools, holds, length);
            if r.Some? then r.value in pools && holds(r.value) && forall q <- pools :: holds(q) ==> length(q) <= length(r.value)
            else forall q <- pools :: !holds(q)
  {
    if pools != [] {
      var rest, p := pools[..|pools| - 1], pools[|pools| - 1];
      PickIsNearest(rest, holds, length);
      assert forall q <- pools :: q in rest || q == p;
    }
  }

  function HoldsOf(path: string): Pool -> bool { p => Holds(p, path) }

  function LengthOf(): Pool -> nat { (p: Pool) => |Clean(p.mountpoint)| }

  lemma {:induction false} PathPickIsPick(path: string, pools: seq<Pool>)
    ensures PathPick(path, pools) == Pick(pools, HoldsOf(path), LengthOf())
  {
    if pools != [] { PathPickIsPick(path, pools[..|pools| - 1]); }
  }

  /** On any spelling the backup lookup finds a nearest pool, and none only if none holds the path. */
  lemma PathPickIsNearest(path: string, pools: seq<Pool>)
    ensures var r := PathPick(path, pools);
            if r.Some? then IsNearest(path, pools, r.value) else forall q <- pools :: !Holds(q, path)
  {
    PathPickIsPick(path, pools);
    PickIsNearest(pools, HoldsOf(path), LengthOf());
    assert forall q <- pools :: HoldsOf(path)(q) == Holds(q, path) && LengthOf()(q) == |Clean(q.mountpoint)|;
  }

  lemma LongestGrows(path: string, rest: seq<Pool>, p: Pool, best: Option<Pool>)
    requires IsLongest(path, rest, best)
    ensures var better := Under(path, p.mountpoint) && (best.None? || |p.mountpoint| > |best.value.mountpoint|);
            IsLongest(path, rest + [p], if better then Some(p) else best)
  {}

  lemma {:induction false} BackingPickIsLongest(path: string, pools: seq<Pool>)
    requires Clean(path) == path && Rooted(path) && path != "/" && CleanMounts(pools)
    ensures IsLongest(path, pools, BackingPick(path, pools))
  {
    if pools != [] {
      var rest, p := pools[..|pools| - 1], pools[|pools| - 1];
      assert forall q <- rest :: q in pools;
      BackingPickIsLongest(path, rest);
      MountTest(path, p.mountpoint);
      LongestGrows(path, rest, p, BackingPick(path, rest));
      assert rest + [p] == pools;
    }
  }

  lemma {:induction false} PathPickIsLongest(path: string, pools: seq<Pool>)
    requires Clean(path) == path && Rooted(path) && path != "/" && CleanMounts(pools)
    ensures IsLongest(path, pools, PathPick(path, pools))
  {
    if pools != [] {
      var rest, p := pools[..|pools| - 1], pools[|pools| - 1];
      assert forall q <- rest :: q in pools;
      PathPickIsLongest(path, rest);
      LongestGrows(path, rest, p, PathPick(path, rest));
      assert rest + [p] == pools && p in pools;
      PicksClean(path, pools, PathPick(path, rest));
    }
  }

  lemma PicksClean(path: string, pools: seq<Pool>, best: Option<Pool>)
    requires pools != [] && best == PathPick(path, pools[..|pools| - 1])
    requires var p := pools[|pools| - 1]; Clean(path) == path && Clean(p.mountpoint) == p.mountpoint
    requires best.Some? ==> Clean(best.value.mountpoint) == best.value.mountpoint
    ensures var p := pools[|pools| - 1];
            var better := Under(path, p.mountpoint) && (best.None? || |p.mountpoint| > |best.value.mountpoint|);
            PathPick(path, pools) == if better then Some(p) else best
  {}

  /** Trimming changes nothing that matters: a root mountpoint covers no other clean path. */
  lemma MountTest(path: string, mount: string)
    requires Clean(path) == path && Rooted(path) && path != "/" && Clean(mount) == mount
    ensures var mp := TrimSlashes(mount); (mp != "" && Under(path, mp)) <==> Under(path, mount)
    ensures Under(path, mount) ==> TrimSlashes(mount) == mount
  {
    CleanShape(path);
    if mount == "/" { assert TrimSlashes("/") == TrimSlashes("") == ""; } else { CleanShape(mount); }
  }

  // ---- the executor's lookup on mountpoints of any spelling ----

  predicate Covers(p: Pool, path: string) { TrimSlashes(p.mountpoint) != "" && Under(path, TrimSlashes(p.mountpoint)) }

  /** `r` is the covering pool whose mountpoint, trimmed, is longest. */
  predicate IsInnermost(path: string, pools: seq<Pool>, r: Option<Pool>) {
    && (r.None? ==> forall i | 0 <= i < |pools| :: !Covers(pools[i], path))
    && (r.Some? ==>
          && r.value in pools && Covers(r.value, path)
          && forall i | 0 <= i < |pools| && Covers(pools[i], path) ::
               |TrimSlashes(pools[i].mountpoint)| <= |TrimSlashes(r.value.mountpoint)|)
  }

  /** Mountpoint `q` lies properly inside mountpoint `p`. */
  predicate Nested(p: Pool, q: Pool) {
    && TrimSlashes(p.mountpoint) != "" && TrimSlashes(p.mountpoint) != TrimSlashes(q.mountpoint)
    && Covers(p, TrimSlashes(q.mountpoint))
  }

  /** The inner mountpoint, trimmed, is longer than the outer one as stored. */
  predicate NestingShows(pools: seq<Pool>) {
    forall i, j | 0 <= i < |pools| && 0 <= j < |pools| && Nested(pools[i], pools[j]) ::
      |TrimSlashes(pools[j].mountpoint)| > |pools[i].mountpoint|
  }

  /** The executor's lookup finds the innermost pool for every path and every list order exactly
      when no outer mountpoint is stored as long as an inner one. */
  lemma BackingPickIsInnermostIff(pools: seq<Pool>)
    ensures (forall path, order | multiset(order) == multiset(pools) :: IsInnermost(path, order, BackingPick(path, order)))
            <==> NestingShows(pools)
  {
    if NestingShows(pools) {
      forall path, order | multiset(order) == multiset(pools) ensures IsInnermost(path, order, BackingPick(path, order)) {
        NestingShowsAnyOrder(pools, order);
        PicksInnermost(path, order);
      }
    } else {
      var i, j :| 0 <= i < |pools| && 0 <= j < |pools| && Nested(pools[i], pools[j])
                  && |TrimSlashes(pools[j].mountpoint)| <= |pools[i].mountpoint|;
      var path := TrimSlashes(pools[j].mountpoint);
      var others := Others(pools, i, j);
      var order := [pools[i], pools[j]] + others;
      StaysOuter(path, pools[i], pools[j], others);
      NestedIsLonger(pools[i], pools[j]);
      assert order[1] == pools[j] && Covers(order[1], path);
      assert !IsInnermost(path, order, BackingPick(path, order));
    }
  }

  /** The list without two of its rows. */
  lemma Others(pools: seq<Pool>, i: nat, j: nat) returns (others: seq<Pool>)
    requires i < |pools| && j < |pools| && i != j
    ensures multiset([pools[i], pools[j]] + others) == multiset(pools)
  {
    var rest := pools[..i] + pools[i + 1..];
    var k := if j < i then j else j - 1;
    assert rest[k] == pools[j];
    others := rest[..k] + rest[k + 1..];
    Without(pools, i);
    Without(rest, k);
    assert multiset([pools[i], pools[j]] + others) == multiset{pools[i], pools[j]} + multiset(others);
  }

  lemma Without(pools: seq<Pool>, i: nat)
    requires i < |pools|
    ensures multiset(pools) == multiset{pools[i]} + multiset(pools[..i] + pools[i + 1..])
  {
    assert pools == pools[..i] + ([pools[i]] + pools[i + 1..]);
  }

  /** Clean mountpoints have that property. */
  lemma CleanNestingShows(pools: seq<Pool>)
    requires CleanMounts(pools)
    ensures NestingShows(pools)
  {
    forall i, j | 0 <= i < |pools| && 0 <= j < |pools| && Nested(pools[i], pools[j])
      ensures |TrimSlashes(pools[j].mountpoint)| > |pools[i].mountpoint|
    {
      assert pools[i] in pools;
      if pools[i].mountpoint != "/" { CleanShape(pools[i].mountpoint); }
      NestedIsLonger(pools[i], pools[j]);
    }
  }

  lemma NestingShowsAnyOrder(pools: seq<Pool>, order: seq<Pool>)
    requires NestingShows(pools) && multiset(order) == multiset(pools)
    ensures NestingShows(order)
  {
    forall i, j | 0 <= i < |order| && 0 <= j < |order| && Nested(order[i], order[j])
      ensures |TrimSlashes(order[j].mountpoint)| > |order[i].mountpoint|
    {
      assert order[i] in multiset(order) && order[j] in multiset(order);
      var k :| 0 <= k < |pools| && pools[k] == order[i];
      var l :| 0 <= l < |pools| && pools[l] == order[j];
    }
  }

  lemma {:induction false} TrimShortens(s: string)
    ensures |TrimSlashes(s)| <= |s|
  {
    if |s| > 0 && s[|s| - 1] == '/' { TrimShortens(s[..|s| - 1]); }
  }

  lemma NestedIsLonger(p: Pool, q: Pool)
    requires Nested(p, q)
    ensures |TrimSlashes(p.mountpoint)| < |TrimSlashes(q.mountpoint)|
  {}

  /** Of two pools that cover a path, the longer is inside the shorter. */
  lemma CoversNest(path: string, p: Pool, q: Pool)
    requires Covers(p, path) && Covers(q, path) && |TrimSlashes(p.mountpoint)| < |TrimSlashes(q.mountpoint)|
    ensures Nested(p, q)
  {
    var a, b := TrimSlashes(p.mountpoint), TrimSlashes(q.mountpoint);
    assert path[..|b|] == b && path[..|a|] == a && path[|a|] == '/';
    assert b[..|a|] == a && b[|a|] == '/';
    assert a + "/" == b[..|a| + 1];
  }

  lemma {:induction false} PicksInnermost(path: string, pools: seq<Pool>)
    requires NestingShows(pools)
    ensures IsInnermost(path, pools, BackingPick(path, pools))
  {
    if pools != [] {
      var rest, p := pools[..|pools| - 1], pools[|pools| - 1];
      NestingShowsFront(pools);
      PicksInnermost(path, rest);
      ComparesInner(path, pools, BackingPick(path, rest));
      PickGrows(path, rest, p, BackingPick(path, rest));
      assert rest + [p] == pools;
    }
  }

  lemma NestingShowsFront(pools: seq<Pool>)
    requires NestingShows(pools) && pools != []
    ensures NestingShows(pools[..|pools| - 1])
  {
    var rest := pools[..|pools| - 1];
    forall i, j | 0 <= i < |rest| && 0 <= j < |rest| && Nested(rest[i], rest[j])
      ensures |TrimSlashes(rest[j].mountpoint)| > |rest[i].mountpoint|
    {
      assert Nested(pools[i], pools[j]);
    }
  }

  lemma ComparesInner(path: string, pools: seq<Pool>, best: Option<Pool>)
    requires NestingShows(pools) && pools != [] && IsInnermost(path, pools[..|pools| - 1], best)
    ensures var p := pools[|pools| - 1];
            best.Some? && Covers(p, path) ==>
              (|TrimSlashes(p.mountpoint)| > |best.value.mountpoint|
               <==> |TrimSlashes(p.mountpoint)| > |TrimSlashes(best.value.mountpoint)|)
  {
    if best.Some? && Covers(pools[|pools| - 1], path) {
      var i :| 0 <= i < |pools| - 1 && pools[i] == best.value;
      InnerIsTaken(path, pools, i, |pools| - 1);
    }
  }

  function Picked(path: string, p: Pool, best: Option<Pool>): Option<Pool> {
    if Covers(p, path) && (best.None? || |TrimSlashes(p.mountpoint)| > |best.value.mountpoint|) then Some(p) else best
  }

  lemma PickGrows(path: string, rest: seq<Pool>, p: Pool, best: Option<Pool>)
    requires IsInnermost(path, rest, best)
    requires best.Some? && Covers(p, path) ==>
               (|TrimSlashes(p.mountpoint)| > |best.value.mountpoint|
                <==> |TrimSlashes(p.mountpoint)| > |TrimSlashes(best.value.mountpoint)|)
    ensures IsInnermost(path, rest + [p], Picked(path, p, best))
  {}

  /** The lookup's comparison tells which of two covering pools is the inner one. */
  lemma InnerIsTaken(path: string, pools: seq<Pool>, i: nat, j: nat)
    requires NestingShows(pools) && i < |pools| && j < |pools| && Covers(pools[i], path) && Covers(pools[j], path)
    ensures |TrimSlashes(pools[j].mountpoint)| > |pools[i].mountpoint|
            <==> |TrimSlashes(pools[j].mountpoint)| > |TrimSlashes(pools[i].mountpoint)|
  {
    TrimShortens(pools[i].mountpoint);
    if |TrimSlashes(pools[i].mountpoint)| < |TrimSlashes(pools[j].mountpoint)| { CoversNest(path, pools[i], pools[j]); }
  }

  /** An outer pool stored at least as long as the path itself is never given up again. */
  lemma {:induction false} StaysOuter(path: string, p: Pool, q: Pool, more: seq<Pool>)
    requires Covers(p, path) && |path| <= |p.mountpoint|
    ensures BackingPick(path, [p, q] + more) == Some(p)
    decreases more
  {
    var pools := [p, q] + more;
    if more == [] {
      assert pools[..1] == [p] && [p][..0] == [] && pools == [p, q];
      assert BackingPick(path, [p]) == Some(p);
    } else {
      assert pools[..|pools| - 1] == [p, q] + more[..|more| - 1];
      StaysOuter(path, p, q, more[..|more| - 1]);
    }
  }
}
