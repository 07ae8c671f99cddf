/** Slash-separated paths: the pieces of Go's `strings` and `path/filepath` that
    tierd's path tests rest on, with the laws the other modules use. */
module Paths {

  /** `s` does not contain the separator. */
  predicate Free(s: string, sep: char := '/') { sep !in s }

  /** A directory entry name as the kernel hands it out. */
  predicate IsName(s: string) {
    Free(s) && s != "" && s != "." && s != ".."
  }

  predicate AllNames(cs: seq<string>) { forall i | 0 <= i < |cs| :: IsName(cs[i]) }

  predicate AllFree(cs: seq<string>, sep: char := '/') { forall i | 0 <= i < |cs| :: Free(cs[i], sep) }

  /** `strings.Join`. */
  function Join(cs: seq<string>, sep: char := '/'): string {
    if |cs| == 0 then ""
    else if |cs| == 1 then cs[0]
    else cs[0] + [sep] + Join(cs[1..], sep)
  }

  /** `strings.Split`. */
  function Split(s: string, sep: char := '/'): (cs: seq<string>)
    ensures |cs| >= 1 && AllFree(cs, sep)
  {
    if s == "" then [""]
    else
      var rest := Split(s[1..], sep);
      if s[0] == sep then [""] + rest else
        assert Free(rest[0], sep);
        [[s[0]] + rest[0]] + rest[1..]
  }

  /** The test used all over tierd: `p == dir || strings.HasPrefix(p, dir+"/")`. */
  predicate Under(p: string, dir: string) {
    p == dir || dir + "/" <= p
  }

  lemma {:induction false} SplitHead(a: string, t: string, sep: char := '/')
    requires Free(a, sep)
    ensures Split(a + [sep] + t, sep) == [a] + Split(t, sep)
  {
    if a == "" {
      assert a + [sep] + t == [sep] + t;
      assert ([sep] + t)[1..] == t;
    } else {
      SplitHead(a[1..], t, sep);
      assert (a + [sep] + t)[1..] == a[1..] + [sep] + t;
      assert a[0] in a && a == [a[0]] + a[1..];
    }
  }

  lemma {:induction false} SplitFree(a: string, sep: char := '/')
    requires Free(a, sep)
    ensures Split(a, sep) == [a]
  {
    if a != "" {
      SplitFree(a[1..], sep);
      assert a[0] in a && a == [a[0]] + a[1..];
    }
  }

  /** Splitting undoes joining, whatever text follows the joined part. */
  lemma {:induction false} SplitJoinThen(cs: seq<string>, t: string)
    requires |cs| >= 1 && AllFree(cs)
    ensures Split(Join(cs) + "/" + t) == cs + Split(t)
  {
    if |cs| == 1 {
      SplitHead(cs[0], t);
    } else {
      var tail := Join(cs[1..]);
      calc {
        Split(Join(cs) + "/" + t);
        { assert Join(cs) + "/" + t == cs[0] + "/" + (tail + "/" + t); }
        Split(cs[0] + "/" + (tail + "/" + t));
        { SplitHead(cs[0], tail + "/" + t); }
        [cs[0]] + Split(tail + "/" + t);
        { SplitJoinThen(cs[1..], t); }
        [cs[0]] + (cs[1..] + Split(t));
        cs + Split(t);
      }
    }
  }

  lemma {:induction false} SplitJoin(cs: seq<string>, sep: char := '/')
    requires |cs| >= 1 && AllFree(cs, sep)
    ensures Split(Join(cs, sep), sep) == cs
  {
    if |cs| == 1 {
      SplitFree(cs[0], sep);
    } else {
      SplitHead(cs[0], Join(cs[1..], sep), sep);
      SplitJoin(cs[1..], sep);
    }
  }

  lemma {:induction false} JoinSplit(s: string, sep: char := '/')
    ensures Join(Split(s, sep), sep) == s
  {
    if s != "" {
      var rest := Split(s[1..], sep);
      JoinSplit(s[1..], sep);
      if s[0] == sep {
        assert ([""] + rest)[1..] == rest;
      } else {
        var first := [s[0]] + rest[0];
        assert ([first] + rest[1..])[1..] == rest[1..];
      }
    }
  }

  lemma {:induction false} JoinAppend(a: seq<string>, b: seq<string>)
    requires |a| >= 1 && |b| >= 1
    ensures Join(a + b) == Join(a) + "/" + Join(b)
  {
    if |a| == 1 {
      assert (a + b)[1..] == b;
    } else {
      JoinAppend(a[1..], b);
      assert (a + b)[1..] == a[1..] + b;
    }
  }

  lemma PrefixIsUnder(a: seq<string>, b: seq<string>)
    requires |b| >= 1 && b <= a
    ensures Under(Join(a), Join(b))
  {
    var rest := a[|b|..];
    assert a == b + rest;
    if rest != [] {
      JoinAppend(b, rest);
      assert Join(b) + "/" <= Join(b) + "/" + Join(rest);
    }
  }

  lemma UnderHasPrefix(a: seq<string>, b: seq<string>)
    requires |a| >= 1 && |b| >= 1 && AllFree(a) && AllFree(b)
    requires Under(Join(a), Join(b))
    ensures b <= a
  {
    SplitJoin(a);
    if Join(a) == Join(b) {
      SplitJoin(b);
    } else {
      var t := Remainder(Join(a), Join(b));
      SplitJoinThen(b, t);
      assert a == b + Split(t);
    }
  }

  lemma Remainder(p: string, dir: string) returns (t: string)
    requires dir + "/" <= p
    ensures p == dir + "/" + t
  {
    t := p[|dir| + 1..];
  }

  /** The string test sees exactly the tree: one joined path lies at or under another
      just when its components extend the other's. */
  lemma UnderIsPrefix(a: seq<string>, b: seq<string>)
    requires |a| >= 1 && |b| >= 1 && AllFree(a) && AllFree(b)
    ensures Under(Join(a), Join(b)) <==> b <= a
  {
    if b <= a {
      PrefixIsUnder(a, b);
    } else if Under(Join(a), Join(b)) {
      UnderHasPrefix(a, b);
    }
  }

  // ---- filepath.Clean ----

  /** One component of the lexical clean-up against the components kept so far. */
  function Keep(kept: seq<string>, c: string, rooted: bool): seq<string> {
    if c == "" || c == "." then kept
    else if c != ".." then kept + [c]
    else if |kept| > 0 && kept[|kept| - 1] != ".." then kept[..|kept| - 1]
    else if rooted then kept
    else kept + [c]
  }

  function Reduce(cs: seq<string>, rooted: bool, kept: seq<string>): seq<string> {
    if cs == [] then kept
    else Reduce(cs[1..], rooted, Keep(kept, cs[0], rooted))
  }

  predicate Rooted(p: string) { |p| > 0 && p[0] == '/' }

  /** `filepath.Clean`. */
  function Clean(p: string): string {
    var kept := Reduce(Split(p), Rooted(p), []);
    if Rooted(p) then "/" + Join(kept)
    else if kept == [] then "."
    else Join(kept)
  }

  /** Components that `Reduce` would keep as they are. */
  predicate Settled(cs: seq<string>, rooted: bool) {
    forall i | 0 <= i < |cs| ::
      && Free(cs[i]) && cs[i] != "" && cs[i] != "."
      && (cs[i] == ".." ==> !rooted && forall j | 0 <= j < i :: cs[j] == "..")
  }

  lemma {:induction false} ReduceSettles(cs: seq<string>, rooted: bool, kept: seq<string>)
    requires AllFree(cs) && Settled(kept, rooted)
    ensures Settled(Reduce(cs, rooted, kept), rooted)
    decreases |cs|
  {
    if cs != [] { ReduceSettles(cs[1..], rooted, Keep(kept, cs[0], rooted)); }
  }

  lemma {:induction false} ReduceKeeps(cs: seq<string>, rooted: bool, kept: seq<string>)
    requires Settled(kept + cs, rooted)
    ensures Reduce(cs, rooted, kept) == kept + cs
    decreases |cs|
  {
    if cs != [] {
      assert (kept + cs)[|kept|] == cs[0];
      assert forall j | 0 <= j < |kept| :: (kept + cs)[j] == kept[j];
      assert kept + [cs[0]] + cs[1..] == kept + cs;
      ReduceKeeps(cs[1..], rooted, kept + [cs[0]]);
    }
  }

  lemma {:induction false} JoinStart(cs: seq<string>)
    requires |cs| >= 1 && AllFree(cs) && cs[0] != ""
    ensures Join(cs) != "" && !Rooted(Join(cs))
  {
    assert Free(cs[0]) && cs[0][0] in cs[0];
    assert Join(cs)[0] == cs[0][0];
  }

  lemma CleanIdempotent(p: string)
    ensures Clean(Clean(p)) == Clean(p)
  {
    var rooted := Rooted(p);
    var kept := Reduce(Split(p), rooted, []);
    ReduceSettles(Split(p), rooted, []);
    if kept == [] {
      if rooted {
        assert Clean(p) == "/";
        assert Split("/") == [""] + Split("");
        assert Reduce(["", ""], true, []) == Reduce([""], true, []) == [];
      } else {
        SplitFree(".");
        assert Reduce(["."], false, []) == [];
      }
    } else {
      assert AllFree(kept);
      SplitJoin(kept);
      JoinStart(kept);
      ReduceKeeps(kept, rooted, []);
      assert [] + kept == kept;
      if rooted {
        assert ("/" + Join(kept))[1..] == Join(kept);
        assert Split("/" + Join(kept)) == [""] + kept;
        assert ([""] + kept)[1..] == kept;
      }
    }
  }
}
