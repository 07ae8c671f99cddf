/** Listing config keys by prefix: `escapeLike` must make SQLite's LIKE mean "starts with". */
module ConfigKeys {

  const ESC := '\\'

  /** ASCII case folding, the only folding SQLite's LIKE does. */
  function Fold(c: char): char {
    if 'A' <= c <= 'Z' then (c as int - 'A' as int + 'a' as int) as char else c
  }

  predicate IsLetter(c: char) { 'A' <= c <= 'Z' || 'a' <= c <= 'z' }

  /** SQLite's `key LIKE pattern ESCAPE '\'`. */
  predicate Like(pattern: string, key: string)
    decreases |pattern| + |key|
  {
    if pattern == "" then key == ""
    else if pattern[0] == '%' then
      Like(pattern[1..], key) || (key != "" && Like(pattern, key[1..]))
    else if key == "" then false
    else if pattern[0] == ESC then
      |pattern| >= 2 && Fold(pattern[1]) == Fold(key[0]) && Like(pattern[2..], key[1..])
    else if pattern[0] == '_' then Like(pattern[1..], key[1..])
    else Fold(pattern[0]) == Fold(key[0]) && Like(pattern[1..], key[1..])
  }

  function EscapeChar(c: char): string {
    if c == ESC || c == '%' || c == '_' then [ESC, c] else [c]
  }

  /** `escapeLike`. */
  function Escape(s: string): string {
    if s == "" then "" else EscapeChar(s[0]) + Escape(s[1..])
  }

  predicate FoldedPrefix(prefix: string, key: string) {
    |prefix| <= |key| && forall i | 0 <= i < |prefix| :: Fold(prefix[i]) == Fold(key[i])
  }

  lemma {:induction false} PercentMatchesAll(key: string)
    ensures Like("%", key)
  {
    if key != "" { PercentMatchesAll(key[1..]); } else { assert Like("%"[1..], ""); }
  }

  /** No character of the prefix acts as a wildcard, whatever the prefix and the key. */
  lemma {:induction false} EscapedLikeIsPrefix(prefix: string, key: string)
    ensures Like(Escape(prefix) + "%", key) <==> FoldedPrefix(prefix, key)
  {
    if prefix == "" {
      assert Escape(prefix) + "%" == "%";
      PercentMatchesAll(key);
    } else if key != "" {
      var c, rest := prefix[0], prefix[1..];
      EscapedLikeIsPrefix(rest, key[1..]);
      var pattern := Escape(prefix) + "%";
      assert pattern[|EscapeChar(c)|..] == Escape(rest) + "%";
      assert FoldedPrefix(prefix, key) <==> Fold(c) == Fold(key[0]) && FoldedPrefix(rest, key[1..]) by {
        assert forall i | 0 <= i < |rest| :: rest[i] == prefix[i + 1] && (|key| > |rest| ==> key[1..][i] == key[i + 1]);
        assert forall i | 0 < i < |prefix| :: prefix[i] == rest[i - 1];
      }
    }
  }

  lemma FoldFixesNonLetters(c: char, k: char)
    requires !IsLetter(c) && Fold(c) == Fold(k)
    ensures c == k
  {}

  /** "Verbatim" matching is exact just for prefixes without ASCII letters. */
  lemma VerbatimIffNoLetters(prefix: string)
    ensures (forall key :: Like(Escape(prefix) + "%", key) <==> prefix <= key)
            <==> (forall c <- prefix :: !IsLetter(c))
  {
    if forall c <- prefix :: !IsLetter(c) {
      forall key ensures Like(Escape(prefix) + "%", key) <==> prefix <= key {
        EscapedLikeIsPrefix(prefix, key);
        if FoldedPrefix(prefix, key) {
          forall i | 0 <= i < |prefix| ensures prefix[i] == key[i] {
            FoldFixesNonLetters(prefix[i], key[i]);
          }
        }
      }
    } else {
      var i :| 0 <= i < |prefix| && IsLetter(prefix[i]);
      var other := if prefix[i] <= 'Z' then Fold(prefix[i])
                   else (prefix[i] as int - 'a' as int + 'A' as int) as char;
      var key := prefix[i := other];
      EscapedLikeIsPrefix(prefix, key);
      assert FoldedPrefix(prefix, key) && key[i] != prefix[i];
    }
  }

  /** `ListConfigByPrefix`: the rows the query returns, copied into a map. */
  method ListConfigByPrefix(config: map<string, string>, prefix: string) returns (result: map<string, string>)
    ensures forall k :: k in result <==> k in config && FoldedPrefix(prefix, k)
    ensures forall k <- result :: result[k] == config[k]
  {
    var pattern := Escape(prefix) + "%";
    var rows := config.Keys;
    result := map[];
    while rows != {}
      invariant rows <= config.Keys
      invariant forall k :: k in result <==> k in config && k !in rows && Like(pattern, k)
      invariant forall k <- result :: result[k] == config[k]
      decreases |rows|
    {
      var k :| k in rows;
      rows := rows - {k};
      if Like(pattern, k) { result := result[k := config[k]]; }
    }
    forall k ensures Like(pattern, k) <==> FoldedPrefix(prefix, k) { EscapedLikeIsPrefix(prefix, k); }
  }
}
