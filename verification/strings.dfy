/** The few string operations of Rust's standard library the source relies on:
    `split` on one character, `replace` of a character by nothing,
    `trim_end_matches`, `starts_with`/`ends_with` and `eq_ignore_ascii_case`.
    Strings are sequences of characters; no Unicode case folding is modelled.
 */
module Strings {

  /** Rust's `s.split(c).collect()`: always at least one piece, the pieces
      never contain the separator, and "" splits into [""]. */
  function Split(s: string, c: char): (r: seq<string>)
    ensures |r| >= 1
    ensures forall i :: 0 <= i < |r| ==> c !in r[i]
    decreases |s|
  {
    if |s| == 0 then [""]
    else if s[0] == c then [""] + Split(s[1..], c)
    else
      var rest := Split(s[1..], c);
      [[s[0]] + rest[0]] + rest[1..]
  }

  /** Rust's `parts.join(c)`, the inverse of Split. */
  function Join(parts: seq<string>, c: char): string
    requires |parts| >= 1
    decreases |parts|
  {
    if |parts| == 1 then parts[0] else parts[0] + [c] + Join(parts[1..], c)
  }

  /** Splitting and joining again gives back the input. */
  lemma {:induction false} JoinSplit(s: string, c: char)
    ensures Join(Split(s, c), c) == s
    decreases |s|
  {
    if |s| == 0 {
    } else if s[0] == c {
      JoinSplit(s[1..], c);
      assert s == [c] + s[1..];
    } else {
      JoinSplit(s[1..], c);
      var rest := Split(s[1..], c);
      assert s == [s[0]] + s[1..];
      if |rest| == 1 {
      } else {
        assert Join(rest, c) == rest[0] + [c] + Join(rest[1..], c);
        assert ([s[0]] + rest[0]) + [c] + Join(rest[1..], c)
            == [s[0]] + (rest[0] + [c] + Join(rest[1..], c));
      }
    }
  }

  /** Joining pieces free of the separator and splitting again gives back the pieces. */
  lemma {:induction false} SplitJoin(parts: seq<string>, c: char)
    requires |parts| >= 1
    requires forall i :: 0 <= i < |parts| ==> c !in parts[i]
    ensures Split(Join(parts, c), c) == parts
    decreases |parts|, |parts[0]|
  {
    if |parts[0]| == 0 {
      if |parts| == 1 {
      } else {
        var j := Join(parts, c);
        assert j == [c] + Join(parts[1..], c);
        assert j[1..] == Join(parts[1..], c);
        SplitJoin(parts[1..], c);
        assert [parts[0]] + parts[1..] == parts;
      }
    } else {
      var p0 := parts[0];
      var shorter := [p0[1..]] + parts[1..];
      assert forall i :: 0 <= i < |shorter| ==> c !in shorter[i];
      SplitJoin(shorter, c);
      var j := Join(parts, c);
      if |parts| == 1 {
        assert j == p0;
        assert j[1..] == Join(shorter, c);
      } else {
        assert j == p0 + [c] + Join(parts[1..], c);
        assert Join(shorter, c) == p0[1..] + [c] + Join(parts[1..], c);
        assert j[1..] == Join(shorter, c);
      }
      assert j[0] == p0[0];
      assert p0[0] != c by { assert p0[0] in p0; }
      var rest := Split(j[1..], c);
      assert rest == shorter;
      assert [p0[0]] + rest[0] == p0;
      assert [p0] + rest[1..] == parts;
    }
  }

  /** The input splits into a single piece exactly when it holds no separator. */
  lemma {:induction false} SplitSingle(s: string, c: char)
    ensures |Split(s, c)| == 1 <==> c !in s
    ensures c !in s ==> Split(s, c) == [s]
  {
    JoinSplit(s, c);
    if c !in s {
      SplitJoin([s], c);
    }
  }

  /** With two or more pieces, the first piece is the text before the first
      separator and the rest follows that separator. */
  lemma SplitHead(s: string, c: char)
    requires c in s
    ensures var p := Split(s, c);
      |p| >= 2 && s == p[0] + [c] + Join(p[1..], c)
  {
    SplitSingle(s, c);
    JoinSplit(s, c);
  }

  /** Rust's `s.replace(c, "")`. */
  function RemoveAll(s: string, c: char): (r: string)
    ensures c !in r
    ensures |r| <= |s|
    ensures c !in s ==> r == s
  {
    if |s| == 0 then ""
    else if s[0] == c then RemoveAll(s[1..], c)
    else [s[0]] + RemoveAll(s[1..], c)
  }

  /** Concatenation of all the pieces, without separators. */
  function Concat(parts: seq<string>): string {
    if |parts| == 0 then "" else parts[0] + Concat(parts[1..])
  }

  lemma ConcatAppend(a: seq<string>, b: seq<string>)
    ensures Concat(a + b) == Concat(a) + Concat(b)
  {
    if |a| == 0 {
      assert a + b == b;
    } else {
      assert (a + b)[1..] == a[1..] + b;
    }
  }

  /** Removing the separator leaves the concatenation of the split pieces. */
  lemma {:induction false} RemoveAllIsConcatOfSplit(s: string, c: char)
    ensures RemoveAll(s, c) == Concat(Split(s, c))
    decreases |s|
  {
    if |s| == 0 {
    } else if s[0] == c {
      RemoveAllIsConcatOfSplit(s[1..], c);
      ConcatAppend([""], Split(s[1..], c));
    } else {
      RemoveAllIsConcatOfSplit(s[1..], c);
      var rest := Split(s[1..], c);
      assert rest == [rest[0]] + rest[1..];
      ConcatAppend([rest[0]], rest[1..]);
      ConcatAppend([[s[0]] + rest[0]], rest[1..]);
    }
  }

  /** Rust's `s.trim_end_matches(c)` for a one-character pattern. */
  function TrimEnd(s: string, c: char): (r: string)
    ensures |r| <= |s| && r == s[..|r|]
    ensures |r| == 0 || r[|r| - 1] != c
    ensures forall i :: |r| <= i < |s| ==> s[i] == c
  {
    if |s| == 0 then s
    else if s[|s| - 1] == c then TrimEnd(s[..|s| - 1], c)
    else s
  }

  /** `n` copies of the character `c`. */
  function Repeat(c: char, n: nat): (r: string)
    ensures |r| == n && forall i :: 0 <= i < n ==> r[i] == c
  {
    if n == 0 then "" else Repeat(c, n - 1) + [c]
  }

  /** Appending copies of the trimmed character never changes the trimmed text. */
  lemma {:induction false} TrimEndAppend(s: string, c: char, n: nat)
    ensures TrimEnd(s + Repeat(c, n), c) == TrimEnd(s, c)
  {
    if n == 0 {
      assert s + Repeat(c, 0) == s;
    } else {
      var t := s + Repeat(c, n);
      assert t[|t| - 1] == c;
      assert t[..|t| - 1] == s + Repeat(c, n - 1);
      TrimEndAppend(s, c, n - 1);
    }
  }

  predicate StartsWith(s: string, prefix: string) {
    |prefix| <= |s| && s[..|prefix|] == prefix
  }

  predicate EndsWith(s: string, suffix: string) {
    |suffix| <= |s| && s[|s| - |suffix|..] == suffix
  }

  /** ASCII lower-casing of one character; other characters are unchanged. */
  function LowerChar(ch: char): char {
    if 'A' <= ch <= 'Z' then (ch as int + 32) as char else ch
  }

  function Lower(s: string): (r: string)
    ensures |r| == |s|
  {
    if |s| == 0 then "" else [LowerChar(s[0])] + Lower(s[1..])
  }

  /** Rust's `eq_ignore_ascii_case`. */
  predicate EqIgnoreAsciiCase(a: string, b: string) {
    Lower(a) == Lower(b)
  }
}
