/** String operations the practice pages use: the romaji pattern `/^[a-z]+$/i`,
    ASCII lower-casing of key names, substring search (`String.prototype.includes`),
    removal of pitch-accent markers, and `String.prototype.split` on a fixed separator. */
module Text {
  import opened Seqs

  predicate IsAsciiLetter(c: char)
  {
    'a' <= c <= 'z' || 'A' <= c <= 'Z'
  }

  /** The regular expression `/^[a-z]+$/i`: one or more ASCII letters, either case. */
  predicate IsRomaji(s: string)
  {
    |s| > 0 && forall i :: 0 <= i < |s| ==> IsAsciiLetter(s[i])
  }

  function LowerChar(c: char): (r: char)
    ensures 'A' <= c <= 'Z' ==> 'a' <= r <= 'z' && r as int == c as int + 32
    ensures !('A' <= c <= 'Z') ==> r == c
  {
    if 'A' <= c <= 'Z' then (c as int + 32) as char else c
  }

  /** `toLowerCase` restricted to ASCII upper-case letters. */
  function ToLower(s: string): (r: string)
    ensures |r| == |s|
    ensures forall i :: 0 <= i < |s| ==> r[i] == LowerChar(s[i])
  {
    seq(|s|, i requires 0 <= i < |s| => LowerChar(s[i]))
  }

  /** Lower-casing twice is lower-casing once. */
  lemma ToLowerIdempotent(s: string)
    ensures ToLower(ToLower(s)) == ToLower(s)
  {
  }

  /** `t` occurs in `s` starting at index `i`. */
  predicate OccursAt(s: string, t: string, i: int)
  {
    0 <= i && i + |t| <= |s| && s[i..i + |t|] == t
  }

  /** `s.includes(t)`: `t` is a substring of `s` (the empty string is in every string). */
  predicate Contains(s: string, t: string)
  {
    exists i :: 0 <= i <= |s| - |t| && OccursAt(s, t, i)
  }

  /** The pitch-accent markers ① to ⑨ and ⓪ that word readings may carry. */
  const PitchMarkers: set<char> := {
    '\U{2460}', '\U{2461}', '\U{2462}', '\U{2463}', '\U{2464}',
    '\U{2465}', '\U{2466}', '\U{2467}', '\U{2468}', '\U{24EA}' }

  /** The test "is not a pitch marker". */
  const NotPitchMarker: char -> bool := (c: char) => c !in PitchMarkers

  /** `s.replace(/[①②③④⑤⑥⑦⑧⑨⓪]/g, "")`: every other character is kept, as often as it
      occurs and in its order. */
  function StripPitchMarkers(s: string): (r: string)
    ensures |r| <= |s|
    ensures forall c :: c in r <==> c in s && c !in PitchMarkers
    ensures forall c {:trigger multiset(r)[c]} :: multiset(r)[c] == if c in PitchMarkers then 0 else multiset(s)[c]
    ensures IsSubsequence(r, s)
  {
    Filter(s, NotPitchMarker)
  }

  /** `s.split(sep)` for a non-empty separator string: the pieces between the
      non-overlapping occurrences of `sep`, found left to right. */
  function SplitOn(s: string, sep: string): (r: seq<string>)
    requires |sep| > 0
    ensures |r| >= 1
    decreases |s|
  {
    if |s| < |sep| then [s]
    else if s[..|sep|] == sep then [""] + SplitOn(s[|sep|..], sep)
    else
      var rest := SplitOn(s[1..], sep);
      [[s[0]] + rest[0]] + rest[1..]
  }

  /** `s` contains no character of `sep`. */
  predicate FreeOf(s: string, sep: string)
  {
    forall i :: 0 <= i < |s| ==> s[i] !in sep
  }

  /** A string free of the separator's characters splits into itself. */
  lemma {:induction false} SplitWhole(s: string, sep: string)
    requires |sep| > 0 && FreeOf(s, sep)
    ensures SplitOn(s, sep) == [s]
    decreases |s|
  {
    if |s| >= |sep| {
      assert s[..|sep|][0] == s[0] && s[0] !in sep;
      assert s[..|sep|] != sep;
      SplitWhole(s[1..], sep);
      assert [s[0]] + s[1..] == s;
    }
  }

  /** Joining with `sep` after a piece free of the separator's characters is undone by `SplitOn`. */
  lemma {:induction false} SplitJoin(a: string, sep: string, rest: string)
    requires |sep| > 0 && FreeOf(a, sep)
    ensures SplitOn(a + sep + rest, sep) == [a] + SplitOn(rest, sep)
    decreases |a|
  {
    var s := a + sep + rest;
    if a == [] {
      assert s == sep + rest;
      assert s[..|sep|] == sep;
      assert s[|sep|..] == rest;
    } else {
      assert s[0] == a[0] && a[0] !in sep;
      assert s[..|sep|][0] == s[0];
      assert s[..|sep|] != sep;
      assert s[1..] == a[1..] + sep + rest;
      SplitJoin(a[1..], sep, rest);
      assert [a[0]] + a[1..] == a;
    }
  }
}
