/** Option, the stock failure-or-value wrapper used throughout the model. */
module Wrappers {
  datatype Option<+T> = None | Some(value: T) {
    /** The wrapped value, or `default` when there is none (Swift's `??`). */
    function GetOr(default: T): T {
      match this
      case Some(v) => v
      case None => default
    }
  }
}

/**
 * String and sequence helpers standing in for the Foundation string API the
 * handlers use: substring search, `replacingOccurrences`, `split`, `joined`,
 * `trimmingCharacters(in: .whitespacesAndNewlines)` and the `\d` character class.
 */
module Text {
  import opened Wrappers

  /** `\d` and `CharacterSet.decimalDigits`, restricted to ASCII. */
  predicate IsDigit(c: char) {
    '0' <= c <= '9'
  }

  predicate AllDigits(s: string) {
    forall i :: 0 <= i < |s| ==> IsDigit(s[i])
  }

  /** A string that wholly matches `\d+`. */
  predicate IsDigitRun(s: string) {
    |s| > 0 && AllDigits(s)
  }

  /** `CharacterSet.whitespacesAndNewlines`. */
  predicate IsWhitespace(c: char) {
    ('\U{9}' <= c <= '\U{D}') || c == ' ' || c == '\U{85}' || c == '\U{A0}' || c == '\U{1680}'
    || ('\U{2000}' <= c <= '\U{200A}') || c == '\U{2028}' || c == '\U{2029}' || c == '\U{202F}'
    || c == '\U{205F}' || c == '\U{3000}'
  }

  predicate AllWhitespace(s: string) {
    forall i :: 0 <= i < |s| ==> IsWhitespace(s[i])
  }

  /** `Character.isNewline`: what a Swift `Regex` literal's `.` does not match. */
  predicate IsLineBreak(c: char) {
    ('\U{A}' <= c <= '\U{D}') || c == '\U{85}' || c == '\U{2028}' || c == '\U{2029}'
  }

  /** The regex `.`: any character except a line terminator. */
  predicate NoLineBreak(s: string) {
    forall i :: 0 <= i < |s| ==> !IsLineBreak(s[i])
  }

  predicate HasPrefix(s: string, prefix: string) {
    |prefix| <= |s| && s[..|prefix|] == prefix
  }

  predicate HasSuffix(s: string, suffix: string) {
    |suffix| <= |s| && s[|s| - |suffix|..] == suffix
  }

  /** `pat` occurs in `s` starting at index `i`. */
  predicate ContainsAt(s: string, i: nat, pat: string) {
    i + |pat| <= |s| && s[i..i + |pat|] == pat
  }

  /** Swift's `String.contains(_:)` with a string argument: a literal substring test. */
  predicate Contains(s: string, pat: string) {
    exists i: nat :: i <= |s| && ContainsAt(s, i, pat)
  }

  /** First index at or after `from` where `pat` occurs (`range(of:)`). */
  function IndexOf(s: string, pat: string, from: nat): (r: Option<nat>)
    requires from <= |s|
    decreases |s| - from
    ensures r.Some? ==> from <= r.value && ContainsAt(s, r.value, pat)
    ensures r.Some? ==> forall k :: from <= k < r.value ==> !ContainsAt(s, k, pat)
    ensures r.None? ==> forall k :: from <= k ==> !ContainsAt(s, k, pat)
  {
    if ContainsAt(s, from, pat) then Some(from)
    else if from == |s| then None
    else IndexOf(s, pat, from + 1)
  }

  /** An occurrence inside a slice is an occurrence in the whole string. */
  lemma ContainsAtSlice(s: string, lo: nat, hi: nat, m: nat, pat: string)
    requires lo <= hi <= |s| && ContainsAt(s[lo..hi], m, pat)
    ensures ContainsAt(s, lo + m, pat) && lo + m + |pat| <= hi
  {
    var t := s[lo..hi];
    forall k | 0 <= k < |pat| ensures s[lo + m + k] == pat[k] {
      assert t[m..m + |pat|][k] == t[m + k] == s[lo + m + k];
    }
    assert s[lo + m..lo + m + |pat|] == pat;
  }

  /** A pattern that cannot start with `c` and is absent from `s` is absent from `c` followed by `s`. */
  lemma NotContainedAfterHead(c: char, s: string, pat: string)
    requires pat != [] && pat[0] != c && !Contains(s, pat)
    ensures !Contains([c] + s, pat)
  {
    var t := [c] + s;
    forall i: nat | i <= |t| ensures !ContainsAt(t, i, pat) {
      if i > 0 && ContainsAt(t, i, pat) {
        forall k | 0 <= k < |pat| ensures s[i - 1 + k] == pat[k] {
          assert t[i..i + |pat|][k] == t[i + k] == s[i - 1 + k];
        }
        assert s[i - 1..i - 1 + |pat|] == pat;
        assert ContainsAt(s, i - 1, pat);
      }
    }
  }

  /** An occurrence at `i` with none between `from` and `i` is what `IndexOf` finds. */
  lemma IndexOfIs(s: string, pat: string, from: nat, i: nat)
    requires from <= i <= |s| && ContainsAt(s, i, pat)
    requires forall k :: from <= k < i ==> !ContainsAt(s, k, pat)
    ensures IndexOf(s, pat, from) == Some(i)
  {
  }

  /**
   * A pattern whose first character does not recur in it cannot start inside
   * `a` when `a` does not contain it and what follows `a` begins with that character.
   */
  lemma NoOccurrenceWithin(x: string, a: string, b: string, pat: string)
    requires pat != [] && pat[0] !in pat[1..]
    requires b != [] && b[0] == pat[0] && !Contains(a, pat)
    ensures forall k :: |x| <= k < |x| + |a| ==> !ContainsAt(x + a + b, k, pat)
  {
    var s := x + a + b;
    forall k | |x| <= k < |x| + |a| ensures !ContainsAt(s, k, pat) {
      var j := k - |x|;
      if j + |pat| <= |a| {
        assert s[k..k + |pat|] == a[j..j + |pat|];
        assert !ContainsAt(a, j, pat);
      } else if k + |pat| <= |s| {
        var m := |x| + |a| - k;
        assert s[k..k + |pat|][m] == s[|x| + |a|] == b[0];
        assert pat[1..][m - 1] == pat[m];
      }
    }
  }

  /** Searching from the end of `x`, the first occurrence is the one right after `a`. */
  lemma OccurrenceAfter(s: string, x: string, a: string, pat: string, rest: string, k: nat)
    requires s == x + a + (pat + rest) && k == |x|
    requires pat != [] && pat[0] !in pat[1..] && !Contains(a, pat)
    ensures IndexOf(s, pat, k) == Some(k + |a|)
  {
    NoOccurrenceWithin(x, a, pat + rest, pat);
    assert s[|x| + |a|..|x| + |a| + |pat|] == pat;
    IndexOfIs(s, pat, |x|, |x| + |a|);
  }

  lemma ContainsIffFound(s: string, pat: string)
    ensures Contains(s, pat) <==> IndexOf(s, pat, 0).Some?
  {
    if IndexOf(s, pat, 0).Some? {
      assert ContainsAt(s, IndexOf(s, pat, 0).value, pat);
    }
  }

  /** First position of `x` in `xs` (`firstIndex(of:)`). */
  function FirstIndexOf<T(==)>(xs: seq<T>, x: T): (r: Option<nat>)
    ensures r.Some? ==> r.value < |xs| && xs[r.value] == x && x !in xs[..r.value]
    ensures r.None? <==> x !in xs
  {
    if xs == [] then None
    else if xs[0] == x then Some(0)
    else match FirstIndexOf(xs[1..], x)
      case None => None
      case Some(k) =>
        assert xs[1..][..k] == xs[1..k + 1];
        assert xs[..k + 1] == [xs[0]] + xs[1..k + 1];
        Some(k + 1)
  }

  lemma {:induction false} FirstIndexAfter<T>(a: seq<T>, x: T, b: seq<T>)
    requires x !in a
    ensures FirstIndexOf(a + [x] + b, x) == Some(|a|)
  {
    var s := a + [x] + b;
    assert s[|a|] == x && s[..|a|] == a;
  }

  /** End of the maximal run of digits starting at `j`. */
  function DigitRunEnd(s: string, j: nat): (e: nat)
    requires j <= |s|
    decreases |s| - j
    ensures j <= e <= |s| && AllDigits(s[j..e])
    ensures e == |s| || !IsDigit(s[e])
  {
    if j < |s| && IsDigit(s[j]) then
      var e := DigitRunEnd(s, j + 1);
      assert s[j..e] == [s[j]] + s[j + 1..e];
      e
    else j
  }

  lemma {:induction false} DigitRunEndOf(d: string, rest: string, j: nat)
    requires j <= |d| && AllDigits(d)
    requires rest == [] || !IsDigit(rest[0])
    ensures DigitRunEnd(d + rest, j) == |d|
    decreases |d| - j
  {
    var s := d + rest;
    if j < |d| {
      assert s[j] == d[j];
      DigitRunEndOf(d, rest, j + 1);
    } else if rest != [] {
      assert s[j] == rest[0];
    }
  }

  lemma {:induction false} DigitRunEndShift(a: string, s: string, j: nat)
    requires j <= |s|
    ensures DigitRunEnd(a + s, |a| + j) == |a| + DigitRunEnd(s, j)
    decreases |s| - j
  {
    if j < |s| {
      assert (a + s)[|a| + j] == s[j];
      DigitRunEndShift(a, s, j + 1);
    }
  }

  /** Whitespace-free on the left: `r` is `s` with its leading whitespace removed. */
  function TrimStart(s: string): (r: string)
    ensures |r| <= |s| && r == s[|s| - |r|..]
    ensures AllWhitespace(s[..|s| - |r|])
    ensures r == [] || !IsWhitespace(r[0])
  {
    if s != [] && IsWhitespace(s[0]) then
      var r := TrimStart(s[1..]);
      assert s[..|s| - |r|] == [s[0]] + s[1..][..|s[1..]| - |r|];
      r
    else s
  }

  function TrimEnd(s: string): (r: string)
    ensures |r| <= |s| && r == s[..|r|]
    ensures AllWhitespace(s[|r|..])
    ensures r == [] || !IsWhitespace(r[|r| - 1])
  {
    if s != [] && IsWhitespace(s[|s| - 1]) then
      var r := TrimEnd(s[..|s| - 1]);
      assert s[|r|..] == s[..|s| - 1][|r|..] + [s[|s| - 1]];
      r
    else s
  }

  /** `trimmingCharacters(in: .whitespacesAndNewlines)`. */
  function Trim(s: string): string {
    TrimEnd(TrimStart(s))
  }

  lemma TrimUnpadded(s: string)
    requires s == [] || (!IsWhitespace(s[0]) && !IsWhitespace(s[|s| - 1]))
    ensures Trim(s) == s
  {
  }

  lemma {:induction false} TrimStartPadded(w: string, s: string)
    requires AllWhitespace(w)
    ensures TrimStart(w + s) == TrimStart(s)
  {
    if w != [] {
      assert (w + s)[1..] == w[1..] + s;
      TrimStartPadded(w[1..], s);
    } else {
      assert w + s == s;
    }
  }

  /** Swift's `replacingOccurrences(of:with:)`: non-overlapping, left to right. */
  function ReplaceAll(s: string, pat: string, rep: string): string
    decreases |s|
  {
    if pat == [] || |s| < |pat| then s
    else if s[..|pat|] == pat then rep + ReplaceAll(s[|pat|..], pat, rep)
    else [s[0]] + ReplaceAll(s[1..], pat, rep)
  }

  lemma {:induction false} ReplaceAllAbsent(s: string, pat: string, rep: string)
    requires !Contains(s, pat)
    ensures ReplaceAll(s, pat, rep) == s
    decreases |s|
  {
    if pat != [] && |s| >= |pat| {
      assert !ContainsAt(s, 0, pat);
      forall i: nat | i <= |s[1..]| ensures !ContainsAt(s[1..], i, pat) {
        if ContainsAt(s[1..], i, pat) {
          assert s[1..][i..i + |pat|] == s[i + 1..i + 1 + |pat|];
          assert ContainsAt(s, i + 1, pat);
        }
      }
      ReplaceAllAbsent(s[1..], pat, rep);
    }
  }

  lemma ReplaceAllLeading(pat: string, s: string, rep: string)
    requires pat != []
    ensures ReplaceAll(pat + s, pat, rep) == rep + ReplaceAll(s, pat, rep)
  {
    assert (pat + s)[..|pat|] == pat;
    assert (pat + s)[|pat|..] == s;
  }

  /** Replacing every occurrence of the single character `c` by `rep`, character by character. */
  function ReplaceEach(s: string, c: char, rep: string): (r: string)
    ensures c !in rep ==> c !in r
    ensures forall d :: d != c && d !in s && d !in rep ==> d !in r
  {
    if s == [] then [] else (if s[0] == c then rep else [s[0]]) + ReplaceEach(s[1..], c, rep)
  }

  lemma {:induction false} ReplaceOneCharIsEach(s: string, c: char, rep: string)
    ensures ReplaceAll(s, [c], rep) == ReplaceEach(s, c, rep)
  {
    if s != [] {
      ReplaceOneCharIsEach(s[1..], c, rep);
    }
  }

  /** The non-empty pieces of `s` between occurrences of `sep` (`split(separator:)`). */
  function Pieces(s: string, sep: char): (r: seq<string>)
    decreases |s|
    ensures forall k :: 0 <= k < |r| ==> r[k] != [] && sep !in r[k]
  {
    match FirstIndexOf(s, sep)
    case None => if s == [] then [] else [s]
    case Some(k) => (if k == 0 then [] else [s[..k]]) + Pieces(s[k + 1..], sep)
  }

  lemma {:induction false} PiecesAround(a: string, sep: char, b: string)
    ensures Pieces(a + [sep] + b, sep) == Pieces(a, sep) + Pieces(b, sep)
    decreases |a|
  {
    match FirstIndexOf(a, sep)
    case None =>
      PiecesAroundFirst(a, sep, b);
    case Some(k) =>
      var a' := a[k + 1..];
      PiecesAroundLater(a, sep, b, k);
      PiecesAround(a', sep, b);
      SplitsCombine(Pieces(a + [sep] + b, sep), Pieces(a, sep), if k == 0 then [] else [a[..k]],
                    Pieces(a', sep), Pieces(b, sep), Pieces(a' + [sep] + b, sep));
  }

  lemma SplitsCombine(whole: seq<string>, left: seq<string>, head: seq<string>, mid: seq<string>, right: seq<string>, rest: seq<string>)
    requires left == head + mid && whole == head + rest && rest == mid + right
    ensures whole == left + right
  {
  }

  /** `a` holds no separator: the inserted one splits off `a` whole. */
  lemma PiecesAroundFirst(a: string, sep: char, b: string)
    requires sep !in a
    ensures Pieces(a + [sep] + b, sep) == Pieces(a, sep) + Pieces(b, sep)
  {
    var s := a + [sep] + b;
    FirstIndexAfter(a, sep, b);
    assert s[..|a|] == a;
    assert s[|a| + 1..] == b;
  }

  /** `a`'s first separator at `k` is also the first of `a + [sep] + b`, and splits both alike. */
  lemma PiecesAroundLater(a: string, sep: char, b: string, k: nat)
    requires FirstIndexOf(a, sep) == Some(k)
    ensures Pieces(a, sep) == (if k == 0 then [] else [a[..k]]) + Pieces(a[k + 1..], sep)
    ensures Pieces(a + [sep] + b, sep) == (if k == 0 then [] else [a[..k]]) + Pieces(a[k + 1..] + [sep] + b, sep)
  {
    PiecesAtFirst(a, sep, k);
    SameFirstIndex(a, sep, b, k);
    SlicesAroundFirst(a, sep, b, k);
    PiecesAtFirst(a + [sep] + b, sep, k);
  }

  lemma SlicesAroundFirst(a: string, sep: char, b: string, k: nat)
    requires k < |a|
    ensures (a + [sep] + b)[..k] == a[..k]
    ensures (a + [sep] + b)[k + 1..] == a[k + 1..] + [sep] + b
  {
  }

  lemma SameFirstIndex(a: string, sep: char, b: string, k: nat)
    requires FirstIndexOf(a, sep) == Some(k)
    ensures FirstIndexOf(a + [sep] + b, sep) == Some(k)
  {
    RegroupAtSep(a, sep, b, k);
    FirstIndexAfter(a[..k], sep, a[k + 1..] + [sep] + b);
  }

  lemma RegroupAtSep(a: string, sep: char, b: string, k: nat)
    requires k < |a| && a[k] == sep
    ensures a + [sep] + b == a[..k] + [sep] + (a[k + 1..] + [sep] + b)
  {
    assert a == a[..k] + [sep] + a[k + 1..];
  }

  /** One step of `Pieces` at a known first separator. */
  lemma PiecesAtFirst(s: string, sep: char, k: nat)
    requires FirstIndexOf(s, sep) == Some(k)
    ensures Pieces(s, sep) == (if k == 0 then [] else [s[..k]]) + Pieces(s[k + 1..], sep)
  {
  }

  /** A leading separator adds no piece. */
  lemma PiecesAfterLeadingSep(sep: char, b: string)
    ensures Pieces([sep] + b, sep) == Pieces(b, sep)
  {
    assert ([sep] + b)[1..] == b;
  }

  lemma PiecesOfPiece(a: string, sep: char)
    requires a != [] && sep !in a
    ensures Pieces(a, sep) == [a]
  {
  }

  /** `joined(separator:)`. */
  function Join(parts: seq<string>, sep: string): string {
    if parts == [] then []
    else if |parts| == 1 then parts[0]
    else parts[0] + sep + Join(parts[1..], sep)
  }

  lemma {:induction false} PiecesOfJoin(parts: seq<string>, sep: char)
    requires forall k :: 0 <= k < |parts| ==> parts[k] != [] && sep !in parts[k]
    ensures Pieces(Join(parts, [sep]), sep) == parts
  {
    if |parts| == 1 {
      PiecesOfPiece(parts[0], sep);
    } else if |parts| > 1 {
      PiecesAround(parts[0], sep, Join(parts[1..], [sep]));
      PiecesOfPiece(parts[0], sep);
      PiecesOfJoin(parts[1..], sep);
    }
  }

  /** Swift's `split(separator:).last`: the last non-empty piece, if any. */
  function LastPiece(s: string, sep: char): Option<string> {
    var ps := Pieces(s, sep);
    if ps == [] then None else Some(ps[|ps| - 1])
  }

  lemma LastPieceAfter(a: string, sep: char, c: string)
    requires c != [] && sep !in c
    ensures LastPiece(a + [sep] + c, sep) == Some(c)
  {
    PiecesAround(a, sep, c);
    PiecesOfPiece(c, sep);
  }
}
