/**
 * String operations the servers rely on: first-occurrence search and
 * replacement (JavaScript's `String.prototype.indexOf` / `replace` with a
 * string pattern), the `$`-patterns `replace` interprets in its replacement
 * argument, splitting on a separator, and the character classes of the
 * regular expressions the router uses.
 */
module Text {
  import opened Wrappers

  /** `[A-Z]` */
  predicate IsUpper(c: char) { 'A' <= c <= 'Z' }

  /** `\w`: ASCII letters, digits and underscore. */
  predicate IsWordChar(c: char) {
    IsUpper(c) || 'a' <= c <= 'z' || '0' <= c <= '9' || c == '_'
  }

  /** The characters `.` in a JavaScript regular expression does not match. */
  predicate IsLineTerminator(c: char) {
    c == '\n' || c == '\r' || c == '\U{2028}' || c == '\U{2029}'
  }

  predicate StartsWith(s: string, prefix: string) {
    |prefix| <= |s| && s[..|prefix|] == prefix
  }

  predicate EndsWith(s: string, suffix: string) {
    |suffix| <= |s| && s[|s| - |suffix|..] == suffix
  }

  /** `m` occurs in `s` starting at index `i`. */
  predicate OccursAt(s: string, m: string, i: nat) {
    i + |m| <= |s| && s[i..i + |m|] == m
  }

  /** `i` is where the first occurrence of `m` in `s` starts. */
  ghost predicate FirstOccurrence(s: string, m: string, i: nat) {
    OccursAt(s, m, i) && forall j: nat :: j < i ==> !OccursAt(s, m, j)
  }

  ghost predicate Absent(s: string, m: string) {
    forall j: nat :: !OccursAt(s, m, j)
  }

  lemma FirstOccurrenceUnique(s: string, m: string, i: nat, k: nat)
    requires FirstOccurrence(s, m, i) && FirstOccurrence(s, m, k)
    ensures i == k
  {
  }

  function IndexOfFrom(s: string, m: string, from: nat): (r: Option<nat>)
    requires from <= |s|
    decreases |s| - from
    ensures r.Some? ==> from <= r.value && OccursAt(s, m, r.value)
    ensures r.Some? ==> forall j: nat :: from <= j < r.value ==> !OccursAt(s, m, j)
    ensures r.None? ==> forall j: nat :: from <= j ==> !OccursAt(s, m, j)
  {
    if OccursAt(s, m, from) then Some(from)
    else if from + |m| >= |s| then None
    else IndexOfFrom(s, m, from + 1)
  }

  /** `s.indexOf(m)`, with `None` for -1. */
  function IndexOf(s: string, m: string): (r: Option<nat>)
    ensures r.Some? ==> FirstOccurrence(s, m, r.value)
    ensures r.None? <==> Absent(s, m)
  {
    IndexOfFrom(s, m, 0)
  }

  /** Replace the first occurrence of `m` in `s` by `r`, taking `r` literally. */
  function ReplaceFirst(s: string, m: string, r: string): (out: string)
    ensures Absent(s, m) ==> out == s
    ensures forall i: nat :: FirstOccurrence(s, m, i) ==> out == s[..i] + r + s[i + |m|..]
  {
    match IndexOf(s, m)
    case None => s
    case Some(i) =>
      assert forall k: nat :: FirstOccurrence(s, m, k) ==> k == i by {
        forall k: nat | FirstOccurrence(s, m, k) ensures k == i {
          FirstOccurrenceUnique(s, m, i, k);
        }
      }
      s[..i] + r + s[i + |m|..]
  }

  /** In `pre + m + post`, no occurrence of `m` starts inside `pre`. */
  ghost predicate FirstAfter(pre: string, m: string, post: string) {
    forall j: nat :: j < |pre| ==> !OccursAt(pre + m + post, m, j)
  }

  /** Replacing the marker that first occurs right after `pre` splices `r` in its place. */
  lemma ReplaceFirstSplice(pre: string, m: string, post: string, r: string)
    requires FirstAfter(pre, m, post)
    ensures ReplaceFirst(pre + m + post, m, r) == pre + r + post
  {
    var s := pre + m + post;
    assert s[|pre|..|pre| + |m|] == m;
    assert FirstOccurrence(s, m, |pre|);
    assert s[..|pre|] == pre;
    assert s[|pre| + |m|..] == post;
  }

  /**
   * Three replacements in a row on `a m1 b m2 c m3 d` splice `r1`, `r2`, `r3`
   * in, provided each marker first occurs where expected at the moment it is
   * replaced.
   */
  lemma ReplaceThreeSplice(a: string, m1: string, b: string, m2: string, c: string, m3: string, d: string,
                           r1: string, r2: string, r3: string)
    requires FirstAfter(a, m1, b + m2 + c + m3 + d)
    requires FirstAfter(a + r1 + b, m2, c + m3 + d)
    requires FirstAfter(a + r1 + b + r2 + c, m3, d)
    ensures ReplaceFirst(ReplaceFirst(ReplaceFirst(a + m1 + b + m2 + c + m3 + d, m1, r1), m2, r2), m3, r3)
      == a + r1 + b + r2 + c + r3 + d
  {
    SpliceFirstOfThree(a, m1, b, m2, c, m3, d, r1);
    SpliceSecondOfThree(a + r1 + b, m2, c, m3, d, r2);
    ReplaceFirstSplice(a + r1 + b + r2 + c, m3, d, r3);
  }

  lemma SpliceFirstOfThree(a: string, m1: string, b: string, m2: string, c: string, m3: string, d: string, r1: string)
    requires FirstAfter(a, m1, b + m2 + c + m3 + d)
    ensures ReplaceFirst(a + m1 + b + m2 + c + m3 + d, m1, r1) == (a + r1 + b) + m2 + (c + m3 + d)
  {
    RegroupAfterTwo(a, m1, b, m2, c, m3, d);
    ReplaceFirstSplice(a, m1, b + m2 + c + m3 + d, r1);
    RegroupAfterTwo(a, r1, b, m2, c, m3, d);
    RegroupAroundFourth(a, r1, b, m2, c, m3, d);
  }

  lemma SpliceSecondOfThree(p: string, m2: string, c: string, m3: string, d: string, r2: string)
    requires FirstAfter(p, m2, c + m3 + d)
    ensures ReplaceFirst(p + m2 + (c + m3 + d), m2, r2) == (p + r2 + c) + m3 + d
  {
    ReplaceFirstSplice(p, m2, c + m3 + d, r2);
    Regroup(p + r2, c, m3, d);
  }

  /** Concatenation is associative. */
  lemma Associative(x: string, y: string, z: string)
    ensures x + y + z == x + (y + z)
  {
  }

  lemma Regroup(x: string, c: string, m: string, d: string)
    ensures x + (c + m + d) == x + c + m + d
  {
    Associative(x, c + m, d);
    Associative(x, c, m);
  }

  lemma RegroupAfterTwo(a: string, m1: string, b: string, m2: string, c: string, m3: string, d: string)
    ensures a + m1 + b + m2 + c + m3 + d == a + m1 + (b + m2 + c + m3 + d)
  {
    var x := a + m1;
    Associative(x, b, m2);
    Associative(x, b + m2, c);
    Associative(x, b + m2 + c, m3);
    Associative(x, b + m2 + c + m3, d);
  }

  lemma RegroupAroundFourth(a: string, r1: string, b: string, m2: string, c: string, m3: string, d: string)
    ensures a + r1 + b + m2 + c + m3 + d == (a + r1 + b) + m2 + (c + m3 + d)
  {
    Regroup(a + r1 + b + m2, c, m3, d);
  }

  /**
   * The value a JavaScript `replace` with a string pattern inserts for the
   * replacement template `t` (GetSubstitution, ECMAScript section 22.1.3.19.1,
   * with no capture groups): `$$` is a dollar sign, `$&` the matched text,
   * `` $` `` the text before the match, `$'` the text after it; every other
   * character, including a `$` that starts no such pair, stands for itself.
   */
  function ExpandReplacement(t: string, matched: string, before: string, after: string): string
  {
    if |t| >= 2 && t[0] == '$' && t[1] == '$' then "$" + ExpandReplacement(t[2..], matched, before, after)
    else if |t| >= 2 && t[0] == '$' && t[1] == '&' then matched + ExpandReplacement(t[2..], matched, before, after)
    else if |t| >= 2 && t[0] == '$' && t[1] == '`' then before + ExpandReplacement(t[2..], matched, before, after)
    else if |t| >= 2 && t[0] == '$' && t[1] == '\'' then after + ExpandReplacement(t[2..], matched, before, after)
    else if |t| >= 1 then [t[0]] + ExpandReplacement(t[1..], matched, before, after)
    else ""
  }

  lemma {:induction false} ExpandWithoutDollar(t: string, matched: string, before: string, after: string)
    requires '$' !in t
    ensures ExpandReplacement(t, matched, before, after) == t
  {
    if |t| >= 1 {
      assert t == [t[0]] + t[1..];
      ExpandWithoutDollar(t[1..], matched, before, after);
    }
  }

  /** `s.replace(m, t)` as JavaScript evaluates it when `m` is a string. */
  function JsReplaceFirst(s: string, m: string, t: string): string
  {
    match IndexOf(s, m)
    case None => s
    case Some(i) => s[..i] + ExpandReplacement(t, m, s[..i], s[i + |m|..]) + s[i + |m|..]
  }

  /** Without a `$` in the replacement, JavaScript's `replace` is the literal replacement. */
  lemma JsReplaceFirstIsLiteral(s: string, m: string, t: string)
    requires '$' !in t
    ensures JsReplaceFirst(s, m, t) == ReplaceFirst(s, m, t)
  {
    match IndexOf(s, m)
    case None =>
    case Some(i) =>
      var before, after := s[..i], s[i + |m|..];
      ExpandWithoutDollar(t, m, before, after);
      assert JsReplaceFirst(s, m, t) == before + t + after;
      assert FirstOccurrence(s, m, i);
  }

  /** Index of the first `c` in `s`. */
  function CharIndex(s: string, c: char): (r: nat)
    requires c in s
    ensures r < |s| && s[r] == c && c !in s[..r]
  {
    if s[0] == c then 0
    else
      var k := CharIndex(s[1..], c);
      assert s[..k + 1] == [s[0]] + s[1..][..k];
      k + 1
  }

  /** `parts.join(sep)`. */
  function Join(parts: seq<string>, sep: char): string
  {
    if |parts| == 0 then ""
    else if |parts| == 1 then parts[0]
    else parts[0] + [sep] + Join(parts[1..], sep)
  }

  /** `s.split(sep)`: the pieces between separators, empty ones included. */
  function Split(s: string, sep: char): (parts: seq<string>)
    decreases |s|
    ensures |parts| >= 1
    ensures forall k :: 0 <= k < |parts| ==> sep !in parts[k]
    ensures Join(parts, sep) == s
  {
    if sep !in s then [s]
    else
      var i := CharIndex(s, sep);
      var rest := Split(s[i + 1..], sep);
      assert s == s[..i] + [sep] + s[i + 1..];
      assert ([s[..i]] + rest)[1..] == rest;
      [s[..i]] + rest
  }

  /** Splitting a join of separator-free parts gives the parts back. */
  lemma {:induction false} SplitJoin(parts: seq<string>, sep: char)
    requires |parts| >= 1
    requires forall k :: 0 <= k < |parts| ==> sep !in parts[k]
    ensures Split(Join(parts, sep), sep) == parts
  {
    if |parts| > 1 {
      var s := Join(parts, sep);
      var p0 := parts[0];
      assert s == p0 + [sep] + Join(parts[1..], sep);
      assert s[|p0|] == sep;
      assert sep in s;
      var i := CharIndex(s, sep);
      assert s[..i] == p0;
      assert s[i + 1..] == Join(parts[1..], sep);
      SplitJoin(parts[1..], sep);
      assert [p0] + parts[1..] == parts;
    }
  }
}
