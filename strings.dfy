/** The handful of Python `str` operations that the reply formatter relies on,
    restricted to ASCII: `upper()`, `strip()`, `startswith`, `endswith`, the
    substring test `in`, `split('\n')` and `'\n'.join(...)`. */
module Strings {

  /** An ASCII lower-case letter. */
  predicate IsLower(c: char) {
    'a' <= c <= 'z'
  }

  /** `c.upper()` for an ASCII character; every other character is unchanged. */
  function UpperChar(c: char): (u: char)
    ensures !IsLower(u)
    ensures IsLower(c) ==> u as int == c as int - 32
    ensures !IsLower(c) ==> u == c
  {
    if IsLower(c) then (c as int - 32) as char else c
  }

  /** `s.upper()` */
  function Upper(s: string): string {
    seq(|s|, i requires 0 <= i < |s| => UpperChar(s[i]))
  }

  /** The ASCII characters that Python's `str.isspace()` accepts:
      tab, line feed, vertical tab, form feed, carriage return,
      the four information separators and the space. */
  predicate IsSpace(c: char) {
    (9 <= c as int <= 13) || (28 <= c as int <= 32)
  }

  /** `s.lstrip()` */
  function TrimLeft(s: string): string {
    if s != [] && IsSpace(s[0]) then TrimLeft(s[1..]) else s
  }

  /** `s.rstrip()` */
  function TrimRight(s: string): string {
    if s != [] && IsSpace(s[|s| - 1]) then TrimRight(s[..|s| - 1]) else s
  }

  /** `lstrip` leaves the suffix that follows the leading whitespace. */
  lemma {:induction false} TrimLeftSpec(s: string)
    ensures |TrimLeft(s)| <= |s| && TrimLeft(s) == s[|s| - |TrimLeft(s)|..]
    ensures forall i :: 0 <= i < |s| - |TrimLeft(s)| ==> IsSpace(s[i])
    ensures TrimLeft(s) == [] || !IsSpace(TrimLeft(s)[0])
  {
    if s != [] && IsSpace(s[0]) {
      TrimLeftSpec(s[1..]);
      assert forall i :: 1 <= i < |s| ==> s[i] == s[1..][i - 1];
    }
  }

  /** `rstrip` leaves the prefix that precedes the trailing whitespace. */
  lemma {:induction false} TrimRightSpec(s: string)
    ensures |TrimRight(s)| <= |s| && TrimRight(s) == s[..|TrimRight(s)|]
    ensures forall i :: |TrimRight(s)| <= i < |s| ==> IsSpace(s[i])
    ensures TrimRight(s) == [] || !IsSpace(TrimRight(s)[|TrimRight(s)| - 1])
  {
    if s != [] && IsSpace(s[|s| - 1]) {
      TrimRightSpec(s[..|s| - 1]);
    }
  }

  /** `s.strip()` */
  function Strip(s: string): string {
    TrimRight(TrimLeft(s))
  }

  /** `strip` leaves text that neither starts nor ends with whitespace alone. */
  lemma StripUnpadded(s: string)
    requires s == [] || (!IsSpace(s[0]) && !IsSpace(s[|s| - 1]))
    ensures Strip(s) == s
  {
  }

  /** `r` is the slice of `s` starting at `a`, and all of `s` outside it is whitespace. */
  predicate SliceBetweenSpaces(s: string, a: int, r: string) {
    0 <= a <= |s| - |r| && r == s[a..a + |r|]
    && (forall i :: 0 <= i < a ==> IsSpace(s[i]))
    && (forall i :: a + |r| <= i < |s| ==> IsSpace(s[i]))
  }

  /** `strip` leaves the longest slice that neither starts nor ends with
      whitespace; everything cut off on either side is whitespace, and the
      result is empty exactly for an all-whitespace line. */
  lemma StripSpec(s: string)
    ensures Strip(s) == [] <==> forall i :: 0 <= i < |s| ==> IsSpace(s[i])
    ensures Strip(s) != [] ==> !IsSpace(Strip(s)[0]) && !IsSpace(Strip(s)[|Strip(s)| - 1])
    ensures exists a :: SliceBetweenSpaces(s, a, Strip(s))
  {
    var l := TrimLeft(s);
    var r := TrimRight(l);
    TrimLeftSpec(s);
    TrimRightSpec(l);
    var a := |s| - |l|;
    assert r != [] ==> r[0] == l[0];
    assert r == s[a..a + |r|];
    assert forall i :: a + |r| <= i < |s| ==> s[i] == l[i - a];
    assert SliceBetweenSpaces(s, a, r);
  }

  /** `s.startswith(p)` */
  predicate StartsWith(s: string, p: string) {
    |p| <= |s| && s[..|p|] == p
  }

  /** `s.endswith(p)` */
  predicate EndsWith(s: string, p: string) {
    |p| <= |s| && s[|s| - |p|..] == p
  }

  /** `sub` occurs in `s` at position `i`. */
  predicate OccursAt(s: string, sub: string, i: int) {
    0 <= i <= |s| - |sub| && s[i..i + |sub|] == sub
  }

  /** `sub in s`: `sub` occurs somewhere in `s` (so `"" in s` always holds). */
  predicate Contains(s: string, sub: string) {
    exists i :: 0 <= i <= |s| - |sub| && OccursAt(s, sub, i)
  }

  /** `any(k in s for k in keywords)` */
  predicate ContainsAny(s: string, keywords: seq<string>) {
    exists i :: 0 <= i < |keywords| && Contains(s, keywords[i])
  }

  /** Splitting a keyword list in two splits the test in two. */
  lemma ContainsAnyAppend(s: string, a: seq<string>, b: seq<string>)
    ensures ContainsAny(s, a + b) <==> ContainsAny(s, a) || ContainsAny(s, b)
  {
    if ContainsAny(s, a + b) {
      var i :| 0 <= i < |a + b| && Contains(s, (a + b)[i]);
      if i >= |a| {
        assert b[i - |a|] == (a + b)[i];
      }
    }
    if ContainsAny(s, a) {
      var i :| 0 <= i < |a| && Contains(s, a[i]);
      assert (a + b)[i] == a[i];
    }
    if ContainsAny(s, b) {
      var i :| 0 <= i < |b| && Contains(s, b[i]);
      assert (a + b)[|a| + i] == b[i];
    }
  }

  /** The substring relation is transitive. */
  lemma ContainsTransitive(s: string, mid: string, sub: string)
    requires Contains(s, mid) && Contains(mid, sub)
    ensures Contains(s, sub)
  {
    var i :| 0 <= i <= |s| - |mid| && OccursAt(s, mid, i);
    var j :| 0 <= j <= |mid| - |sub| && OccursAt(mid, sub, j);
    forall k | 0 <= k < |sub|
      ensures s[i + j..i + j + |sub|][k] == sub[k]
    {
      assert mid[j..j + |sub|][k] == sub[k];
      assert s[i..i + |mid|][j + k] == mid[j + k];
    }
    assert OccursAt(s, sub, i + j);
  }

  /** Every character of a substring occurs in the string. */
  lemma ContainsChar(s: string, sub: string, j: nat)
    requires Contains(s, sub) && j < |sub|
    ensures sub[j] in s
  {
    var i :| 0 <= i <= |s| - |sub| && OccursAt(s, sub, i);
    assert s[i + j] == sub[j];
  }

  /** No ASCII lower-case letter occurs in `t`. */
  predicate NoLower(t: string) {
    forall i :: 0 <= i < |t| ==> !IsLower(t[i])
  }

  lemma UpperNoLower(s: string)
    ensures NoLower(Upper(s))
  {
  }

  /** Stripping keeps only characters that were there. */
  lemma StripNoLower(t: string)
    requires NoLower(t)
    ensures NoLower(Strip(t))
  {
    StripSpec(t);
    var a :| SliceBetweenSpaces(t, a, Strip(t));
    assert forall i :: 0 <= i < |Strip(t)| ==> Strip(t)[i] == t[a + i];
  }

  /** A text without lower-case letters contains no substring that has one. */
  lemma NoLowerNeverContains(t: string, sub: string, j: nat)
    requires NoLower(t)
    requires j < |sub| && IsLower(sub[j])
    ensures !Contains(t, sub)
  {
    if Contains(t, sub) {
      ContainsChar(t, sub, j);
      assert false;
    }
  }

  /** A substring none of whose characters at `j` occurs in `s` is absent. */
  lemma AbsentChar(s: string, sub: string, j: nat)
    requires j < |sub| && sub[j] !in s
    ensures !Contains(s, sub)
  {
    if Contains(s, sub) {
      ContainsChar(s, sub, j);
      assert false;
    }
  }

  /** A substring with two neighbouring characters that are never neighbours
      in `s` is absent. */
  lemma AbsentPair(s: string, sub: string, j: nat)
    requires j + 1 < |sub|
    requires forall i :: 0 <= i < |s| - 1 ==> !(s[i] == sub[j] && s[i + 1] == sub[j + 1])
    ensures !Contains(s, sub)
  {
    forall i | 0 <= i <= |s| - |sub|
      ensures !OccursAt(s, sub, i)
    {
      assert s[i..i + |sub|][j] == s[i + j];
      assert s[i..i + |sub|][j + 1] == s[i + j + 1];
    }
  }

  /** A substring that contains an absent one is absent. */
  lemma AbsentVia(s: string, sub: string, part: string)
    requires Contains(sub, part) && !Contains(s, part)
    ensures !Contains(s, sub)
  {
    if Contains(s, sub) {
      ContainsTransitive(s, sub, part);
      assert false;
    }
  }

  /** A substring of either part is a substring of the concatenation. */
  lemma ContainsInAppend(a: string, b: string, sub: string)
    requires Contains(a, sub) || Contains(b, sub)
    ensures Contains(a + b, sub)
  {
    if Contains(a, sub) {
      var i :| 0 <= i <= |a| - |sub| && OccursAt(a, sub, i);
      assert (a + b)[i..i + |sub|] == a[i..i + |sub|];
      assert OccursAt(a + b, sub, i);
    } else {
      var i :| 0 <= i <= |b| - |sub| && OccursAt(b, sub, i);
      assert (a + b)[|a| + i..|a| + i + |sub|] == b[i..i + |sub|];
      assert OccursAt(a + b, sub, |a| + i);
    }
  }

  /** Upper-casing a concatenation upper-cases each part. */
  lemma UpperAppend(a: string, b: string)
    ensures Upper(a + b) == Upper(a) + Upper(b)
  {
  }

  /** A substring of the upper-cased form of one line is a substring of the
      upper-cased join. */
  lemma {:induction false} ContainsUpperJoin(lines: seq<string>, k: nat, sub: string)
    requires k < |lines| && Contains(Upper(lines[k]), sub)
    ensures Contains(Upper(Join(lines)), sub)
    decreases |lines|
  {
    if |lines| > 1 {
      var rest := Join(lines[1..]);
      assert Join(lines) == lines[0] + ("\n" + rest);
      UpperAppend(lines[0], "\n" + rest);
      UpperAppend("\n", rest);
      if k == 0 {
        ContainsInAppend(Upper(lines[0]), Upper("\n" + rest), sub);
      } else {
        assert lines[1..][k - 1] == lines[k];
        ContainsUpperJoin(lines[1..], k - 1, sub);
        ContainsInAppend(Upper("\n"), Upper(rest), sub);
        ContainsInAppend(Upper(lines[0]), Upper("\n" + rest), sub);
      }
    }
  }

  /** `s.split('\n')`: the pieces between line feeds; never empty. */
  function Split(s: string): (r: seq<string>)
    ensures |r| >= 1
  {
    if s == [] then [""]
    else
      var rest := Split(s[1..]);
      if s[0] == '\n' then [""] + rest else [[s[0]] + rest[0]] + rest[1..]
  }

  /** No piece of a split holds a line feed. */
  lemma {:induction false} SplitNoLineFeed(s: string)
    ensures forall i :: 0 <= i < |Split(s)| ==> '\n' !in Split(s)[i]
  {
    if s != [] {
      SplitNoLineFeed(s[1..]);
    }
  }

  /** `'\n'.join(lines)` */
  function Join(lines: seq<string>): string {
    if |lines| == 0 then ""
    else if |lines| == 1 then lines[0]
    else lines[0] + "\n" + Join(lines[1..])
  }

  /** Joining the pieces of a split gives back the original text. */
  lemma {:induction false} JoinSplit(s: string)
    ensures Join(Split(s)) == s
  {
    if s != [] {
      var rest := Split(s[1..]);
      JoinSplit(s[1..]);
      if s[0] == '\n' {
        assert Split(s)[1..] == rest;
      } else if |rest| > 1 {
        assert Split(s)[1..] == rest[1..];
        assert Join(rest) == rest[0] + "\n" + Join(rest[1..]);
      }
    }
  }

  lemma {:induction false} SplitPrefix(x: string, y: string)
    requires '\n' !in x
    ensures Split(x + y) == [x + Split(y)[0]] + Split(y)[1..]
  {
    if x != [] {
      assert (x + y)[1..] == x[1..] + y;
      SplitPrefix(x[1..], y);
      assert [x[0]] + (x[1..] + Split(y)[0]) == x + Split(y)[0];
    } else {
      assert x + y == y;
      assert x + Split(y)[0] == Split(y)[0];
      assert Split(y) == [Split(y)[0]] + Split(y)[1..];
    }
  }

  /** Splitting a join of line-feed-free pieces gives back the pieces. */
  lemma {:induction false} SplitJoin(lines: seq<string>)
    requires |lines| >= 1
    requires forall i :: 0 <= i < |lines| ==> '\n' !in lines[i]
    ensures Split(Join(lines)) == lines
  {
    if |lines| == 1 {
      SplitPrefix(lines[0], "");
      assert lines[0] + "" == lines[0];
    } else {
      SplitJoin(lines[1..]);
      var tail := "\n" + Join(lines[1..]);
      assert lines[0] + "\n" + Join(lines[1..]) == lines[0] + tail;
      SplitPrefix(lines[0], tail);
      assert Split(tail) == [""] + lines[1..];
      assert lines[0] + "" == lines[0];
    }
  }
}
