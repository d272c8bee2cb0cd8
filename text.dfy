/** The Python string operations the extraction rules are written with: `isspace`, `strip`,
    `split()`, `split("\n")`, `"sep".join`, `lower`, `startswith` and the `in` substring test. */
module Text {
  import opened Wrappers

  /** Python's `str.isspace()` for one character: what `split()` and `strip()` without an
      argument treat as whitespace. */
  predicate IsSpace(c: char) {
    var n := c as int;
    (0x09 <= n <= 0x0d) || (0x1c <= n <= 0x20) || n == 0x85 || n == 0xa0 || n == 0x1680
    || (0x2000 <= n <= 0x200a) || n == 0x2028 || n == 0x2029 || n == 0x202f || n == 0x205f
    || n == 0x3000
  }

  /** `s.lstrip()`. */
  function StripLeft(s: string): (r: string)
    ensures |r| <= |s| && r == s[|s| - |r|..]
    ensures r == [] || !IsSpace(r[0])
    ensures forall i :: 0 <= i < |s| - |r| ==> IsSpace(s[i])
    decreases |s|
  {
    if s != [] && IsSpace(s[0]) then StripLeft(s[1..]) else s
  }

  /** `s.rstrip()`. */
  function StripRight(s: string): (r: string)
    ensures |r| <= |s| && r == s[..|r|]
    ensures r == [] || !IsSpace(r[|r| - 1])
    ensures forall i :: |r| <= i < |s| ==> IsSpace(s[i])
    decreases |s|
  {
    if s != [] && IsSpace(s[|s| - 1]) then StripRight(s[..|s| - 1]) else s
  }

  /** `r` is `s` with whitespace before position `i` and after `i + |r|` removed. */
  ghost predicate StrippedFrom(s: string, r: string, i: int) {
    0 <= i && i + |r| <= |s| && s[i..i + |r|] == r
    && (forall k :: 0 <= k < i ==> IsSpace(s[k]))
    && (forall k :: i + |r| <= k < |s| ==> IsSpace(s[k]))
  }

  /** Neither end is whitespace: what `strip()` leaves. */
  predicate IsStripped(s: string) {
    s == [] || (!IsSpace(s[0]) && !IsSpace(s[|s| - 1]))
  }

  /** `s.strip()`. */
  function Strip(s: string): (r: string)
    ensures IsStripped(r)
  {
    StripRight(StripLeft(s))
  }

  /** `strip()` keeps the slice of `s` between its leading and its trailing whitespace. */
  lemma StripSlice(s: string) returns (i: nat)
    ensures StrippedFrom(s, Strip(s), i)
  {
    var l := StripLeft(s);
    var r := StripRight(l);
    i := |s| - |l|;
    InnerSlice(s, i, l, r);
    TrailingSpaces(s, i, l, r);
  }

  lemma InnerSlice(s: string, i: nat, l: string, r: string)
    requires i <= |s| && l == s[i..] && |r| <= |l| && r == l[..|r|]
    ensures i + |r| <= |s| && s[i..i + |r|] == r
  {
    assert s[i..][..|r|] == s[i..i + |r|];
  }

  lemma TrailingSpaces(s: string, i: nat, l: string, r: string)
    requires i <= |s| && l == s[i..] && r == StripRight(l)
    ensures forall k :: i + |r| <= k < |s| ==> IsSpace(s[k])
  {
    forall k | i + |r| <= k < |s|
      ensures IsSpace(s[k])
    {
      assert s[k] == l[k - i];
    }
  }

  /** `strip()` changes a string exactly when one of its ends is whitespace. */
  lemma StripIdentity(s: string)
    ensures Strip(s) == s <==> IsStripped(s)
  {
  }

  /** `s.strip()` is empty, that is falsy, exactly when `s` is all whitespace. */
  lemma StripEmpty(s: string)
    ensures Strip(s) == [] <==> forall k :: 0 <= k < |s| ==> IsSpace(s[k])
  {
    var i := StripSlice(s);
    if Strip(s) != [] {
      assert s[i] == Strip(s)[0];
    }
  }

  /** Number of leading characters of `s` that are not whitespace. */
  function WordEnd(s: string): (n: nat)
    ensures n <= |s|
    ensures forall k :: 0 <= k < n ==> !IsSpace(s[k])
    ensures n == |s| || IsSpace(s[n])
    decreases |s|
  {
    if s == [] || IsSpace(s[0]) then 0 else 1 + WordEnd(s[1..])
  }

  /** `s.split()`: the maximal runs of non-whitespace characters, in order. */
  function SplitWords(s: string): (words: seq<string>)
    ensures forall w :: w in words ==> w != [] && forall c :: c in w ==> !IsSpace(c)
    decreases |s|
  {
    var t := StripLeft(s);
    if t == [] then []
    else
      var n := WordEnd(t);
      [t[..n]] + SplitWords(t[n..])
  }

  /** `len(s.split())`. */
  function WordCount(s: string): nat {
    |SplitWords(s)|
  }

  /** Position of the first `c` in `s`, or `|s|` when there is none. */
  function FindChar(s: string, c: char): (i: nat)
    ensures i <= |s|
    ensures i < |s| ==> s[i] == c
    ensures forall j :: 0 <= j < i ==> s[j] != c
    decreases |s|
  {
    if s == [] then 0 else if s[0] == c then 0 else 1 + FindChar(s[1..], c)
  }

  /** `s.split("\n")`: never empty, and no piece holds a newline. */
  function SplitLines(s: string): (lines: seq<string>)
    ensures |lines| >= 1
    ensures forall k :: 0 <= k < |lines| ==> '\n' !in lines[k]
    decreases |s|
  {
    var i := FindChar(s, '\n');
    if i == |s| then [s] else [s[..i]] + SplitLines(s[i + 1..])
  }

  /** `sep.join(parts)`. */
  function Join(sep: string, parts: seq<string>): string
    decreases |parts|
  {
    if parts == [] then ""
    else if |parts| == 1 then parts[0]
    else parts[0] + sep + Join(sep, parts[1..])
  }

  /** Joining the lines of a text with newlines gives the text back. */
  lemma {:induction false} JoinSplitLines(s: string)
    ensures Join("\n", SplitLines(s)) == s
    decreases |s|
  {
    var i := FindChar(s, '\n');
    if i < |s| {
      var rest := SplitLines(s[i + 1..]);
      var lines := SplitLines(s);
      assert lines == [s[..i]] + rest;
      assert lines[0] == s[..i] && lines[1..] == rest;
      JoinCons("\n", lines);
      JoinSplitLines(s[i + 1..]);
      assert s == s[..i] + "\n" + s[i + 1..];
    }
  }

  /** A join of two or more parts is the first part, the separator, and the join of the rest. */
  lemma JoinCons(sep: string, parts: seq<string>)
    requires |parts| >= 2
    ensures Join(sep, parts) == parts[0] + sep + Join(sep, parts[1..])
  {
  }

  /** The split of a text whose first newline is at `i`. */
  lemma SplitLinesAt(s: string, i: nat)
    requires i < |s| && s[i] == '\n' && '\n' !in s[..i]
    ensures SplitLines(s) == [s[..i]] + SplitLines(s[i + 1..])
  {
    forall j | 0 <= j < i
      ensures s[j] != '\n'
    {
      assert s[j] == s[..i][j];
    }
    FindCharAt(s, '\n', i);
  }

  /** Splitting newline-joined lines that hold no newline gives the lines back. */
  lemma {:induction false} SplitLinesJoin(lines: seq<string>)
    requires |lines| >= 1
    requires forall k :: 0 <= k < |lines| ==> '\n' !in lines[k]
    ensures SplitLines(Join("\n", lines)) == lines
    decreases |lines|
  {
    if |lines| == 1 {
      assert FindChar(lines[0], '\n') == |lines[0]|;
    } else {
      var s := Join("\n", lines);
      var rest := Join("\n", lines[1..]);
      var i := |lines[0]|;
      JoinCons("\n", lines);
      assert s[..i] == lines[0];
      assert s[i] == '\n';
      assert s[i + 1..] == rest;
      SplitLinesAt(s, i);
      SplitLinesJoin(lines[1..]);
      assert [lines[0]] + lines[1..] == lines;
    }
  }

  /** `FindChar` returns a position that holds `c` and has no `c` before it. */
  lemma {:induction false} FindCharAt(s: string, c: char, i: nat)
    requires i < |s| && s[i] == c && forall j :: 0 <= j < i ==> s[j] != c
    ensures FindChar(s, c) == i
    decreases i
  {
    if i > 0 {
      FindCharAt(s[1..], c, i - 1);
    }
  }

  /** An occurrence in `t` is an occurrence, further right, in `u + t`. */
  lemma OccursAfter(u: string, t: string, sub: string, o: nat)
    requires OccursAt(t, sub, o)
    ensures OccursAt(u + t, sub, |u| + o)
  {
    assert (u + t)[|u| + o..|u| + o + |sub|] == t[o..o + |sub|];
  }

  /** Joining the first `b` parts gives a prefix of joining them all. */
  lemma {:induction false} JoinPrefix(sep: string, parts: seq<string>, b: nat)
    requires 1 <= b <= |parts|
    ensures OccursAt(Join(sep, parts), Join(sep, parts[..b]), 0)
    decreases b
  {
    var whole := Join(sep, parts);
    if b == 1 {
      assert parts[..1] == [parts[0]];
      assert whole[..|parts[0]|] == parts[0];
    } else {
      JoinPrefix(sep, parts[1..], b - 1);
      assert parts[..b][1..] == parts[1..][..b - 1];
      var head := parts[0] + sep;
      assert whole == head + Join(sep, parts[1..]);
      assert Join(sep, parts[..b]) == head + Join(sep, parts[1..][..b - 1]);
      var tail := Join(sep, parts[1..][..b - 1]);
      assert Join(sep, parts[1..])[..|tail|] == tail;
      assert whole[..|head| + |tail|] == head + tail;
    }
  }

  /** Joining a run of consecutive parts gives a piece of joining them all. */
  lemma {:induction false} JoinSliceOccurs(sep: string, parts: seq<string>, a: nat, b: nat) returns (o: nat)
    requires a < b <= |parts|
    ensures OccursAt(Join(sep, parts), Join(sep, parts[a..b]), o)
    decreases a
  {
    if a == 0 {
      JoinPrefix(sep, parts, b);
      assert parts[0..b] == parts[..b];
      o := 0;
    } else {
      var o' := JoinSliceOccurs(sep, parts[1..], a - 1, b - 1);
      forall j | 0 <= j < b - a
        ensures parts[1..][a - 1..b - 1][j] == parts[a..b][j]
      {
        assert parts[1..][a - 1..b - 1][j] == parts[a + j];
      }
      assert parts[1..][a - 1..b - 1] == parts[a..b];
      var head := parts[0] + sep;
      assert Join(sep, parts) == head + Join(sep, parts[1..]);
      OccursAfter(head, Join(sep, parts[1..]), Join(sep, parts[a..b]), o');
      o := |head| + o';
    }
  }

  /** `s[i:i+len(sub)] == sub`. */
  predicate OccursAt(s: string, sub: string, i: nat) {
    i + |sub| <= |s| && s[i..i + |sub|] == sub
  }

  /** `s.find(sub, i)`: the first position at or after `i` where `sub` occurs. */
  function FindFrom(s: string, sub: string, i: nat): (r: Option<nat>)
    ensures r.Some? ==> i <= r.value && OccursAt(s, sub, r.value)
    ensures r.Some? ==> forall j :: i <= j < r.value ==> !OccursAt(s, sub, j)
    ensures r.None? ==> forall j :: i <= j ==> !OccursAt(s, sub, j)
    decreases |s| - i
  {
    if i + |sub| > |s| then None
    else if OccursAt(s, sub, i) then Some(i)
    else FindFrom(s, sub, i + 1)
  }

  /** `sub in s`. */
  predicate Contains(s: string, sub: string) {
    FindFrom(s, sub, 0).Some?
  }

  /** `any(t in s for t in terms)`. */
  predicate ContainsAny(s: string, terms: seq<string>) {
    exists t :: t in terms && Contains(s, t)
  }

  /** `s.startswith(prefix)`. */
  predicate StartsWith(s: string, prefix: string) {
    |prefix| <= |s| && s[..|prefix|] == prefix
  }

  /** An occurrence inside a slice is an occurrence in the whole string. */
  lemma OccursInSlice(s: string, a: nat, b: nat, sub: string, j: nat)
    requires a <= b <= |s| && OccursAt(s[a..b], sub, j)
    ensures OccursAt(s, sub, a + j)
  {
    var inner := s[a..b][j..j + |sub|];
    var outer := s[a + j..a + j + |sub|];
    forall k | 0 <= k < |sub|
      ensures inner[k] == outer[k]
    {
    }
    assert inner == outer;
  }

  /** A slice of a string that does not contain `sub` does not contain it either. */
  lemma NotContainsSlice(s: string, a: nat, b: nat, sub: string)
    requires a <= b <= |s| && !Contains(s, sub)
    ensures !Contains(s[a..b], sub)
  {
    if Contains(s[a..b], sub) {
      var j := FindFrom(s[a..b], sub, 0).value;
      OccursInSlice(s, a, b, sub, j);
      assert false;
    }
  }

  /** Python's `str.lower()` restricted to ASCII letters. */
  function LowerChar(c: char): char {
    if 'A' <= c <= 'Z' then (c as int - 'A' as int + 'a' as int) as char else c
  }

  /** `s.lower()`, character by character. */
  function Lower(s: string): string {
    seq(|s|, i requires 0 <= i < |s| => LowerChar(s[i]))
  }
}
