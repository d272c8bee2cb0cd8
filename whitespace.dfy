/** The whitespace normalisation applied to a container's full text:
    `text.strip()`, then `re.sub(r'\n{3,}', '\n\n', ...)`, then `re.sub(r'[\t ]+', ' ', ...)`. */
module Whitespace {
  import opened Text

  /** Length of the leading run of `c` in `s`. */
  function RunOf(s: string, c: char): (n: nat)
    ensures n <= |s|
    ensures forall k :: 0 <= k < n ==> s[k] == c
    ensures n == |s| || s[n] != c
    decreases |s|
  {
    if s != [] && s[0] == c then 1 + RunOf(s[1..], c) else 0
  }

  /** `re.sub(r'\n{3,}', '\n\n', s)`: scanning left to right, every run of three or more
      newlines becomes exactly two; shorter runs stay as they are. */
  function CollapseNewlines(s: string): string
    decreases |s|
  {
    if s == [] then []
    else if s[0] != '\n' then [s[0]] + CollapseNewlines(s[1..])
    else
      var n := RunOf(s, '\n');
      (if n >= 3 then "\n\n" else s[..n]) + CollapseNewlines(s[n..])
  }

  /** The character class `[\t ]`. */
  predicate IsBlankChar(c: char) {
    c == ' ' || c == '\t'
  }

  /** Length of the leading run of spaces and tabs in `s`. */
  function BlankRun(s: string): (n: nat)
    ensures n <= |s|
    ensures forall k :: 0 <= k < n ==> IsBlankChar(s[k])
    ensures n == |s| || !IsBlankChar(s[n])
    decreases |s|
  {
    if s != [] && IsBlankChar(s[0]) then 1 + BlankRun(s[1..]) else 0
  }

  /** `re.sub(r'[\t ]+', ' ', s)`: every run of spaces and tabs becomes one space. */
  function CollapseBlanks(s: string): string
    decreases |s|
  {
    if s == [] then []
    else if !IsBlankChar(s[0]) then [s[0]] + CollapseBlanks(s[1..])
    else " " + CollapseBlanks(s[BlankRun(s)..])
  }

  /** The three steps in the order the scraper applies them. */
  function NormalizeText(s: string): string {
    CollapseBlanks(CollapseNewlines(Strip(s)))
  }

  /** Nowhere three newlines in a row. */
  predicate NoNewlineTriple(s: string)
    decreases |s|
  {
    |s| < 3 || (!(s[0] == '\n' && s[1] == '\n' && s[2] == '\n') && NoNewlineTriple(s[1..]))
  }

  /** No tab anywhere, and nowhere two spaces in a row. */
  predicate NoTabOrDoubleSpace(s: string)
    decreases |s|
  {
    s == [] || (s[0] != '\t' && !(|s| > 1 && s[0] == ' ' && s[1] == ' ') && NoTabOrDoubleSpace(s[1..]))
  }

  /** The characters of `s` that are not whitespace, in order. */
  function Ink(s: string): string
    decreases |s|
  {
    if s == [] then [] else (if IsSpace(s[0]) then [] else [s[0]]) + Ink(s[1..])
  }

  // ---------------------------------------------------------------- newline collapsing

  lemma {:induction false} NoTripleDrop(s: string, k: nat)
    requires k <= |s| && NoNewlineTriple(s)
    ensures NoNewlineTriple(s[k..])
    decreases k
  {
    if k > 0 {
      assert NoNewlineTriple(s[1..]);
      NoTripleDrop(s[1..], k - 1);
      assert s[1..][k - 1..] == s[k..];
    }
  }

  lemma {:induction false} NoTriplePrefix(s: string, n: nat)
    requires n <= |s| && NoNewlineTriple(s)
    ensures NoNewlineTriple(s[..n])
    decreases |s|
  {
    if n >= 3 {
      NoTriplePrefix(s[1..], n - 1);
      assert s[..n][1..] == s[1..][..n - 1];
    }
  }

  /** A piece of a text without three adjacent newlines has none either. */
  lemma NoTripleInfix(s: string, u: string, o: nat)
    requires OccursAt(s, u, o) && NoNewlineTriple(s)
    ensures NoNewlineTriple(u)
  {
    NoTripleDrop(s, o);
    NoTriplePrefix(s[o..], |u|);
    assert s[o..][..|u|] == u;
  }

  /** One or two newlines in front of a text that does not start with a newline. */
  lemma NoTripleAfterNewlines(p: string, r: string)
    requires |p| <= 2 && forall k :: 0 <= k < |p| ==> p[k] == '\n'
    requires NoNewlineTriple(r) && (r == [] || r[0] != '\n')
    ensures NoNewlineTriple(p + r)
  {
    if |p| == 1 {
      assert (p + r)[1..] == r;
    } else if |p| == 2 {
      assert (p + r)[1..] == [p[1]] + r;
      assert ([p[1]] + r)[1..] == r;
    } else {
      assert p + r == r;
    }
  }

  /** After the first substitution no three newlines are adjacent. */
  lemma {:induction false} CollapseNewlinesNoTriple(s: string)
    ensures NoNewlineTriple(CollapseNewlines(s))
    decreases |s|
  {
    if s != [] {
      if s[0] != '\n' {
        CollapseNewlinesNoTriple(s[1..]);
        assert ([s[0]] + CollapseNewlines(s[1..]))[1..] == CollapseNewlines(s[1..]);
      } else {
        var n := RunOf(s, '\n');
        CollapseNewlinesNoTriple(s[n..]);
        NoTripleAfterNewlines(if n >= 3 then "\n\n" else s[..n], CollapseNewlines(s[n..]));
      }
    }
  }

  /** The first substitution leaves a text without three adjacent newlines unchanged. */
  lemma {:induction false} CollapseNewlinesFixed(s: string)
    requires NoNewlineTriple(s)
    ensures CollapseNewlines(s) == s
    decreases |s|
  {
    if s != [] {
      if s[0] != '\n' {
        NoTripleDrop(s, 1);
        CollapseNewlinesFixed(s[1..]);
      } else {
        var n := RunOf(s, '\n');
        assert n <= 2;
        NoTripleDrop(s, n);
        CollapseNewlinesFixed(s[n..]);
        assert s == s[..n] + s[n..];
      }
    }
  }

  /** The first substitution keeps a last character that is not a newline. */
  lemma {:induction false} CollapseNewlinesLast(s: string)
    requires s != [] && s[|s| - 1] != '\n'
    ensures CollapseNewlines(s) != [] && CollapseNewlines(s)[|CollapseNewlines(s)| - 1] == s[|s| - 1]
    decreases |s|
  {
    if s[0] != '\n' {
      if |s| > 1 {
        CollapseNewlinesLast(s[1..]);
      }
    } else {
      var n := RunOf(s, '\n');
      CollapseNewlinesLast(s[n..]);
    }
  }

  // ---------------------------------------------------------------- blank collapsing

  /** After the second substitution there is no tab and no double space. */
  lemma {:induction false} CollapseBlanksClean(s: string)
    ensures NoTabOrDoubleSpace(CollapseBlanks(s))
    decreases |s|
  {
    if s != [] {
      if !IsBlankChar(s[0]) {
        CollapseBlanksClean(s[1..]);
        assert ([s[0]] + CollapseBlanks(s[1..]))[1..] == CollapseBlanks(s[1..]);
      } else {
        var n := BlankRun(s);
        CollapseBlanksClean(s[n..]);
        assert (" " + CollapseBlanks(s[n..]))[1..] == CollapseBlanks(s[n..]);
      }
    }
  }

  lemma {:induction false} CleanDrop(s: string, k: nat)
    requires k <= |s| && NoTabOrDoubleSpace(s)
    ensures NoTabOrDoubleSpace(s[k..])
    decreases k
  {
    if k > 0 {
      CleanDrop(s[1..], k - 1);
      assert s[1..][k - 1..] == s[k..];
    }
  }

  lemma {:induction false} CleanPrefix(s: string, n: nat)
    requires n <= |s| && NoTabOrDoubleSpace(s)
    ensures NoTabOrDoubleSpace(s[..n])
    decreases |s|
  {
    if n > 0 {
      CleanPrefix(s[1..], n - 1);
      assert s[..n][1..] == s[1..][..n - 1];
    }
  }

  /** A piece of a text without tabs or double spaces has none either. */
  lemma CleanInfix(s: string, u: string, o: nat)
    requires OccursAt(s, u, o) && NoTabOrDoubleSpace(s)
    ensures NoTabOrDoubleSpace(u)
  {
    CleanDrop(s, o);
    CleanPrefix(s[o..], |u|);
    assert s[o..][..|u|] == u;
  }

  /** The second substitution leaves a text without tabs or double spaces unchanged. */
  lemma {:induction false} CollapseBlanksFixed(s: string)
    requires NoTabOrDoubleSpace(s)
    ensures CollapseBlanks(s) == s
    decreases |s|
  {
    if s != [] {
      CollapseBlanksFixed(s[1..]);
      if IsBlankChar(s[0]) {
        assert BlankRun(s) == 1;
        assert s == " " + s[1..];
      }
    }
  }

  /** A leading newline of the second substitution's output comes from a leading newline. */
  lemma CollapseBlanksHead(u: string)
    requires CollapseBlanks(u) != [] && CollapseBlanks(u)[0] == '\n'
    ensures u != [] && u[0] == '\n' && CollapseBlanks(u) == "\n" + CollapseBlanks(u[1..])
  {
  }

  /** The second substitution never creates three adjacent newlines. */
  lemma {:induction false} CollapseBlanksNoTriple(s: string)
    requires NoNewlineTriple(s)
    ensures NoNewlineTriple(CollapseBlanks(s))
    decreases |s|
  {
    if s != [] {
      var r := CollapseBlanks(s);
      if !IsBlankChar(s[0]) {
        NoTripleDrop(s, 1);
        CollapseBlanksNoTriple(s[1..]);
        var r1 := CollapseBlanks(s[1..]);
        assert r == [s[0]] + r1 && r[1..] == r1;
        if |r| >= 3 && r[0] == '\n' && r[1] == '\n' && r[2] == '\n' {
          CollapseBlanksHead(s[1..]);
          CollapseBlanksHead(s[1..][1..]);
          assert false;
        }
      } else {
        var n := BlankRun(s);
        NoTripleDrop(s, n);
        CollapseBlanksNoTriple(s[n..]);
        assert r[1..] == CollapseBlanks(s[n..]);
      }
    }
  }

  /** The second substitution keeps a last character that is not a space or tab. */
  lemma {:induction false} CollapseBlanksLast(s: string)
    requires s != [] && !IsBlankChar(s[|s| - 1])
    ensures CollapseBlanks(s) != [] && CollapseBlanks(s)[|CollapseBlanks(s)| - 1] == s[|s| - 1]
    decreases |s|
  {
    if !IsBlankChar(s[0]) {
      if |s| > 1 {
        CollapseBlanksLast(s[1..]);
      }
    } else {
      CollapseBlanksLast(s[BlankRun(s)..]);
    }
  }

  // ---------------------------------------------------------------- the whole normalisation

  /** The normalised text is stripped, has no three adjacent newlines, no tab and no double space. */
  lemma NormalizeTextClean(s: string)
    ensures IsStripped(NormalizeText(s))
    ensures NoNewlineTriple(NormalizeText(s))
    ensures NoTabOrDoubleSpace(NormalizeText(s))
  {
    var t := Strip(s);
    var c := CollapseNewlines(t);
    var n := CollapseBlanks(c);
    CollapseNewlinesNoTriple(t);
    CollapseBlanksNoTriple(c);
    CollapseBlanksClean(c);
    if t != [] {
      assert !IsSpace(t[0]) && !IsSpace(t[|t| - 1]);
      assert c == [t[0]] + CollapseNewlines(t[1..]);
      CollapseNewlinesLast(t);
      assert c[0] == t[0] && c[|c| - 1] == t[|t| - 1];
      assert n == [c[0]] + CollapseBlanks(c[1..]);
      CollapseBlanksLast(c);
      assert n[0] == t[0] && n[|n| - 1] == t[|t| - 1];
    } else {
      assert n == [];
    }
  }

  /** Normalising a second time changes nothing. */
  lemma NormalizeTextIdempotent(s: string)
    ensures NormalizeText(NormalizeText(s)) == NormalizeText(s)
  {
    var n := NormalizeText(s);
    NormalizeTextClean(s);
    StripIdentity(n);
    CollapseNewlinesFixed(n);
    CollapseBlanksFixed(n);
  }

  // ---------------------------------------------------------------- nothing but whitespace is lost

  lemma {:induction false} InkConcat(a: string, b: string)
    ensures Ink(a + b) == Ink(a) + Ink(b)
    decreases |a|
  {
    if a != [] {
      InkConcat(a[1..], b);
      assert (a + b)[0] == a[0] && (a + b)[1..] == a[1..] + b;
      var head := if IsSpace(a[0]) then [] else [a[0]];
      assert Ink(a + b) == head + Ink(a[1..] + b);
      assert Ink(a) == head + Ink(a[1..]);
    } else {
      assert a + b == b;
    }
  }

  lemma {:induction false} InkOfSpaces(s: string)
    requires forall k :: 0 <= k < |s| ==> IsSpace(s[k])
    ensures Ink(s) == []
    decreases |s|
  {
    if s != [] {
      InkOfSpaces(s[1..]);
    }
  }

  /** A text has no ink exactly when it is all whitespace. */
  lemma {:induction false} InkEmpty(s: string)
    ensures Ink(s) == [] <==> forall k :: 0 <= k < |s| ==> IsSpace(s[k])
    decreases |s|
  {
    if s != [] {
      InkEmpty(s[1..]);
      if IsSpace(s[0]) {
        assert forall k :: 1 <= k < |s| ==> s[1..][k - 1] == s[k];
      }
    }
  }

  lemma InkStrip(s: string)
    ensures Ink(Strip(s)) == Ink(s)
  {
    var r := Strip(s);
    var i := StripSlice(s);
    var front := s[..i];
    var back := s[i + |r|..];
    assert s == front + r + back;
    forall k | 0 <= k < |front|
      ensures IsSpace(front[k])
    {
      assert front[k] == s[k];
    }
    forall k | 0 <= k < |back|
      ensures IsSpace(back[k])
    {
      assert back[k] == s[i + |r| + k];
    }
    InkOfSpaces(front);
    InkOfSpaces(back);
    InkConcat(front, r);
    InkConcat(front + r, back);
  }

  lemma {:induction false} InkCollapseNewlines(s: string)
    ensures Ink(CollapseNewlines(s)) == Ink(s)
    decreases |s|
  {
    if s != [] {
      if s[0] != '\n' {
        InkCollapseNewlines(s[1..]);
        InkConcat([s[0]], CollapseNewlines(s[1..]));
      } else {
        var n := RunOf(s, '\n');
        var p := if n >= 3 then "\n\n" else s[..n];
        InkCollapseNewlines(s[n..]);
        InkConcat(p, CollapseNewlines(s[n..]));
        InkOfSpaces(p);
        InkOfSpaces(s[..n]);
        assert s == s[..n] + s[n..];
        InkConcat(s[..n], s[n..]);
      }
    }
  }

  lemma {:induction false} InkCollapseBlanks(s: string)
    ensures Ink(CollapseBlanks(s)) == Ink(s)
    decreases |s|
  {
    if s != [] {
      if !IsBlankChar(s[0]) {
        InkCollapseBlanks(s[1..]);
        InkConcat([s[0]], CollapseBlanks(s[1..]));
      } else {
        var n := BlankRun(s);
        InkCollapseBlanks(s[n..]);
        InkConcat(" ", CollapseBlanks(s[n..]));
        InkOfSpaces(s[..n]);
        assert s == s[..n] + s[n..];
        InkConcat(s[..n], s[n..]);
      }
    }
  }

  /** Normalisation removes and merges whitespace only: every other character survives, in order. */
  lemma NormalizeTextKeepsInk(s: string)
    ensures Ink(NormalizeText(s)) == Ink(s)
  {
    InkStrip(s);
    InkCollapseNewlines(Strip(s));
    InkCollapseBlanks(CollapseNewlines(Strip(s)));
  }
}
