/** How the lightweight path locates the article text of a page: the longest content container's
    paragraphs, else the whole document's paragraphs, else the body text cut down to its densest
    block of lines, else a placeholder. */
module Content {
  import opened Seqs
  import opened Text
  import opened Whitespace
  import opened Pages

  const NoContent := "No content found"

  /** The alternatives of the byline pattern `^(share|posted by|...|published:).*$`. */
  const BoilerplatePrefixes: seq<string> :=
    ["share", "posted by", "written by", "author:", "date:", "published:"]

  /** The phrases that mark a paragraph as legal or marketing text. */
  const BoilerplatePhrases: seq<string> :=
    ["cookie", "privacy policy", "terms of service", "copyright", "all rights reserved",
     "newsletter", "sign up", "subscribe"]

  /** Texts of more than this many lines are cut down to their densest block. */
  const DensityMinLines := 20

  /** A densest block of at most this many lines is not worth keeping on its own. */
  const DensityMinRun := 5

  /** What `.*$` accepts: `.` stops at a newline and `$` also matches just before a final
      newline, so the rest may hold one newline only as its last character. */
  predicate RestOfLine(rest: string) {
    '\n' !in rest || (rest[|rest| - 1] == '\n' && '\n' !in rest[..|rest| - 1])
  }

  /** `re.match` of the byline pattern against an already lower-cased paragraph. */
  predicate IsBoilerplateLine(lowered: string) {
    exists pre :: pre in BoilerplatePrefixes && StartsWith(lowered, pre) && RestOfLine(lowered[|pre|..])
  }

  /** The paragraph filter inside the longest container: more than four words, not a byline. */
  predicate IsArticleParagraph(text: string) {
    text != "" && WordCount(text) > 4 && !IsBoilerplateLine(Lower(text))
  }

  /** The stricter filter over all paragraphs: more than five words and no legal phrase. */
  predicate IsLooseParagraph(text: string) {
    text != "" && WordCount(text) > 5 && !ContainsAny(Lower(text), BoilerplatePhrases)
  }

  /** The key the containers are sorted by. */
  function CandidateLength(c: Candidate): nat {
    c.textLength
  }

  // ---------------------------------------------------------------------------------------
  // The densest block of lines

  /** The line holds whitespace only, that is `line.strip()` is falsy (`BlankLineStrips`). */
  predicate IsBlankLine(line: string) {
    Ink(line) == ""
  }

  lemma BlankLineStrips(line: string)
    ensures IsBlankLine(line) <==> Strip(line) == ""
  {
    InkEmpty(line);
    StripEmpty(line);
  }

  /** `line.strip()` as the density loop tests it. */
  method LineHasText(line: string) returns (filled: bool)
    ensures filled <==> !IsBlankLine(line)
  {
    BlankLineStrips(line);
    filled := Strip(line) != "";
  }

  /** Lines `a` up to (not including) `b` are all non-blank. */
  predicate NonBlankSpan(lines: seq<string>, a: nat, b: nat)
    requires a <= b <= |lines|
  {
    forall k :: a <= k < b ==> !IsBlankLine(lines[k])
  }

  /** Among the non-blank windows inside the first `end` lines, `[start, start + length)` is a
      longest one, and every non-blank window that starts earlier is shorter. */
  ghost predicate BestRunWithin(lines: seq<string>, end: nat, start: nat, length: nat)
    requires end <= |lines|
  {
    && start + length <= end
    && NonBlankSpan(lines, start, start + length)
    && (forall a, b :: 0 <= a <= b <= end && NonBlankSpan(lines, a, b) ==> b - a <= length)
    && (forall a, b :: 0 <= a < start && a <= b <= end && NonBlankSpan(lines, a, b) ==> b - a < length)
  }

  /** The first longest block of consecutive non-blank lines. */
  ghost predicate IsBestRun(lines: seq<string>, start: nat, length: nat) {
    BestRunWithin(lines, |lines|, start, length)
  }

  /** The number of consecutive non-blank lines from line `i` on. */
  function RunAt(lines: seq<string>, i: nat): (n: nat)
    requires i <= |lines|
    ensures i + n <= |lines| && NonBlankSpan(lines, i, i + n)
    ensures i + n == |lines| || IsBlankLine(lines[i + n])
    decreases |lines| - i
  {
    if i == |lines| || IsBlankLine(lines[i]) then 0 else 1 + RunAt(lines, i + 1)
  }

  /** The length of the block starting at each line. */
  function RunLengths(lines: seq<string>): (lengths: seq<nat>)
    ensures |lengths| == |lines|
  {
    seq(|lines|, i requires 0 <= i < |lines| => RunAt(lines, i))
  }

  function NatValue(n: nat): nat {
    n
  }

  /** A reference definition of the densest block: the first line whose block is longest. */
  function BestRun(lines: seq<string>): (nat, nat) {
    if lines == [] then (0, 0)
    else
      var k := ArgMaxFirst(RunLengths(lines), NatValue);
      (k, RunAt(lines, k))
  }

  /** No non-blank window is longer than the block that starts where it starts. */
  lemma {:induction false} WindowWithinRun(lines: seq<string>, a: nat, b: nat)
    requires a <= b <= |lines| && NonBlankSpan(lines, a, b)
    ensures b - a <= RunAt(lines, a)
    decreases b - a
  {
    if a < b {
      assert !IsBlankLine(lines[a]);
      WindowWithinRun(lines, a + 1, b);
    }
  }

  /** The reference definition picks the first longest block. */
  lemma BestRunIsBest(lines: seq<string>)
    ensures IsBestRun(lines, BestRun(lines).0, BestRun(lines).1)
  {
    if lines != [] {
      var lengths := RunLengths(lines);
      var k := ArgMaxFirst(lengths, NatValue);
      forall a, b | 0 <= a <= b <= |lines| && NonBlankSpan(lines, a, b)
        ensures b - a <= RunAt(lines, k)
        ensures a < k ==> b - a < RunAt(lines, k)
      {
        if a < |lines| {
          WindowWithinRun(lines, a, b);
          assert NatValue(lengths[a]) == RunAt(lines, a);
        }
      }
    }
  }

  /** There is only one first longest block. */
  lemma BestRunUnique(lines: seq<string>, s1: nat, n1: nat, s2: nat, n2: nat)
    requires IsBestRun(lines, s1, n1) && IsBestRun(lines, s2, n2)
    ensures s1 == s2 && n1 == n2
  {
  }

  /** A non-blank window ends at or before any blank line at or after its start. */
  lemma BlankEndsSpan(lines: seq<string>, a: nat, b: nat, k: nat)
    requires a <= b <= |lines| && NonBlankSpan(lines, a, b)
    requires a <= k < |lines| && IsBlankLine(lines[k])
    ensures b <= k
  {
  }

  /** A block that ends at `e` after starting just past a blank line (or at the top) is
      weighed against the best block so far. */
  lemma CloseRun(lines: seq<string>, c: nat, e: nat, bs: nat, bl: nat)
    requires c <= e <= |lines|
    requires BestRunWithin(lines, c, bs, bl)
    requires NonBlankSpan(lines, c, e)
    requires c == 0 || IsBlankLine(lines[c - 1])
    ensures e - c > bl ==> BestRunWithin(lines, e, c, e - c)
    ensures e - c <= bl ==> BestRunWithin(lines, e, bs, bl)
  {
    forall a, b | 0 <= a <= b <= e && NonBlankSpan(lines, a, b)
      ensures b <= c || c <= a
    {
      if a < c {
        BlankEndsSpan(lines, a, b, c - 1);
      }
    }
  }

  /** A blank line never extends the best block. */
  lemma PassBlank(lines: seq<string>, e: nat, bs: nat, bl: nat)
    requires e < |lines| && IsBlankLine(lines[e])
    requires BestRunWithin(lines, e, bs, bl)
    ensures BestRunWithin(lines, e + 1, bs, bl)
  {
    forall a, b | 0 <= a <= b <= e + 1 && NonBlankSpan(lines, a, b)
      ensures b <= e || a == b
    {
      if a <= e {
        BlankEndsSpan(lines, a, b, e);
      }
    }
    if bl == 0 {
      if 0 < bs {
        assert NonBlankSpan(lines, 0, 0);
      }
    }
  }

  /** The scan for the longest group of non-empty lines, with the check after the loop for a
      group that runs to the last line. */
  method LongestRun(lines: seq<string>) returns (bestStart: nat, bestLength: nat)
    ensures IsBestRun(lines, bestStart, bestLength)
    ensures (bestStart, bestLength) == BestRun(lines)
  {
    var currentStart, currentLength;
    bestStart, bestLength, currentStart, currentLength := ScanLines(lines);
    CloseRun(lines, |lines| - currentLength, |lines|, bestStart, bestLength);
    if currentLength > bestLength {
      bestStart := currentStart;
      bestLength := currentLength;
    }
    BestRunIsBest(lines);
    BestRunUnique(lines, bestStart, bestLength, BestRun(lines).0, BestRun(lines).1);
  }

  /** The loop of the density pass: the best span among the runs already closed, and the run
      still open at the end of the text. */
  method ScanLines(lines: seq<string>) returns (bestStart: nat, bestLength: nat, currentStart: nat, currentLength: nat)
    ensures currentLength <= |lines|
    ensures NonBlankSpan(lines, |lines| - currentLength, |lines|)
    ensures |lines| - currentLength == 0 || IsBlankLine(lines[|lines| - currentLength - 1])
    ensures currentLength > 0 ==> currentStart == |lines| - currentLength
    ensures BestRunWithin(lines, |lines| - currentLength, bestStart, bestLength)
  {
    bestStart, bestLength := 0, 0;
    currentStart, currentLength := 0, 0;
    for i := 0 to |lines|
      invariant currentLength <= i
      invariant NonBlankSpan(lines, i - currentLength, i)
      invariant i - currentLength == 0 || IsBlankLine(lines[i - currentLength - 1])
      invariant currentLength > 0 ==> currentStart == i - currentLength
      invariant BestRunWithin(lines, i - currentLength, bestStart, bestLength)
    {
      bestStart, bestLength, currentStart, currentLength :=
        ScanLine(lines, i, bestStart, bestLength, currentStart, currentLength);
    }
  }

  /** One turn of that loop: line `i` either extends the open run or closes it. */
  method ScanLine(lines: seq<string>, i: nat, bestStart: nat, bestLength: nat, currentStart: nat, currentLength: nat)
    returns (bestStart': nat, bestLength': nat, currentStart': nat, currentLength': nat)
    requires i < |lines| && currentLength <= i
    requires NonBlankSpan(lines, i - currentLength, i)
    requires i - currentLength == 0 || IsBlankLine(lines[i - currentLength - 1])
    requires currentLength > 0 ==> currentStart == i - currentLength
    requires BestRunWithin(lines, i - currentLength, bestStart, bestLength)
    ensures currentLength' <= i + 1
    ensures NonBlankSpan(lines, i + 1 - currentLength', i + 1)
    ensures i + 1 - currentLength' == 0 || IsBlankLine(lines[i + 1 - currentLength' - 1])
    ensures currentLength' > 0 ==> currentStart' == i + 1 - currentLength'
    ensures BestRunWithin(lines, i + 1 - currentLength', bestStart', bestLength')
  {
    bestStart', bestLength', currentStart', currentLength' := bestStart, bestLength, currentStart, currentLength;
    var filled := LineHasText(lines[i]);
    if filled {
      if currentLength == 0 {
        currentStart' := i;
      }
      currentLength' := currentLength + 1;
    } else {
      CloseRun(lines, i - currentLength, i, bestStart, bestLength);
      if currentLength > bestLength {
        bestStart' := currentStart;
        bestLength' := currentLength;
      }
      PassBlank(lines, i, bestStart', bestLength');
      currentLength' := 0;
    }
  }

  /** A long text is cut down to its densest block when that block is long enough. */
  function DensityPass(text: string): string {
    CutToDensest(text, SplitLines(text))
  }

  /** The cut for a text already split into its lines. */
  function CutToDensest(text: string, lines: seq<string>): string {
    if |lines| > DensityMinLines then
      var best := BestRun(lines);
      if best.1 > DensityMinRun then Join("\n", lines[best.0..best.0 + best.1]) else text
    else text
  }

  /** The density pass as the body tier runs it: split, scan, and cut when the block is long
      enough. */
  method ApplyDensityPass(text: string) returns (content: string)
    ensures content == DensityPass(text)
  {
    content := text;
    var lines := SplitLines(text);
    if |lines| > DensityMinLines {
      var bestStart, bestLength := LongestRun(lines);
      if bestLength > DensityMinRun {
        content := Join("\n", lines[bestStart..bestStart + bestLength]);
      }
    }
  }

  /** The density pass keeps a short text, and otherwise keeps the first longest block of
      non-blank lines exactly when it is longer than five lines. */
  lemma DensityPassSpec(text: string) returns (start: nat, length: nat)
    ensures |SplitLines(text)| <= DensityMinLines ==> DensityPass(text) == text
    ensures |SplitLines(text)| > DensityMinLines ==>
      && IsBestRun(SplitLines(text), start, length)
      && (length > DensityMinRun ==>
            DensityPass(text) == Join("\n", SplitLines(text)[start..start + length]))
      && (length <= DensityMinRun ==> DensityPass(text) == text)
  {
    var lines := SplitLines(text);
    var best := BestRun(lines);
    start, length := best.0, best.1;
    if |lines| > DensityMinLines {
      BestRunIsBest(lines);
      DensityPassCuts(text, lines, best);
    } else {
      DensityPassShort(text);
    }
  }

  /** The density pass leaves a text of at most twenty lines alone. */
  lemma DensityPassShort(text: string)
    requires |SplitLines(text)| <= DensityMinLines
    ensures DensityPass(text) == text
  {
    assert DensityPass(text) == CutToDensest(text, SplitLines(text));
  }

  /** How the density pass treats a text of more than twenty lines. */
  lemma DensityPassCuts(text: string, lines: seq<string>, best: (nat, nat))
    requires lines == SplitLines(text) && |lines| > DensityMinLines && best == BestRun(lines)
    ensures best.1 > DensityMinRun ==> DensityPass(text) == Join("\n", lines[best.0..best.0 + best.1])
    ensures best.1 <= DensityMinRun ==> DensityPass(text) == text
  {
    assert DensityPass(text) == CutToDensest(text, lines);
  }

  /** What the density pass leaves is a piece of its input: either all of it or more than five
      consecutive lines of it, every one of them non-blank, joined back together; splitting
      that block again gives those lines. */
  lemma DensityPassKeepsBlock(text: string) returns (o: nat, block: seq<string>)
    ensures OccursAt(text, DensityPass(text), o)
    ensures DensityPass(text) == text || (
      && DensityPass(text) == Join("\n", block)
      && |block| > DensityMinRun
      && SplitLines(Join("\n", block)) == block
      && forall k :: 0 <= k < |block| ==> !IsBlankLine(block[k]))
  {
    var lines := SplitLines(text);
    var start, length := DensityPassSpec(text);
    block := [];
    if |lines| > DensityMinLines && length > DensityMinRun {
      block := lines[start..start + length];
      o := KeptBlock(text, lines, start, length, block);
    } else {
      o := 0;
      assert text[0..|text|] == text;
    }
  }

  /** The block the density pass keeps sits in the text and splits back into its own lines. */
  lemma KeptBlock(text: string, lines: seq<string>, start: nat, length: nat, block: seq<string>) returns (o: nat)
    requires lines == SplitLines(text)
    requires length > DensityMinRun && IsBestRun(lines, start, length)
    requires block == lines[start..start + length]
    ensures OccursAt(text, Join("\n", block), o)
    ensures SplitLines(Join("\n", block)) == block
    ensures forall k :: 0 <= k < |block| ==> !IsBlankLine(block[k])
  {
    o := BlockOccurs(text, lines, start, start + length);
    BlockLines(lines, start, block);
  }

  /** Consecutive lines of a text, joined back together, occur in the text. */
  lemma BlockOccurs(text: string, lines: seq<string>, a: nat, b: nat) returns (o: nat)
    requires lines == SplitLines(text) && a < b <= |lines|
    ensures OccursAt(text, Join("\n", lines[a..b]), o)
  {
    o := JoinSliceOccurs("\n", lines, a, b);
    JoinSplitLines(text);
  }

  /** Consecutive non-blank lines, joined back together, split into the same lines. */
  lemma BlockLines(lines: seq<string>, start: nat, block: seq<string>)
    requires forall k :: 0 <= k < |lines| ==> '\n' !in lines[k]
    requires 0 < |block| && start + |block| <= |lines| && block == lines[start..start + |block|]
    requires NonBlankSpan(lines, start, start + |block|)
    ensures SplitLines(Join("\n", block)) == block
    ensures forall k :: 0 <= k < |block| ==> !IsBlankLine(block[k])
  {
    assert forall k :: 0 <= k < |block| ==> block[k] == lines[start + k];
    SplitLinesJoin(block);
  }

  // ---------------------------------------------------------------------------------------
  // The cascade

  /** The content the lightweight path extracts from a page, tier by tier. */
  function ArticleContent(p: Page): string {
    if p.candidates != [] then
      var main := p.candidates[ArgMaxFirst(p.candidates, CandidateLength)];
      var paragraphs := Filter(main.paragraphs, IsArticleParagraph);
      if paragraphs != [] then Join("\n\n", paragraphs) else NormalizeText(main.text)
    else
      var paragraphs := Filter(p.paragraphs, IsLooseParagraph);
      if paragraphs != [] then Join("\n\n", paragraphs)
      else if p.body.Some? then DensityPass(NormalizeText(p.body.value))
      else NoContent
  }

  /** The content locator, loop by loop. */
  method ExtractArticleContent(p: Page) returns (content: string)
    ensures content == ArticleContent(p)
  {
    if p.candidates != [] {
      var main := p.candidates[ArgMaxFirst(p.candidates, CandidateLength)];
      var paragraphs := Select(main.paragraphs, IsArticleParagraph);
      if paragraphs != [] {
        return Join("\n\n", paragraphs);
      }
      return NormalizeText(main.text);
    }
    var paragraphs := Select(p.paragraphs, IsLooseParagraph);
    if paragraphs != [] {
      return Join("\n\n", paragraphs);
    }
    if p.body.Some? {
      content := ApplyDensityPass(NormalizeText(p.body.value));
      return content;
    }
    return NoContent;
  }

  /** With content containers, the text comes from the first of the longest ones: its
      qualifying paragraphs in document order, or else its whole normalised text. */
  lemma ContainerTier(p: Page) returns (k: nat)
    requires p.candidates != []
    ensures k < |p.candidates|
    ensures forall j :: 0 <= j < |p.candidates| ==>
      p.candidates[j].textLength <= p.candidates[k].textLength
    ensures forall j :: 0 <= j < k ==> p.candidates[j].textLength < p.candidates[k].textLength
    ensures Filter(p.candidates[k].paragraphs, IsArticleParagraph) != [] ==>
      ArticleContent(p) == Join("\n\n", Filter(p.candidates[k].paragraphs, IsArticleParagraph))
    ensures Filter(p.candidates[k].paragraphs, IsArticleParagraph) == [] ==>
      ArticleContent(p) == NormalizeText(p.candidates[k].text)
    ensures IsSubsequence(Filter(p.candidates[k].paragraphs, IsArticleParagraph),
                          p.candidates[k].paragraphs)
  {
    k := ArgMaxFirst(p.candidates, CandidateLength);
    assert forall j :: 0 <= j < |p.candidates| ==>
      CandidateLength(p.candidates[j]) == p.candidates[j].textLength;
    FilterIsSubsequence(p.candidates[k].paragraphs, IsArticleParagraph);
  }

  /** Without containers, the qualifying paragraphs of the whole document win when there
      are any. */
  lemma ParagraphTier(p: Page)
    requires p.candidates == [] && Filter(p.paragraphs, IsLooseParagraph) != []
    ensures ArticleContent(p) == Join("\n\n", Filter(p.paragraphs, IsLooseParagraph))
    ensures IsSubsequence(Filter(p.paragraphs, IsLooseParagraph), p.paragraphs)
    ensures forall t :: t in Filter(p.paragraphs, IsLooseParagraph) ==>
      WordCount(t) > 5 && !ContainsAny(Lower(t), BoilerplatePhrases)
  {
    FilterIsSubsequence(p.paragraphs, IsLooseParagraph);
  }

  /** The body fallback is normalised text, or a piece of it: stripped of nothing inside,
      with no tab, no double space and no three newlines in a row. */
  lemma BodyTier(p: Page)
    requires p.candidates == [] && Filter(p.paragraphs, IsLooseParagraph) == [] && p.body.Some?
    ensures NoTabOrDoubleSpace(ArticleContent(p))
    ensures NoNewlineTriple(ArticleContent(p))
    ensures |SplitLines(NormalizeText(p.body.value))| <= DensityMinLines ==>
      ArticleContent(p) == NormalizeText(p.body.value)
  {
    var n := NormalizeText(p.body.value);
    NormalizeTextClean(p.body.value);
    var o, _ := DensityPassKeepsBlock(n);
    CleanInfix(n, DensityPass(n), o);
    NoTripleInfix(n, DensityPass(n), o);
  }

  // ---------------------------------------------------------------------------------------
  // The byline pattern

  /** Lower-casing keeps newlines where they are and makes none. */
  lemma LowerNewlines(s: string, m: nat)
    requires m < |s|
    ensures Lower(s)[m] == '\n' <==> s[m] == '\n'
  {
  }

  /** A one-line paragraph that starts, in any case, with a byline word is dropped. */
  lemma OneLineBylineDropped(text: string, pre: string)
    requires pre in BoilerplatePrefixes && StartsWith(Lower(text), pre) && '\n' !in text
    ensures !IsArticleParagraph(text)
  {
    var rest := Lower(text)[|pre|..];
    forall m | 0 <= m < |rest|
      ensures rest[m] != '\n'
    {
      LowerNewlines(text, |pre| + m);
    }
    assert RestOfLine(rest);
  }

  /** The pattern reads one line only: a paragraph with more than four words and a line break
      after its tenth character and before its last one is kept, whatever word it starts
      with. */
  lemma MultiLineParagraphKept(text: string, m: nat)
    requires WordCount(text) > 4
    requires 10 <= m < |text| - 1 && text[m] == '\n'
    ensures IsArticleParagraph(text)
  {
    var lowered := Lower(text);
    LowerNewlines(text, m);
    forall pre | pre in BoilerplatePrefixes && StartsWith(lowered, pre)
      ensures !RestOfLine(lowered[|pre|..])
    {
      var rest := lowered[|pre|..];
      assert |pre| <= 10;
      assert rest[m - |pre|] == '\n';
      assert rest[..|rest| - 1][m - |pre|] == '\n';
    }
  }
}
