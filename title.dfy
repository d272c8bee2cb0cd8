/** The title resolver, `_extract_title`: candidates are collected in a fixed order of
    provenance, then the longest one with a plausible word count wins. */
module Title {
  import opened Wrappers
  import opened Seqs
  import opened Text
  import opened Pages

  const NoTitle := "No title found"

  /** Words that disqualify the first `<h1>` as a title. */
  const MainHeadingStopWords := ["home", "menu", "navigation"]

  /** The three site-name separators, tried in this order. */
  const PipeSeparator := " | "
  const HyphenSeparator := " - "
  const EnDashSeparator := " \U{2013} "

  /** A `<meta>` candidate: taken, stripped, when its content attribute is non-empty. */
  function MetaCandidate(content: Option<string>): seq<string> {
    if content.Some? && content.value != "" then [Strip(content.value)] else []
  }

  /** The first `<h1>` counts when it has more than one word and no navigation word. */
  predicate IsMainHeading(text: string) {
    WordCount(text) > 1 && !ContainsAny(Lower(text), MainHeadingStopWords)
  }

  function MainHeadingCandidate(h1Texts: seq<string>): seq<string> {
    if h1Texts != [] && Strip(h1Texts[0]) != "" && IsMainHeading(Strip(h1Texts[0]))
    then [Strip(h1Texts[0])]
    else []
  }

  /** `s.split(sep)[0]`: the text before the first occurrence of `sep`. */
  function BeforeFirst(s: string, sep: string): (r: string)
    ensures |r| <= |s| && r == s[..|r|]
    ensures Contains(s, sep) ==> OccursAt(s, sep, |r|)
    ensures !Contains(s, sep) ==> r == s
    ensures forall j :: 0 <= j < |r| ==> !OccursAt(s, sep, j)
  {
    match FindFrom(s, sep, 0)
    case None => s
    case Some(i) => s[..i]
  }

  /** The `<title>` text with its site-name suffix cut off at the first separator found. */
  function TrimSiteName(title: string): string {
    var t := Strip(title);
    if Contains(t, PipeSeparator) then Strip(BeforeFirst(t, PipeSeparator))
    else if Contains(t, HyphenSeparator) then Strip(BeforeFirst(t, HyphenSeparator))
    else if Contains(t, EnDashSeparator) then Strip(BeforeFirst(t, EnDashSeparator))
    else t
  }

  function TitleTagCandidate(titleString: Option<string>): seq<string> {
    if titleString.Some? && titleString.value != "" then [TrimSiteName(titleString.value)] else []
  }

  /** The any-`<h1>` scan: the first one whose stripped text is longer than ten characters. */
  function FirstLongHeading(h1Texts: seq<string>): (r: seq<string>)
    ensures |r| <= 1
    decreases |h1Texts|
  {
    if h1Texts == [] then []
    else if Strip(h1Texts[0]) != "" && |Strip(h1Texts[0])| > 10 then [Strip(h1Texts[0])]
    else FirstLongHeading(h1Texts[1..])
  }

  /** The scan finds nothing exactly when no `<h1>` is long enough, and otherwise returns the
      first long one. */
  lemma {:induction false} FirstLongHeadingFinds(h1Texts: seq<string>) returns (k: nat)
    ensures FirstLongHeading(h1Texts) == [] <==> forall j :: 0 <= j < |h1Texts| ==> |Strip(h1Texts[j])| <= 10
    ensures FirstLongHeading(h1Texts) != [] ==>
              k < |h1Texts| && FirstLongHeading(h1Texts) == [Strip(h1Texts[k])] && |Strip(h1Texts[k])| > 10
              && forall j :: 0 <= j < k ==> |Strip(h1Texts[j])| <= 10
    decreases |h1Texts|
  {
    if h1Texts == [] {
      k := 0;
    } else if |Strip(h1Texts[0])| > 10 {
      k := 0;
    } else {
      var tail := h1Texts[1..];
      var k' := FirstLongHeadingFinds(tail);
      k := k' + 1;
      forall j | 1 <= j < |h1Texts|
        ensures h1Texts[j] == tail[j - 1]
      {
      }
      if FirstLongHeading(h1Texts) != [] {
        forall j | 0 <= j < k
          ensures |Strip(h1Texts[j])| <= 10
        {
          if j > 0 {
            assert h1Texts[j] == tail[j - 1];
          }
        }
      }
    }
  }

  /** The `for h1 in soup.find_all('h1')` loop with its `break`. */
  method ScanHeadings(h1Texts: seq<string>) returns (found: seq<string>)
    ensures found == FirstLongHeading(h1Texts)
  {
    found := [];
    var i := 0;
    while i < |h1Texts|
      invariant 0 <= i <= |h1Texts|
      invariant FirstLongHeading(h1Texts) == FirstLongHeading(h1Texts[i..])
      decreases |h1Texts| - i
    {
      var text := Strip(h1Texts[i]);
      if text != "" && |text| > 10 {
        found := [text];
        break;
      }
      assert h1Texts[i..][1..] == h1Texts[i + 1..];
      i := i + 1;
    }
  }

  /** The candidates the five sources give, in their order of reliability. */
  function SourceCandidates(p: Page): seq<string> {
    MetaCandidate(p.headline) + MetaCandidate(p.ogTitle) + MetaCandidate(p.twitterTitle)
    + MainHeadingCandidate(p.h1Texts) + TitleTagCandidate(p.titleString)
  }

  /** `title_candidates` at the end of the collection phase. */
  function TitleCandidates(p: Page): seq<string> {
    var found := SourceCandidates(p);
    if found != [] then found else FirstLongHeading(p.h1Texts)
  }

  /** `3 < len(t.split()) < 20`. */
  predicate HasTitleLength(t: string) {
    3 < WordCount(t) < 20
  }

  function Length(t: string): nat {
    |t|
  }

  /** The selection step: `max(filtered, key=len)`, else the first candidate, else the sentinel. */
  function SelectTitle(candidates: seq<string>): (title: string)
    ensures candidates == [] ==> title == NoTitle
    ensures candidates != [] ==> title in candidates
  {
    if candidates == [] then NoTitle
    else
      var filtered := Filter(candidates, HasTitleLength);
      if filtered != [] then filtered[ArgMaxFirst(filtered, Length)] else candidates[0]
  }

  function ExtractTitle(p: Page): string {
    SelectTitle(TitleCandidates(p))
  }

  /** `_extract_title`: the five sources, the `<h1>` scan when they give nothing, then the
      selection. */
  method ResolveTitle(p: Page) returns (title: string)
    ensures title == ExtractTitle(p)
  {
    var candidates := SourceCandidates(p);
    if candidates == [] {
      candidates := ScanHeadings(p.h1Texts);
    }
    title := SelectTitle(candidates);
  }

  // ---------------------------------------------------------------- selection

  /** With some candidate of 4 to 19 words, the title is the longest such candidate, and the
      earliest of those of equal length. */
  lemma SelectTitleLongest(candidates: seq<string>)
    requires exists k :: 0 <= k < |candidates| && HasTitleLength(candidates[k])
    ensures exists k :: (0 <= k < |candidates| && candidates[k] == SelectTitle(candidates)
      && HasTitleLength(candidates[k])
      && (forall j :: 0 <= j < |candidates| && HasTitleLength(candidates[j]) ==> |candidates[j]| <= |candidates[k]|)
      && (forall j :: 0 <= j < k && HasTitleLength(candidates[j]) ==> |candidates[j]| < |candidates[k]|))
  {
    var k0 :| 0 <= k0 < |candidates| && HasTitleLength(candidates[k0]);
    assert candidates[k0] in candidates;
    var k := ArgMaxOfFilter(candidates, HasTitleLength, Length);
  }

  /** Without any candidate of 4 to 19 words, the first candidate is the title. */
  lemma SelectTitleFirst(candidates: seq<string>)
    requires candidates != []
    requires forall k :: 0 <= k < |candidates| ==> !HasTitleLength(candidates[k])
    ensures SelectTitle(candidates) == candidates[0]
  {
    FilterKeepsNone(candidates, HasTitleLength);
  }

  /** Without candidates the resolver returns its sentinel. */
  lemma NoCandidatesNoTitle(p: Page)
    requires TitleCandidates(p) == []
    ensures ExtractTitle(p) == NoTitle
  {
  }

  // ---------------------------------------------------------------- collection

  /** The headline metadata, when non-empty, is the first candidate. */
  lemma HeadlineComesFirst(p: Page)
    requires p.headline.Some? && p.headline.value != ""
    ensures TitleCandidates(p) != [] && TitleCandidates(p)[0] == Strip(p.headline.value)
  {
  }

  /** The any-`<h1>` scan is used only when none of the five sources gave a candidate, and
      that happens exactly when no metadata content, no qualifying first `<h1>` and no
      `<title>` text is present. */
  lemma HeadingScanOnlyAsLastResort(p: Page)
    ensures SourceCandidates(p) != [] ==> TitleCandidates(p) == SourceCandidates(p)
    ensures SourceCandidates(p) == [] ==> TitleCandidates(p) == FirstLongHeading(p.h1Texts)
    ensures SourceCandidates(p) == [] <==>
      && (p.headline.None? || p.headline.value == "")
      && (p.ogTitle.None? || p.ogTitle.value == "")
      && (p.twitterTitle.None? || p.twitterTitle.value == "")
      && !(p.h1Texts != [] && Strip(p.h1Texts[0]) != "" && IsMainHeading(Strip(p.h1Texts[0])))
      && (p.titleString.None? || p.titleString.value == "")
  {
  }

  // ---------------------------------------------------------------- the <title> split

  /** A string `t`, and any string cut from it, holds `sep` only where `t` does. */
  lemma StripKeepsAbsence(s: string, sep: string)
    requires !Contains(s, sep)
    ensures !Contains(Strip(s), sep)
  {
    var i := StripSlice(s);
    NotContainsSlice(s, i, i + |Strip(s)|, sep);
  }

  lemma CutKeepsAbsence(t: string, sep: string, other: string)
    requires !Contains(t, other)
    ensures !Contains(Strip(BeforeFirst(t, sep)), other)
  {
    var b := BeforeFirst(t, sep);
    NotContainsSlice(t, 0, |b|, other);
    StripKeepsAbsence(b, other);
  }

  /** Cutting at the first `sep` leaves no `sep`. */
  lemma CutRemovesSeparator(t: string, sep: string)
    requires sep != []
    ensures !Contains(Strip(BeforeFirst(t, sep)), sep)
  {
    var b := BeforeFirst(t, sep);
    assert t[0..|b|] == b;
    if Contains(b, sep) {
      var j := FindFrom(b, sep, 0).value;
      OccursInSlice(t, 0, |b|, sep, j);
      assert false;
    }
    StripKeepsAbsence(b, sep);
  }

  /** The trimmed `<title>` never holds `" | "`; it holds `" - "` only when the title had a
      `" | "`, and `" – "` only when it had one of the two others; and a title with none of
      them is only stripped. */
  lemma TrimSiteNameSeparators(title: string)
    ensures !Contains(TrimSiteName(title), PipeSeparator)
    ensures !Contains(Strip(title), PipeSeparator) ==> !Contains(TrimSiteName(title), HyphenSeparator)
    ensures (!Contains(Strip(title), PipeSeparator) && !Contains(Strip(title), HyphenSeparator))
              ==> !Contains(TrimSiteName(title), EnDashSeparator)
    ensures (!Contains(Strip(title), PipeSeparator) && !Contains(Strip(title), HyphenSeparator)
             && !Contains(Strip(title), EnDashSeparator)) ==> TrimSiteName(title) == Strip(title)
  {
    var t := Strip(title);
    if Contains(t, PipeSeparator) {
      CutRemovesSeparator(t, PipeSeparator);
    } else if Contains(t, HyphenSeparator) {
      CutRemovesSeparator(t, HyphenSeparator);
      CutKeepsAbsence(t, HyphenSeparator, PipeSeparator);
    } else if Contains(t, EnDashSeparator) {
      CutRemovesSeparator(t, EnDashSeparator);
      CutKeepsAbsence(t, EnDashSeparator, PipeSeparator);
      CutKeepsAbsence(t, EnDashSeparator, HyphenSeparator);
    }
  }

  /** The headline metadata does not always win: when it has fewer than four words (or twenty
      or more) and another candidate has four to nineteen, the other candidate is chosen. */
  lemma HeadlineCanLose(p: Page)
    requires p.headline.Some? && p.headline.value != "" && !HasTitleLength(Strip(p.headline.value))
    requires exists k :: 0 <= k < |TitleCandidates(p)| && HasTitleLength(TitleCandidates(p)[k])
    ensures HasTitleLength(ExtractTitle(p))
    ensures ExtractTitle(p) != Strip(p.headline.value)
  {
    SelectTitleLongest(TitleCandidates(p));
  }
}
