/** The heading collector shared by both scraping paths: `<h1>`-`<h3>` texts in document order,
    without very short ones and without navigation furniture, falling back to the title. */
module Headings {
  import opened Seqs
  import opened Text

  /** Substrings that mark a heading as navigation rather than content. */
  const NavigationWords := ["menu", "navigation", "search", "login", "sign in"]

  /** `text and len(text) > 3 and not any(w in text.lower() for w in NavigationWords)`. */
  predicate IsContentHeading(text: string) {
    text != "" && |text| > 3 && !ContainsAny(Lower(text), NavigationWords)
  }

  /** The headings list: the content headings, or `[title]` when there are none and the title is
      non-empty. */
  function ArticleHeadings(texts: seq<string>, title: string): seq<string> {
    var kept := Filter(texts, IsContentHeading);
    if kept == [] && title != "" then [title] else kept
  }

  /** The heading loop and its fallback, as both scraping paths run them. */
  method CollectHeadings(texts: seq<string>, title: string) returns (headings: seq<string>)
    ensures headings == ArticleHeadings(texts, title)
  {
    headings := Select(texts, IsContentHeading);
    if headings == [] && title != "" {
      headings := [title];
    }
  }

  /** What the collector promises: when some heading qualifies, the result is exactly the
      qualifying headings in document order, each as often as the page has it; each of them is
      longer than three characters and names no navigation word; otherwise the result is
      `[title]`, or empty without a title. */
  lemma HeadingsSpec(texts: seq<string>, title: string)
    ensures var hs := ArticleHeadings(texts, title);
      && ((exists k :: 0 <= k < |texts| && IsContentHeading(texts[k])) ==>
            && IsSubsequence(hs, texts)
            && (forall h :: h in hs ==> |h| > 3 && !ContainsAny(Lower(h), NavigationWords))
            && (forall k :: 0 <= k < |texts| && IsContentHeading(texts[k]) ==> texts[k] in hs)
            && (forall h :: multiset(hs)[h] == if IsContentHeading(h) then multiset(texts)[h] else 0))
      && ((forall k :: 0 <= k < |texts| ==> !IsContentHeading(texts[k])) ==>
            hs == (if title != "" then [title] else []))
  {
    var kept := Filter(texts, IsContentHeading);
    FilterIsSubsequence(texts, IsContentHeading);
    if exists k :: 0 <= k < |texts| && IsContentHeading(texts[k]) {
      var k :| 0 <= k < |texts| && IsContentHeading(texts[k]);
      assert texts[k] in texts;
      forall h
        ensures multiset(kept)[h] == if IsContentHeading(h) then multiset(texts)[h] else 0
      {
        FilterMultiplicity(texts, IsContentHeading, h);
      }
    } else {
      FilterKeepsNone(texts, IsContentHeading);
    }
  }
}
