/** The two scraping paths once a page is in hand: both build the same record from the
    title, the headings and the article text, and differ only in where the title comes from. */
module Extraction {
  import opened Seqs
  import opened Pages
  import opened Title
  import opened Headings
  import opened Content

  /** `_scrape_with_beautifulsoup` after the fetch: the title resolver names the page. */
  function LightweightRecord(url: string, p: Page, timestamp: string): ArticleRecord {
    var title := ExtractTitle(p);
    ArticleRecord(url, title, ArticleHeadings(p.headingTexts, title), ArticleContent(p), timestamp)
  }

  /** `_scrape_with_selenium` after the page loaded: the browser's own `driver.title` names
      the page, and the title resolver is not consulted. */
  function RenderedRecord(url: string, driverTitle: string, p: Page, timestamp: string): ArticleRecord {
    ArticleRecord(url, driverTitle, ArticleHeadings(p.headingTexts, driverTitle), ArticleContent(p), timestamp)
  }

  method ScrapeWithBeautifulSoup(url: string, p: Page, timestamp: string) returns (record: ArticleRecord)
    ensures record == LightweightRecord(url, p, timestamp)
  {
    var title := ResolveTitle(p);
    var headings := CollectHeadings(p.headingTexts, title);
    var content := ExtractArticleContent(p);
    record := ArticleRecord(url, title, headings, content, timestamp);
  }

  method ScrapeWithSelenium(url: string, driverTitle: string, p: Page, timestamp: string)
    returns (record: ArticleRecord)
    ensures record == RenderedRecord(url, driverTitle, p, timestamp)
  {
    var headings := CollectHeadings(p.headingTexts, driverTitle);
    var content := ExtractArticleContent(p);
    record := ArticleRecord(url, driverTitle, headings, content, timestamp);
  }

  /** A record's headings are the page's qualifying headings when it has any, and otherwise
      the record's own title alone, unless that title is empty. */
  lemma RecordHeadings(r: ArticleRecord, p: Page)
    requires r.headings == ArticleHeadings(p.headingTexts, r.title)
    ensures r.headings == [] <==> r.title == "" && Filter(p.headingTexts, IsContentHeading) == []
    ensures r.headings != [] && Filter(p.headingTexts, IsContentHeading) == [] ==> r.headings == [r.title]
    ensures IsSubsequence(Filter(p.headingTexts, IsContentHeading), p.headingTexts)
  {
    FilterIsSubsequence(p.headingTexts, IsContentHeading);
  }
}
