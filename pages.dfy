/** A parsed page reduced to the strings the extraction rules read, and the record the scraper
    builds from it. BeautifulSoup's parse tree and its queries are not modelled; each field says
    which query produced it. */
module Pages {
  import opened Wrappers

  /** One content container collected by the selector list (`<article>`, `#content`, `.post`...),
      after its noise elements were decomposed. */
  datatype Candidate = Candidate(
    textLength: nat,          // len(candidate.get_text(strip=True)) after the first clean-up
    paragraphs: seq<string>,  // p.get_text(strip=True) of each <p> left after the second clean-up
    text: string)             // candidate.get_text(separator="\n") after the second clean-up

  datatype Page = Page(
    headline: Option<string>,      // content attribute of the first <meta itemprop="headline">
    ogTitle: Option<string>,       // content attribute of the og:title <meta> the lookup found
    twitterTitle: Option<string>,  // content attribute of the first <meta name="twitter:title">
    h1Texts: seq<string>,          // h1.text of every <h1>, in document order
    titleString: Option<string>,   // title_tag.string of the first <title>, when it has one
    headingTexts: seq<string>,     // get_text(strip=True) of every h1/h2/h3, in document order
    candidates: seq<Candidate>,    // content containers, in the order they were collected
    paragraphs: seq<string>,       // get_text(strip=True) of every <p> in the document
    body: Option<string>)          // get_text(separator="\n") of the cleaned <body>, if any

  /** The dictionary both scraping paths return. */
  datatype ArticleRecord = ArticleRecord(
    url: string,
    title: string,
    headings: seq<string>,
    content: string,
    timestamp: string)
}
