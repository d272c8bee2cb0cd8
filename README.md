# ExcellentScraper extraction and batch core, in Dafny

ExcellentScraper takes a list of URLs typed into entry fields and scrapes each page. It
builds one article record per page: URL, title, headings, body text and timestamp. At the end
of a batch it exports the records as a spreadsheet. This project models the parts of
`ExcellentScraper.py` that decide what ends up in those records, and proves what they promise.

- **Title resolver** (`_extract_title`), module `Title`. It collects candidates in provenance
  order: the headline, Open Graph and Twitter metadata; the first `<h1>` when it is no
  navigation text; the `<title>` with its site name cut off; and, only when none of those gave
  anything, the first long `<h1>`. Then it picks the longest candidate of 4 to 19 words, else
  the first candidate, else "No title found".
- **Heading collector** (shared by both scraping paths), module `Headings`. It keeps the
  h1–h3 texts longer than three characters that hold no navigation word, in document order,
  and falls back to the title.
- **Content locator** (`_extract_article_content`), module `Content`. It tries, in order:
  - the paragraphs of the longest content container, filtered against bylines;
  - that container's whitespace-normalised text;
  - the document's paragraphs, filtered against legal and marketing phrases;
  - the normalised `<body>` text, cut down to its longest run of non-blank lines (the density
    pass);
  - the placeholder "No content found".

  The whitespace rules live in `Whitespace`, and the Python string operations they are written
  with live in `Text`.
- **URL collection** (`_collect_urls`), module `Urls`.
- **Batch controller** (`_start_scraping`, `_scrape_urls`), module `Batch`. This is a class
  `Scraper` with:
  - the in-progress flag;
  - the scraped records;
  - the status messages (the log of what `_update_status` was called with);
  - the sheets exported.

  It visits the URLs in order and tries the lightweight fetch first. When that fails it falls
  back to a browser, which it starts at most once. It closes the browser at the end and exports
  the sheet.
- **Export row layout** (the data part of `_export_to_excel`), module `Export`.

Pages are given as plain data (`Pages.Page`): the strings BeautifulSoup queries return, one
field per query. Every loop the model covers is a method with a loop: the heading filter, the
paragraph filters, the `<h1>` scan, the density pass, the URL collection, the batch loop and the
export loops. Each such method is proved equal to a function, and the properties of that
function are proved as lemmas. The loops over the content selectors and the loops that
decompose noise elements work on the parse tree, which is not modelled (see "## Left out"). The network,
the browser and the clock are an `Environment`: the outcome of each scraping path, of starting
the browser, of closing it and of writing the workbook, indexed by URL position.

## Model

| member | source | states |
|---|---|---|
| Seqs.FilterMultiplicity | ExcellentScraper.py:534-539 | the keep-if-it-passes loop (modelled by `Select`, equal to `Filter`) keeps every passing value as often as the input has it, and no other value |
| Seqs.Select | ExcellentScraper.py:751-756 | the append loop returns exactly the filtered list, `Filter(s, keep)` |
| Seqs.FilterIsSubsequence | ExcellentScraper.py:752-756 | the kept elements appear in their original order |
| Seqs.ArgMaxFirst | ExcellentScraper.py:740-741 | the chosen position has the largest key, and every earlier position has a strictly smaller key (a stable descending sort puts the first of equal maxima in front) |
| Seqs.ArgMaxOfFilter | ExcellentScraper.py:684-687 | `max(filtered, key=len)` is the element of the whole list that passes the filter, has the largest key among those that pass, and beats every earlier one that passes |
| Text.Strip | ExcellentScraper.py:400 | `strip()` leaves no whitespace at either end |
| Text.StripSlice | ExcellentScraper.py:400 | `strip()` returns the slice of the input between its leading and trailing whitespace, and everything cut off is whitespace |
| Text.StripEmpty | ExcellentScraper.py:401 | a stripped entry is empty (falsy) exactly when the entry is all whitespace |
| Text.JoinSplitLines | ExcellentScraper.py:806 | joining `text.split('\n')` with newlines gives the text back |
| Text.SplitLinesJoin | ExcellentScraper.py:832 | splitting newline-free lines joined by newlines gives the lines back |
| Text.JoinSliceOccurs | ExcellentScraper.py:832 | consecutive parts joined by the separator occur inside the join of all parts |
| Whitespace.CollapseNewlines | ExcellentScraper.py:763 | `re.sub(r'\n{3,}', '\n\n', s)`: scanning left to right, each run of three or more newlines becomes two, and every other character is copied |
| Whitespace.CollapseBlanks | ExcellentScraper.py:764 | `re.sub(r'[\t ]+', ' ', s)`: each maximal run of spaces and tabs becomes one space, and every other character is copied |
| Whitespace.NormalizeText | ExcellentScraper.py:762-764 | the container text clean-up: strip, then the newline substitution, then the blank substitution |
| Whitespace.CollapseNewlinesNoTriple | ExcellentScraper.py:763 | after `re.sub(r'\n{3,}', '\n\n', ...)` no three newlines are adjacent |
| Whitespace.CollapseNewlinesFixed | ExcellentScraper.py:763 | a text without three adjacent newlines is left unchanged by that substitution |
| Whitespace.CollapseBlanksClean | ExcellentScraper.py:764 | after `re.sub(r'[\t ]+', ' ', ...)` there is no tab and no double space |
| Whitespace.CollapseBlanksFixed | ExcellentScraper.py:764 | a text without tabs or double spaces is left unchanged by that substitution |
| Whitespace.CollapseBlanksNoTriple | ExcellentScraper.py:763-764 | the blank substitution creates no run of three newlines |
| Whitespace.NormalizeTextClean | ExcellentScraper.py:762-764 | strip and the two substitutions leave a stripped text with no tab, no double space and no three adjacent newlines |
| Whitespace.NormalizeTextIdempotent | ExcellentScraper.py:801-803 | normalising an already normalised text changes nothing |
| Whitespace.NormalizeTextKeepsInk | ExcellentScraper.py:801-803 | normalisation keeps every non-whitespace character, in order, and adds none |
| Whitespace.InkStrip | ExcellentScraper.py:762 | `strip()` removes whitespace only |
| Title.SourceCandidates | ExcellentScraper.py:634-671 | the candidates the five sources give, in order: headline, og:title, twitter:title, the qualifying first `<h1>`, the trimmed `<title>` |
| Title.TitleCandidates | ExcellentScraper.py:631-678 | `title_candidates`: the five sources' candidates, or the `<h1>` scan's result when they give none |
| Title.TrimSiteName | ExcellentScraper.py:661-669 | the stripped `<title>` cut before the first pipe separator if it has one, else before the first hyphen separator, else before the first en-dash separator, and stripped again |
| Title.SelectTitle | ExcellentScraper.py:680-692 | "No title found" without candidates, and otherwise one of the candidates: the first longest of 4 to 19 words, else the first |
| Title.BeforeFirst | ExcellentScraper.py:665 | `split(sep)[0]` is the prefix of the text up to the first occurrence of `sep`: no occurrence starts inside it, one starts right after it when the text holds `sep`, and it is the whole text otherwise |
| Title.FirstLongHeadingFinds | ExcellentScraper.py:674-678 | the any-`<h1>` scan finds nothing exactly when no stripped `<h1>` is longer than ten characters, and otherwise returns the first one that is |
| Title.SelectTitleLongest | ExcellentScraper.py:684-687 | when some candidate has 4 to 19 words, the title is such a candidate, at least as long as every other one, and strictly longer than every earlier one |
| Title.SelectTitleFirst | ExcellentScraper.py:688-690 | when no candidate has 4 to 19 words, the title is the first candidate |
| Title.NoCandidatesNoTitle | ExcellentScraper.py:681-692 | with no candidates the result is "No title found" |
| Title.HeadlineComesFirst | ExcellentScraper.py:636-638 | a non-empty headline meta gives the first candidate, stripped |
| Title.HeadingScanOnlyAsLastResort | ExcellentScraper.py:634-678 | when any of the five sources gives a candidate, the candidates are exactly those, without the `<h1>` scan; otherwise they are the scan's result; and the five give nothing exactly when no headline, og:title or twitter:title content, no qualifying first `<h1>` and no `<title>` text is present |
| Title.ScanHeadings | ExcellentScraper.py:674-678 | the `<h1>` loop with its `break` returns the scan's result, `FirstLongHeading` |
| Title.ResolveTitle | ExcellentScraper.py:629-692 | collecting the five sources, scanning the `<h1>`s when they give nothing, and selecting, yields `ExtractTitle(p)` |
| Title.CutRemovesSeparator | ExcellentScraper.py:665 | the part before the first separator, stripped, holds no separator |
| Title.TrimSiteNameSeparators | ExcellentScraper.py:663-669 | the trimmed `<title>` holds no pipe separator; it holds the hyphen separator only if the title held a pipe separator, and the en-dash separator only if it held one of those two; a title without any separator is only stripped |
| Title.HeadlineCanLose | ExcellentScraper.py:681-687 | a headline of fewer than 4 or more than 19 words loses to any candidate of 4 to 19 words |
| Headings.ArticleHeadings | ExcellentScraper.py:533-543 | the h1-h3 texts that are non-empty, longer than 3 characters and free of navigation words, in document order; `[title]` when none is and the title is non-empty |
| Headings.CollectHeadings | ExcellentScraper.py:533-543 | the heading loop and its fallback compute `ArticleHeadings` |
| Headings.HeadingsSpec | ExcellentScraper.py:533-543 | when some heading qualifies, the result is a subsequence of the h1/h2/h3 texts that holds every qualifying text as often as the page has it and nothing else, each longer than 3 characters and without a navigation word; otherwise it is `[title]` for a non-empty title, else empty |
| Extraction.ScrapeWithBeautifulSoup | ExcellentScraper.py:529-555 | the lightweight record: title from the resolver, headings collected against that title, content from the locator |
| Extraction.ScrapeWithSelenium | ExcellentScraper.py:597-627 | the rendered record: title is `driver.title`, headings collected against it, content from the locator |
| Extraction.RecordHeadings | ExcellentScraper.py:541-543 | a record has no headings exactly when no heading qualifies and its title is empty; without qualifying headings it has exactly `[title]` |
| Content.IsArticleParagraph | ExcellentScraper.py:755 | a container paragraph is kept when it is non-empty, has more than 4 words and its lower-cased text does not match the byline pattern |
| Content.IsLooseParagraph | ExcellentScraper.py:772-775 | a document paragraph is kept when it is non-empty, has more than 5 words and its lower-cased text holds none of the legal or marketing phrases |
| Content.DensityPass | ExcellentScraper.py:806-833 | a text of more than 20 lines is replaced by its first longest run of non-blank lines, joined by newlines, when that run has more than 5 lines; any other text is kept |
| Content.ArticleContent | ExcellentScraper.py:694-836 | the cascade: the longest container's kept paragraphs joined by blank lines, else its normalised text; without containers the document's kept paragraphs, else the density-passed normalised body, else "No content found" |
| Content.BlankLineStrips | ExcellentScraper.py:815 | a line is blank, holding no non-whitespace character, exactly when `line.strip()` is empty |
| Content.LineHasText | ExcellentScraper.py:815 | the test `line.strip()` holds exactly for non-blank lines |
| Content.RunAt | ExcellentScraper.py:814-823 | the block starting at a line is all non-blank and ends at a blank line or the end of the text |
| Content.BestRunIsBest | ExcellentScraper.py:806-832 | the reference definition picks a longest non-blank window, and every window starting earlier is strictly shorter |
| Content.CloseRun | ExcellentScraper.py:820-822 | closing a run at a blank line keeps the best span best among all windows seen so far, replacing it only with a strictly longer run |
| Content.PassBlank | ExcellentScraper.py:819-823 | a blank line never extends the best span |
| Content.ScanLine | ExcellentScraper.py:815-823 | one turn of the scan keeps the four loop facts: the open run is non-blank, starts after a blank line, starts at `current_start`, and the best span is best so far |
| Content.ScanLines | ExcellentScraper.py:809-824 | after the loop, the best closed span is best among windows before the open run, and the open run reaches the end |
| Content.LongestRun | ExcellentScraper.py:809-828 | the scan with its end-of-text check returns the first longest run of non-blank lines, equal to the reference definition |
| Content.ApplyDensityPass | ExcellentScraper.py:806-832 | the split, scan and cut compute `DensityPass` |
| Content.DensityPassSpec | ExcellentScraper.py:806-834 | a text of at most 20 lines is kept; a longer one is cut to its first longest non-blank run when that run has more than 5 lines, and kept otherwise |
| Content.DensityPassKeepsBlock | ExcellentScraper.py:831-834 | the result occurs in the input, and is either the input itself or more than 5 non-blank lines joined by newlines that split back into those lines |
| Content.ExtractArticleContent | ExcellentScraper.py:694-836 | the cascade, loop by loop, computes `ArticleContent` |
| Content.ContainerTier | ExcellentScraper.py:740-765 | with containers, the winner has the largest text length and beats every earlier one; the content is its byline-filtered paragraphs in order, joined by blank lines, or its normalised text when none qualify |
| Content.ParagraphTier | ExcellentScraper.py:768-779 | without containers, the content is the document's paragraphs of more than 5 words without a legal phrase, in order, joined by blank lines |
| Content.BodyTier | ExcellentScraper.py:801-834 | the body fallback has no tab, no double space and no three adjacent newlines; a text of at most 20 lines is returned as normalised |
| Content.OneLineBylineDropped | ExcellentScraper.py:755 | a one-line paragraph starting, in any case, with a byline word is dropped |
| Content.MultiLineParagraphKept | ExcellentScraper.py:755 | a paragraph of more than 4 words with a line break after its tenth character and before its last is kept, whatever it starts with, because `.` does not cross a newline |
| Urls.CollectedUrls | ExcellentScraper.py:396-406 | the loop's list: each entry stripped, blank ones skipped, `https://` put in front when no scheme is named, in entry order |
| Urls.NormalizeUrl | ExcellentScraper.py:400-404 | every collected address starts with `http://` or `https://` |
| Urls.CollectUrls | ExcellentScraper.py:396-406 | the loop computes `CollectedUrls` |
| Urls.CollectedUrlsInOrder | ExcellentScraper.py:399-405 | the list has one address per entry holding more than whitespace, in entry order, each normalised |
| Urls.NormalizeUrlSpec | ExcellentScraper.py:400-404 | an entry with a scheme gives its trimmed text; any other entry gives `https://` plus its trimmed text; the result is stripped |
| Urls.CollectedUrlsHaveScheme | ExcellentScraper.py:403-405 | every collected address names a scheme |
| Urls.NormalizeUrlIdempotent | ExcellentScraper.py:400-404 | normalising a normalised address changes nothing |
| Urls.CollectedUrlsIdempotent | ExcellentScraper.py:396-406 | collecting the collected addresses again gives the same list |
| Export.Row | ExcellentScraper.py:847-863 | an article's row: timestamp, URL, first heading or "No heading", content, then each further heading in order |
| Export.MaxHeadings | ExcellentScraper.py:868-871 | `max_headings`: 1, or the largest heading count of any article if that is larger |
| Export.NatToString | ExcellentScraper.py:875 | `str(n)` is a non-empty string of decimal digits |
| Export.NatToStringValue | ExcellentScraper.py:875 | the digits of `str(n)` denote `n`, and it has no leading zero unless `n` is 0 |
| Export.HeadingColumnNames | ExcellentScraper.py:874-875 | the column for heading `i` is `Heading ` followed by the decimal numeral of `i + 1`, without a leading zero |
| Export.HeadingColumnsDistinct | ExcellentScraper.py:874-875 | different heading positions get different column names |
| Export.Columns | ExcellentScraper.py:866-875 | the header has `3 + max_headings` names: the four fixed ones, then `Heading i+1` at position `3 + i` |
| Export.ColumnsStep | ExcellentScraper.py:874-875 | one more heading position appends its column name |
| Export.BuildRow | ExcellentScraper.py:849-863 | the padding loop builds exactly `Row(article)` |
| Export.BuildRows | ExcellentScraper.py:847-863 | one row per article, in order |
| Export.WidestHeadings | ExcellentScraper.py:869-871 | the loop computes `MaxHeadings` |
| Export.BuildColumns | ExcellentScraper.py:866-875 | the column loop computes `Columns(max_headings)` |
| Export.BuildSheet | ExcellentScraper.py:845-878 | the data frame's rows and columns are `ExportTable(records)` |
| Export.MaxHeadingsSpec | ExcellentScraper.py:869-871 | `max_headings` is at least 1, bounds every article's heading count, and is reached by some article when above 1 |
| Export.RowLayout | ExcellentScraper.py:849-861 | a row has `3 + max(1, len(headings))` cells, the first heading or "No heading" in cell 2, and heading `i` in cell `3 + i` |
| Export.SheetFits | ExcellentScraper.py:847-878 | no row is longer than the header, each heading sits under the column named for its position, and some row fills the header |
| Batch.RunUpTo | ExcellentScraper.py:436-471 | the loop state after the first k URLs: each URL handled in order by `AttemptUrl` with the browser state the previous URLs left, records and messages appended |
| Batch.EpilogueEvents | ExcellentScraper.py:473-487 | the messages after the loop: "Closed" when a browser was open and closing it did not raise; then the export message or "No data was scraped"; then the completion message, each cut off where closing or exporting raises |
| Batch.RecordFor | ExcellentScraper.py:621-627 | the record returned for a URL names that URL |
| Batch.AttemptUrl | ExcellentScraper.py:438-471 | one URL adds at most one record, for that URL; a browser is open afterwards exactly when one was before, or the lightweight fetch failed and starting the browser did not |
| Batch.Scraper.constructor | ExcellentScraper.py:45-46 | a new scraper has no run in progress, no records and no messages |
| Batch.Scraper.StartScraping | ExcellentScraper.py:408-428 | with a run in progress only "already in progress" is reported; with no URLs only "no URLs" is reported and nothing else changes; otherwise the full run of `ScrapeUrls` takes place over the collected URLs |
| Batch.Scraper.ScrapeUrls | ExcellentScraper.py:430-492 | records, messages, browser starts and closes, flag and exports after a run, in terms of the loop function `RunUpTo` and the epilogue |
| Batch.Scraper.RunLoop | ExcellentScraper.py:436-471 | the loop leaves the records, the browser state and the messages of `RunUpTo` over all URLs, and starts the browser at most once |
| Batch.Scraper.NextUrl | ExcellentScraper.py:438-471 | one turn advances the loop state from `RunUpTo(i)` to `RunUpTo(i + 1)` |
| Batch.Scraper.ScrapeOne | ExcellentScraper.py:439-471 | one URL's try blocks do what `AttemptUrl` says, and start the browser exactly when none was open and it becomes open |
| Batch.Scraper.FinishRun | ExcellentScraper.py:473-492 | the browser is closed once if it was opened; the sheet is exported when there are records; the flag is cleared unless closing or exporting raised |
| Batch.ResultsInOrder | ExcellentScraper.py:438-465 | at most one record per URL, and the records' URLs are a subsequence of the URL list |
| Batch.RecordsFromSuccesses | ExcellentScraper.py:447-465 | each record is one a scraping path returned for some URL; each URL whose lightweight fetch succeeded contributes its record; and each URL whose lightweight fetch failed and that the browser, open or started by then, rendered contributes the rendered record |
| Batch.Outcome | ExcellentScraper.py:447-465 | a URL contributes at most one record, and only one a scraping path returned for it |
| Batch.AttemptIsOutcome | ExcellentScraper.py:447-465 | when the browser is open exactly when an earlier URL started one, a turn keeps exactly that URL's outcome |
| Batch.RecordsAreSuccesses | ExcellentScraper.py:438-465 | the records of a run are exactly the URLs' outcomes concatenated in URL position order, where a URL's outcome is read off the fetch, start and render results alone |
| Batch.DriverOpenedIff | ExcellentScraper.py:453-458 | a browser is open after a prefix of URLs exactly when one of them failed the lightweight fetch and the browser started then |
| Batch.AllLightweight | ExcellentScraper.py:447-449 | when every lightweight fetch succeeds, no browser is started and the records are the lightweight ones, one per URL, in order |
| Batch.AbortLeavesNoCompletion | ExcellentScraper.py:473-487 | the completion message is missing exactly when closing the browser or writing the workbook raised |

## Left out

- The customtkinter window, its widgets, the URL entry add/remove/reset and the colour and
  merge animations. They are presentation only.
- The status thread and its queue. The messages are an appended log (`Scraper.log`) of
  `Status` values, without the clock prefix. The Selenium path's own messages ("Found content
  using selector", the load-timeout warning) are not in the log.
- The thread `_start_scraping` starts. `StartScraping` runs `_scrape_urls` to its end inside
  the same call, so nothing can interleave with a run.
- `requests.get`, `raise_for_status`, encoding detection and the choice of parser. Each is an
  outcome in `Environment`: the extracted fields or an error, per URL position.
- The Selenium waits, `ChromeDriverManager` and `driver.get`. They are parts of one outcome per
  URL.
- The progress bar and the random delay. Neither changes a record or a message.
- BeautifulSoup's tree, `find_all`, `select` and `decompose`. A page is given as the strings
  those queries return after the clean-ups. The in-place removal of noise nodes, and the fact
  that the first clean-up already changes the tree later read, are therefore not modelled.
- `datetime.now()`: timestamps and the export file name are given as strings.
- Writing the workbook with pandas/openpyxl, and `_merge_excel_files`. `Sheet` is the data
  passed to `pd.DataFrame`.
- The oracle gives each scraping path's extracted title, headings, content and timestamp. The
  batch proofs do not recompute them from a page; `Extraction` states how a page yields them.
- Text.Lower: lower-cases ASCII letters only. Python's full Unicode case mapping is not
  modelled.
- Batch.Scraper.ScrapeUrls: the in-progress flag is cleared only when neither closing the
  browser nor writing the workbook raises. The source has no `finally`, so such an exception
  leaves the flag set and the run unfinished.

## Behaviour worth noting

- Headline metadata does not always become the title. It is only the first candidate; a
  longer candidate of 4 to 19 words wins (`Title.HeadlineCanLose`).
- A failure to close the browser is not caught. It ends the run before the completion message
  and leaves the flag set (`Batch.AbortLeavesNoCompletion`).
- When the browser fails to start, the error is reported for that URL only. No browser is kept,
  so the next URL that needs one tries again (`Batch.BrowserBy`, `Batch.RecordsAreSuccesses`).
- The byline pattern reads one line: `.` stops at a newline, and `$` also matches before a
  final newline. A multi-line paragraph that starts with "share" is therefore kept
  (`Content.MultiLineParagraphKept`).
