/** The batch controller: `_start_scraping` guards a run with the in-progress flag, and
    `_scrape_urls` visits the URLs in order, tries the lightweight fetch first and falls back to
    a browser that it starts at most once, keeps the records that were built, closes the browser
    and exports the sheet. What the network, the browser and the clock answer is given up front
    as an environment of outcomes indexed by URL position. */
module Batch {
  import opened Wrappers
  import opened Seqs
  import opened Pages
  import opened Urls
  import opened Export

  /** What one scraping path extracted from a page: every field of the record but the URL,
      which is the one the path was called with. */
  datatype Extracted = Extracted(title: string, headings: seq<string>, content: string, timestamp: string)

  /** `_scrape_with_beautifulsoup(url)`: its record, or the exception it raised. */
  datatype LightFetch =
    | Fetched(light: Extracted)
    | FetchFailed(error: string)

  /** `_scrape_with_selenium(driver, url)`: its record, or the exception it raised. */
  datatype RenderFetch =
    | Rendered(rendered: Extracted)
    | RenderFailed(error: string)

  /** The outcomes the outside world provides. `driverStart(i)` is the error raised when the
      browser has to be started while URL `i` is handled, if starting it fails. */
  datatype Environment = Environment(
    light: nat -> LightFetch,
    driverStart: nat -> Option<string>,
    rendered: nat -> RenderFetch,
    quitRaises: bool,
    exportRaises: bool,
    exportName: string)

  /** The status messages the run reports, in the order `_update_status` is called. */
  datatype Status =
    | AlreadyRunning
    | NoUrls
    | Starting(count: nat)
    | Scraping(position: nat, count: nat, url: string)
    | LightSucceeded(url: string)
    | LightFailed(url: string, error: string)
    | InitializingDriver
    | RenderSucceeded(url: string)
    | UrlFailed(url: string, error: string)
    | ClosedDriver
    | Exported(filename: string)
    | NothingScraped
    | Completed

  /** The dictionary a scraping path returns for `url`. */
  function RecordFor(url: string, x: Extracted): (r: ArticleRecord)
    ensures r.url == url
  {
    ArticleRecord(url, x.title, x.headings, x.content, x.timestamp)
  }

  /** What handling one URL does: whether a browser is open afterwards, the record it keeps
      (none or one) and the messages it reports. */
  datatype Attempt = Attempt(driver: bool, records: seq<ArticleRecord>, events: seq<Status>)

  /** One turn of the loop for URL `i` of `count`, with or without an open browser. */
  function AttemptUrl(env: Environment, i: nat, count: nat, url: string, driver: bool): (a: Attempt)
    ensures |a.records| <= 1
    ensures forall k :: 0 <= k < |a.records| ==> a.records[k].url == url
    ensures a.driver == (driver || (env.light(i).FetchFailed? && env.driverStart(i).None?))
  {
    var head := [Scraping(i + 1, count, url)];
    match env.light(i)
    case Fetched(x) =>
      Attempt(driver, [RecordFor(url, x)], head + [LightSucceeded(url)])
    case FetchFailed(e) =>
      var failed := head + [LightFailed(url, e)];
      if !driver && env.driverStart(i).Some? then
        Attempt(false, [], failed + [InitializingDriver, UrlFailed(url, env.driverStart(i).value)])
      else
        var started := if driver then failed else failed + [InitializingDriver];
        match env.rendered(i)
        case Rendered(x) =>
          Attempt(true, [RecordFor(url, x)], started + [RenderSucceeded(url)])
        case RenderFailed(e2) =>
          Attempt(true, [], started + [UrlFailed(url, e2)])
  }

  /** The loop's state after the first `k` URLs: browser open, records kept, messages. */
  function RunUpTo(env: Environment, urls: seq<string>, k: nat): Attempt
    requires k <= |urls|
  {
    if k == 0 then Attempt(false, [], [])
    else
      var before := RunUpTo(env, urls, k - 1);
      var a := AttemptUrl(env, k - 1, |urls|, urls[k - 1], before.driver);
      Attempt(a.driver, before.records + a.records, before.events + a.events)
  }

  /** A run stops with an exception, leaving the flag set, when closing an open browser
      raises, or when writing the workbook for a non-empty result raises. */
  predicate Aborts(env: Environment, driverOpen: bool, results: seq<ArticleRecord>) {
    (driverOpen && env.quitRaises) || (results != [] && env.exportRaises)
  }

  /** The messages after the loop, up to where the run ends. */
  function EpilogueEvents(env: Environment, driverOpen: bool, results: seq<ArticleRecord>): seq<Status> {
    var close := if driverOpen && !env.quitRaises then [ClosedDriver] else [];
    if driverOpen && env.quitRaises then []
    else if results == [] then close + [NothingScraped, Completed]
    else if env.exportRaises then close
    else close + [Exported(env.exportName), Completed]
  }

  /** The scraper's run state: the flag that guards a run, the records of the last run, the
      status messages so far, and the sheets exported. */
  class Scraper {
    var scrapingInProgress: bool
    var scrapedData: seq<ArticleRecord>
    var log: seq<Status>
    var exports: seq<Sheet>

    constructor()
      ensures !scrapingInProgress && scrapedData == [] && log == [] && exports == []
    {
      scrapingInProgress := false;
      scrapedData := [];
      log := [];
      exports := [];
    }

    /** `_start_scraping`, with the thread it starts run to its end. `started` and `quit` count
        how often the browser was started and closed. */
    method StartScraping(entries: seq<string>, env: Environment) returns (started: nat, quit: nat)
      modifies this
      ensures old(scrapingInProgress) ==>
        && scrapingInProgress && scrapedData == old(scrapedData) && exports == old(exports)
        && log == old(log) + [AlreadyRunning] && started == 0 && quit == 0
      ensures !old(scrapingInProgress) && CollectedUrls(entries) == [] ==>
        && !scrapingInProgress && scrapedData == old(scrapedData) && exports == old(exports)
        && log == old(log) + [NoUrls] && started == 0 && quit == 0
      ensures !old(scrapingInProgress) && CollectedUrls(entries) != [] ==>
        var urls := CollectedUrls(entries);
        var run := RunUpTo(env, urls, |urls|);
        && scrapedData == run.records
        && log == old(log) + [Starting(|urls|)] + run.events + EpilogueEvents(env, run.driver, run.records)
        && started == (if run.driver then 1 else 0)
        && quit == started
        && scrapingInProgress == Aborts(env, run.driver, run.records)
        && exports == old(exports) + (if run.records != [] && !Aborts(env, run.driver, run.records)
                                      then [ExportTable(run.records)] else [])
    {
      started, quit := 0, 0;
      if scrapingInProgress {
        log := log + [AlreadyRunning];
        return;
      }
      var urls := CollectUrls(entries);
      if urls == [] {
        log := log + [NoUrls];
        return;
      }
      scrapingInProgress := true;
      started, quit := ScrapeUrls(urls, env);
    }

    /** `_scrape_urls`: the loop over the URLs, closing the browser, and the export. */
    method ScrapeUrls(urls: seq<string>, env: Environment) returns (started: nat, quit: nat)
      modifies this
      ensures var run := RunUpTo(env, urls, |urls|);
        && scrapedData == run.records
        && log == old(log) + [Starting(|urls|)] + run.events + EpilogueEvents(env, run.driver, run.records)
        && started == (if run.driver then 1 else 0)
        && quit == started
        && scrapingInProgress == (old(scrapingInProgress) && Aborts(env, run.driver, run.records))
        && exports == old(exports) + (if run.records != [] && !Aborts(env, run.driver, run.records)
                                      then [ExportTable(run.records)] else [])
    {
      log := log + [Starting(|urls|)];
      var driver;
      driver, started := RunLoop(urls, env);
      quit := FinishRun(env, driver);
    }

    /** The loop over the URLs, from an empty result list and no browser. */
    method RunLoop(urls: seq<string>, env: Environment) returns (driver: bool, started: nat)
      modifies this
      ensures driver == RunUpTo(env, urls, |urls|).driver
      ensures scrapedData == RunUpTo(env, urls, |urls|).records
      ensures log == old(log) + RunUpTo(env, urls, |urls|).events
      ensures started == (if driver then 1 else 0)
      ensures exports == old(exports) && scrapingInProgress == old(scrapingInProgress)
    {
      scrapedData := [];
      driver := false;
      started := 0;
      for i := 0 to |urls|
        invariant driver == RunUpTo(env, urls, i).driver
        invariant scrapedData == RunUpTo(env, urls, i).records
        invariant log == old(log) + RunUpTo(env, urls, i).events
        invariant started == (if driver then 1 else 0)
        invariant exports == old(exports) && scrapingInProgress == old(scrapingInProgress)
      {
        driver, started := NextUrl(urls, env, i, driver, started, old(log));
      }
    }

    /** The loop's state carried over URL `i`. */
    method NextUrl(urls: seq<string>, env: Environment, i: nat, driver: bool, started: nat, ghost earlier: seq<Status>)
      returns (driver': bool, started': nat)
      requires i < |urls|
      requires driver == RunUpTo(env, urls, i).driver
      requires scrapedData == RunUpTo(env, urls, i).records
      requires log == earlier + RunUpTo(env, urls, i).events
      requires started == (if driver then 1 else 0)
      modifies this
      ensures driver' == RunUpTo(env, urls, i + 1).driver
      ensures scrapedData == RunUpTo(env, urls, i + 1).records
      ensures log == earlier + RunUpTo(env, urls, i + 1).events
      ensures started' == (if driver' then 1 else 0)
      ensures exports == old(exports) && scrapingInProgress == old(scrapingInProgress)
    {
      var startedNow;
      driver', startedNow := ScrapeOne(env, i, |urls|, urls[i], driver);
      started' := started + startedNow;
    }

    /** After the loop: close the browser if one is open, then export the records or report
        that there are none, and clear the flag. An exception from closing or exporting ends
        the run on the spot. */
    method FinishRun(env: Environment, driver: bool) returns (quit: nat)
      modifies this
      ensures quit == (if driver then 1 else 0)
      ensures scrapedData == old(scrapedData)
      ensures log == old(log) + EpilogueEvents(env, driver, scrapedData)
      ensures scrapingInProgress == (old(scrapingInProgress) && Aborts(env, driver, scrapedData))
      ensures exports == old(exports) + (if scrapedData != [] && !Aborts(env, driver, scrapedData)
                                         then [ExportTable(scrapedData)] else [])
    {
      quit := 0;
      if driver {
        quit := quit + 1;
        if env.quitRaises {
          return;
        }
        log := log + [ClosedDriver];
      }
      if scrapedData != [] {
        if env.exportRaises {
          return;
        }
        var sheet := BuildSheet(scrapedData);
        exports := exports + [sheet];
        log := log + [Exported(env.exportName)];
      } else {
        log := log + [NothingScraped];
      }
      log := log + [Completed];
      scrapingInProgress := false;
    }

    /** One turn of the loop: the lightweight path, and on its failure the browser, started
        first when none is open. Any error ends the turn for this URL only. */
    method ScrapeOne(env: Environment, i: nat, count: nat, url: string, driver: bool)
      returns (driverAfter: bool, startedNow: nat)
      modifies this
      ensures var a := AttemptUrl(env, i, count, url, driver);
        && driverAfter == a.driver
        && scrapedData == old(scrapedData) + a.records
        && log == old(log) + a.events
      ensures startedNow == (if !driver && driverAfter then 1 else 0)
      ensures exports == old(exports) && scrapingInProgress == old(scrapingInProgress)
    {
      driverAfter, startedNow := driver, 0;
      log := log + [Scraping(i + 1, count, url)];
      match env.light(i)
      case Fetched(x) =>
        log := log + [LightSucceeded(url)];
        scrapedData := scrapedData + [RecordFor(url, x)];
      case FetchFailed(e) =>
        log := log + [LightFailed(url, e)];
        if !driverAfter {
          log := log + [InitializingDriver];
          match env.driverStart(i)
          case Some(e1) =>
            log := log + [UrlFailed(url, e1)];
            return;
          case None =>
            driverAfter := true;
            startedNow := 1;
        }
        match env.rendered(i)
        case Rendered(x) =>
          log := log + [RenderSucceeded(url)];
          scrapedData := scrapedData + [RecordFor(url, x)];
        case RenderFailed(e2) =>
          log := log + [UrlFailed(url, e2)];
    }
  }

  // ---------------------------------------------------------------------------------------
  // What a run promises

  /** The records of a run follow the URLs in order: at most one record per URL, each naming
      the URL it was built for. */
  lemma {:induction false} ResultsInOrder(env: Environment, urls: seq<string>, k: nat)
    requires k <= |urls|
    ensures |RunUpTo(env, urls, k).records| <= k
    ensures IsSubsequence(RecordUrls(RunUpTo(env, urls, k).records), urls[..k])
    decreases k
  {
    if k > 0 {
      ResultsInOrder(env, urls, k - 1);
      var before := RunUpTo(env, urls, k - 1);
      var a := AttemptUrl(env, k - 1, |urls|, urls[k - 1], before.driver);
      var prefix := urls[..k];
      assert prefix[..k - 1] == urls[..k - 1];
      var su := RecordUrls(before.records);
      if a.records != [] {
        assert a.records == [a.records[0]];
        assert RecordUrls(before.records + a.records) == su + [urls[k - 1]];
        assert (su + [urls[k - 1]])[..|su|] == su;
      } else {
        assert before.records + a.records == before.records;
        SubsequenceOfLonger(su, prefix);
      }
    }
  }

  /** The URL of each record, in order. */
  function RecordUrls(records: seq<ArticleRecord>): (urls: seq<string>)
    ensures |urls| == |records|
  {
    seq(|records|, k requires 0 <= k < |records| => records[k].url)
  }

  /** A sequence stays a subsequence when the other one grows at its end. */
  lemma {:induction false} SubsequenceOfLonger<T>(a: seq<T>, b: seq<T>)
    requires b != [] && IsSubsequence(a, b[..|b| - 1])
    ensures IsSubsequence(a, b)
    decreases |b|, 0
  {
    if a != [] && a[|a| - 1] == b[|b| - 1] {
      SubsequenceDropLast(a, b[..|b| - 1]);
    }
  }

  /** A subsequence stays one when its last element is dropped. */
  lemma {:induction false} SubsequenceDropLast<T>(a: seq<T>, b: seq<T>)
    requires a != [] && IsSubsequence(a, b)
    ensures IsSubsequence(a[..|a| - 1], b)
    decreases |b|, 1
  {
    if b != [] {
      if a[|a| - 1] == b[|b| - 1] {
        if a[..|a| - 1] != [] {
          SubsequenceOfLonger(a[..|a| - 1], b);
        }
      } else {
        SubsequenceDropLast(a, b[..|b| - 1]);
        if a[..|a| - 1] != [] {
          SubsequenceOfLonger(a[..|a| - 1], b);
        }
      }
    }
  }

  /** Record `r` is what a scraping path returned for URL `i`: the lightweight record, or the
      rendered one after the lightweight fetch failed. */
  predicate SucceededWith(env: Environment, urls: seq<string>, i: nat, r: ArticleRecord)
    requires i < |urls|
  {
    || (env.light(i).Fetched? && r == RecordFor(urls[i], env.light(i).light))
    || (env.light(i).FetchFailed? && env.rendered(i).Rendered? && r == RecordFor(urls[i], env.rendered(i).rendered))
  }

  /** A browser is open while URL `i` is handled: it was started while `i` or an earlier URL
      was handled, which is tried at each URL whose lightweight fetch failed. */
  predicate BrowserBy(env: Environment, i: nat) {
    exists j :: 0 <= j <= i && env.light(j).FetchFailed? && env.driverStart(j).None?
  }

  /** What URL `i` contributes to the results, told from the outcomes alone: the lightweight
      record, else the rendered one when a browser is there to render it, else nothing. */
  function Outcome(env: Environment, urls: seq<string>, i: nat): (rs: seq<ArticleRecord>)
    requires i < |urls|
    ensures |rs| <= 1
    ensures forall r :: r in rs ==> SucceededWith(env, urls, i, r)
  {
    match env.light(i)
    case Fetched(x) => [RecordFor(urls[i], x)]
    case FetchFailed(_) =>
      if BrowserBy(env, i) && env.rendered(i).Rendered? then [RecordFor(urls[i], env.rendered(i).rendered)]
      else []
  }

  /** The outcomes of the first `k` URLs, concatenated in URL order. */
  function Successes(env: Environment, urls: seq<string>, k: nat): (rs: seq<ArticleRecord>)
    requires k <= |urls|
    ensures |rs| <= k
    decreases k
  {
    if k == 0 then [] else Successes(env, urls, k - 1) + Outcome(env, urls, k - 1)
  }

  /** The records a run keeps are exactly the successful outcomes, position by position in
      URL order, whatever the browser's state along the way. */
  lemma {:induction false} RecordsAreSuccesses(env: Environment, urls: seq<string>, k: nat)
    requires k <= |urls|
    ensures RunUpTo(env, urls, k).records == Successes(env, urls, k)
    decreases k
  {
    if k > 0 {
      RecordsAreSuccesses(env, urls, k - 1);
      DriverOpenedIff(env, urls, k - 1);
      AttemptIsOutcome(env, urls, k - 1, RunUpTo(env, urls, k - 1).driver);
    }
  }

  /** One turn keeps URL `i`'s outcome, given a browser open exactly when an earlier URL
      started one. */
  lemma AttemptIsOutcome(env: Environment, urls: seq<string>, i: nat, driver: bool)
    requires i < |urls|
    requires driver <==> exists j :: 0 <= j < i && env.light(j).FetchFailed? && env.driverStart(j).None?
    ensures AttemptUrl(env, i, |urls|, urls[i], driver).records == Outcome(env, urls, i)
  {
    if env.light(i).FetchFailed? {
      if driver {
        var j :| 0 <= j < i && env.light(j).FetchFailed? && env.driverStart(j).None?;
        assert BrowserBy(env, i);
      } else if env.driverStart(i).None? {
        assert BrowserBy(env, i);
      } else {
        assert !BrowserBy(env, i);
      }
    }
  }

  /** Every record kept is one a scraping path returned for one of the URLs; every URL whose
      lightweight fetch succeeded has its record kept; and so does every URL rendered by the
      browser after its lightweight fetch failed. */
  lemma RecordsFromSuccesses(env: Environment, urls: seq<string>, k: nat)
    requires k <= |urls|
    ensures forall r :: r in RunUpTo(env, urls, k).records ==>
      exists i :: 0 <= i < k && SucceededWith(env, urls, i, r)
    ensures forall i :: 0 <= i < k && env.light(i).Fetched? ==>
      RecordFor(urls[i], env.light(i).light) in RunUpTo(env, urls, k).records
    ensures forall i :: 0 <= i < k && env.light(i).FetchFailed? && env.rendered(i).Rendered? && BrowserBy(env, i) ==>
      RecordFor(urls[i], env.rendered(i).rendered) in RunUpTo(env, urls, k).records
  {
    RecordsAreSuccesses(env, urls, k);
    SuccessesHold(env, urls, k);
    forall i | 0 <= i < k
      ensures env.light(i).Fetched? ==> RecordFor(urls[i], env.light(i).light) in Outcome(env, urls, i)
      ensures env.light(i).FetchFailed? && env.rendered(i).Rendered? && BrowserBy(env, i) ==>
        RecordFor(urls[i], env.rendered(i).rendered) in Outcome(env, urls, i)
    {
    }
  }

  /** Each of the first `k` outcomes is among the successes, and nothing else is. */
  lemma {:induction false} SuccessesHold(env: Environment, urls: seq<string>, k: nat)
    requires k <= |urls|
    ensures forall r :: r in Successes(env, urls, k) ==> exists i :: 0 <= i < k && SucceededWith(env, urls, i, r)
    ensures forall i, r :: 0 <= i < k && r in Outcome(env, urls, i) ==> r in Successes(env, urls, k)
    decreases k
  {
    if k > 0 {
      SuccessesHold(env, urls, k - 1);
      assert Successes(env, urls, k) == Successes(env, urls, k - 1) + Outcome(env, urls, k - 1);
    }
  }

  /** The browser is open after the first `k` URLs exactly when one of them failed the
      lightweight fetch and the browser started while that URL was handled. */
  lemma {:induction false} DriverOpenedIff(env: Environment, urls: seq<string>, k: nat)
    requires k <= |urls|
    ensures RunUpTo(env, urls, k).driver <==>
      exists i :: 0 <= i < k && env.light(i).FetchFailed? && env.driverStart(i).None?
    decreases k
  {
    if k > 0 {
      DriverOpenedIff(env, urls, k - 1);
    }
  }

  /** When every lightweight fetch succeeds, no browser is started and every URL gives its
      lightweight record, in order. */
  lemma {:induction false} AllLightweight(env: Environment, urls: seq<string>, k: nat)
    requires k <= |urls|
    requires forall i :: 0 <= i < k ==> env.light(i).Fetched?
    ensures !RunUpTo(env, urls, k).driver
    ensures RunUpTo(env, urls, k).records ==
      seq(k, i requires 0 <= i < k => RecordFor(urls[i], env.light(i).light))
    decreases k
  {
    if k > 0 {
      AllLightweight(env, urls, k - 1);
    }
  }

  /** A run is cut short, with the flag left set and no completion notice, exactly when
      closing the browser or writing the workbook raises. */
  lemma AbortLeavesNoCompletion(env: Environment, driverOpen: bool, results: seq<ArticleRecord>)
    ensures Aborts(env, driverOpen, results) <==> Completed !in EpilogueEvents(env, driverOpen, results)
  {
  }
}
