/** The URL list a batch starts from: each entry field trimmed, empty ones skipped, and
    `https://` put in front of an address that names no scheme. */
module Urls {
  import opened Seqs
  import opened Text

  const Http := "http://"
  const Https := "https://"

  /** `url.startswith(("http://", "https://"))`. */
  predicate HasScheme(url: string) {
    StartsWith(url, Http) || StartsWith(url, Https)
  }

  /** An entry field that holds more than whitespace. */
  predicate IsFilledEntry(entry: string) {
    Strip(entry) != ""
  }

  /** The address one filled entry contributes. */
  function NormalizeUrl(entry: string): (url: string)
    ensures HasScheme(url)
  {
    var trimmed := Strip(entry);
    if HasScheme(trimmed) then trimmed
    else
      assert (Https + trimmed)[..|Https|] == Https;
      Https + trimmed
  }

  /** The list the collection loop builds, written from the end as the loop appends. */
  function CollectedUrls(entries: seq<string>): (urls: seq<string>)
    ensures |urls| <= |entries|
    decreases |entries|
  {
    if entries == [] then []
    else
      var init := CollectedUrls(entries[..|entries| - 1]);
      var last := entries[|entries| - 1];
      if IsFilledEntry(last) then init + [NormalizeUrl(last)] else init
  }

  /** `_collect_urls`, loop by loop. */
  method CollectUrls(entries: seq<string>) returns (urls: seq<string>)
    ensures urls == CollectedUrls(entries)
  {
    urls := [];
    for i := 0 to |entries|
      invariant urls == CollectedUrls(entries[..i])
    {
      assert entries[..i + 1][..i] == entries[..i];
      var url := Strip(entries[i]);
      if url != "" {
        if !HasScheme(url) {
          url := Https + url;
        }
        urls := urls + [url];
      }
    }
    assert entries[..|entries|] == entries;
  }

  /** The collected list is, in entry order, one address per filled entry: the entries that
      hold more than whitespace, each normalised. */
  lemma {:induction false} CollectedUrlsInOrder(entries: seq<string>)
    ensures |CollectedUrls(entries)| == |Filter(entries, IsFilledEntry)|
    ensures forall k :: 0 <= k < |CollectedUrls(entries)| ==>
      CollectedUrls(entries)[k] == NormalizeUrl(Filter(entries, IsFilledEntry)[k])
    decreases |entries|
  {
    if entries != [] {
      var init := entries[..|entries| - 1];
      var last := entries[|entries| - 1];
      CollectedUrlsInOrder(init);
      var urls := CollectedUrls(init);
      var kept := Filter(init, IsFilledEntry);
      if IsFilledEntry(last) {
        UnfoldFilled(entries, init, last);
        forall k | 0 <= k < |urls| + 1
          ensures (urls + [NormalizeUrl(last)])[k] == NormalizeUrl((kept + [last])[k])
        {
          if k < |urls| {
            assert (urls + [NormalizeUrl(last)])[k] == urls[k];
            assert (kept + [last])[k] == kept[k];
          }
        }
      } else {
        UnfoldBlank(entries, init, last);
      }
    }
  }

  lemma UnfoldFilled(entries: seq<string>, init: seq<string>, last: string)
    requires entries != [] && init == entries[..|entries| - 1] && last == entries[|entries| - 1]
    requires IsFilledEntry(last)
    ensures CollectedUrls(entries) == CollectedUrls(init) + [NormalizeUrl(last)]
    ensures Filter(entries, IsFilledEntry) == Filter(init, IsFilledEntry) + [last]
  {
  }

  lemma UnfoldBlank(entries: seq<string>, init: seq<string>, last: string)
    requires entries != [] && init == entries[..|entries| - 1] && last == entries[|entries| - 1]
    requires !IsFilledEntry(last)
    ensures CollectedUrls(entries) == CollectedUrls(init)
    ensures Filter(entries, IsFilledEntry) == Filter(init, IsFilledEntry)
  {
  }

  /** Every collected address names a scheme, and it is the trimmed entry itself exactly when
      that already named one; otherwise it is `https://` followed by the trimmed entry. */
  lemma NormalizeUrlSpec(entry: string)
    ensures HasScheme(NormalizeUrl(entry))
    ensures HasScheme(Strip(entry)) ==> NormalizeUrl(entry) == Strip(entry)
    ensures !HasScheme(Strip(entry)) ==> NormalizeUrl(entry) == Https + Strip(entry)
    ensures IsStripped(NormalizeUrl(entry))
  {
    var trimmed := Strip(entry);
    if !HasScheme(trimmed) && trimmed != "" {
      var url := Https + trimmed;
      assert url[0] == 'h';
      assert url[|url| - 1] == trimmed[|trimmed| - 1];
    }
  }

  /** Every collected address names a scheme. */
  lemma CollectedUrlsHaveScheme(entries: seq<string>)
    ensures forall url :: url in CollectedUrls(entries) ==> HasScheme(url)
  {
    CollectedUrlsInOrder(entries);
    forall url | url in CollectedUrls(entries)
      ensures HasScheme(url)
    {
      var k :| 0 <= k < |CollectedUrls(entries)| && CollectedUrls(entries)[k] == url;
    }
  }

  /** Normalising an address that was already normalised changes nothing. */
  lemma NormalizeUrlIdempotent(entry: string)
    ensures NormalizeUrl(NormalizeUrl(entry)) == NormalizeUrl(entry)
  {
    NormalizeUrlSpec(entry);
    StripIdentity(NormalizeUrl(entry));
  }

  /** A normalised address is never blank. */
  lemma NormalizedIsFilled(entry: string)
    ensures IsFilledEntry(NormalizeUrl(entry))
  {
    var url := NormalizeUrl(entry);
    NormalizeUrlSpec(entry);
    StripIdentity(url);
    assert |Http| <= |url| || |Https| <= |url|;
  }

  /** Collecting the collected addresses again gives the same list. */
  lemma {:induction false} CollectedUrlsIdempotent(entries: seq<string>)
    ensures CollectedUrls(CollectedUrls(entries)) == CollectedUrls(entries)
    decreases |entries|
  {
    if entries != [] {
      var init := entries[..|entries| - 1];
      var last := entries[|entries| - 1];
      CollectedUrlsIdempotent(init);
      var before := CollectedUrls(init);
      if IsFilledEntry(last) {
        var url := NormalizeUrl(last);
        UnfoldFilled(entries, init, last);
        NormalizeUrlIdempotent(last);
        NormalizedIsFilled(last);
        var urls := before + [url];
        assert urls[..|urls| - 1] == before;
        UnfoldFilled(urls, before, url);
      } else {
        UnfoldBlank(entries, init, last);
      }
    }
  }
}
