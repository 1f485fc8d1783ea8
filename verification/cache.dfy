/** The two dump files and the notebook's run over them. The link-list dump
    (`ag_dra.spectra_list.pckl`) is rewritten only when the fresh scrape has
    more distinct links; the data dump (`ag_dra.data_dump.pckl`), when
    present, is loaded instead of downloading anything. Files are abstracted
    as an optional content per dump: present or absent, and a saved value
    loads back unchanged. */
module Cache {
  import opened Wrappers
  import opened Spectrum
  import opened LinkExtractor
  import opened Acquisition

  /** The two dumps on disk; None when the file does not exist. */
  datatype Store = Store(spectraList: Option<seq<string>>, spectraData: Option<seq<SpectrumRecord>>)

  /** Why a run stops before the collection is in memory. */
  datatype Failure =
    | ScrapeFailed(listError: ListError)
    | DownloadAborted(loopError: LoopError)

  /** The end of a run: the dumps as they are on disk afterwards and, for a
      completed run, the collection in memory. */
  datatype Run =
    | Completed(store: Store, data: seq<SpectrumRecord>)
    | Aborted(store: Store, failure: Failure)

  /** The links of a list without repetition, `set(links)`. */
  function Distinct(links: seq<string>): set<string>
  {
    set l | l in links
  }

  function Max(a: int, b: int): int
  {
    if a < b then b else a
  }

  /** The link-list dump rule: write the fresh list when no dump exists;
      otherwise replace the stored list only when the fresh one has strictly
      more distinct links. Only the counts are compared. */
  function UpdateSpectraList(store: Store, current: seq<string>): (s: Store)
    ensures s.spectraData == store.spectraData
    ensures s.spectraList == store.spectraList || s.spectraList == Some(current)
    ensures store.spectraList.None? ==> s.spectraList == Some(current)
    ensures store.spectraList.Some? ==>
              |Distinct(s.spectraList.value)| == Max(|Distinct(store.spectraList.value)|, |Distinct(current)|)
  {
    match store.spectraList
    case None => store.(spectraList := Some(current))
    case Some(stored) =>
      if |Distinct(current)| > |Distinct(stored)| then store.(spectraList := Some(current)) else store
  }

  /** Running the rule twice on the same scrape changes nothing more. */
  lemma UpdateSpectraListIdempotent(store: Store, current: seq<string>)
    ensures UpdateSpectraList(UpdateSpectraList(store, current), current) == UpdateSpectraList(store, current)
  {
  }

  /** A fresh list with as many distinct links as the stored one leaves the
      stored list in place, even when the two lists hold different links. */
  lemma EqualCountKeepsStoredList(stored: seq<string>, current: seq<string>, data: Option<seq<SpectrumRecord>>)
    requires |Distinct(current)| == |Distinct(stored)|
    ensures UpdateSpectraList(Store(Some(stored), data), current).spectraList == Some(stored)
  {
  }

  /** A link can go missing from the stored list: the fresh scrape
      ["a.fit", "c.fit"] does not replace the stored ["a.fit", "b.fit"]. */
  lemma NewLinkCanBeMissed()
    ensures var s := UpdateSpectraList(Store(Some(["a.fit", "b.fit"]), None), ["a.fit", "c.fit"]);
      s.spectraList == Some(["a.fit", "b.fit"]) && "c.fit" !in s.spectraList.value
  {
    assert "a.fit" != "b.fit" && "a.fit" != "c.fit" by {
      assert "a.fit"[0] != "b.fit"[0] && "a.fit"[0] != "c.fit"[0];
    }
    assert Distinct(["a.fit", "b.fit"]) == {"a.fit", "b.fit"};
    assert Distinct(["a.fit", "c.fit"]) == {"a.fit", "c.fit"};
  }

  /** The data-dump gate: a present dump is loaded and nothing is fetched;
      otherwise the loop runs over the links and, if it completes, its
      collection is saved. */
  function LoadOrDownload(store: Store, links: seq<string>, fetch: Fetch): (r: Run)
    ensures r.store.spectraList == store.spectraList
    ensures r.Completed? ==> r.store.spectraData == Some(r.data)
    ensures store.spectraData.Some? ==> r == Completed(store, store.spectraData.value)
    ensures store.spectraData.None? ==>
              && (r.Completed? <==> Collect(links, fetch).Ok?)
              && (r.Completed? ==> r.data == Collect(links, fetch).value)
              && (r.Aborted? ==> r.store == store && r.failure == DownloadAborted(Collect(links, fetch).error))
  {
    match store.spectraData
    case Some(saved) => Completed(store, saved)
    case None =>
      match Collect(links, fetch)
      case Ok(data) => Completed(store.(spectraData := Some(data)), data)
      case Err(e) => Aborted(store, DownloadAborted(e))
  }

  /** One run of the notebook: scrape the page, apply the link-list dump
      rule, then the data-dump gate over the scraped links. */
  function RunNotebook(store: Store, page: string -> Option<seq<Href>>, fetch: Fetch): (r: Run)
    ensures r.Aborted? ==> r.store.spectraData == store.spectraData
    ensures r.Completed? ==> r.store.spectraData == Some(r.data)
    ensures store.spectraData.Some? && r.Completed? ==> r.store.spectraData == store.spectraData
    ensures DownloadListSpectra(RootSite, Topic, page).Err? ==>
              r == Aborted(store, ScrapeFailed(DownloadListSpectra(RootSite, Topic, page).error))
    ensures DownloadListSpectra(RootSite, Topic, page).Ok? ==> r.store.spectraList.Some?
    ensures DownloadListSpectra(RootSite, Topic, page).Ok? ==>
              var links := DownloadListSpectra(RootSite, Topic, page).value;
              && r.store.spectraList == UpdateSpectraList(store, links).spectraList
              && (store.spectraData.None? ==>
                    && (r.Completed? <==> Collect(links, fetch).Ok?)
                    && (r.Completed? ==> r.data == Collect(links, fetch).value)
                    && (r.Aborted? ==> r.failure == DownloadAborted(Collect(links, fetch).error)))
  {
    match DownloadListSpectra(RootSite, Topic, page)
    case Err(e) => Aborted(store, ScrapeFailed(e))
    case Ok(links) => LoadOrDownload(UpdateSpectraList(store, links), links, fetch)
  }

  /** With a data dump on disk, a run whose scrape succeeds loads that dump,
      whatever the network would have returned for any link. */
  lemma CacheHitFetchesNothing(store: Store, page: string -> Option<seq<Href>>, fetch1: Fetch, fetch2: Fetch)
    requires store.spectraData.Some?
    requires DownloadListSpectra(RootSite, Topic, page).Ok?
    ensures RunNotebook(store, page, fetch1) == RunNotebook(store, page, fetch2)
    ensures RunNotebook(store, page, fetch1).Completed?
    ensures RunNotebook(store, page, fetch1).data == store.spectraData.value
  {
  }

  /** The collection a run ends with depends on the data dump alone, never on
      the link-list dump or its update. */
  lemma DataIgnoresListDump(s1: Store, s2: Store, page: string -> Option<seq<Href>>, fetch: Fetch)
    requires s1.spectraData == s2.spectraData
    ensures RunNotebook(s1, page, fetch).Completed? <==> RunNotebook(s2, page, fetch).Completed?
    ensures RunNotebook(s1, page, fetch).Completed? ==> RunNotebook(s1, page, fetch).data == RunNotebook(s2, page, fetch).data
  {
  }

  /** After a completed run, the next run whose scrape succeeds replays the
      saved collection exactly. */
  lemma SecondRunReplaysFirst(store: Store, page1: string -> Option<seq<Href>>, fetch1: Fetch,
                              page2: string -> Option<seq<Href>>, fetch2: Fetch)
    requires RunNotebook(store, page1, fetch1).Completed?
    requires DownloadListSpectra(RootSite, Topic, page2).Ok?
    ensures var first := RunNotebook(store, page1, fetch1);
      var second := RunNotebook(first.store, page2, fetch2);
      second.Completed? && second.data == first.data
  {
  }

  /** An unreachable page stops the run before either dump is touched, even
      when a data dump is present. */
  lemma UnreachablePageAborts(store: Store, page: string -> Option<seq<Href>>, fetch: Fetch)
    requires page(TargetSite(RootSite)).None?
    ensures RunNotebook(store, page, fetch) == Aborted(store, ScrapeFailed(PageUnreachable(TargetSite(RootSite))))
  {
  }
}
