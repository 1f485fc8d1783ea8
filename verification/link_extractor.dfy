/** The scrape of the archive page (`download_list_spectra`): the page's
    anchor hrefs are filtered for spectrum files and resolved against the
    archive's root address. HTML parsing is abstracted: a page is the
    sequence of its anchors' href attributes, in document order. */
module LinkExtractor {
  import opened Wrappers
  import opened Text

  /** Root address of the archive's symbiotic-star pages. */
  const RootSite: string := "http://www.astrosurf.com/aras/Aras_DataBase/Symbiotics/"
  /** Page of the target star; the scrape reads this global, not its `startname` argument. */
  const Topic: string := "AGDra.htm"
  /** Substring that marks an href as a spectrum file. */
  const FitMarker: string := ".fit"
  /** Substring whose presence anywhere marks an href as already absolute. */
  const SchemeMarker: string := "http"

  /** The href attribute of one anchor element; None when the anchor has none. */
  type Href = Option<string>

  /** Why the scrape stops the whole run. */
  datatype ListError =
    | PageUnreachable(site: string)  // the page request itself failed
    | MissingHref(position: nat)     // `".fit" in None` raises for an anchor without href

  /** The address that is requested: the root followed by the global page name. */
  function TargetSite(rootsite: string): string
  {
    rootsite + Topic
  }

  /** One kept href made into a link: verbatim when "http" occurs anywhere in
      it, otherwise prefixed with the root address. */
  function Resolve(rootsite: string, href: string): (link: string)
    ensures |href| <= |link| && link[|link| - |href|..] == href
    ensures Contains(href, SchemeMarker) ==> link == href
    ensures !Contains(href, SchemeMarker) ==> |link| == |rootsite| + |href| && link[..|rootsite|] == rootsite
  {
    if Contains(href, SchemeMarker) then href else rootsite + href
  }

  lemma ResolveKeepsMarker(rootsite: string, href: string)
    requires Contains(href, FitMarker)
    ensures Contains(Resolve(rootsite, href), FitMarker)
  {
    if !Contains(href, SchemeMarker) {
      ContainsAfterPrefix(rootsite, href, FitMarker);
    }
  }

  /** The links produced from a page's hrefs, as a left fold over the hrefs. */
  function FitLinks(rootsite: string, hrefs: seq<string>): (links: seq<string>)
    ensures |links| <= |hrefs|
    ensures forall j :: 0 <= j < |links| ==> Contains(links[j], FitMarker)
    decreases |hrefs|
  {
    if hrefs == [] then []
    else
      var last := hrefs[|hrefs| - 1];
      var init := FitLinks(rootsite, hrefs[..|hrefs| - 1]);
      if Contains(last, FitMarker) then
        ResolveKeepsMarker(rootsite, last);
        init + [Resolve(rootsite, last)]
      else init
  }

  /** `links` is the scrape of `hrefs` and `kept` says where each link came
      from: exactly the hrefs containing ".fit", in increasing position,
      duplicates included, each resolved against the root address. */
  ghost predicate Scraped(rootsite: string, hrefs: seq<string>, links: seq<string>, kept: seq<nat>)
  {
    && links == FitLinks(rootsite, hrefs)
    && |kept| == |links|
    && (forall j :: 0 <= j < |kept| ==> kept[j] < |hrefs| && links[j] == Resolve(rootsite, hrefs[kept[j]]))
    && (forall j, k :: 0 <= j < k < |kept| ==> kept[j] < kept[k])
    && (forall i :: 0 <= i < |hrefs| ==> (Contains(hrefs[i], FitMarker) <==> i in kept))
  }

  /** Scraping one more href that names a spectrum file appends its link. */
  lemma ScrapeKeep(rootsite: string, hrefs: seq<string>, href: string, links: seq<string>, kept: seq<nat>)
    requires Scraped(rootsite, hrefs, links, kept)
    requires Contains(href, FitMarker)
    ensures Scraped(rootsite, hrefs + [href], links + [Resolve(rootsite, href)], kept + [|hrefs|])
  {
    var hrefs', links', kept' := hrefs + [href], links + [Resolve(rootsite, href)], kept + [|hrefs|];
    assert hrefs'[..|hrefs|] == hrefs;
    assert FitLinks(rootsite, hrefs') == links';
    KeptSourcesStep(rootsite, hrefs, href, links, kept);
    KeptPositionsStep(hrefs, href, kept);
  }

  lemma KeptSourcesStep(rootsite: string, hrefs: seq<string>, href: string, links: seq<string>, kept: seq<nat>)
    requires |kept| == |links|
    requires forall j :: 0 <= j < |kept| ==> kept[j] < |hrefs| && links[j] == Resolve(rootsite, hrefs[kept[j]])
    ensures
      var hrefs', links', kept' := hrefs + [href], links + [Resolve(rootsite, href)], kept + [|hrefs|];
      forall j :: 0 <= j < |kept'| ==> kept'[j] < |hrefs'| && links'[j] == Resolve(rootsite, hrefs'[kept'[j]])
  {
  }

  lemma KeptPositionsStep(hrefs: seq<string>, href: string, kept: seq<nat>)
    requires forall j :: 0 <= j < |kept| ==> kept[j] < |hrefs|
    requires forall j, k :: 0 <= j < k < |kept| ==> kept[j] < kept[k]
    requires forall i :: 0 <= i < |hrefs| ==> (Contains(hrefs[i], FitMarker) <==> i in kept)
    requires Contains(href, FitMarker)
    ensures
      var hrefs', kept' := hrefs + [href], kept + [|hrefs|];
      && (forall j, k :: 0 <= j < k < |kept'| ==> kept'[j] < kept'[k])
      && (forall i :: 0 <= i < |hrefs'| ==> (Contains(hrefs'[i], FitMarker) <==> i in kept'))
  {
  }

  /** Scraping one more href that names no spectrum file changes nothing. */
  lemma ScrapeDrop(rootsite: string, hrefs: seq<string>, href: string, links: seq<string>, kept: seq<nat>)
    requires Scraped(rootsite, hrefs, links, kept)
    requires !Contains(href, FitMarker)
    ensures Scraped(rootsite, hrefs + [href], links, kept)
  {
    var hrefs' := hrefs + [href];
    assert hrefs'[..|hrefs|] == hrefs;
    assert FitLinks(rootsite, hrefs') == links;
    assert forall i :: 0 <= i < |hrefs| ==> hrefs'[i] == hrefs[i];
    assert |hrefs| !in kept;
  }

  /** The positions of the hrefs that pass the filter, in order. */
  function KeptPositions(hrefs: seq<string>): seq<nat>
    decreases |hrefs|
  {
    if hrefs == [] then []
    else
      var init := KeptPositions(hrefs[..|hrefs| - 1]);
      if Contains(hrefs[|hrefs| - 1], FitMarker) then init + [|hrefs| - 1] else init
  }

  lemma {:induction false} ScrapedByKeptPositions(rootsite: string, hrefs: seq<string>)
    ensures Scraped(rootsite, hrefs, FitLinks(rootsite, hrefs), KeptPositions(hrefs))
    decreases |hrefs|
  {
    if hrefs != [] {
      var init, last := hrefs[..|hrefs| - 1], hrefs[|hrefs| - 1];
      ScrapedByKeptPositions(rootsite, init);
      assert init + [last] == hrefs;
      if Contains(last, FitMarker) {
        ScrapeKeep(rootsite, init, last, FitLinks(rootsite, init), KeptPositions(init));
      } else {
        ScrapeDrop(rootsite, init, last, FitLinks(rootsite, init), KeptPositions(init));
      }
    }
  }

  /** The links of a page are exactly the resolved ".fit" hrefs, in order:
      some increasing choice of source positions satisfies `Scraped`. */
  lemma FitLinksCharacterised(rootsite: string, hrefs: seq<string>)
    ensures exists kept :: Scraped(rootsite, hrefs, FitLinks(rootsite, hrefs), kept)
  {
    ScrapedByKeptPositions(rootsite, hrefs);
  }

  /** Filtering distributes over concatenation: the links of a page are the
      links of its first part followed by those of its second part. */
  lemma {:induction false} FitLinksAppend(rootsite: string, a: seq<string>, b: seq<string>)
    ensures FitLinks(rootsite, a + b) == FitLinks(rootsite, a) + FitLinks(rootsite, b)
    decreases |b|
  {
    if b == [] {
      assert a + b == a;
    } else {
      var b' := b[..|b| - 1];
      assert (a + b)[..|a + b| - 1] == a + b';
      FitLinksAppend(rootsite, a, b');
    }
  }

  /** Reads every anchor's href, in order; the first anchor without one stops the scrape. */
  function HrefsOf(anchors: seq<Href>): (r: Result<seq<string>, ListError>)
    ensures r.Ok? <==> forall k :: 0 <= k < |anchors| ==> anchors[k].Some?
    ensures r.Ok? ==> |r.value| == |anchors| && forall k :: 0 <= k < |anchors| ==> anchors[k] == Some(r.value[k])
    ensures r.Err? ==> r.error.MissingHref? && r.error.position < |anchors| && anchors[r.error.position].None?
                       && forall k :: 0 <= k < r.error.position ==> anchors[k].Some?
    decreases |anchors|
  {
    if anchors == [] then Ok([])
    else
      match HrefsOf(anchors[..|anchors| - 1])
      case Err(e) => Err(e)
      case Ok(init) =>
        match anchors[|anchors| - 1]
        case None => Err(MissingHref(|anchors| - 1))
        case Some(href) => Ok(init + [href])
  }

  /** `download_list_spectra(rootsite, startname)`: requests the target page,
      then extracts its spectrum links. `page` stands for the network and the
      HTML parser: it maps an address to that page's anchors, or None when
      the request fails. */
  function DownloadListSpectra(rootsite: string, startname: string, page: string -> Option<seq<Href>>)
    : (r: Result<seq<string>, ListError>)
    ensures page(rootsite + Topic).None? <==> r == Err(PageUnreachable(rootsite + Topic))
    ensures r.Ok? ==> page(rootsite + Topic).Some? && |r.value| <= |page(rootsite + Topic).value|
    ensures r.Ok? ==> forall j :: 0 <= j < |r.value| ==> Contains(r.value[j], FitMarker)
    ensures page(rootsite + Topic).Some? && HrefsOf(page(rootsite + Topic).value).Err? ==>
              r == Err(HrefsOf(page(rootsite + Topic).value).error)
    ensures page(rootsite + Topic).Some? && HrefsOf(page(rootsite + Topic).value).Ok? ==>
              r == Ok(FitLinks(rootsite, HrefsOf(page(rootsite + Topic).value).value))
    ensures r.Err? && r.error.MissingHref? ==>
              && page(rootsite + Topic).Some?
              && r.error.position < |page(rootsite + Topic).value|
              && page(rootsite + Topic).value[r.error.position].None?
  {
    var site := TargetSite(rootsite);
    match page(site)
    case None => Err(PageUnreachable(site))
    case Some(anchors) =>
      match HrefsOf(anchors)
      case Err(e) => Err(e)
      case Ok(hrefs) => Ok(FitLinks(rootsite, hrefs))
  }

  /** The `startname` argument has no influence on the scrape. */
  lemma StartnameIgnored(rootsite: string, a: string, b: string, page: string -> Option<seq<Href>>)
    ensures DownloadListSpectra(rootsite, a, page) == DownloadListSpectra(rootsite, b, page)
  {
  }

  /** An href that merely contains "http" in its file name is left relative. */
  lemma HttpInFileNameStaysRelative()
    ensures FitLinks(RootSite, ["AGDra_http.fit"]) == ["AGDra_http.fit"]
  {
    var h := "AGDra_http.fit";
    assert h[6..10] == SchemeMarker;
    OccurrenceIsContained(h, SchemeMarker, 6);
    assert h[10..14] == FitMarker;
    OccurrenceIsContained(h, FitMarker, 10);
    assert [h][..0] == [];
  }
}
