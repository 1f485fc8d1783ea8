# AG Draconis spectra pipeline — a Dafny model

This project models the decision logic of the `ag_dra.py` notebook, which
gathers spectra of the symbiotic star AG Draconis from the ARAS archive. The
model covers four parts:

- the **link extractor** (`download_list_spectra`), which keeps the page's
  anchor hrefs that name `.fit` files and resolves them against the archive's
  root address;
- the **link-list dump rule**, which rewrites `ag_dra.spectra_list.pckl` only
  when the fresh scrape has strictly more distinct links;
- the **data-dump gate and download loop**. A present
  `ag_dra.data_dump.pckl` is loaded and nothing is fetched. Otherwise every
  link is fetched in turn, a failed fetch skips that link, and each spectrum
  passes the quality filter (resolution `CRVAL1/CDELT1 ≥ 8000`, span
  `CDELT1·(NAXIS1−1) ≥ 2000`). The accepted records are saved;
- the **legend label** of `plot_line`, chosen by the `dobs`/`labwl` flags,
  and the errors that stop a plot.

Modules: `Wrappers` (Option, Result), `Text` (Python's `in` on strings, the
decimal rendering of an integer), `LinkExtractor`, `Spectrum` (header, record,
quality filter), `Acquisition` (the download loop), `Cache` (the two dumps and
a whole notebook run), `PlotLabel`.

Inputs that stand in for I/O:
- the page request and HTML parser are a function from an address to the
  page's anchor hrefs, or None when the request fails;
- download plus FITS decoding is a function from a link to the decoded
  primary unit (header and flux), or None when either step fails;
- each pickle dump is an optional value: present or absent, and it loads
  back exactly what was saved.

Behaviour worth noting:
- The scrape returns a list that keeps anchor order and duplicates, not a set.
  The list is saved with its duplicates; only the comparison uses `set`.
- The link-list rule runs first, then the data-dump gate; the gate never
  reads the list dump.
- A missing header card, `CDELT1 = 0` or `NAXIS1 < 1` aborts the whole run
  (`Fatal`). These errors happen outside the per-link error handler, so they
  are not skipped. `NAXIS1` and `DATE-OBS` are read only after the earlier
  tests pass, so a low-resolution spectrum without them is simply rejected.
- An anchor without an `href` aborts the scrape, because `".fit" in None` raises.
- With both label flags false, `plot_line` fails only at the plot call.
  An out-of-range index and an empty flux fail first, in that order.

## Model

| member | source | states |
|---|---|---|
| LinkExtractor.DownloadListSpectra | ag_dra.py:46-57 | requests `rootsite + topic`; an unreachable page is an error naming that address; when every anchor has an href the result is exactly the page's resolved ".fit" links (`FitLinks` of its hrefs), each containing ".fit" and no more than the anchors; an anchor without href makes the result exactly `HrefsOf`'s error, naming the first such anchor |
| LinkExtractor.StartnameIgnored | ag_dra.py:46-47 | the `startname` argument does not affect the scrape |
| LinkExtractor.HrefsOf | ag_dra.py:51-53 | all anchors' hrefs are read in order; the scrape fails exactly when some anchor has none, and then at the first such anchor |
| LinkExtractor.FitLinks | ag_dra.py:50-57 | every returned link contains ".fit"; the output is no longer than the input |
| LinkExtractor.FitLinksCharacterised | ag_dra.py:50-57 | for every page, some increasing choice of source positions shows the links are exactly the ".fit" hrefs, in order with duplicates, each resolved against the root |
| LinkExtractor.ScrapedByKeptPositions | ag_dra.py:50-57 | the positions of the ".fit" hrefs, taken in page order, are exactly the sources of the links, each resolved against the root |
| LinkExtractor.FitLinksAppend | ag_dra.py:51-55 | the links of a concatenation of href lists are the concatenation of their links (order preserved, no cross-talk) |
| LinkExtractor.HttpInFileNameStaysRelative | ag_dra.py:54 | a relative href merely containing "http" in its name is not resolved |
| LinkExtractor.Resolve | ag_dra.py:54 | a href in which "http" occurs is kept verbatim; any other href becomes the root address followed by the href |
| Text.ContainsIffOccurs | ag_dra.py:53-54 | the substring test holds iff the pattern occurs at some position |
| Text.IntTextRoundTrip | ag_dra.py:134 | the decimal rendering of the plot index reads back as that index |
| Spectrum.Assess | ag_dra.py:95-102 | a spectrum is accepted iff resolution ≥ 8000 and span ≥ 2000 with DATE-OBS present; it aborts iff a card read in source order is missing, CDELT1 is zero or NAXIS1 < 1, and each error kind (which missing key, zero step, empty axis) is tied to its own cause; an accepted record has `w[k] = CRVAL1 + k·CDELT1` for `k < NAXIS1`, the flux, the date and the header |
| Spectrum.Wavelengths | ag_dra.py:98 | the axis has NAXIS1 samples (none when NAXIS1 is negative, as `np.arange` gives), the k-th being CRVAL1 + k·CDELT1 |
| Spectrum.AcceptedWavelengthsIncrease | ag_dra.py:95-100 | every accepted record has at least two samples, a positive step, strictly increasing wavelengths and a last-minus-first span ≥ 2000 |
| Spectrum.LowResolutionIsRejected | ag_dra.py:95-96 | a spectrum below the resolution requirement is rejected whatever its NAXIS1 and DATE-OBS |
| Spectrum.FineSpectrumAccepted | ag_dra.py:95-102 | CRVAL1 4000, CDELT1 0.4, NAXIS1 6000 is accepted |
| Spectrum.CoarseSpectrumRejected | ag_dra.py:95-96 | CRVAL1 4000, CDELT1 1, NAXIS1 1500 is rejected |
| Acquisition.Collect | ag_dra.py:86-102 | the loop collects at most one record per link; an abort names a link of the list |
| Acquisition.LinkRecords | ag_dra.py:87-102 | one pass of the loop body: a failed fetch contributes nothing, an accepted spectrum exactly its record, a rejected one nothing, and a header error stops the loop naming that link and error |
| Acquisition.CollectAbortsAtFirstFatal | ag_dra.py:86-102 | the loop stops iff some fetched spectrum's header aborts (failed fetches and rejections never stop it), and then with the error of the first such link |
| Acquisition.CollectedWereAccepted | ag_dra.py:86-102 | every collected record is the accepted record of some link that was fetched |
| Acquisition.AcceptedIsCollected | ag_dra.py:95-102 | every fetched and accepted link has its record in the collection |
| Acquisition.CollectAppend | ag_dra.py:86-102 | the loop over two lists in sequence equals the loop over their concatenation: records in link order, the first abort wins |
| Acquisition.FailedFetchIsSkipped | ag_dra.py:87-93 | a link whose fetch fails is skipped and the loop continues as if it were absent |
| Acquisition.AcceptedPlusSkippedBounded | ag_dra.py:86-105 | accepted records plus failed fetches never exceed the number of links |
| Cache.UpdateSpectraList | ag_dra.py:66-75 | never touches the data dump; with no list dump the fresh list is stored; otherwise the stored list or the fresh one remains, and its distinct count is the larger of the two counts |
| Cache.UpdateSpectraListIdempotent | ag_dra.py:66-75 | applying the rule twice with the same scrape equals applying it once |
| Cache.EqualCountKeepsStoredList | ag_dra.py:72 | equal distinct counts leave the stored list unchanged, whatever the membership |
| Cache.NewLinkCanBeMissed | ag_dra.py:72-75 | a fresh link can be absent from the stored list after the update |
| Cache.LoadOrDownload | ag_dra.py:83-111 | a present data dump is loaded unchanged; otherwise the run completes iff the loop does, the saved dump equals the collection in memory, and an abort leaves the dumps as they were |
| Cache.RunNotebook | ag_dra.py:65-111 | a failed scrape aborts the run with both dumps untouched; after a successful scrape the list dump is the link-list rule applied to the fresh links, and without a data dump the run completes iff the loop over those fresh links does, with that loop's collection or error; an aborted run never changes the data dump; a completed run's dump equals its collection; a present dump is kept |
| Cache.CacheHitFetchesNothing | ag_dra.py:108-111 | with a data dump present, the run's result does not depend on the fetches and is the stored collection |
| Cache.DataIgnoresListDump | ag_dra.py:65-111 | whether the run completes and the collection it ends with do not depend on the link-list dump |
| Cache.SecondRunReplaysFirst | ag_dra.py:106-110 | after a completed run, the next run with a successful scrape ends with the same collection |
| Cache.UnreachablePageAborts | ag_dra.py:46-49 | an unreachable page aborts the run with both dumps untouched, even with a data dump present |
| PlotLabel.LineLabel | ag_dra.py:133-138 | `dobs` only gives "#i - date", `labwl` only gives "#i - wl", both give "#i - wl - date", neither leaves the label unbound |
| PlotLabel.BothLabelsCombine | ag_dra.py:136-138 | the combined label is the wavelength label followed by " - " and the date |
| PlotLabel.LabelsNameTheRecord | ag_dra.py:133-138 | equal labels were made for the same index |
| PlotLabel.PlotLineLabel | ag_dra.py:131-140 | succeeds iff the index is valid in Python's sense, the record's flux is non-empty and a flag is set; an invalid index is reported first, then an empty flux, then the unbound label when neither flag is set; the label is the one chosen for that record's date |
| PlotLabel.PyIndex | ag_dra.py:132 | `data[i]` is defined iff -n ≤ i < n, and then names the position congruent to i modulo n |

## Left out

- HTTP requests and HTML parsing (`urlopen`, `BeautifulSoup`): the page is a function from an address to its hrefs.
- File download and FITS decoding (`download_file`, `fits.open`): a function from a link to a decoded unit or a failure. A link is assumed to give the same outcome each time it is fetched in one run.
- Pickle serialisation and `os.path.isfile`: each dump is an optional value that loads back exactly what was saved. Write failures and partial writes are not modelled.
- Floating-point arithmetic: the resolution and span tests use mathematical reals, with no rounding, NaN or infinity.
- Header values of the wrong type, for example a string CRVAL1, are not modelled. Every card is a real, an integer or a string as appropriate.
- The flux samples are not checked against NAXIS1: the FITS reader gives a 1-D spectrum exactly NAXIS1 flux samples, and the model does not assume this.
- The Doppler velocity (`calculate_velocity`), flux normalisation by the maximum and the `{:.1f}` wavelength text (`linelabel`) are not modelled. The wavelength text is an input string; only the empty-flux failure of the maximum is kept.
- Matplotlib plotting, the figure cells and the `get_ipython` shell commands are not modelled.
- Progress messages (`print`) are not modelled.
- `aras_spectrum_visualizer.py` is not part of this model: it is a single-spectrum viewer outside the modelled core.
- Cache.UpdateSpectraList: the stored list is compared by distinct count only. The model keeps this as written and does not claim that the stored list covers the fresh links.
