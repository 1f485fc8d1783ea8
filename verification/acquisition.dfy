/** The download loop: every link of the list is fetched and decoded in turn,
    a failed fetch or decode skips that link only, and each decoded spectrum
    passes through the quality filter. The network and the file decoder are an
    oracle `fetch` from a link to its decoded primary unit, None on failure. */
module Acquisition {
  import opened Wrappers
  import opened Spectrum

  /** The network plus the file decoder: None when either fails for that link. */
  type Fetch = string -> Option<Hdu>

  /** A header problem met while examining the spectrum at `link`. */
  datatype LoopError = LoopError(link: string, error: HeaderError)

  /** The records one link contributes: none when the fetch fails or the
      filter rejects, the accepted record otherwise; a header problem stops the loop. */
  function LinkRecords(link: string, fetch: Fetch): (r: Result<seq<SpectrumRecord>, LoopError>)
    ensures fetch(link).None? ==> r == Ok([])
    ensures r.Ok? ==> |r.value| <= 1
    ensures forall rec :: rec in (if r.Ok? then r.value else []) ==> fetch(link).Some? && Assess(fetch(link).value) == Accepted(rec)
    ensures fetch(link).Some? && Assess(fetch(link).value).Accepted? ==> r == Ok([Assess(fetch(link).value).rec])
    ensures r.Err? <==> fetch(link).Some? && Assess(fetch(link).value).Fatal?
    ensures r.Err? ==> r.error == LoopError(link, Assess(fetch(link).value).error)
  {
    match fetch(link)
    case None => Ok([])
    case Some(hdu) =>
      match Assess(hdu)
      case Rejected => Ok([])
      case Accepted(rec) => Ok([rec])
      case Fatal(e) => Err(LoopError(link, e))
  }

  /** Some link of `links` was fetched into a unit that the filter turns into `rec`. */
  ghost predicate FetchedAndAccepted(links: seq<string>, fetch: Fetch, rec: SpectrumRecord)
  {
    exists i :: 0 <= i < |links| && fetch(links[i]).Some? && Assess(fetch(links[i]).value) == Accepted(rec)
  }

  /** The loop over the link list, as a left fold: records are appended in
      link order and the first header problem stops the loop. */
  function Collect(links: seq<string>, fetch: Fetch): (r: Result<seq<SpectrumRecord>, LoopError>)
    ensures r.Ok? ==> |r.value| <= |links|
    ensures r.Err? ==> r.error.link in links
    decreases |links|
  {
    if links == [] then Ok([])
    else
      var init := links[..|links| - 1];
      var last := links[|links| - 1];
      match Collect(init, fetch)
      case Err(e) => Err(e)
      case Ok(data) =>
        match LinkRecords(last, fetch)
        case Err(e) => Err(e)
        case Ok(more) => Ok(data + more)
  }

  /** The spectrum at position `i` is fetched and its header stops the run. */
  ghost predicate FatalAt(links: seq<string>, fetch: Fetch, i: int)
    requires 0 <= i < |links|
  {
    fetch(links[i]).Some? && Assess(fetch(links[i]).value).Fatal?
  }

  /** The loop stops exactly when some fetched spectrum has a header problem
      (rejections and failed fetches never stop it), and then with the error
      of the first such link. */
  lemma {:induction false} CollectAbortsAtFirstFatal(links: seq<string>, fetch: Fetch)
    ensures Collect(links, fetch).Err? <==> exists i :: 0 <= i < |links| && FatalAt(links, fetch, i)
    ensures Collect(links, fetch).Err? ==>
              exists i :: 0 <= i < |links| && FatalAt(links, fetch, i)
                && (forall k :: 0 <= k < i ==> !FatalAt(links, fetch, k))
                && Collect(links, fetch).error == LoopError(links[i], Assess(fetch(links[i]).value).error)
    decreases |links|
  {
    if links != [] {
      var init := links[..|links| - 1];
      var n := |links| - 1;
      CollectAbortsAtFirstFatal(init, fetch);
      CollectStep(links, fetch);
      assert forall k :: 0 <= k < n ==> links[k] == init[k];
      assert forall k :: 0 <= k < n ==> (FatalAt(links, fetch, k) <==> FatalAt(init, fetch, k));
      if Collect(init, fetch).Err? {
        var i :| 0 <= i < |init| && FatalAt(init, fetch, i)
                 && (forall k :: 0 <= k < i ==> !FatalAt(init, fetch, k))
                 && Collect(init, fetch).error == LoopError(init[i], Assess(fetch(init[i]).value).error);
        assert FatalAt(links, fetch, i);
      } else if FatalAt(links, fetch, n) {
        assert forall k :: 0 <= k < n ==> !FatalAt(links, fetch, k);
      } else {
        forall i | 0 <= i < |links|
          ensures !FatalAt(links, fetch, i)
        {
          if i < n {
            assert !FatalAt(init, fetch, i);
          }
        }
      }
    }
  }

  /** Every collected record comes from a link of the list that was fetched
      and accepted by the filter. */
  lemma {:induction false} CollectedWereAccepted(links: seq<string>, fetch: Fetch)
    requires Collect(links, fetch).Ok?
    ensures forall j :: 0 <= j < |Collect(links, fetch).value| ==>
              FetchedAndAccepted(links, fetch, Collect(links, fetch).value[j])
    decreases |links|
  {
    if links != [] {
      var init := links[..|links| - 1];
      var last := links[|links| - 1];
      CollectedWereAccepted(init, fetch);
      var data := Collect(init, fetch).value;
      var more := LinkRecords(last, fetch).value;
      assert Collect(links, fetch).value == data + more;
      forall j | 0 <= j < |data + more|
        ensures FetchedAndAccepted(links, fetch, (data + more)[j])
      {
        if j < |data| {
          assert FetchedAndAccepted(init, fetch, data[j]);
          var i :| 0 <= i < |init| && fetch(init[i]).Some? && Assess(fetch(init[i]).value) == Accepted(data[j]);
          assert links[i] == init[i];
        } else {
          assert links[|links| - 1] == last;
        }
      }
    }
  }

  /** Sequencing two stretches of the loop: the first error wins, otherwise
      the records are concatenated. */
  function Then(a: Result<seq<SpectrumRecord>, LoopError>, b: Result<seq<SpectrumRecord>, LoopError>)
    : Result<seq<SpectrumRecord>, LoopError>
  {
    match a
    case Err(e) => Err(e)
    case Ok(x) =>
      match b
      case Err(e) => Err(e)
      case Ok(y) => Ok(x + y)
  }

  lemma ThenAssociative(a: Result<seq<SpectrumRecord>, LoopError>, b: Result<seq<SpectrumRecord>, LoopError>,
                        c: Result<seq<SpectrumRecord>, LoopError>)
    ensures Then(Then(a, b), c) == Then(a, Then(b, c))
  {
    if a.Ok? && b.Ok? && c.Ok? {
      assert (a.value + b.value) + c.value == a.value + (b.value + c.value);
    }
  }

  /** One more link extends the loop by that link's contribution. */
  lemma CollectStep(links: seq<string>, fetch: Fetch)
    requires links != []
    ensures Collect(links, fetch) == Then(Collect(links[..|links| - 1], fetch), LinkRecords(links[|links| - 1], fetch))
  {
  }

  /** The loop over two lists run one after the other is the loop over their
      concatenation: records keep link order and nothing carries over between links. */
  lemma {:induction false} CollectAppend(a: seq<string>, b: seq<string>, fetch: Fetch)
    ensures Collect(a + b, fetch) == Then(Collect(a, fetch), Collect(b, fetch))
    decreases |b|
  {
    if b == [] {
      assert a + b == a;
      assert Collect(b, fetch) == Ok([]);
      if Collect(a, fetch).Ok? {
        assert Collect(a, fetch).value + [] == Collect(a, fetch).value;
      }
    } else {
      var b' := b[..|b| - 1];
      var last := b[|b| - 1];
      assert (a + b)[..|a + b| - 1] == a + b';
      assert (a + b)[|a + b| - 1] == last;
      CollectStep(a + b, fetch);
      CollectStep(b, fetch);
      CollectAppend(a, b', fetch);
      ThenAssociative(Collect(a, fetch), Collect(b', fetch), LinkRecords(last, fetch));
    }
  }

  /** The loop over a single link is that link's contribution. */
  lemma CollectSingle(link: string, fetch: Fetch)
    ensures Collect([link], fetch) == LinkRecords(link, fetch)
  {
    assert [link][..0] == [];
    assert Collect([], fetch) == Ok([]);
    match LinkRecords(link, fetch)
    case Err(e) =>
    case Ok(more) => assert [] + more == more;
  }

  /** A link whose fetch fails is skipped and the loop carries on: the
      outcome is the one for the list without that link. */
  lemma FailedFetchIsSkipped(links: seq<string>, k: int, fetch: Fetch)
    requires 0 <= k < |links| && fetch(links[k]).None?
    ensures Collect(links, fetch) == Collect(links[..k] + links[k + 1..], fetch)
  {
    var before, after := links[..k], links[k + 1..];
    var link := links[k];
    assert links == (before + [link]) + after;
    CollectAppend(before + [link], after, fetch);
    CollectAppend(before, [link], fetch);
    CollectSingle(link, fetch);
    assert Collect([link], fetch) == Ok([]);
    var c := Collect(before, fetch);
    assert Then(c, Ok([])) == c by {
      if c.Ok? {
        assert c.value + [] == c.value;
      }
    }
    CollectAppend(before, after, fetch);
  }

  /** Every link that is fetched and accepted has its record in the collection. */
  lemma {:induction false} AcceptedIsCollected(links: seq<string>, fetch: Fetch, i: int, hdu: Hdu)
    requires 0 <= i < |links| && fetch(links[i]) == Some(hdu) && Assess(hdu).Accepted?
    ensures Collect(links, fetch).Ok? ==> Assess(hdu).rec in Collect(links, fetch).value
  {
    var before, after := links[..i], links[i + 1..];
    assert links == before + [links[i]] + after;
    CollectAppend(before + [links[i]], after, fetch);
    CollectAppend(before, [links[i]], fetch);
    CollectSingle(links[i], fetch);
  }

  /** Number of links whose fetch fails. */
  function FailedFetches(links: seq<string>, fetch: Fetch): nat
    decreases |links|
  {
    if links == [] then 0
    else FailedFetches(links[..|links| - 1], fetch) + (if fetch(links[|links| - 1]).None? then 1 else 0)
  }

  /** Accepted plus skipped links never exceed the links examined. */
  lemma {:induction false} AcceptedPlusSkippedBounded(links: seq<string>, fetch: Fetch)
    ensures Collect(links, fetch).Ok? ==> |Collect(links, fetch).value| + FailedFetches(links, fetch) <= |links|
    decreases |links|
  {
    if links != [] {
      var init := links[..|links| - 1];
      AcceptedPlusSkippedBounded(init, fetch);
      CollectStep(links, fetch);
    }
  }
}
