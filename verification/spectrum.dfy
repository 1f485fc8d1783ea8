/** One downloaded spectrum and the quality filter applied to it: the
    resolution and wavelength-span requirements, and the record that an
    accepted spectrum contributes to the collection. Arithmetic is on
    mathematical reals, an idealisation of the floating-point values the
    notebook computes with. */
module Spectrum {
  import opened Wrappers

  /** Lowest accepted resolution, `CRVAL1 / CDELT1`. */
  const MinResolution: real := 8000.0
  /** Lowest accepted distance between the last and first wavelength. */
  const MinWavelengthRange: real := 2000.0

  /** The header cards the filter reads; None when the key is absent. */
  datatype Header = Header(
    crval1: Option<real>,   // CRVAL1: wavelength of the first sample
    cdelt1: Option<real>,   // CDELT1: wavelength step between samples
    naxis1: Option<int>,    // NAXIS1: number of samples
    dateObs: Option<string> // DATE-OBS: observation timestamp
  )

  /** The primary unit of a decoded file: its header and its flux samples. */
  datatype Hdu = Hdu(header: Header, data: seq<real>)

  /** An accepted spectrum: wavelengths, flux, observation date and the header it came from. */
  datatype SpectrumRecord = SpectrumRecord(w: seq<real>, f: seq<real>, dateObs: string, hdr: Header)

  /** Why examining a decoded header stops the whole run: these happen outside
      the per-link error handler. */
  datatype HeaderError =
    | MissingKey(key: string)  // a card the filter reads is absent
    | ZeroStep                 // CDELT1 is zero, so the resolution divides by zero
    | EmptyWavelengths         // NAXIS1 < 1 leaves no last wavelength to read

  /** What the filter makes of one decoded spectrum. */
  datatype Verdict = Rejected | Accepted(rec: SpectrumRecord) | Fatal(error: HeaderError)

  /** The wavelength axis `CDELT1 * arange(NAXIS1) + CRVAL1`; a count below one gives no samples. */
  function Wavelengths(crval1: real, cdelt1: real, n: int): (w: seq<real>)
    ensures |w| == if n < 0 then 0 else n
    ensures forall k :: 0 <= k < |w| ==> w[k] == crval1 + (k as real) * cdelt1
  {
    if n <= 0 then [] else seq(n, k => cdelt1 * (k as real) + crval1)
  }

  /** The header meets both requirements: every card the two tests read is
      present, the resolution `CRVAL1/CDELT1` reaches `MinResolution` and the
      span `CDELT1 * (NAXIS1 - 1)` reaches `MinWavelengthRange`. */
  ghost predicate MeetsRequirements(h: Header)
  {
    && h.crval1.Some? && h.cdelt1.Some? && h.cdelt1.value != 0.0
    && h.crval1.value / h.cdelt1.value >= MinResolution
    && h.naxis1.Some? && h.naxis1.value >= 1
    && h.cdelt1.value * ((h.naxis1.value - 1) as real) >= MinWavelengthRange
  }

  /** Examining the header raises: a card is read before it is checked to
      exist, the division is by zero, or an empty axis is indexed. */
  ghost predicate AbortsRun(h: Header)
  {
    || h.crval1.None? || h.cdelt1.None? || h.cdelt1.value == 0.0
    || (h.crval1.value / h.cdelt1.value >= MinResolution &&
        (|| h.naxis1.None? || h.naxis1.value < 1
         || (h.cdelt1.value * ((h.naxis1.value - 1) as real) >= MinWavelengthRange && h.dateObs.None?)))
  }

  /** The record is the one built from `hdu`: `w[k] = CRVAL1 + k*CDELT1` for
      every `k < NAXIS1`, the flux unchanged, the date and header attached. */
  ghost predicate RecordOf(rec: SpectrumRecord, hdu: Hdu)
  {
    var h := hdu.header;
    && h.crval1.Some? && h.cdelt1.Some? && h.naxis1.Some? && h.dateObs.Some?
    && |rec.w| == h.naxis1.value
    && (forall k :: 0 <= k < |rec.w| ==> rec.w[k] == h.crval1.value + (k as real) * h.cdelt1.value)
    && rec.f == hdu.data
    && rec.dateObs == h.dateObs.value
    && rec.hdr == h
  }

  /** The quality filter, in the order the notebook reads the header: the
      resolution first; the wavelength axis and its span only for a spectrum
      that passed; the date only for one that passed both. */
  function Assess(hdu: Hdu): (v: Verdict)
    ensures v.Accepted? <==> MeetsRequirements(hdu.header) && hdu.header.dateObs.Some?
    ensures v.Fatal? <==> AbortsRun(hdu.header)
    ensures v.Accepted? ==> RecordOf(v.rec, hdu)
    ensures v == Fatal(MissingKey("CRVAL1")) <==> hdu.header.crval1.None?
    ensures v == Fatal(MissingKey("CDELT1")) <==> hdu.header.crval1.Some? && hdu.header.cdelt1.None?
    ensures v == Fatal(ZeroStep) <==> hdu.header.crval1.Some? && hdu.header.cdelt1 == Some(0.0)
    ensures v == Fatal(MissingKey("NAXIS1")) <==>
              && hdu.header.crval1.Some? && hdu.header.cdelt1.Some? && hdu.header.cdelt1.value != 0.0
              && hdu.header.crval1.value / hdu.header.cdelt1.value >= MinResolution
              && hdu.header.naxis1.None?
    ensures v == Fatal(EmptyWavelengths) <==>
              && hdu.header.crval1.Some? && hdu.header.cdelt1.Some? && hdu.header.cdelt1.value != 0.0
              && hdu.header.crval1.value / hdu.header.cdelt1.value >= MinResolution
              && hdu.header.naxis1.Some? && hdu.header.naxis1.value < 1
    ensures v == Fatal(MissingKey("DATE-OBS")) <==> MeetsRequirements(hdu.header) && hdu.header.dateObs.None?
  {
    var h := hdu.header;
    if h.crval1.None? then Fatal(MissingKey("CRVAL1"))
    else if h.cdelt1.None? then Fatal(MissingKey("CDELT1"))
    else if h.cdelt1.value == 0.0 then Fatal(ZeroStep)
    else if h.crval1.value / h.cdelt1.value < MinResolution then Rejected
    else if h.naxis1.None? then Fatal(MissingKey("NAXIS1"))
    else
      var w := Wavelengths(h.crval1.value, h.cdelt1.value, h.naxis1.value);
      if |w| == 0 then Fatal(EmptyWavelengths)
      else if w[|w| - 1] - w[0] < MinWavelengthRange then Rejected
      else if h.dateObs.None? then Fatal(MissingKey("DATE-OBS"))
      else Accepted(SpectrumRecord(w, hdu.data, h.dateObs.value, h))
  }

  /** A positive product with a positive factor has a positive other factor. */
  lemma PositiveFactor(a: real, b: real)
    requires b > 0.0 && a * b > 0.0
    ensures a > 0.0
  {
  }

  /** Every accepted spectrum has at least two samples, a positive step and
      strictly increasing wavelengths whose last-minus-first span meets the
      requirement. */
  lemma AcceptedWavelengthsIncrease(hdu: Hdu)
    requires Assess(hdu).Accepted?
    ensures var rec := Assess(hdu).rec;
      && |rec.w| >= 2
      && rec.hdr.cdelt1.value > 0.0
      && (forall j, k :: 0 <= j < k < |rec.w| ==> rec.w[j] < rec.w[k])
      && rec.w[|rec.w| - 1] - rec.w[0] >= MinWavelengthRange
  {
    var rec := Assess(hdu).rec;
    var h := hdu.header;
    var c, d, n := h.crval1.value, h.cdelt1.value, h.naxis1.value;
    assert d * ((n - 1) as real) >= MinWavelengthRange;
    PositiveFactor(d, (n - 1) as real);
    forall j, k | 0 <= j < k < |rec.w|
      ensures rec.w[j] < rec.w[k]
    {
      assert rec.w[k] - rec.w[j] == ((k - j) as real) * d;
      PositiveFactor(rec.w[k] - rec.w[j], 1.0 / d);
    }
    assert rec.w[n - 1] - rec.w[0] == ((n - 1) as real) * d;
  }

  /** A spectrum below the resolution requirement is dropped whatever its
      other cards hold; in particular its NAXIS1 and DATE-OBS are never read. */
  lemma LowResolutionIsRejected(hdu: Hdu)
    requires hdu.header.crval1.Some? && hdu.header.cdelt1.Some? && hdu.header.cdelt1.value != 0.0
    requires hdu.header.crval1.value / hdu.header.cdelt1.value < MinResolution
    ensures Assess(hdu) == Rejected
  {
  }

  /** CRVAL1 = 4000, CDELT1 = 0.4, NAXIS1 = 6000: resolution 10000 and span 2399.6, accepted. */
  lemma FineSpectrumAccepted(flux: seq<real>)
    ensures Assess(Hdu(Header(Some(4000.0), Some(0.4), Some(6000), Some("2019-07-06")), flux)).Accepted?
  {
  }

  /** CRVAL1 = 4000, CDELT1 = 1, NAXIS1 = 1500: resolution 4000, rejected. */
  lemma CoarseSpectrumRejected(flux: seq<real>)
    ensures Assess(Hdu(Header(Some(4000.0), Some(1.0), Some(1500), Some("2019-07-06")), flux)) == Rejected
  {
  }
}
