/** The legend label of `plot_line` and the errors that stop a plot before
    its curve is drawn. Velocities, flux normalisation and the drawing itself
    are outside the model; the rest-wavelength text is taken as given. */
module PlotLabel {
  import opened Wrappers
  import opened Text
  import opened Spectrum

  /** Why `plot_line` raises. */
  datatype PlotError =
    | IndexOutOfRange(i: int)  // `data[i]` with no such record
    | EmptyFlux                // `max` of an empty flux sequence
    | LabelUnbound             // neither flag set, so the label variable was never assigned

  /** Python's indexing of a sequence of length `n`: a negative index counts from the end. */
  function PyIndex(n: nat, i: int): (k: Option<nat>)
    ensures k.Some? <==> -(n as int) <= i < n
    ensures k.Some? ==> k.value < n && (k.value - i) % n == 0
  {
    if 0 <= i < n then Some(i) else if -(n as int) <= i < 0 then Some(n + i) else None
  }

  /** `"#{} - ".format(i)`: the part every label starts with. */
  function Prefix(i: int): string
  {
    "#" + IntText(i) + " - "
  }

  /** The label assignments of `plot_line`, in source order: each flag that is
      set overwrites the label; with no flag set the label stays unbound (None). */
  function LineLabel(i: int, wlText: string, date: string, dobs: bool, labwl: bool): (legend: Option<string>)
    ensures legend.None? <==> !dobs && !labwl
    ensures dobs && !labwl ==> legend == Some(Prefix(i) + date)
    ensures labwl && !dobs ==> legend == Some(Prefix(i) + wlText)
    ensures dobs && labwl ==> legend == Some(Prefix(i) + wlText + " - " + date)
  {
    var l0: Option<string> := None;
    var l1 := if dobs then Some(Prefix(i) + date) else l0;
    var l2 := if labwl then Some(Prefix(i) + wlText) else l1;
    if labwl && dobs then Some(Prefix(i) + wlText + " - " + date) else l2
  }

  /** The combined label is the wavelength label followed by the date. */
  lemma BothLabelsCombine(i: int, wlText: string, date: string)
    ensures LineLabel(i, wlText, date, true, true).value ==
            LineLabel(i, wlText, date, false, true).value + " - " + LineLabel(i, wlText, date, true, false).value[|Prefix(i)|..]
  {
  }

  /** In a text that starts with `Prefix(i)`, the first space sits right after the index. */
  lemma FirstSpaceAfterIndex(i: int, rest: string)
    ensures var s := Prefix(i) + rest;
      && 1 + |IntText(i)| < |s| && s[1 + |IntText(i)|] == ' '
      && s[1..1 + |IntText(i)|] == IntText(i)
      && forall k :: 0 <= k < 1 + |IntText(i)| ==> s[k] != ' '
  {
    var s := Prefix(i) + rest;
    var t := IntText(i);
    assert s == "#" + t + " - " + rest;
    assert s[0] == '#';
    assert forall k :: 0 <= k < |t| ==> s[1 + k] == t[k];
    assert s[1..1 + |t|] == t;
  }

  /** A label names the record it was drawn for: two labels that are equal
      were made for the same index, whatever the flags, dates and wavelengths. */
  lemma LabelsNameTheRecord(i: int, j: int, wlText: string, date: string, dobs: bool, labwl: bool,
                            wlText': string, date': string, dobs': bool, labwl': bool)
    requires LineLabel(i, wlText, date, dobs, labwl).Some?
    requires LineLabel(i, wlText, date, dobs, labwl) == LineLabel(j, wlText', date', dobs', labwl')
    ensures i == j
  {
    var s := LineLabel(i, wlText, date, dobs, labwl).value;
    var x := s[|Prefix(i)|..];
    var y := s[|Prefix(j)|..];
    assert s == Prefix(i) + x;
    assert s == Prefix(j) + y;
    FirstSpaceAfterIndex(i, x);
    FirstSpaceAfterIndex(j, y);
    assert |IntText(i)| == |IntText(j)|;
    IntTextInjective(i, j);
  }

  /** The label `plot_line(i, …)` hands to the plot for the collection
      `data`, or the error it raises first: the record lookup, then the
      maximum of its flux, then the label. */
  function PlotLineLabel(data: seq<SpectrumRecord>, i: int, wlText: string, dobs: bool, labwl: bool)
    : (r: Result<string, PlotError>)
    ensures r.Ok? <==> -|data| <= i < |data| && |data[PyIndex(|data|, i).value].f| > 0 && (dobs || labwl)
    ensures !(-|data| <= i < |data|) ==> r == Err(IndexOutOfRange(i))
    ensures -|data| <= i < |data| && |data[PyIndex(|data|, i).value].f| == 0 ==> r == Err(EmptyFlux)
    ensures -|data| <= i < |data| && |data[PyIndex(|data|, i).value].f| > 0 && !dobs && !labwl ==> r == Err(LabelUnbound)
    ensures r.Ok? ==> r.value == LineLabel(i, wlText, data[PyIndex(|data|, i).value].dateObs, dobs, labwl).value
  {
    match PyIndex(|data|, i)
    case None => Err(IndexOutOfRange(i))
    case Some(k) =>
      if |data[k].f| == 0 then Err(EmptyFlux)
      else
        match LineLabel(i, wlText, data[k].dateObs, dobs, labwl)
        case None => Err(LabelUnbound)
        case Some(legend) => Ok(legend)
  }
}
