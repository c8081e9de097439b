/** One run of the script on a selected column: detect the type, then
    branch into the qualitative analysis, the quantitative analysis or the
    "unsupported" message; an exception raised on the way ends the run in
    the error message. */
module Analysis {
  import opened Cells
  import opened Classification
  import opened Frequency
  import Qualitative
  import Quantitative

  /** What a run shows after the type label. */
  datatype Report =
    | QualitativeReport(categorical: Qualitative.QualitativeSummary)
    | QuantitativeReport(numeric: Quantitative.QuantitativeSummary)
    | Unsupported
    | Failed(error: Error)

  /** The categories of an all-text column. */
  function Texts(s: seq<Cell>): (r: seq<string>)
    requires forall i :: 0 <= i < |s| ==> IsText(s[i])
    ensures |r| == |s| && forall i :: 0 <= i < |s| ==> s[i] == Str(r[i])
  {
    seq(|s|, i requires 0 <= i < |s| && IsText(s[i]) => s[i].text)
  }

  /** `list(map(float, datos))` on an all-numeric column. */
  function Reals(s: seq<Cell>): seq<real>
    requires forall i :: 0 <= i < |s| ==> IsNumber(s[i])
  {
    seq(|s|, i requires 0 <= i < |s| && IsNumber(s[i]) => ToReal(s[i]))
  }

  /** The data of the script after `dropna().tolist()`, and the iteration
      order the runtime gives `set(datos)` on the quantitative branch. */
  function Run(cells: seq<Cell>, setOrder: seq<real>): (r: Report)
    requires Classify(cells) == Quantitative ==> Quantitative.Enumerates(setOrder, Reals(cells))
    ensures r.Failed? <==> cells == []
    ensures r.Failed? ==> r.error == EmptyArgument
    ensures r.QualitativeReport? <==> cells != [] && forall i :: 0 <= i < |cells| ==> IsText(cells[i])
    ensures r.QuantitativeReport? <==> cells != [] && forall i :: 0 <= i < |cells| ==> IsNumber(cells[i])
    ensures r.Unsupported? <==> Classify(cells) == Mixed
    ensures r.QualitativeReport? ==> Qualitative.Analyze(Texts(cells)) == Success(r.categorical)
    ensures r.QuantitativeReport? ==> Quantitative.Analyze(Reals(cells), setOrder) == Success(r.numeric)
  {
    match Classify(cells)
    case Qualitative =>
      (match Qualitative.Analyze(Texts(cells))
       case Success(q) => QualitativeReport(q)
       case Failure(e) => Failed(e))
    case Quantitative =>
      (match Quantitative.Analyze(Reals(cells), setOrder)
       case Success(q) => QuantitativeReport(q)
       case Failure(e) => Failed(e))
    case Mixed => Unsupported
  }

  /** A qualitative run reports a frequency table of the categories with
      non-increasing counts and, as mode, a category that occurs at least
      as often as any other. */
  lemma QualitativeRunSpec(cells: seq<Cell>, setOrder: seq<real>)
    requires cells != [] && forall i :: 0 <= i < |cells| ==> IsText(cells[i])
    ensures Run(cells, setOrder).QualitativeReport?
    ensures var q := Run(cells, setOrder).categorical;
      && IsFrequencyTable(q.table, Texts(cells))
      && NonIncreasing(q.table)
      && q.mode == q.table[0].key
      && Str(q.mode) in cells
      && forall k :: 0 <= k < |cells| ==> Count(Texts(cells), cells[k].text) <= Count(Texts(cells), q.mode)
  {
    var xs := Texts(cells);
    var q := Run(cells, setOrder).categorical;
    assert q.mode in xs;
    var k :| 0 <= k < |xs| && xs[k] == q.mode;
    assert cells[k] == Str(q.mode);
    forall k | 0 <= k < |cells| ensures Count(xs, cells[k].text) <= Count(xs, q.mode) {
      assert xs[k] == cells[k].text;
      assert xs[k] in xs;
    }
  }

  /** A quantitative run's cumulative frequencies end at the number of
      cells, and its minimum and maximum bound every cell's value. */
  lemma QuantitativeRunSpec(cells: seq<Cell>, setOrder: seq<real>)
    requires cells != [] && forall i :: 0 <= i < |cells| ==> IsNumber(cells[i])
    requires Quantitative.Enumerates(setOrder, Reals(cells))
    ensures Run(cells, setOrder).QuantitativeReport?
    ensures var q := Run(cells, setOrder).numeric;
      && |q.cumulative| == |q.table| > 0
      && q.cumulative[|q.cumulative| - 1] == |cells|
      && q.stats.count == |cells|
      && forall k :: 0 <= k < |cells| ==> q.stats.minimum <= ToReal(cells[k]) <= q.stats.maximum
  {
    var xs := Reals(cells);
    var q := Run(cells, setOrder).numeric;
    forall k | 0 <= k < |cells| ensures q.stats.minimum <= ToReal(cells[k]) <= q.stats.maximum {
      assert xs[k] == ToReal(cells[k]);
    }
  }

  /** An empty column is tagged qualitative and ends in the error message,
      because `np.argmax` of an empty table raises. */
  lemma EmptyColumnFails(setOrder: seq<real>)
    ensures Classify([]) == Qualitative
    ensures Run([], setOrder) == Failed(EmptyArgument)
  {
  }
}
