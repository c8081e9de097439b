/** The analysis of a qualitative column: its frequency table and mode. */
module Qualitative {
  import opened Cells
  import opened Frequency
  import opened Extremes

  /** `categorias[np.argmax(valores)]`: the key of the first row with the
      largest count; `np.argmax` raises on an empty table. */
  function TableMode<T(!new)>(t: seq<Entry<T>>): (r: Result<T>)
    ensures r.Success? <==> |t| > 0
    ensures r.Success? ==>
              exists k :: 0 <= k < |t| && t[k].key == r.value
                && (forall j :: 0 <= j < |t| ==> t[j].count <= t[k].count)
                && (forall j :: 0 <= j < k ==> t[j].count < t[k].count)
  {
    if t == [] then Failure(EmptyArgument)
    else
      var k := ArgMax(Counts(t));
      assert forall j :: 0 <= j < |t| ==> Counts(t)[j] == t[j].count;
      Success(Keys(t)[k])
  }

  /** On a table with non-increasing counts the mode is the first row's key. */
  lemma TableModeOfNonIncreasing<T(!new)>(t: seq<Entry<T>>)
    requires |t| > 0 && NonIncreasing(t)
    ensures TableMode(t) == Success(t[0].key)
  {
    var m := TableMode(t).value;
    var k :| 0 <= k < |t| && t[k].key == m
             && (forall j :: 0 <= j < k ==> t[j].count < t[k].count);
  }

  /** The first row of a frequency table with non-increasing counts holds
      a value of the data that occurs at least as often as any other. */
  lemma FirstRowIsMostFrequent<T(!new)>(t: seq<Entry<T>>, s: seq<T>)
    requires |t| > 0 && IsFrequencyTable(t, s) && NonIncreasing(t)
    ensures IsMode(t[0].key, s)
  {
    assert Keys(t)[0] == t[0].key;
    forall x | x in s ensures Count(s, x) <= Count(s, t[0].key) {
      assert x in Keys(t);
      var i :| 0 <= i < |t| && Keys(t)[i] == x;
      assert t[i].key == x;
    }
  }

  /** The mode of a `value_counts` table is the key of its first row, a
      mode of the data. */
  lemma ValueCountsMode(s: seq<string>)
    requires |s| > 0
    ensures TableMode(ValueCounts(s)) == Success(ValueCounts(s)[0].key)
    ensures IsMode(ValueCounts(s)[0].key, s)
  {
    TableModeOfNonIncreasing(ValueCounts(s));
    FirstRowIsMostFrequent(ValueCounts(s), s);
  }

  datatype QualitativeSummary = QualitativeSummary(table: seq<Entry<string>>, mode: string)

  /** `value_counts` of the categories, then the mode taken from it. */
  function Analyze(s: seq<string>): (r: Result<QualitativeSummary>)
    ensures r.Success? <==> |s| > 0
    ensures r.Failure? ==> r.error == EmptyArgument
    ensures r.Success? ==> IsFrequencyTable(r.value.table, s) && NonIncreasing(r.value.table)
    ensures r.Success? ==> r.value.mode == r.value.table[0].key && IsMode(r.value.mode, s)
  {
    var t := ValueCounts(s);
    if |s| > 0 then
      ValueCountsMode(s);
      Success(QualitativeSummary(t, TableMode(t).value))
    else
      Failure(TableMode(t).error)
  }
}
