/** The analysis of an ungrouped quantitative column: the order statistics
    of the bundle, the frequency table sorted by value and its cumulative
    frequencies. */
module Quantitative {
  import opened Cells
  import opened Frequency
  import opened Extremes

  /** `sort_index` orders the rows by ascending value. */
  function KeyOrder(a: Entry<real>, b: Entry<real>): bool
  {
    a.key <= b.key
  }

  /** The rows' values strictly ascend. */
  ghost predicate StrictlyAscending(t: seq<Entry<real>>)
  {
    forall i, j :: 0 <= i < j < |t| ==> t[i].key < t[j].key
  }

  /** `pd.Series(datos).value_counts().sort_index()`: a frequency table of
      the data whose values are strictly ascending. */
  function FrequencyTable(s: seq<real>): (t: seq<Entry<real>>)
    ensures IsFrequencyTable(t, s)
    ensures StrictlyAscending(t)
  {
    var vc := ValueCounts(s);
    SortByFrequencyTable(vc, s, KeyOrder);
    KeyOrderIsTotalPreorder();
    SortBySorted(vc, KeyOrder);
    var t := SortBy(vc, KeyOrder);
    SortedDistinctIsAscending(t);
    t
  }

  lemma KeyOrderIsTotalPreorder()
    ensures TotalPreorder(KeyOrder)
  {
  }

  lemma SortedDistinctIsAscending(t: seq<Entry<real>>)
    requires SortedBy(t, KeyOrder) && Distinct(Keys(t))
    ensures StrictlyAscending(t)
  {
    forall i, j | 0 <= i < j < |t| ensures t[i].key < t[j].key {
      assert KeyOrder(t[i], t[j]);
      assert Keys(t)[i] != Keys(t)[j];
    }
  }

  /** The running sum started from `acc`. */
  function CumSumFrom(acc: nat, xs: seq<nat>): (r: seq<nat>)
    ensures |r| == |xs|
    ensures forall i :: 0 <= i < |r| ==> acc <= r[i]
    ensures forall i, j :: 0 <= i < j < |r| ==> r[i] <= r[j]
    ensures |r| > 0 ==> r[0] == acc + xs[0] && r[|r| - 1] == acc + Sum(xs)
    decreases |xs|
  {
    if xs == [] then []
    else [acc + xs[0]] + CumSumFrom(acc + xs[0], xs[1..])
  }

  /** `np.cumsum(xs)`: entry `i` is the sum of the first `i + 1` counts,
      each entry adds the next count to the previous one, and the sequence
      is non-decreasing from the first count to the total. */
  function CumSum(xs: seq<nat>): (r: seq<nat>)
    ensures |r| == |xs|
    ensures forall i :: 0 <= i < |xs| ==> r[i] == Sum(xs[..i + 1])
    ensures forall i :: 0 < i < |xs| ==> r[i] == r[i - 1] + xs[i]
    ensures forall i, j :: 0 <= i < j < |xs| ==> r[i] <= r[j]
    ensures |xs| > 0 ==> r[0] == xs[0] && r[|xs| - 1] == Sum(xs)
  {
    var r := CumSumFrom(0, xs);
    assert forall i :: 0 <= i < |xs| ==> r[i] == Sum(xs[..i + 1]) by {
      forall i | 0 <= i < |xs| ensures r[i] == Sum(xs[..i + 1]) {
        CumSumFromAt(0, xs, i);
      }
    }
    assert forall i :: 0 < i < |xs| ==> r[i] == r[i - 1] + xs[i] by {
      forall i | 0 < i < |xs| ensures r[i] == r[i - 1] + xs[i] {
        CumSumFromStep(0, xs, i);
      }
    }
    r
  }

  lemma {:induction false} CumSumFromAt(acc: nat, xs: seq<nat>, i: nat)
    requires i < |xs|
    ensures CumSumFrom(acc, xs)[i] == acc + Sum(xs[..i + 1])
    decreases i
  {
    assert xs[..i + 1][1..] == xs[1..][..i];
    if i > 0 {
      CumSumFromAt(acc + xs[0], xs[1..], i - 1);
    }
  }

  lemma {:induction false} CumSumFromStep(acc: nat, xs: seq<nat>, i: nat)
    requires 0 < i < |xs|
    ensures CumSumFrom(acc, xs)[i] == CumSumFrom(acc, xs)[i - 1] + xs[i]
    decreases i
  {
    var tail := CumSumFrom(acc + xs[0], xs[1..]);
    assert CumSumFrom(acc, xs) == [acc + xs[0]] + tail;
    if i > 1 {
      CumSumFromStep(acc + xs[0], xs[1..], i - 1);
    }
  }

  /** The order in which a Python `set` of the data is iterated: every
      distinct value exactly once, in an order the runtime chooses. */
  ghost predicate Enumerates(order: seq<real>, s: seq<real>)
  {
    Distinct(order) && forall x :: x in order <==> x in s
  }

  /** `max(set(datos), key=datos.count)`: the first value, in the set's
      iteration order, whose number of occurrences is largest. */
  function SetMode(s: seq<real>, order: seq<real>): (m: real)
    requires |s| > 0 && Enumerates(order, s)
    ensures IsMode(m, s)
    ensures exists k :: 0 <= k < |order| && order[k] == m && forall j :: 0 <= j < k ==> Count(s, order[j]) < Count(s, m)
  {
    assert forall x :: x in s ==> x in order;
    assert s[0] in s;
    assert s[0] in order;
    var counts := seq(|order|, i requires 0 <= i < |order| => Count(s, order[i]) as int);
    var k := ArgMax(counts);
    assert counts[k] == Count(s, order[k]);
    assert forall x :: x in s ==> Count(s, x) <= counts[k] by {
      forall x | x in s ensures Count(s, x) <= counts[k] {
        var i :| 0 <= i < |order| && order[i] == x;
        assert counts[i] == Count(s, x);
      }
    }
    assert forall j :: 0 <= j < k ==> counts[j] == Count(s, order[j]);
    order[k]
  }

  datatype Summary = Summary(count: nat, mode: real, minimum: real, maximum: real, range: real)

  /** The order statistics of the bundle: length, mode, minimum, maximum
      and range. Python's `max` raises on an empty set. */
  function Statistics(s: seq<real>, order: seq<real>): (r: Result<Summary>)
    requires Enumerates(order, s)
    ensures r.Success? <==> |s| > 0
    ensures r.Failure? ==> r.error == EmptyArgument
    ensures r.Success? ==> r.value.count == |s|
    ensures r.Success? ==> IsMode(r.value.mode, s)
    ensures r.Success? ==> r.value.minimum in s && r.value.maximum in s
    ensures r.Success? ==> forall i :: 0 <= i < |s| ==> r.value.minimum <= s[i] <= r.value.maximum
    ensures r.Success? ==> r.value.range == r.value.maximum - r.value.minimum >= 0.0
  {
    if s == [] then Failure(EmptyArgument)
    else Success(Summary(|s|, SetMode(s, order), Min(s), Max(s), Max(s) - Min(s)))
  }

  /** The cumulative frequencies of a frequency table of non-empty data
      run index for index with the table, from its first count up to the
      number of data. */
  ghost predicate IsCumulative<T>(cum: seq<nat>, t: seq<Entry<T>>, n: nat)
  {
    && |cum| == |t| > 0
    && cum[0] == t[0].count
    && (forall i :: 0 < i < |t| ==> cum[i] == cum[i - 1] + t[i].count)
    && (forall i, j :: 0 <= i < j < |cum| ==> cum[i] <= cum[j])
    && cum[|cum| - 1] == n
  }

  lemma CumulativeOfTable<T(!new)>(t: seq<Entry<T>>, s: seq<T>)
    requires |s| > 0 && IsFrequencyTable(t, s)
    ensures IsCumulative(CumSum(Counts(t)), t, |s|)
  {
    assert s[0] in s;
    assert s[0] in Keys(t);
  }

  datatype QuantitativeSummary = QuantitativeSummary(stats: Summary, table: seq<Entry<real>>, cumulative: seq<nat>)

  /** The statistics bundle, the frequency table sorted by value and the
      cumulative frequencies of its counts (the ogive's points). */
  function Analyze(s: seq<real>, order: seq<real>): (r: Result<QuantitativeSummary>)
    requires Enumerates(order, s)
    ensures r.Success? <==> |s| > 0
    ensures r.Failure? ==> r.error == EmptyArgument
    ensures r.Success? ==> Statistics(s, order) == Success(r.value.stats)
    ensures r.Success? ==> IsFrequencyTable(r.value.table, s) && StrictlyAscending(r.value.table)
    ensures r.Success? ==> IsCumulative(r.value.cumulative, r.value.table, |s|)
  {
    match Statistics(s, order)
    case Failure(e) => Failure(e)
    case Success(stats) =>
      var t := FrequencyTable(s);
      CumulativeOfTable(t, s);
      Success(QuantitativeSummary(stats, t, CumSum(Counts(t))))
  }
}
