/** Two columns worked through the model: ["a", "b", "b", "c"] and
    [1, 2, 2, 3]. */
module WorkedExamples {
  import opened Cells
  import opened Frequency
  import Qualitative
  import Quantitative

  const Letters: seq<string> := ["a", "b", "b", "c"]
  const Numbers: seq<real> := [1.0, 2.0, 2.0, 3.0]

  lemma LettersFirstOccurrences()
    ensures FirstOccurrences(Letters) == ["a", "b", "c"]
  {
    assert Letters[..3] == ["a", "b", "b"];
    assert Letters[..3][..2] == ["a", "b"];
    assert ["a", "b"][..1] == ["a"];
    assert FirstOccurrences(["a"]) == ["a"];
    assert FirstOccurrences(["a", "b"]) == ["a", "b"];
    assert FirstOccurrences(["a", "b", "b"]) == ["a", "b"];
  }

  lemma LettersTabulate()
    ensures Tabulate(["a", "b", "c"], Letters) == [Entry("a", 1), Entry("b", 2), Entry("c", 1)]
  {
    assert Count(Letters, "a") == 1;
    assert Count(Letters, "b") == 2;
    assert Count(Letters, "c") == 1;
  }

  lemma LettersSortTail()
    ensures SortBy([Entry("b", 2), Entry("c", 1)], MoreFrequent) == [Entry("b", 2), Entry("c", 1)]
  {
    assert SortBy([Entry("c", 1)], MoreFrequent) == [Entry("c", 1)];
  }

  lemma LettersInsertHead()
    ensures InsertBy(Entry("a", 1), [Entry("b", 2), Entry("c", 1)], MoreFrequent)
         == [Entry("b", 2), Entry("a", 1), Entry("c", 1)]
  {
    assert InsertBy(Entry("a", 1), [Entry("c", 1)], MoreFrequent) == [Entry("a", 1), Entry("c", 1)];
  }

  /** `value_counts` puts "b" first; "a" and "c" tie and keep the order in
      which they first appear. */
  lemma LettersValueCounts()
    ensures ValueCounts(Letters) == [Entry("b", 2), Entry("a", 1), Entry("c", 1)]
  {
    LettersFirstOccurrences();
    LettersTabulate();
    LettersSortTail();
    LettersInsertHead();
    var tab := [Entry("a", 1), Entry("b", 2), Entry("c", 1)];
    assert tab[1..] == [Entry("b", 2), Entry("c", 1)];
  }

  lemma LettersAnalysis()
    ensures Qualitative.Analyze(Letters) ==
      Success(Qualitative.QualitativeSummary([Entry("b", 2), Entry("a", 1), Entry("c", 1)], "b"))
  {
    LettersValueCounts();
  }

  lemma NumbersFirstOccurrences()
    ensures FirstOccurrences(Numbers) == [1.0, 2.0, 3.0]
  {
    assert Numbers[..3] == [1.0, 2.0, 2.0];
    assert Numbers[..3][..2] == [1.0, 2.0];
    assert [1.0, 2.0][..1] == [1.0];
    assert FirstOccurrences([1.0]) == [1.0];
    assert FirstOccurrences([1.0, 2.0]) == [1.0, 2.0];
    assert FirstOccurrences([1.0, 2.0, 2.0]) == [1.0, 2.0];
  }

  lemma NumbersTabulate()
    ensures Tabulate([1.0, 2.0, 3.0], Numbers) == [Entry(1.0, 1), Entry(2.0, 2), Entry(3.0, 1)]
  {
    assert Count(Numbers, 1.0) == 1;
    assert Count(Numbers, 2.0) == 2;
    assert Count(Numbers, 3.0) == 1;
  }

  lemma NumbersSortTail()
    ensures SortBy([Entry(2.0, 2), Entry(3.0, 1)], MoreFrequent) == [Entry(2.0, 2), Entry(3.0, 1)]
  {
    assert SortBy([Entry(3.0, 1)], MoreFrequent) == [Entry(3.0, 1)];
  }

  lemma NumbersInsertHead()
    ensures InsertBy(Entry(1.0, 1), [Entry(2.0, 2), Entry(3.0, 1)], MoreFrequent)
         == [Entry(2.0, 2), Entry(1.0, 1), Entry(3.0, 1)]
  {
    assert InsertBy(Entry(1.0, 1), [Entry(3.0, 1)], MoreFrequent) == [Entry(1.0, 1), Entry(3.0, 1)];
  }

  lemma NumbersValueCounts()
    ensures ValueCounts(Numbers) == [Entry(2.0, 2), Entry(1.0, 1), Entry(3.0, 1)]
  {
    NumbersFirstOccurrences();
    NumbersTabulate();
    NumbersSortTail();
    NumbersInsertHead();
    var tab := [Entry(1.0, 1), Entry(2.0, 2), Entry(3.0, 1)];
    assert tab[1..] == [Entry(2.0, 2), Entry(3.0, 1)];
  }

  lemma NumbersSortIndexTail()
    ensures SortBy([Entry(1.0, 1), Entry(3.0, 1)], Quantitative.KeyOrder) == [Entry(1.0, 1), Entry(3.0, 1)]
  {
    assert SortBy([Entry(3.0, 1)], Quantitative.KeyOrder) == [Entry(3.0, 1)];
    assert InsertBy(Entry(1.0, 1), [Entry(3.0, 1)], Quantitative.KeyOrder) == [Entry(1.0, 1), Entry(3.0, 1)];
  }

  lemma NumbersSortIndexHead()
    ensures InsertBy(Entry(2.0, 2), [Entry(1.0, 1), Entry(3.0, 1)], Quantitative.KeyOrder)
         == [Entry(1.0, 1), Entry(2.0, 2), Entry(3.0, 1)]
  {
    assert InsertBy(Entry(2.0, 2), [Entry(3.0, 1)], Quantitative.KeyOrder) == [Entry(2.0, 2), Entry(3.0, 1)];
  }

  lemma NumbersSortIndex()
    ensures SortBy(ValueCounts(Numbers), Quantitative.KeyOrder) == [Entry(1.0, 1), Entry(2.0, 2), Entry(3.0, 1)]
  {
    NumbersValueCounts();
    NumbersSortIndexTail();
    NumbersSortIndexHead();
    var vc := [Entry(2.0, 2), Entry(1.0, 1), Entry(3.0, 1)];
    assert vc[1..] == [Entry(1.0, 1), Entry(3.0, 1)];
  }

  /** `sort_index` gives the rows 1, 2, 3, and the ogive climbs 1, 3, 4. */
  lemma NumbersTable()
    ensures Quantitative.FrequencyTable(Numbers) == [Entry(1.0, 1), Entry(2.0, 2), Entry(3.0, 1)]
    ensures Quantitative.CumSum(Counts(Quantitative.FrequencyTable(Numbers))) == [1, 3, 4]
  {
    NumbersSortIndex();
    NumbersCumulative();
  }

  lemma NumbersCumulative()
    ensures Quantitative.CumSum(Counts([Entry(1.0, 1), Entry(2.0, 2), Entry(3.0, 1)])) == [1, 3, 4]
  {
    assert Counts([Entry(1.0, 1), Entry(2.0, 2), Entry(3.0, 1)]) == [1, 2, 1];
    assert Quantitative.CumSumFrom(3, [1]) == [4];
    assert Quantitative.CumSumFrom(1, [2, 1]) == [3, 4];
  }

  /** Whatever order the set of values is iterated in, the mode is 2 (the
      only value occurring twice), the minimum 1, the maximum 3 and the
      range 2. */
  lemma NumbersStatistics(order: seq<real>)
    requires Quantitative.Enumerates(order, Numbers)
    ensures Quantitative.Statistics(Numbers, order) == Success(Quantitative.Summary(4, 2.0, 1.0, 3.0, 2.0))
  {
    var r := Quantitative.Statistics(Numbers, order).value;
    assert Count(Numbers, 1.0) == 1;
    assert Count(Numbers, 2.0) == 2;
    assert Count(Numbers, 3.0) == 1;
    assert 2.0 in Numbers;
    assert r.mode == 2.0;
    assert r.minimum <= Numbers[0] && r.maximum >= Numbers[3];
  }
}
