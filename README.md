# Column type detection and frequency summaries of `recu1.py`

`recu1.py` is a Streamlit script. The user uploads an Excel sheet and picks a
column. The script takes the column's non-missing values, decides whether
they are qualitative (all text), ungrouped quantitative (all integers or
floats) or mixed, and then summarises them:

- a qualitative column gets a `value_counts` frequency table and its mode;
- a quantitative column gets a statistics bundle, a frequency table sorted
  by value, and the cumulative frequencies of that table (the ogive);
- a mixed column gets an "unsupported" message;
- any exception raised on the way ends in an error message.

This project models that logic as Dafny functions over sequences and proves
what each step promises. All of it is pure code: the script only evaluates
expressions and library calls, so the model has no classes or loops.

Modules, in pipeline order:

- `Cells`: the cell values, `Str | Int | Num | Other`, with numbers as exact
  reals. `IsText` and `IsNumber` define the `isinstance` tests of
  recu1.py:25 and 27, and `ToReal` defines `float(d)` of recu1.py:66; they
  are definitions, used by the contracts of `Classify`, `Quantitative.Analyze`
  and `Run`. Also the one error the core can raise (a reduction over an
  empty sequence) and a `Result` type.
- `Classification`: the ordered if/elif/else over two `all(...)` scans.
- `Frequency`: counting, `value_counts`, and one stable insertion sort
  `SortBy`. The sort is used with "non-increasing count" for `value_counts`
  and with "ascending value" for `sort_index`.
- `Extremes`: `np.argmax`, `np.min`, `np.max`.
- `Qualitative`: the frequency table and `categorias[np.argmax(valores)]`.
- `Quantitative`: the sorted table, `np.cumsum`, the mode
  `max(set(datos), key=datos.count)`, and min, max and range.
- `Analysis`: one run of the script (`Run`). It dispatches on the tag and
  turns the exception into a `Failed` report. `Reals` defines
  `list(map(float, datos))` (recu1.py:66) as `ToReal` applied cell by cell.
- `WorkedExamples`: the columns `["a", "b", "b", "c"]` and `[1, 2, 2, 3]`,
  worked through the model.

Two behaviours of the code differ from what one might expect:

- An empty column: one might expect it to count as "mixed". In the code,
  `all(...)` of an empty list is true, so the column is tagged qualitative.
  The qualitative branch then calls `np.argmax` on an empty list, which
  raises. The run ends in the error message of lines 115-116.
  `Analysis.EmptyColumnFails` states this.
- The quantitative mode: one might expect the first maximum of a scan over
  the data. The code returns the first maximum in the iteration order of
  `set(datos)`, and that order is chosen by the Python runtime. The model
  takes it as the parameter `setOrder`. The parameter must list each
  distinct value once. Under any such order the result is a value of
  maximal count.

## Model

| member | source | states |
|---|---|---|
| `Classification.Classify` | recu1.py:25-30 | Exactly one tag. Qualitative iff every cell is text; this includes the empty column. Quantitative iff the column is non-empty and every cell is an int or float. Mixed iff some cell is neither, or the column holds both a text and a number. |
| `Classification.AllTextEvery` | recu1.py:25 | The left-to-right `all(isinstance(d, str) ...)` scan is true iff every element is text. |
| `Classification.AllNumberEvery` | recu1.py:27 | The `all(isinstance(d, (int, float)) ...)` scan is true iff every element is a number. |
| `Classification.EmptyIsQualitative` | recu1.py:25-26 | The empty column is tagged qualitative, because `all()` of nothing is true. |
| `Classification.OtherForcesMixed` | recu1.py:27-30 | One cell that is neither text nor a number forces the mixed tag. |
| `Classification.TextAmongNumbersIsMixed` | recu1.py:25-30 | Inserting one text cell anywhere into a quantitative column makes it mixed. |
| `Frequency.Count` | recu1.py:75 | `datos.count(x)` is at most the length, and is positive iff `x` occurs. |
| `Frequency.FirstOccurrences` | recu1.py:37 | The distinct values that `value_counts` tabulates: no repeats, and exactly the values of the data. |
| `Frequency.TotalTabulate` | recu1.py:37-39 | Counting the data over distinct keys that cover it gives counts that add up to `len(datos)`. |
| `Frequency.InsertBy` | recu1.py:37 | One insertion step reorders rows only: the multiset of rows grows by the inserted row, and so does the total count. |
| `Frequency.SortBy` | recu1.py:37 | The result is a permutation of the rows: same length, same multiset, same total count. |
| `Frequency.SortBySorted` | recu1.py:86 | Under a total preorder the sorted rows are ordered pairwise. |
| `Frequency.SortByDistinctKeys` | recu1.py:86 | Sorting keeps the keys distinct. |
| `Frequency.SortByFrequencyTable` | recu1.py:86 | Sorting a frequency table of the data leaves a frequency table of the same data. |
| `Frequency.ValueCounts` | recu1.py:37-39 | `value_counts` is a frequency table of the data: its keys are distinct, are exactly the data's values, and carry their occurrence counts. The counts add up to `len(datos)` and never increase from row to row. The table is empty iff the data is. |
| `Extremes.ArgMax` | recu1.py:42 | `np.argmax` gives an index of a maximal element, and no earlier element is as large. |
| `Extremes.Min` | recu1.py:76 | `np.min` returns an element of the data that is at most every element. |
| `Extremes.Max` | recu1.py:77 | `np.max` returns an element of the data that is at least every element. |
| `Qualitative.TableMode` | recu1.py:42 | `categorias[np.argmax(valores)]` fails iff the table is empty. Otherwise it is the key of the first row with the largest count. |
| `Qualitative.TableModeOfNonIncreasing` | recu1.py:37-42 | On a table whose counts never increase, the mode is the key of the first row. |
| `Qualitative.FirstRowIsMostFrequent` | recu1.py:37-42 | The first row of such a frequency table holds a data value whose count is at least every other value's count. |
| `Qualitative.ValueCountsMode` | recu1.py:37-42 | For non-empty data, the mode taken from `value_counts` is its first key and is a mode of the data. |
| `Qualitative.Analyze` | recu1.py:37-42 | Fails, with the empty-argument error, iff there are no categories. Otherwise it returns a frequency table of the categories with non-increasing counts, and the table's first key as the mode. That mode is a category with maximal count. |
| `Quantitative.FrequencyTable` | recu1.py:86 | `value_counts().sort_index()` is a frequency table of the data whose values strictly ascend. |
| `Quantitative.SortedDistinctIsAscending` | recu1.py:86 | Rows sorted by value with distinct values are strictly ascending. |
| `Quantitative.CumSumFrom` | recu1.py:99 | The running sum started from an accumulator `acc` has the input's length, is non-decreasing, and no entry is below `acc`. It starts at `acc` plus the first count and ends at `acc` plus the total. |
| `Quantitative.CumSumFromAt` | recu1.py:99 | Entry `i` of the running sum is the sum of the first `i + 1` counts. |
| `Quantitative.CumSumFromStep` | recu1.py:99 | Each entry of the running sum is the previous entry plus the next count. |
| `Quantitative.CumSum` | recu1.py:99 | `np.cumsum`: same length as the counts; entry `i` is the sum of the first `i + 1` counts; each entry is the previous one plus the next count; non-decreasing; the first entry is the first count and the last is the sum of all counts. |
| `Quantitative.SetMode` | recu1.py:75 | For any iteration order of `set(datos)`, the mode is a data value with maximal count. It is the first such value in that order. |
| `Quantitative.Statistics` | recu1.py:69-81 | The order statistics of the bundle. They fail iff the data is empty. Otherwise the count is `len(datos)` and the mode is a value of maximal count. Min and max are data values with min <= every value <= max, and range = max - min >= 0. |
| `Quantitative.CumulativeOfTable` | recu1.py:86-99 | The cumulative frequencies of a frequency table of non-empty data: aligned index for index with the table, starting at the first count, stepping by each count, non-decreasing, ending at `len(datos)`. |
| `Quantitative.Analyze` | recu1.py:66-99 | The quantitative branch fails iff the data is empty. Otherwise it returns the statistics, a strictly ascending frequency table of the data, and that table's cumulative frequencies ending at `len(datos)`. |
| `Analysis.Run` | recu1.py:22-116 | One run. Failed iff the column is empty. Qualitative report iff the column is non-empty and all text. Quantitative report iff it is non-empty and all numeric. Unsupported iff the tag is mixed. Each report holds its branch's analysis of the column. |
| `Analysis.QualitativeRunSpec` | recu1.py:35-42 | A qualitative report holds a frequency table of the categories with non-increasing counts. Its mode is the first key, is one of the cells, and occurs at least as often as any cell. |
| `Analysis.QuantitativeRunSpec` | recu1.py:64-99 | In a quantitative report, the last cumulative frequency and the count both equal the number of cells. Min and max bound every cell's value. |
| `Analysis.EmptyColumnFails` | recu1.py:25-42 | An empty column is tagged qualitative and the run fails with the empty-argument error, because `np.argmax` raises. |
| `WorkedExamples.LettersValueCounts` | recu1.py:37 | `value_counts` of `["a", "b", "b", "c"]` is b:2, a:1, c:1. |
| `WorkedExamples.LettersAnalysis` | recu1.py:37-42 | The qualitative analysis of `["a", "b", "b", "c"]` has mode "b". |
| `WorkedExamples.NumbersTable` | recu1.py:86-99 | The sorted table of `[1, 2, 2, 3]` is 1:1, 2:2, 3:1, and its cumulative frequencies are 1, 3, 4. |
| `WorkedExamples.NumbersStatistics` | recu1.py:75-78 | For `[1, 2, 2, 3]`, under every set iteration order: count 4, mode 2, min 1, max 3, range 2. |

## Left out

- The Streamlit interface is not modelled: title, uploader, selectbox, texts, tables, JSON panel, info and error boxes (recu1.py:8-21, 32-33, 43-48, 82-83, 87-88, 112-119). It is display and I/O only. The error branch is modelled as the `Failed` report, not as the message it prints.
- Reading the spreadsheet with `pd.read_excel` (recu1.py:16) is file I/O in a foreign library. The model starts from the column after `dropna().tolist()` (recu1.py:22), given as a sequence of tagged cells.
- The matplotlib charts are not modelled: pie, bar, histogram with `bins="auto"`, and the ogive plot (recu1.py:51-62, 91-110). The ogive's data, the sorted values and their cumulative frequencies, is modelled.
- Analysis.Run: the chart calls run inside the `try` block, so one that raises also ends the run in the error message of recu1.py:115-116. An example is `ax1.hist(datos, bins="auto")` (recu1.py:93) on data with a far outlier, such as `[1, 2, 3, 4, 1e15]`, which asks for about 10^14 bins. `Run` does not capture this: it returns the branch's report whenever the analysis itself succeeds.
- The floating-point statistics of the bundle are not modelled: arithmetic mean, `gmean`, `trim_mean`, median, and population and sample variance (recu1.py:71-74, 79-80). They depend on IEEE arithmetic and numpy/scipy internals. `Quantitative.Statistics` covers only the count, mode, minimum, maximum and range.
- Cells.ToReal: floats are exact reals. The model leaves out three float effects: rounding of large integers in `float(d)` (which can merge two distinct integers into one value), the `OverflowError` that `float` raises for integers beyond the float range, and NaN and infinities.
- Cells.IsNumber: Python's `bool` counts as `int` for `isinstance`, and pandas may change dtypes in `dropna().tolist()`. Neither is modelled. The cell tags are taken as given.
- Frequency.ValueCounts: rows with equal counts keep the order in which their values first appear. This is a choice of the model; pandas does not document this order. The contracts promise only non-increasing counts. Which of several tied values is the mode depends on this choice. That the mode has maximal count does not: `Qualitative.FirstRowIsMostFrequent` proves it for any frequency table with non-increasing counts.
- Quantitative.SetMode: the iteration order of `set(datos)` is decided by the runtime's hashing. It is a parameter of the model. Which of several tied values is returned is therefore not determined.
