/** Frequency tables in the manner of `pd.Series(datos).value_counts()`:
    one entry per distinct value with its number of occurrences. */
module Frequency {

  /** `datos.count(x)` */
  function Count<T(==,!new)>(s: seq<T>, x: T): (n: nat)
    ensures n <= |s|
    ensures n > 0 <==> x in s
  {
    if s == [] then 0
    else
      assert s == [s[0]] + s[1..];
      (if s[0] == x then 1 else 0) + Count(s[1..], x)
  }

  ghost predicate Distinct<T(!new)>(s: seq<T>)
  {
    forall i, j :: 0 <= i < j < |s| ==> s[i] != s[j]
  }

  lemma {:induction false} CountOfDistinct<T(!new)>(s: seq<T>, x: T)
    requires Distinct(s) && x in s
    ensures Count(s, x) == 1
  {
    if s[0] == x {
      assert x !in s[1..] by {
        forall i | 0 <= i < |s[1..]| ensures s[1..][i] != x {
          assert s[1..][i] == s[i + 1];
        }
      }
    } else {
      assert s == [s[0]] + s[1..];
      CountOfDistinct(s[1..], x);
    }
  }

  /** The distinct values of `s`, in the order of their first appearance.
      Pandas does not document the order of its table; this one is the
      model's choice. */
  function FirstOccurrences<T(==,!new)>(s: seq<T>): (r: seq<T>)
    ensures Distinct(r)
    ensures forall x :: x in r <==> x in s
  {
    if s == [] then []
    else
      var init := FirstOccurrences(s[..|s| - 1]);
      assert s == s[..|s| - 1] + [s[|s| - 1]];
      if s[|s| - 1] in init then init else init + [s[|s| - 1]]
  }

  /** One row of a frequency table. */
  datatype Entry<T> = Entry(key: T, count: nat)

  /** The table's index (`frecuencias.index.tolist()`). */
  function Keys<T(!new)>(t: seq<Entry<T>>): seq<T>
  {
    seq(|t|, i requires 0 <= i < |t| => t[i].key)
  }

  /** The table's values (`frecuencias.values.tolist()`). */
  function Counts<T(!new)>(t: seq<Entry<T>>): seq<nat>
  {
    seq(|t|, i requires 0 <= i < |t| => t[i].count)
  }

  function Sum(xs: seq<nat>): nat
  {
    if xs == [] then 0 else xs[0] + Sum(xs[1..])
  }

  /** The sum of a table's counts. */
  function Total<T(!new)>(t: seq<Entry<T>>): nat
  {
    Sum(Counts(t))
  }

  lemma TotalUnfold<T(!new)>(t: seq<Entry<T>>)
    requires |t| > 0
    ensures Total(t) == t[0].count + Total(t[1..])
  {
    assert Counts(t)[1..] == Counts(t[1..]);
  }

  /** The rows `(k, Count(s, k))` for the keys `ks`, in that order. */
  function Tabulate<T(==,!new)>(ks: seq<T>, s: seq<T>): (t: seq<Entry<T>>)
    ensures |t| == |ks|
    ensures forall i :: 0 <= i < |t| ==> t[i] == Entry(ks[i], Count(s, ks[i]))
  {
    if ks == [] then [] else [Entry(ks[0], Count(s, ks[0]))] + Tabulate(ks[1..], s)
  }

  lemma {:induction false} TotalTabulateCons<T(!new)>(ks: seq<T>, x: T, s: seq<T>)
    ensures Total(Tabulate(ks, [x] + s)) == Count(ks, x) + Total(Tabulate(ks, s))
  {
    if ks != [] {
      assert ([x] + s)[1..] == s;
      assert Tabulate(ks, [x] + s)[1..] == Tabulate(ks[1..], [x] + s);
      assert Tabulate(ks, s)[1..] == Tabulate(ks[1..], s);
      TotalUnfold(Tabulate(ks, [x] + s));
      TotalUnfold(Tabulate(ks, s));
      TotalTabulateCons(ks[1..], x, s);
    }
  }

  /** Counting over distinct keys that cover the data conserves the number
      of data. */
  lemma {:induction false} TotalTabulate<T(!new)>(ks: seq<T>, s: seq<T>)
    requires Distinct(ks)
    requires forall x :: x in s ==> x in ks
    ensures Total(Tabulate(ks, s)) == |s|
  {
    if s != [] {
      assert s == [s[0]] + s[1..];
      TotalTabulateCons(ks, s[0], s[1..]);
      assert Total(Tabulate(ks, s)) == Count(ks, s[0]) + Total(Tabulate(ks, s[1..]));
      assert s[0] in s;
      CountOfDistinct(ks, s[0]);
      assert forall x :: x in s[1..] ==> x in s;
      TotalTabulate(ks, s[1..]);
      assert Total(Tabulate(ks, s[1..])) == |s| - 1;
    } else {
      TotalTabulateNil(ks);
    }
  }

  lemma {:induction false} TotalTabulateNil<T(!new)>(ks: seq<T>)
    ensures Total(Tabulate(ks, [])) == 0
  {
    if ks != [] {
      assert Tabulate(ks, [])[1..] == Tabulate(ks[1..], []);
      TotalUnfold(Tabulate(ks, []));
      TotalTabulateNil(ks[1..]);
    }
  }

  /** `t` is ordered by the relation `before`. */
  ghost predicate SortedBy<T(!new)>(t: seq<Entry<T>>, before: (Entry<T>, Entry<T>) -> bool)
  {
    forall i, j :: 0 <= i < j < |t| ==> before(t[i], t[j])
  }

  /** `before` is a total preorder: any two rows compare, transitively. */
  ghost predicate TotalPreorder<T(!new)>(before: (Entry<T>, Entry<T>) -> bool)
  {
    && (forall a, b :: before(a, b) || before(b, a))
    && (forall a, b, c :: before(a, b) && before(b, c) ==> before(a, c))
  }

  /** Stable insertion: `e` goes in front of the first row it may precede,
      so it stays ahead of the rows it ties with. */
  function InsertBy<T(!new)>(e: Entry<T>, t: seq<Entry<T>>, before: (Entry<T>, Entry<T>) -> bool): (r: seq<Entry<T>>)
    ensures |r| == |t| + 1
    ensures multiset(r) == multiset(t) + multiset{e}
    ensures forall x :: x in r <==> x == e || x in t
    ensures Total(r) == e.count + Total(t)
  {
    if t == [] || before(e, t[0]) then
      assert ([e] + t)[1..] == t;
      TotalUnfold([e] + t);
      [e] + t
    else
      assert t == [t[0]] + t[1..];
      var rest := InsertBy(e, t[1..], before);
      assert ([t[0]] + rest)[1..] == rest;
      TotalUnfold([t[0]] + rest);
      TotalUnfold(t);
      [t[0]] + rest
  }

  /** A stable insertion sort of the rows by `before`. */
  function SortBy<T(!new)>(t: seq<Entry<T>>, before: (Entry<T>, Entry<T>) -> bool): (r: seq<Entry<T>>)
    ensures |r| == |t|
    ensures multiset(r) == multiset(t)
    ensures forall x :: x in r <==> x in t
    ensures Total(r) == Total(t)
  {
    if t == [] then []
    else
      assert t == [t[0]] + t[1..];
      TotalUnfold(t);
      InsertBy(t[0], SortBy(t[1..], before), before)
  }

  lemma {:induction false} InsertBySorted<T(!new)>(e: Entry<T>, t: seq<Entry<T>>, before: (Entry<T>, Entry<T>) -> bool)
    requires TotalPreorder(before) && SortedBy(t, before)
    ensures SortedBy(InsertBy(e, t, before), before)
  {
    if t != [] && before(e, t[0]) {
      var r := [e] + t;
      forall i, j | 0 <= i < j < |r| ensures before(r[i], r[j]) {
        if i == 0 && j > 1 {
          assert before(t[0], t[j - 1]);
        }
      }
    } else if t != [] {
      var rest := InsertBy(e, t[1..], before);
      InsertBySorted(e, t[1..], before);
      assert before(t[0], e);
      forall x | x in rest ensures before(t[0], x) {
        if x != e {
          var k :| 0 <= k < |t[1..]| && t[1..][k] == x;
          assert t[k + 1] == x;
        }
      }
      var r := [t[0]] + rest;
      forall i, j | 0 <= i < j < |r| ensures before(r[i], r[j]) {
        if i == 0 {
          assert r[j] == rest[j - 1];
          assert r[j] in rest;
        } else {
          assert r[i] == rest[i - 1] && r[j] == rest[j - 1];
        }
      }
    }
  }

  /** A row whose key no other row has can go in front of a table with
      distinct keys. */
  lemma ConsDistinctKeys<T(!new)>(x: Entry<T>, u: seq<Entry<T>>)
    requires Distinct(Keys(u))
    requires forall y :: y in u ==> y.key != x.key
    ensures Distinct(Keys([x] + u))
  {
    var r := [x] + u;
    forall i, j | 0 <= i < j < |r| ensures Keys(r)[i] != Keys(r)[j] {
      assert r[j] == u[j - 1];
      if i == 0 {
        assert r[j] in u;
      } else {
        assert Keys(r)[i] == Keys(u)[i - 1] && Keys(r)[j] == Keys(u)[j - 1];
      }
    }
  }

  /** In a table with distinct keys the first row's key is not repeated. */
  lemma HeadKeyFresh<T(!new)>(t: seq<Entry<T>>)
    requires |t| > 0 && Distinct(Keys(t))
    ensures Distinct(Keys(t[1..]))
    ensures forall y :: y in t[1..] ==> y.key != t[0].key
  {
    assert Keys(t[1..]) == Keys(t)[1..];
    forall y | y in t[1..] ensures y.key != t[0].key {
      var k :| 0 <= k < |t[1..]| && t[1..][k] == y;
      assert Keys(t)[0] != Keys(t)[k + 1];
    }
  }

  lemma {:induction false} InsertByDistinctKeys<T(!new)>(e: Entry<T>, t: seq<Entry<T>>, before: (Entry<T>, Entry<T>) -> bool)
    requires Distinct(Keys(t))
    requires forall x :: x in t ==> x.key != e.key
    ensures Distinct(Keys(InsertBy(e, t, before)))
  {
    if t == [] || before(e, t[0]) {
      ConsDistinctKeys(e, t);
    } else {
      HeadKeyFresh(t);
      assert t[0] in t;
      InsertByDistinctKeys(e, t[1..], before);
      ConsDistinctKeys(t[0], InsertBy(e, t[1..], before));
    }
  }

  lemma {:induction false} SortBySorted<T(!new)>(t: seq<Entry<T>>, before: (Entry<T>, Entry<T>) -> bool)
    requires TotalPreorder(before)
    ensures SortedBy(SortBy(t, before), before)
  {
    if t != [] {
      SortBySorted(t[1..], before);
      InsertBySorted(t[0], SortBy(t[1..], before), before);
    }
  }

  lemma {:induction false} SortByDistinctKeys<T(!new)>(t: seq<Entry<T>>, before: (Entry<T>, Entry<T>) -> bool)
    requires Distinct(Keys(t))
    ensures Distinct(Keys(SortBy(t, before)))
  {
    if t != [] {
      HeadKeyFresh(t);
      SortByDistinctKeys(t[1..], before);
      InsertByDistinctKeys(t[0], SortBy(t[1..], before), before);
    }
  }

  /** `value_counts` orders its rows by non-increasing count. */
  function MoreFrequent<T(!new)>(a: Entry<T>, b: Entry<T>): bool
  {
    a.count >= b.count
  }

  /** `pd.Series(s).value_counts()`: a frequency table of `s` whose
      counts never increase from one row to a later one; it is empty iff
      `s` is. Rows with equal counts keep the order in which their values
      first appear. */
  function ValueCounts<T(==,!new)>(s: seq<T>): (t: seq<Entry<T>>)
    ensures IsFrequencyTable(t, s)
    ensures NonIncreasing(t)
    ensures |t| == 0 <==> |s| == 0
  {
    var ks := FirstOccurrences(s);
    var tab := Tabulate(ks, s);
    assert Keys(tab) == ks;
    TotalTabulate(ks, s);
    SortByFrequencyTable(tab, s, MoreFrequent);
    SortBySorted(tab, MoreFrequent);
    var t := SortBy(tab, MoreFrequent);
    assert s != [] ==> s[0] in s;
    t
  }

  /** A frequency table of `s`: its keys are distinct, are exactly the
      values of `s`, each carries its number of occurrences in `s`, and
      the counts add up to the length of `s`. */
  ghost predicate IsFrequencyTable<T(!new)>(t: seq<Entry<T>>, s: seq<T>)
  {
    && Distinct(Keys(t))
    && (forall x :: x in Keys(t) <==> x in s)
    && (forall i :: 0 <= i < |t| ==> t[i].count == Count(s, t[i].key))
    && Total(t) == |s|
  }

  /** Two tables with the same rows have the same keys. */
  lemma SameRowsSameKeys<T(!new)>(t: seq<Entry<T>>, u: seq<Entry<T>>)
    requires forall e :: e in t <==> e in u
    ensures forall x :: x in Keys(t) <==> x in Keys(u)
  {
    forall x | x in Keys(t) ensures x in Keys(u) {
      var i :| 0 <= i < |t| && Keys(t)[i] == x;
      assert t[i] in u;
      var j :| 0 <= j < |u| && u[j] == t[i];
      assert Keys(u)[j] == x;
    }
    forall x | x in Keys(u) ensures x in Keys(t) {
      var j :| 0 <= j < |u| && Keys(u)[j] == x;
      assert u[j] in t;
      var i :| 0 <= i < |t| && t[i] == u[j];
      assert Keys(t)[i] == x;
    }
  }

  /** Reordering the rows of a frequency table leaves a frequency table
      of the same data. */
  lemma SortByFrequencyTable<T(!new)>(t: seq<Entry<T>>, s: seq<T>, before: (Entry<T>, Entry<T>) -> bool)
    requires IsFrequencyTable(t, s)
    ensures IsFrequencyTable(SortBy(t, before), s)
  {
    var u := SortBy(t, before);
    SortByDistinctKeys(t, before);
    SameRowsSameKeys(u, t);
    forall i | 0 <= i < |u| ensures u[i].count == Count(s, u[i].key) {
      assert u[i] in t;
    }
  }

  /** The rows' counts never increase from one row to a later one. */
  ghost predicate NonIncreasing<T(!new)>(t: seq<Entry<T>>)
  {
    SortedBy(t, MoreFrequent)
  }

  /** `m` is a value of `s` that occurs at least as often as any other. */
  ghost predicate IsMode<T(!new)>(m: T, s: seq<T>)
  {
    m in s && forall x :: x in s ==> Count(s, x) <= Count(s, m)
  }
}
