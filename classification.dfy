/** The automatic detection of the column's data type. */
module Classification {
  import opened Cells

  datatype Tag = Qualitative | Quantitative | Mixed

  /** `all(isinstance(d, str) for d in datos)`: a left-to-right scan that
      stops at the first non-text cell, true on the empty column. */
  predicate AllText(s: seq<Cell>)
  {
    s == [] || (IsText(s[0]) && AllText(s[1..]))
  }

  /** `all(isinstance(d, (int, float)) for d in datos)` */
  predicate AllNumber(s: seq<Cell>)
  {
    s == [] || (IsNumber(s[0]) && AllNumber(s[1..]))
  }

  lemma {:induction false} AllTextEvery(s: seq<Cell>)
    ensures AllText(s) <==> forall i :: 0 <= i < |s| ==> IsText(s[i])
  {
    if s != [] {
      AllTextEvery(s[1..]);
      assert forall i :: 0 < i < |s| ==> s[i] == s[1..][i - 1];
    }
  }

  lemma {:induction false} AllNumberEvery(s: seq<Cell>)
    ensures AllNumber(s) <==> forall i :: 0 <= i < |s| ==> IsNumber(s[i])
  {
    if s != [] {
      AllNumberEvery(s[1..]);
      assert forall i :: 0 < i < |s| ==> s[i] == s[1..][i - 1];
    }
  }

  /** The ordered if/elif/else of the detection: exactly one tag, each
      characterised by the element types of the column. */
  function Classify(s: seq<Cell>): (t: Tag)
    ensures t == Qualitative <==> forall i :: 0 <= i < |s| ==> IsText(s[i])
    ensures t == Quantitative <==> |s| > 0 && forall i :: 0 <= i < |s| ==> IsNumber(s[i])
    ensures t == Mixed <==>
              (exists i :: 0 <= i < |s| && s[i].Other?) ||
              ((exists i :: 0 <= i < |s| && IsText(s[i])) && (exists j :: 0 <= j < |s| && IsNumber(s[j])))
  {
    AllTextEvery(s);
    AllNumberEvery(s);
    if AllText(s) then Qualitative
    else if AllNumber(s) then Quantitative
    else Mixed
  }

  /** The vacuous `all()`: an empty column is tagged qualitative. */
  lemma EmptyIsQualitative()
    ensures Classify([]) == Qualitative
  {
  }

  /** A single cell that is neither text nor a number forces the mixed tag. */
  lemma OtherForcesMixed(s: seq<Cell>, k: nat)
    requires k < |s| && s[k].Other?
    ensures Classify(s) == Mixed
  {
  }

  /** Inserting one text cell anywhere into a non-empty all-numeric column
      turns its tag from quantitative into mixed. */
  lemma TextAmongNumbersIsMixed(s: seq<Cell>, k: nat, x: string)
    requires k <= |s|
    requires Classify(s) == Quantitative
    ensures Classify(s[..k] + [Str(x)] + s[k..]) == Mixed
  {
    var u := s[..k] + [Str(x)] + s[k..];
    assert u[k] == Str(x);
    if k < |s| {
      assert u[k + 1] == s[k];
    } else {
      assert u[0] == s[0];
    }
  }
}
