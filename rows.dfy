/** Cells, patient ids and the id bookkeeping shared by the loaders and the merge. */
module Rows {
  import opened Wrappers

  type PatientId = string

  /**
   * One cell of a table as `pd.read_csv` delivers it: a number, a piece of
   * text that is not a number, or an empty field (NaN).
   */
  datatype Cell = Num(number: real) | Text(text: string) | Blank

  /**
   * `pd.to_numeric(cell, errors="coerce")`: numbers are kept, an empty field
   * stays missing, and text is handed to `parse`, which stands for pandas'
   * own number parser and yields `None` for text it cannot read.
   */
  function ToNumeric(parse: string -> Option<real>, c: Cell): Option<real> {
    match c
    case Num(v) => Some(v)
    case Text(s) => parse(s)
    case Blank => None
  }

  predicate NoDuplicates(s: seq<PatientId>) {
    forall i, j :: 0 <= i < j < |s| ==> s[i] != s[j]
  }

  /**
   * The distinct ids of `s` in order of first appearance: the groups that a
   * `groupby("patient_id")` forms.
   */
  function Distinct(s: seq<PatientId>): (d: seq<PatientId>)
    ensures forall x :: x in d <==> x in s
    ensures NoDuplicates(d)
    ensures |d| <= |s|
  {
    if s == [] then []
    else
      var prefix := Distinct(s[..|s| - 1]);
      assert forall x :: x in s <==> x in s[..|s| - 1] || x == s[|s| - 1] by {
        assert s == s[..|s| - 1] + [s[|s| - 1]];
      }
      if s[|s| - 1] in prefix then prefix else prefix + [s[|s| - 1]]
  }

  /** Reading one more id extends the distinct ids only when that id is new. */
  lemma DistinctStep(s: seq<PatientId>, i: nat)
    requires i < |s|
    ensures Distinct(s[..i + 1]) == if s[i] in Distinct(s[..i]) then Distinct(s[..i]) else Distinct(s[..i]) + [s[i]]
  {
    assert s[..i + 1][..i] == s[..i];
  }

  /** ASCII lower-casing, the part of `str.lower()` that can turn a label into "early", "mid" or "late". */
  function Lower(s: string): (r: string)
    ensures |r| == |s|
    ensures forall i :: 0 <= i < |s| ==> r[i] == LowerChar(s[i])
  {
    if s == [] then [] else [LowerChar(s[0])] + Lower(s[1..])
  }

  /** One character of `str.lower()`: an upper-case ASCII letter becomes its lower-case letter, anything else is kept. */
  function LowerChar(c: char): (d: char)
    ensures !('A' <= d <= 'Z')
    ensures !('A' <= c <= 'Z') ==> d == c
    ensures 'A' <= c <= 'Z' ==> 'a' <= d <= 'z' && d as int - c as int == 'a' as int - 'A' as int
  {
    if 'A' <= c <= 'Z' then (c as int - 'A' as int + 'a' as int) as char else c
  }

  /** Lower-casing twice is lower-casing once. */
  lemma {:induction false} LowerIdempotent(s: string)
    ensures Lower(Lower(s)) == Lower(s)
  {
    if s != [] {
      LowerIdempotent(s[1..]);
    }
  }
}
