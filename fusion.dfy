/**
 * `fuse_and_decide`: the outer join of the three per-patient tables, the
 * defaulting of missing values, the cohort normalisation of the functioning
 * total, and the per-row score and tier.
 */
module Fusion {
  import opened Wrappers
  import opened Rows
  import opened Stats
  import opened Loaders
  import opened Scoring
  import opened Schema

  // ---------------------------------------------------------------------
  // The merged table
  // ---------------------------------------------------------------------

  /**
   * One row of the merged table: the functioning columns of the ICF table
   * and the two per-patient means; a column the patient has no row for is
   * missing (`None`, or `Blank` for the raw total).
   */
  datatype Merged = Merged(patientId: PatientId, rehabPhase: Option<string>, icfTotal: Cell, gait: Option<real>, action: Option<real>)

  /** The column a right-hand table contributes to the merge. */
  datatype Column = GaitColumn | ActionColumn

  /** `row` with `column` set to `v`. */
  function WithColumn(row: Merged, column: Column, v: Option<real>): (r: Merged)
    ensures r.patientId == row.patientId && r.rehabPhase == row.rehabPhase && r.icfTotal == row.icfTotal
    ensures column == GaitColumn ==> r.gait == v && r.action == row.action
    ensures column == ActionColumn ==> r.action == v && r.gait == row.gait
  {
    match column
    case GaitColumn => row.(gait := v)
    case ActionColumn => row.(action := v)
  }

  /** The row an outer join makes for a patient that only the right table has. */
  function EmptyRow(id: PatientId): Merged {
    Merged(id, None, Blank, None, None)
  }

  function FromIcf(r: IcfLatest): Merged {
    Merged(r.patientId, r.rehabPhase, r.icfTotal, None, None)
  }

  function IcfRows(icf: seq<IcfLatest>): (rows: seq<Merged>)
    ensures |rows| == |icf|
    ensures forall i :: 0 <= i < |icf| ==> rows[i] == FromIcf(icf[i])
  {
    seq(|icf|, i requires 0 <= i < |icf| => FromIcf(icf[i]))
  }

  function MergedIds(rows: seq<Merged>): (ids: seq<PatientId>)
    ensures |ids| == |rows|
    ensures forall i :: 0 <= i < |rows| ==> ids[i] == rows[i].patientId
  {
    seq(|rows|, i requires 0 <= i < |rows| => rows[i].patientId)
  }

  // ---------------------------------------------------------------------
  // pd.merge(left, right, on="patient_id", how="outer")
  // ---------------------------------------------------------------------

  /** The values of the right table's rows for `id`, in table order. */
  function MeansFor(right: seq<PatientMean>, id: PatientId): (ms: seq<Option<real>>)
    ensures ms == [] <==> forall j :: 0 <= j < |right| ==> right[j].patientId != id
  {
    if right == [] then []
    else
      var n := |right| - 1;
      var prev := MeansFor(right[..n], id);
      assert forall j :: 0 <= j < n ==> right[..n][j] == right[j];
      if right[n].patientId == id then prev + [right[n].mean] else prev
  }

  /**
   * The rows a left row yields: one per right row with its id, carrying that
   * row's value, or the left row alone with the column missing.
   */
  function MatchRows(row: Merged, ms: seq<Option<real>>, column: Column): (out: seq<Merged>)
    ensures |out| == if ms == [] then 1 else |ms|
    ensures forall k :: 0 <= k < |out| ==> out[k].patientId == row.patientId
  {
    if ms == [] then [WithColumn(row, column, None)]
    else seq(|ms|, k requires 0 <= k < |ms| => WithColumn(row, column, ms[k]))
  }

  /** The rows the left table's rows yield, in left order. */
  function JoinLeft(left: seq<Merged>, right: seq<PatientMean>, column: Column): seq<Merged> {
    if left == [] then []
    else
      var n := |left| - 1;
      JoinLeft(left[..n], right, column) + MatchRows(left[n], MeansFor(right, left[n].patientId), column)
  }

  /** The right table's rows whose id the left table lacks, each as a row of its own. */
  function RightOnly(leftIds: seq<PatientId>, right: seq<PatientMean>, column: Column): seq<Merged> {
    if right == [] then []
    else
      var n := |right| - 1;
      var prev := RightOnly(leftIds, right[..n], column);
      if right[n].patientId in leftIds then prev
      else prev + [WithColumn(EmptyRow(right[n].patientId), column, right[n].mean)]
  }

  /** The outer join on `patient_id`: the matched and left-only rows, then the right-only rows. */
  function Join(left: seq<Merged>, right: seq<PatientMean>, column: Column): seq<Merged> {
    JoinLeft(left, right, column) + RightOnly(MergedIds(left), right, column)
  }

  function MeansOr(index: map<PatientId, seq<Option<real>>>, id: PatientId): seq<Option<real>> {
    if id in index then index[id] else []
  }

  lemma MeansForStep(right: seq<PatientMean>, j: nat, id: PatientId)
    requires j < |right|
    ensures MeansFor(right[..j + 1], id) ==
      MeansFor(right[..j], id) + (if right[j].patientId == id then [right[j].mean] else [])
  {
    assert right[..j + 1][..j] == right[..j];
  }

  /** Groups the right table's values by patient id. */
  method IndexMeans(right: seq<PatientMean>) returns (index: map<PatientId, seq<Option<real>>>)
    ensures forall id :: MeansOr(index, id) == MeansFor(right, id)
  {
    index := map[];
    var j := 0;
    while j < |right|
      invariant 0 <= j <= |right|
      invariant forall id :: MeansOr(index, id) == MeansFor(right[..j], id)
    {
      var id := right[j].patientId;
      var grown := index[id := MeansOr(index, id) + [right[j].mean]];
      forall x ensures MeansOr(grown, x) == MeansFor(right[..j + 1], x) {
        MeansForStep(right, j, x);
      }
      index := grown;
      j := j + 1;
    }
    assert right[..j] == right;
  }

  /** The matched and left-only rows, one left row at a time. */
  method JoinLeftRows(left: seq<Merged>, right: seq<PatientMean>, column: Column) returns (out: seq<Merged>)
    ensures out == JoinLeft(left, right, column)
  {
    var index := IndexMeans(right);
    out := [];
    var i := 0;
    while i < |left|
      invariant 0 <= i <= |left|
      invariant out == JoinLeft(left[..i], right, column)
    {
      out := out + MatchRows(left[i], MeansOr(index, left[i].patientId), column);
      assert left[..i + 1][..i] == left[..i];
      i := i + 1;
    }
    assert left[..i] == left;
  }

  /** The right rows whose id is not among `leftIds`, one right row at a time. */
  method RightOnlyRows(leftIds: seq<PatientId>, right: seq<PatientMean>, column: Column) returns (out: seq<Merged>)
    ensures out == RightOnly(leftIds, right, column)
  {
    out := [];
    var j := 0;
    while j < |right|
      invariant 0 <= j <= |right|
      invariant out == RightOnly(leftIds, right[..j], column)
    {
      if right[j].patientId !in leftIds {
        out := out + [WithColumn(EmptyRow(right[j].patientId), column, right[j].mean)];
      }
      assert right[..j + 1][..j] == right[..j];
      j := j + 1;
    }
    assert right[..j] == right;
  }

  /** The outer join: first the left rows, then the unmatched right rows. */
  method OuterJoin(left: seq<Merged>, right: seq<PatientMean>, column: Column) returns (out: seq<Merged>)
    ensures out == Join(left, right, column)
  {
    var matched := JoinLeftRows(left, right, column);
    var unmatched := RightOnlyRows(MergedIds(left), right, column);
    out := matched + unmatched;
  }

  // ---------------------------------------------------------------------
  // What the join promises
  // ---------------------------------------------------------------------

  lemma MergedIdsAppend(a: seq<Merged>, b: seq<Merged>)
    ensures MergedIds(a + b) == MergedIds(a) + MergedIds(b)
  {
  }

  /** Every left row yields at least one row, and only rows with its id. */
  lemma {:induction false} JoinLeftIds(left: seq<Merged>, right: seq<PatientMean>, column: Column)
    ensures forall id :: id in MergedIds(JoinLeft(left, right, column)) <==> id in MergedIds(left)
  {
    if left != [] {
      var n := |left| - 1;
      var prev := JoinLeft(left[..n], right, column);
      var last := MatchRows(left[n], MeansFor(right, left[n].patientId), column);
      JoinLeftIds(left[..n], right, column);
      MergedIdsAppend(prev, last);
      MergedIdsAppend(left[..n], [left[n]]);
      assert left[..n] + [left[n]] == left;
      assert forall id :: id in MergedIds(last) <==> id == left[n].patientId by {
        assert MergedIds(last)[0] == left[n].patientId;
      }
    }
  }

  /** The right-only rows are exactly the right table's ids the left table lacks. */
  lemma {:induction false} RightOnlyIds(leftIds: seq<PatientId>, right: seq<PatientMean>, column: Column)
    ensures forall id :: id in MergedIds(RightOnly(leftIds, right, column)) <==> id in MeanIds(right) && id !in leftIds
  {
    if right != [] {
      var n := |right| - 1;
      var prev := RightOnly(leftIds, right[..n], column);
      RightOnlyIds(leftIds, right[..n], column);
      assert MeanIds(right) == MeanIds(right[..n]) + [right[n].patientId];
      if right[n].patientId !in leftIds {
        var row := WithColumn(EmptyRow(right[n].patientId), column, right[n].mean);
        MergedIdsAppend(prev, [row]);
        assert MergedIds([row]) == [right[n].patientId];
      }
    }
  }

  /** The outer join keeps every id of either side and makes up none. */
  lemma JoinIds(left: seq<Merged>, right: seq<PatientMean>, column: Column)
    ensures forall id :: id in MergedIds(Join(left, right, column)) <==> id in MergedIds(left) || id in MeanIds(right)
  {
    JoinLeftIds(left, right, column);
    RightOnlyIds(MergedIds(left), right, column);
    MergedIdsAppend(JoinLeft(left, right, column), RightOnly(MergedIds(left), right, column));
  }

  // ---------------------------------------------------------------------
  // The join on tables with one row per patient
  // ---------------------------------------------------------------------

  /** The left row of `id`, the last one if several, or the empty row. */
  function RowFor(rows: seq<Merged>, id: PatientId): (r: Merged)
    ensures r.patientId == id
    ensures (forall j :: 0 <= j < |rows| ==> rows[j].patientId != id) ==> r == EmptyRow(id)
  {
    if rows == [] then EmptyRow(id)
    else
      var n := |rows| - 1;
      assert forall j :: 0 <= j < n ==> rows[..n][j] == rows[j];
      if rows[n].patientId == id then rows[n] else RowFor(rows[..n], id)
  }

  /** The value of `id` in a right table, the last one if several, missing if none. */
  function MeanOf(right: seq<PatientMean>, id: PatientId): (m: Option<real>)
    ensures (forall j :: 0 <= j < |right| ==> right[j].patientId != id) ==> m.None?
  {
    if right == [] then None
    else
      var n := |right| - 1;
      assert forall j :: 0 <= j < n ==> right[..n][j] == right[j];
      if right[n].patientId == id then right[n].mean else MeanOf(right[..n], id)
  }

  /** With one row per patient, the row of an id is the one row carrying it. */
  lemma {:induction false} RowForAt(rows: seq<Merged>, j: nat)
    requires NoDuplicates(MergedIds(rows)) && j < |rows|
    ensures RowFor(rows, rows[j].patientId) == rows[j]
  {
    var n := |rows| - 1;
    if j < n {
      assert MergedIds(rows[..n]) == MergedIds(rows)[..n];
      assert rows[n].patientId != rows[j].patientId by {
        assert MergedIds(rows)[j] != MergedIds(rows)[n];
      }
      RowForAt(rows[..n], j);
    }
  }

  /** With one row per patient, the value of an id is that of the one row carrying it. */
  lemma {:induction false} MeanOfAt(right: seq<PatientMean>, j: nat)
    requires NoDuplicates(MeanIds(right)) && j < |right|
    ensures MeanOf(right, right[j].patientId) == right[j].mean
  {
    var n := |right| - 1;
    if j < n {
      assert MeanIds(right[..n]) == MeanIds(right)[..n];
      assert right[n].patientId != right[j].patientId by {
        assert MeanIds(right)[j] != MeanIds(right)[n];
      }
      MeanOfAt(right[..n], j);
    }
  }

  /** A looked-up value is one of the table's values, so it keeps any bound they share. */
  lemma {:induction false} MeanOfBounded(right: seq<PatientMean>, id: PatientId, lo: real, hi: real)
    requires forall j :: 0 <= j < |right| && right[j].mean.Some? ==> lo <= right[j].mean.value <= hi
    ensures MeanOf(right, id).Some? ==> lo <= MeanOf(right, id).value <= hi
  {
    if right != [] {
      var n := |right| - 1;
      assert forall j :: 0 <= j < n ==> right[..n][j] == right[j];
      MeanOfBounded(right[..n], id, lo, hi);
    }
  }

  /** With one right row per patient, each id matches at most one value: the looked-up one. */
  lemma {:induction false} MeansForDistinct(right: seq<PatientMean>, id: PatientId)
    requires NoDuplicates(MeanIds(right))
    ensures MeansFor(right, id) == if id in MeanIds(right) then [MeanOf(right, id)] else []
  {
    if right != [] {
      var n := |right| - 1;
      assert MeanIds(right[..n]) == MeanIds(right)[..n];
      assert MeanIds(right) == MeanIds(right[..n]) + [right[n].patientId];
      MeansForDistinct(right[..n], id);
      if right[n].patientId == id {
        assert id !in MeanIds(right[..n]) by {
          forall k | 0 <= k < n ensures MeanIds(right[..n])[k] != id {
            assert MeanIds(right)[k] != MeanIds(right)[n];
          }
        }
      }
    }
  }

  /** Every left row with its patient's right value. */
  function Attached(left: seq<Merged>, right: seq<PatientMean>, column: Column): (out: seq<Merged>)
    ensures |out| == |left|
  {
    seq(|left|, i requires 0 <= i < |left| => WithColumn(left[i], column, MeanOf(right, left[i].patientId)))
  }

  /** With one right row per patient, every left row yields exactly one row, carrying the looked-up value. */
  lemma {:induction false} JoinLeftDistinct(left: seq<Merged>, right: seq<PatientMean>, column: Column)
    requires NoDuplicates(MeanIds(right))
    ensures JoinLeft(left, right, column) == Attached(left, right, column)
  {
    if left != [] {
      var n := |left| - 1;
      var id := left[n].patientId;
      var row := WithColumn(left[n], column, MeanOf(right, id));
      JoinLeftDistinct(left[..n], right, column);
      MeansForDistinct(right, id);
      MatchOne(left[n], MeansFor(right, id), column);
      AttachedStep(left, right, column);
    }
  }

  /** A left row with at most one match yields exactly one row. */
  lemma MatchOne(row: Merged, ms: seq<Option<real>>, column: Column)
    requires |ms| <= 1
    ensures MatchRows(row, ms, column) == [WithColumn(row, column, if ms == [] then None else ms[0])]
  {
    if ms != [] {
      assert MatchRows(row, ms, column)[0] == WithColumn(row, column, ms[0]);
    }
  }

  lemma AttachedStep(left: seq<Merged>, right: seq<PatientMean>, column: Column)
    requires left != []
    ensures var n := |left| - 1;
      Attached(left, right, column) == Attached(left[..n], right, column) + [WithColumn(left[n], column, MeanOf(right, left[n].patientId))]
  {
    var n := |left| - 1;
    assert forall k :: 0 <= k < n ==> left[..n][k] == left[k];
  }

  /**
   * With one right row per patient, the right-only rows have distinct ids
   * that the left table lacks, each carrying the looked-up value.
   */
  lemma {:induction false} RightOnlyDistinct(leftIds: seq<PatientId>, right: seq<PatientMean>, column: Column)
    requires NoDuplicates(MeanIds(right))
    ensures var out := RightOnly(leftIds, right, column);
      && NoDuplicates(MergedIds(out))
      && forall i :: 0 <= i < |out| ==>
           out[i].patientId !in leftIds &&
           out[i] == WithColumn(EmptyRow(out[i].patientId), column, MeanOf(right, out[i].patientId))
  {
    if right != [] {
      var n := |right| - 1;
      var prev := RightOnly(leftIds, right[..n], column);
      assert MeanIds(right[..n]) == MeanIds(right)[..n];
      RightOnlyDistinct(leftIds, right[..n], column);
      RightOnlyIds(leftIds, right[..n], column);
      var id := right[n].patientId;
      assert id !in MeanIds(right[..n]) by {
        forall k | 0 <= k < n ensures MeanIds(right[..n])[k] != id {
          assert MeanIds(right)[k] != MeanIds(right)[n];
        }
      }
      forall i | 0 <= i < |prev| ensures MeanOf(right, prev[i].patientId) == MeanOf(right[..n], prev[i].patientId) {
        assert MergedIds(prev)[i] == prev[i].patientId;
      }
      if id !in leftIds {
        var row := WithColumn(EmptyRow(id), column, right[n].mean);
        MergedIdsAppend(prev, [row]);
      }
    }
  }

  /**
   * The outer join of two tables with one row per patient has one row per
   * patient, and that row is the patient's left row (or the empty row) with
   * the patient's right value (or a missing one).
   */
  lemma JoinKeyed(left: seq<Merged>, right: seq<PatientMean>, column: Column)
    requires NoDuplicates(MergedIds(left)) && NoDuplicates(MeanIds(right))
    ensures var out := Join(left, right, column);
      && NoDuplicates(MergedIds(out))
      && forall i :: 0 <= i < |out| ==>
           out[i] == WithColumn(RowFor(left, out[i].patientId), column, MeanOf(right, out[i].patientId))
  {
    var matched := JoinLeft(left, right, column);
    var unmatched := RightOnly(MergedIds(left), right, column);
    JoinLeftDistinct(left, right, column);
    RightOnlyDistinct(MergedIds(left), right, column);
    MergedIdsAppend(matched, unmatched);
    assert MergedIds(matched) == MergedIds(left);
    forall i | 0 <= i < |left| ensures RowFor(left, left[i].patientId) == left[i] {
      RowForAt(left, i);
    }
  }

  // ---------------------------------------------------------------------
  // The three-way merge (lines 117-118)
  // ---------------------------------------------------------------------

  /** The ICF table merged with the gait means, then with the action risks. */
  function Merge(icf: seq<IcfLatest>, gait: seq<PatientMean>, sensor: seq<PatientMean>): seq<Merged> {
    Join(Join(IcfRows(icf), gait, GaitColumn), sensor, ActionColumn)
  }

  /** The merged row a patient gets when each table has at most one row per patient. */
  function Expected(icf: seq<IcfLatest>, gait: seq<PatientMean>, sensor: seq<PatientMean>, id: PatientId): (m: Merged)
    ensures m.patientId == id
  {
    var own := RowFor(IcfRows(icf), id);
    Merged(id, own.rehabPhase, own.icfTotal, MeanOf(gait, id), MeanOf(sensor, id))
  }

  /** Both merges, one after the other. */
  method MergeTables(icf: seq<IcfLatest>, gait: seq<PatientMean>, sensor: seq<PatientMean>) returns (merged: seq<Merged>)
    ensures merged == Merge(icf, gait, sensor)
  {
    merged := OuterJoin(IcfRows(icf), gait, GaitColumn);
    merged := OuterJoin(merged, sensor, ActionColumn);
  }

  /** The merged ids are the union of the three tables' ids. */
  lemma MergeIds(icf: seq<IcfLatest>, gait: seq<PatientMean>, sensor: seq<PatientMean>)
    ensures forall id :: id in MergedIds(Merge(icf, gait, sensor)) <==>
      id in LatestIds(icf) || id in MeanIds(gait) || id in MeanIds(sensor)
  {
    var first := Join(IcfRows(icf), gait, GaitColumn);
    JoinIds(IcfRows(icf), gait, GaitColumn);
    JoinIds(first, sensor, ActionColumn);
    assert MergedIds(IcfRows(icf)) == LatestIds(icf);
  }

  /**
   * When each table has one row per patient, as the loaders guarantee, the
   * merge has one row per patient, holding that patient's phase and total
   * from the ICF table and their gait and action values, each missing where
   * the table has no row for the patient.
   */
  lemma MergePerPatient(icf: seq<IcfLatest>, gait: seq<PatientMean>, sensor: seq<PatientMean>)
    requires NoDuplicates(LatestIds(icf)) && NoDuplicates(MeanIds(gait)) && NoDuplicates(MeanIds(sensor))
    ensures var out := Merge(icf, gait, sensor);
      && NoDuplicates(MergedIds(out))
      && forall i :: 0 <= i < |out| ==> out[i] == Expected(icf, gait, sensor, out[i].patientId)
  {
    var lifted := IcfRows(icf);
    var first := Join(lifted, gait, GaitColumn);
    var out := Join(first, sensor, ActionColumn);
    assert MergedIds(lifted) == LatestIds(icf);
    JoinKeyed(lifted, gait, GaitColumn);
    JoinKeyed(first, sensor, ActionColumn);
    JoinIds(lifted, gait, GaitColumn);
    forall i | 0 <= i < |out| ensures out[i] == Expected(icf, gait, sensor, out[i].patientId) {
      var id := out[i].patientId;
      var own := WithColumn(RowFor(lifted, id), GaitColumn, MeanOf(gait, id));
      if id in MergedIds(first) {
        var k :| 0 <= k < |first| && MergedIds(first)[k] == id;
        RowForAt(first, k);
      } else {
        assert id !in MergedIds(lifted) && id !in MeanIds(gait);
      }
      assert RowFor(first, id) == own;
    }
  }

  // ---------------------------------------------------------------------
  // Defaulting (lines 120-126)
  // ---------------------------------------------------------------------

  /** A merged row after `fillna`: gait and action risk are always present. */
  datatype Filled = Filled(patientId: PatientId, rehabPhase: Option<string>, icfTotal: Option<real>, gait: real, action: real)

  /** `pd.to_numeric(merged["icf_total"], errors="coerce")`. */
  function IcfValues(parse: string -> Option<real>, merged: seq<Merged>): (vs: seq<Option<real>>)
    ensures |vs| == |merged|
  {
    seq(|merged|, i requires 0 <= i < |merged| => ToNumeric(parse, merged[i].icfTotal))
  }

  /** A merged row with its gait and action defaulted to the neutral 0.5 and its total replaced. */
  function FillRow(m: Merged, total: Option<real>): Filled {
    Filled(m.patientId, m.rehabPhase, total, m.gait.GetOr(0.5), m.action.GetOr(0.5))
  }

  /** Every row defaulted, a missing coerced total replaced by `fill`. */
  function FillAll(merged: seq<Merged>, raw: seq<Option<real>>, fill: Option<real>): (rows: seq<Filled>)
    requires |raw| == |merged|
    ensures |rows| == |merged|
  {
    seq(|merged|, i requires 0 <= i < |merged| => FillRow(merged[i], if raw[i].Some? then raw[i] else fill))
  }

  /**
   * Missing gait and action values become the neutral 0.5, a missing total
   * the median of the present totals (itself missing when none is present).
   */
  function Defaulted(parse: string -> Option<real>, merged: seq<Merged>): (rows: seq<Filled>)
    ensures |rows| == |merged|
  {
    var raw := IcfValues(parse, merged);
    FillAll(merged, raw, MedianPresent(raw))
  }

  function IcfColumn(rows: seq<Filled>): (col: seq<Option<real>>)
    ensures |col| == |rows|
    ensures forall i :: 0 <= i < |rows| ==> col[i] == rows[i].icfTotal
  {
    seq(|rows|, i requires 0 <= i < |rows| => rows[i].icfTotal)
  }

  /** Every value present, or every value missing. */
  predicate Uniform(col: seq<Option<real>>) {
    (forall i :: 0 <= i < |col| ==> col[i].Some?) || (forall i :: 0 <= i < |col| ==> col[i].None?)
  }

  /**
   * After the median fill, the totals are all present when one was, keep the
   * present ones, and stay within their range; else all stay missing.
   */
  lemma DefaultedIcf(parse: string -> Option<real>, merged: seq<Merged>)
    ensures var raw := IcfValues(parse, merged);
      var rows := Defaulted(parse, merged);
      && Uniform(IcfColumn(rows))
      && (Present(raw) == [] ==> forall i :: 0 <= i < |rows| ==> rows[i].icfTotal.None?)
      && (Present(raw) != [] ==> forall i :: 0 <= i < |rows| ==>
            rows[i].icfTotal.Some? &&
            MinPresent(raw).value <= rows[i].icfTotal.value <= MaxPresent(raw).value &&
            (raw[i].Some? ==> rows[i].icfTotal == raw[i]))
  {
    var raw := IcfValues(parse, merged);
    var rows := Defaulted(parse, merged);
    var median := MedianPresent(raw);
    assert forall i :: 0 <= i < |rows| ==> rows[i].icfTotal == if raw[i].Some? then raw[i] else median;
    if Present(raw) != [] {
      forall i | 0 <= i < |rows|
        ensures MinPresent(raw).value <= rows[i].icfTotal.value <= MaxPresent(raw).value
      {
        if raw[i].Some? {
          assert MinPresent(raw).value <= raw[i].value <= MaxPresent(raw).value;
        }
      }
    }
  }

  /** Coerces the merged totals, one row at a time. */
  method CoerceTotals(parse: string -> Option<real>, merged: seq<Merged>) returns (raw: seq<Option<real>>)
    ensures raw == IcfValues(parse, merged)
  {
    raw := [];
    var i := 0;
    while i < |merged|
      invariant 0 <= i <= |merged|
      invariant raw == IcfValues(parse, merged)[..i]
    {
      raw := raw + [ToNumeric(parse, merged[i].icfTotal)];
      i := i + 1;
    }
  }

  /** Fills the missing values, one row at a time. */
  method FillRows(merged: seq<Merged>, raw: seq<Option<real>>, fill: Option<real>) returns (rows: seq<Filled>)
    requires |raw| == |merged|
    ensures rows == FillAll(merged, raw, fill)
  {
    rows := [];
    var i := 0;
    while i < |merged|
      invariant 0 <= i <= |merged|
      invariant rows == FillAll(merged, raw, fill)[..i]
    {
      var total := if raw[i].Some? then raw[i] else fill;
      rows := rows + [FillRow(merged[i], total)];
      i := i + 1;
    }
  }

  /** The defaulting of lines 120-126: coerce, then fill with the median. */
  method FillDefaults(parse: string -> Option<real>, merged: seq<Merged>) returns (rows: seq<Filled>)
    ensures rows == Defaulted(parse, merged)
  {
    var raw := CoerceTotals(parse, merged);
    var median := MedianPresent(raw);
    rows := FillRows(merged, raw, median);
  }

  // ---------------------------------------------------------------------
  // Score and tier (lines 128-144)
  // ---------------------------------------------------------------------

  /** One row of the result: the six output columns. */
  datatype Decision = Decision(patientId: PatientId, rehabPhase: Option<string>, icfTotal: Option<real>,
                               gait: real, action: real, level: Tier)

  /** The header of the result, also when there is nothing to fuse. */
  const OutputColumns: seq<string> :=
    ["patient_id", "rehab_phase", "icf_total", "gait_abnormal_prob", "action_risk_score", "final_risk_level"]

  /** The result table: its header and its rows. */
  datatype Report = Report(columns: seq<string>, rows: seq<Decision>)

  /** `_decide_row` for one defaulted row and its normalised total. */
  function Classify(row: Filled, norm: real): Decision {
    var risk := RiskScore(row.gait, row.action, norm);
    Decision(row.patientId, row.rehabPhase, row.icfTotal, row.gait, row.action, Decide(row.rehabPhase, norm, risk))
  }

  /**
   * The normalised totals of a defaulted table. With every total present, or
   * every total missing, none of them is missing.
   */
  function Norms(rows: seq<Filled>): (ns: seq<real>)
    requires Uniform(IcfColumn(rows))
    ensures |ns| == |rows|
    ensures forall i :: 0 <= i < |rows| ==> 0.0 <= ns[i] <= 1.0
  {
    var col := IcfColumn(rows);
    NormalizeTotal(col);
    seq(|rows|, i requires 0 <= i < |rows| => Normalize(col)[i].value)
  }

  /** Every defaulted row scored and classified against its normalised total. */
  function Decisions(rows: seq<Filled>): (out: seq<Decision>)
    requires Uniform(IcfColumn(rows))
    ensures |out| == |rows|
  {
    var ns := Norms(rows);
    seq(|rows|, i requires 0 <= i < |rows| => Classify(rows[i], ns[i]))
  }

  /** Scores and classifies the rows, one row at a time as `merged.apply` does. */
  method DecideRows(rows: seq<Filled>) returns (out: seq<Decision>)
    requires Uniform(IcfColumn(rows))
    ensures out == Decisions(rows)
  {
    var ns := Norms(rows);
    out := [];
    var i := 0;
    while i < |rows|
      invariant 0 <= i <= |rows|
      invariant out == Decisions(rows)[..i]
    {
      var risk := RiskScore(rows[i].gait, rows[i].action, ns[i]);
      var level := Decide(rows[i].rehabPhase, ns[i], risk);
      out := out + [Decision(rows[i].patientId, rows[i].rehabPhase, rows[i].icfTotal, rows[i].gait, rows[i].action, level)];
      i := i + 1;
    }
  }

  // ---------------------------------------------------------------------
  // fuse_and_decide
  // ---------------------------------------------------------------------

  /** The merged, defaulted, scored and classified rows. */
  function FuseRows(parse: string -> Option<real>, merged: seq<Merged>): (out: seq<Decision>)
    ensures |out| == |merged|
  {
    var rows := Defaulted(parse, merged);
    DefaultedIcf(parse, merged);
    Decisions(rows)
  }

  /** `fuse_and_decide`: nothing to fuse gives the bare header; otherwise the fused rows. */
  function FuseSpec(parse: string -> Option<real>, icf: seq<IcfLatest>, gait: seq<PatientMean>, sensor: seq<PatientMean>): (r: Report)
    ensures r.columns == OutputColumns
  {
    if icf == [] && gait == [] && sensor == [] then Report(OutputColumns, [])
    else Report(OutputColumns, FuseRows(parse, Merge(icf, gait, sensor)))
  }

  method Fuse(parse: string -> Option<real>, icf: seq<IcfLatest>, gait: seq<PatientMean>, sensor: seq<PatientMean>) returns (r: Report)
    ensures r == FuseSpec(parse, icf, gait, sensor)
  {
    if icf == [] && gait == [] && sensor == [] {
      return Report(OutputColumns, []);
    }
    var merged := MergeTables(icf, gait, sensor);
    var rows := FillDefaults(parse, merged);
    DefaultedIcf(parse, merged);
    var out := DecideRows(rows);
    r := Report(OutputColumns, out);
  }


  /**
   * The first column `fuse_and_decide` cannot find in frames with these
   * headers: the merge key of any frame (lines 117-118), then the columns
   * read at lines 120-122, then those selected at lines 146-155.
   */
  function MissingRead(icfCols: set<string>, gaitCols: set<string>, sensorCols: set<string>): (m: Option<string>)
    ensures m.None? <==>
      && "patient_id" in icfCols && "patient_id" in gaitCols && "patient_id" in sensorCols
      && (forall c :: c in OutputColumns && c != "final_risk_level" ==> c in icfCols + gaitCols + sensorCols)
    ensures m.Some? ==> m.value in OutputColumns && m.value != "final_risk_level"
    ensures m.Some? && m.value != "patient_id" ==> m.value !in icfCols + gaitCols + sensorCols
  {
    var all := icfCols + gaitCols + sensorCols;
    if "patient_id" !in icfCols || "patient_id" !in gaitCols || "patient_id" !in sensorCols then Some("patient_id")
    else if "icf_total" !in all then Some("icf_total")
    else if "gait_abnormal_prob" !in all then Some("gait_abnormal_prob")
    else if "action_risk_score" !in all then Some("action_risk_score")
    else if "rehab_phase" !in all then Some("rehab_phase")
    else None
  }

  /**
   * `fuse_and_decide` on frames with the given headers: the bare header when
   * all three are empty; else the `KeyError` of a column no frame has; else
   * the fused rows.
   */
  function FuseFramesSpec(parse: string -> Option<real>, icf: seq<IcfLatest>, icfCols: set<string>, gait: seq<PatientMean>,
                          gaitCols: set<string>, sensor: seq<PatientMean>, sensorCols: set<string>): (r: Result<Report, SchemaError>)
    ensures r.Err? <==> !(icf == [] && gait == [] && sensor == []) && MissingRead(icfCols, gaitCols, sensorCols).Some?
    ensures r.Err? ==> r.error == MissingKey(MissingRead(icfCols, gaitCols, sensorCols).value)
    ensures r.Ok? ==> r.value == FuseSpec(parse, icf, gait, sensor)
  {
    if icf == [] && gait == [] && sensor == [] then Ok(FuseSpec(parse, icf, gait, sensor))
    else
      match MissingRead(icfCols, gaitCols, sensorCols)
      case Some(c) => Err(MissingKey(c))
      case None => Ok(FuseSpec(parse, icf, gait, sensor))
  }

  method FuseFrames(parse: string -> Option<real>, icf: seq<IcfLatest>, icfCols: set<string>, gait: seq<PatientMean>,
                    gaitCols: set<string>, sensor: seq<PatientMean>, sensorCols: set<string>) returns (r: Result<Report, SchemaError>)
    ensures r == FuseFramesSpec(parse, icf, icfCols, gait, gaitCols, sensor, sensorCols)
  {
    if !(icf == [] && gait == [] && sensor == []) {
      var missing := MissingRead(icfCols, gaitCols, sensorCols);
      if missing.Some? {
        return Err(MissingKey(missing.value));
      }
    }
    var report := Fuse(parse, icf, gait, sensor);
    r := Ok(report);
  }

  // ---------------------------------------------------------------------
  // What fuse_and_decide promises
  // ---------------------------------------------------------------------

  function DecisionIds(rows: seq<Decision>): (ids: seq<PatientId>)
    ensures |ids| == |rows|
    ensures forall i :: 0 <= i < |rows| ==> ids[i] == rows[i].patientId
  {
    seq(|rows|, i requires 0 <= i < |rows| => rows[i].patientId)
  }

  /** The rows keep the merged rows' ids, phases and totals' order; gait and action are never missing. */
  lemma FuseRowsKeep(parse: string -> Option<real>, merged: seq<Merged>)
    ensures var out := FuseRows(parse, merged);
      forall i :: 0 <= i < |out| ==>
        && out[i].patientId == merged[i].patientId
        && out[i].rehabPhase == merged[i].rehabPhase
        && out[i].gait == merged[i].gait.GetOr(0.5)
        && out[i].action == merged[i].action.GetOr(0.5)
        && out[i].icfTotal == Defaulted(parse, merged)[i].icfTotal
  {
  }

  /** The result has the six-column header and is empty exactly when all three inputs are. */
  lemma FuseEmptyIff(parse: string -> Option<real>, icf: seq<IcfLatest>, gait: seq<PatientMean>, sensor: seq<PatientMean>)
    ensures var r := FuseSpec(parse, icf, gait, sensor);
      && r.columns == OutputColumns && |r.columns| == 6
      && (r.rows == [] <==> icf == [] && gait == [] && sensor == [])
  {
    MergeIds(icf, gait, sensor);
    if icf != [] {
      assert LatestIds(icf)[0] in MergedIds(Merge(icf, gait, sensor));
    } else if gait != [] {
      assert MeanIds(gait)[0] in MergedIds(Merge(icf, gait, sensor));
    } else if sensor != [] {
      assert MeanIds(sensor)[0] in MergedIds(Merge(icf, gait, sensor));
    }
  }

  /** The result's patient ids are the union of the three inputs' ids. */
  lemma FuseIds(parse: string -> Option<real>, icf: seq<IcfLatest>, gait: seq<PatientMean>, sensor: seq<PatientMean>)
    ensures var r := FuseSpec(parse, icf, gait, sensor);
      forall id :: id in DecisionIds(r.rows) <==> id in LatestIds(icf) || id in MeanIds(gait) || id in MeanIds(sensor)
  {
    var r := FuseSpec(parse, icf, gait, sensor);
    if !(icf == [] && gait == [] && sensor == []) {
      var merged := Merge(icf, gait, sensor);
      MergeIds(icf, gait, sensor);
      FuseRowsKeep(parse, merged);
      assert DecisionIds(r.rows) == MergedIds(merged);
    }
  }

  /**
   * With one row per patient in each input, the result has one row per
   * patient; its phase is the patient's ICF phase (missing without an ICF
   * row), and its gait and action values the patient's means, 0.5 where the
   * patient has none.
   */
  lemma FusePerPatient(parse: string -> Option<real>, icf: seq<IcfLatest>, gait: seq<PatientMean>, sensor: seq<PatientMean>)
    requires NoDuplicates(LatestIds(icf)) && NoDuplicates(MeanIds(gait)) && NoDuplicates(MeanIds(sensor))
    ensures var out := FuseSpec(parse, icf, gait, sensor).rows;
      && NoDuplicates(DecisionIds(out))
      && forall i :: 0 <= i < |out| ==>
           var id := out[i].patientId;
           && out[i].rehabPhase == RowFor(IcfRows(icf), id).rehabPhase
           && out[i].gait == MeanOf(gait, id).GetOr(0.5)
           && out[i].action == MeanOf(sensor, id).GetOr(0.5)
  {
    if !(icf == [] && gait == [] && sensor == []) {
      var merged := Merge(icf, gait, sensor);
      MergePerPatient(icf, gait, sensor);
      FuseRowsKeep(parse, merged);
      assert DecisionIds(FuseRows(parse, merged)) == MergedIds(merged);
    }
  }

  /** The `icf_total` column of a result. */
  function Totals(rows: seq<Decision>): (col: seq<Option<real>>)
    ensures |col| == |rows|
    ensures forall i :: 0 <= i < |rows| ==> col[i] == rows[i].icfTotal
  {
    seq(|rows|, i requires 0 <= i < |rows| => rows[i].icfTotal)
  }

  /** The row's tier is `_decide_row`'s verdict on its score at normalised total `n`. */
  predicate DecidedAt(d: Decision, n: real) {
    d.level == Decide(d.rehabPhase, n, RiskScore(d.gait, d.action, n))
  }

  /**
   * Every row is decided at its own normalised total: the one
   * `_normalize_series` gives it over the result's `icf_total` column.
   */
  predicate DecidedAtOwnNorm(out: seq<Decision>) {
    var ns := Normalize(Totals(out));
    forall i :: 0 <= i < |out| ==> ns[i].Some? && DecidedAt(out[i], ns[i].value)
  }

  /** The classified rows keep their totals, and each is decided at its own normalised total. */
  lemma DecisionsTiers(rows: seq<Filled>)
    requires Uniform(IcfColumn(rows))
    ensures Totals(Decisions(rows)) == IcfColumn(rows)
    ensures DecidedAtOwnNorm(Decisions(rows))
  {
    var out := Decisions(rows);
    var ns := Norms(rows);
    assert Totals(out) == IcfColumn(rows);
    var col := Normalize(IcfColumn(rows));
    NormalizeTotal(IcfColumn(rows));
    forall i | 0 <= i < |out| ensures col[i].Some? && DecidedAt(out[i], col[i].value) {
      assert out[i] == Classify(rows[i], ns[i]);
      assert ns[i] == col[i].value;
    }
  }

  /**
   * Every tier of the result is the verdict on the row's own score at the row's
   * own normalised total, in [0, 1]: with a spread of totals, the row's total
   * scaled between the cohort's smallest and largest; without one, 0.5.
   */
  lemma FuseTiers(parse: string -> Option<real>, icf: seq<IcfLatest>, gait: seq<PatientMean>, sensor: seq<PatientMean>)
    ensures var out := FuseSpec(parse, icf, gait, sensor).rows;
      var col := Totals(out);
      && DecidedAtOwnNorm(out)
      && (forall i :: 0 <= i < |out| ==> 0.0 <= Normalize(col)[i].value <= 1.0)
      && (Degenerate(col) ==> forall i :: 0 <= i < |out| ==> Normalize(col)[i] == Some(0.5))
      && (!Degenerate(col) ==> forall i :: 0 <= i < |out| ==>
            && out[i].icfTotal.Some?
            && MinPresent(col).value < MaxPresent(col).value
            && Normalize(col)[i] == Some(Scale(out[i].icfTotal.value, MinPresent(col).value, MaxPresent(col).value)))
  {
    var out := FuseSpec(parse, icf, gait, sensor).rows;
    var col := Totals(out);
    if !(icf == [] && gait == [] && sensor == []) {
      var merged := Merge(icf, gait, sensor);
      var rows := Defaulted(parse, merged);
      DefaultedIcf(parse, merged);
      assert out == Decisions(rows);
      DecisionsTiers(rows);
      assert col == IcfColumn(rows);
      UniformNormalized(col);
      if !Degenerate(col) {
        var lo, hi := MinPresent(col).value, MaxPresent(col).value;
        forall i | 0 <= i < |out|
          ensures out[i].icfTotal.Some? && lo < hi && Normalize(col)[i] == Some(Scale(out[i].icfTotal.value, lo, hi))
        {
          assert col[i] == out[i].icfTotal;
        }
      }
    }
  }

  /**
   * A column with every total present, or every total missing, normalises
   * with nothing missing: to 0.5 everywhere without a spread, else to each
   * total min-max scaled.
   */
  lemma UniformNormalized(col: seq<Option<real>>)
    requires Uniform(col)
    ensures forall i :: 0 <= i < |col| ==> Normalize(col)[i].Some? && 0.0 <= Normalize(col)[i].value <= 1.0
    ensures Degenerate(col) ==> forall i :: 0 <= i < |col| ==> Normalize(col)[i] == Some(0.5)
    ensures !Degenerate(col) ==> forall i :: 0 <= i < |col| ==>
      && col[i].Some?
      && MinPresent(col).value < MaxPresent(col).value
      && Normalize(col)[i] == Some(Scale(col[i].value, MinPresent(col).value, MaxPresent(col).value))
  {
    NormalizeTotal(col);
    forall i | 0 <= i < |col|
      ensures Degenerate(col) ==> Normalize(col)[i] == Some(0.5)
      ensures !Degenerate(col) ==> col[i].Some?
      ensures !Degenerate(col) && col[i].Some? ==>
        && MinPresent(col).value < MaxPresent(col).value
        && Normalize(col)[i] == Some(Scale(col[i].value, MinPresent(col).value, MaxPresent(col).value))
    {
      NormalizeCases(col, i);
      if !Degenerate(col) {
        var k :| 0 <= k < |col| && col[k] == MaxPresent(col);
        assert col[k].Some?;
      }
    }
  }

  /**
   * The filled totals in the result: when any merged total parses, every
   * row carries a total within the range of the parsed ones, its own where
   * it parses; when none does, every total stays missing.
   */
  lemma FuseTotals(parse: string -> Option<real>, icf: seq<IcfLatest>, gait: seq<PatientMean>, sensor: seq<PatientMean>)
    ensures var merged := Merge(icf, gait, sensor);
      var raw := IcfValues(parse, merged);
      var out := FuseSpec(parse, icf, gait, sensor).rows;
      && (Present(raw) == [] ==> forall i :: 0 <= i < |out| ==> out[i].icfTotal.None?)
      && (Present(raw) != [] ==> forall i :: 0 <= i < |out| ==>
            out[i].icfTotal.Some? &&
            MinPresent(raw).value <= out[i].icfTotal.value <= MaxPresent(raw).value &&
            (raw[i].Some? ==> out[i].icfTotal == raw[i]))
  {
    if !(icf == [] && gait == [] && sensor == []) {
      var merged := Merge(icf, gait, sensor);
      var out := FuseRows(parse, merged);
      var rows := Defaulted(parse, merged);
      DefaultedIcf(parse, merged);
      FuseRowsKeep(parse, merged);
      assert forall i :: 0 <= i < |out| ==> out[i].icfTotal == rows[i].icfTotal;
    }
  }

  /**
   * A cohort whose totals are all equal, or all missing, e.g. a single
   * patient, is normalised to 0.5: every tier is decided at the phase's base threshold.
   */
  lemma FuseDegenerateCohort(parse: string -> Option<real>, icf: seq<IcfLatest>, gait: seq<PatientMean>, sensor: seq<PatientMean>)
    requires var rows := Defaulted(parse, Merge(icf, gait, sensor)); Degenerate(IcfColumn(rows))
    ensures var out := FuseSpec(parse, icf, gait, sensor).rows;
      forall i :: 0 <= i < |out| ==>
        out[i].level == Decide(out[i].rehabPhase, 0.5, RiskScore(out[i].gait, out[i].action, 0.5))
  {
    if !(icf == [] && gait == [] && sensor == []) {
      var merged := Merge(icf, gait, sensor);
      var rows := Defaulted(parse, merged);
      DefaultedIcf(parse, merged);
      DecisionsTiers(rows);
      var out := Decisions(rows);
      forall i | 0 <= i < |out|
        ensures out[i].level == Decide(out[i].rehabPhase, 0.5, RiskScore(out[i].gait, out[i].action, 0.5))
      {
        NormalizeCases(IcfColumn(rows), i);
        assert DecidedAt(out[i], Normalize(Totals(out))[i].value);
      }
    }
  }
}
