/**
 * The three source loaders of the fusion module, from the rows that
 * `pd.read_csv` produced to one row per patient: the latest functioning (ICF)
 * record, the mean gait-abnormality probability and the mean action risk.
 */
module Loaders {
  import opened Wrappers
  import opened Rows
  import opened Stats
  import opened Schema

  /** A functioning assessment row (the `rom` and `vas` cells are required but never read). */
  datatype IcfRecord = IcfRecord(patientId: PatientId, timeStep: Cell, rehabPhase: Option<string>, icfTotal: Cell)

  /** A gait row. */
  datatype GaitRecord = GaitRecord(patientId: PatientId, gaitAbnormalProb: Cell)

  /** A sensor row (the `action_type` cell is required but never read). */
  datatype SensorRecord = SensorRecord(patientId: PatientId, qualityScore: Cell)

  /** The ICF loader's output row: `patient_id`, `rehab_phase`, `icf_total`. */
  datatype IcfLatest = IcfLatest(patientId: PatientId, rehabPhase: Option<string>, icfTotal: Cell)

  /** The gait and sensor loaders' output row: a patient and the mean of their values. */
  datatype PatientMean = PatientMean(patientId: PatientId, mean: Option<real>)

  /** One numeric reading of a patient, after coercion; the input of a per-patient mean. */
  datatype Observation = Observation(patientId: PatientId, value: Option<real>)

  // ---------------------------------------------------------------------
  // ICF: latest record per patient
  // ---------------------------------------------------------------------

  function IcfIds(rows: seq<IcfRecord>): (ids: seq<PatientId>)
    ensures |ids| == |rows|
    ensures forall i :: 0 <= i < |rows| ==> ids[i] == rows[i].patientId
  {
    seq(|rows|, i requires 0 <= i < |rows| => rows[i].patientId)
  }

  /** The coerced time step of a row. */
  function TimeOf(parse: string -> Option<real>, r: IcfRecord): Option<real> {
    ToNumeric(parse, r.timeStep)
  }

  /** The order `sort_values` puts time steps in: ascending, a missing time step after every number. */
  predicate TimeLe(a: Option<real>, b: Option<real>) {
    b.None? || (a.Some? && a.value <= b.value)
  }

  /** `TimeLe` is a total preorder in which a missing time step is after every number and level with another missing one. */
  lemma TimeLeOrder(a: Option<real>, b: Option<real>, c: Option<real>)
    ensures TimeLe(a, a)
    ensures TimeLe(a, b) || TimeLe(b, a)
    ensures TimeLe(a, b) && TimeLe(b, c) ==> TimeLe(a, c)
    ensures TimeLe(a, None)
    ensures TimeLe(None, b) <==> b.None?
    ensures a.Some? && b.Some? ==> (TimeLe(a, b) <==> a.value <= b.value)
  {
  }

  /**
   * The index of the row that `sort_values(["patient_id", "time_step"])`
   * followed by `groupby("patient_id").tail(1)` keeps for `id`: the last row
   * of the patient in time-step order, the later input row among equal time
   * steps; `None` when the patient has no row.
   */
  function LatestIndex(parse: string -> Option<real>, rows: seq<IcfRecord>, id: PatientId): (k: Option<nat>)
    ensures k.None? <==> forall j :: 0 <= j < |rows| ==> rows[j].patientId != id
    ensures k.Some? ==> k.value < |rows| && rows[k.value].patientId == id
  {
    if rows == [] then None
    else
      var n := |rows| - 1;
      var prev := LatestIndex(parse, rows[..n], id);
      if rows[n].patientId == id && (prev.None? || TimeLe(TimeOf(parse, rows[prev.value]), TimeOf(parse, rows[n])))
      then Some(n)
      else prev
  }

  /** Only `patient_id`, `rehab_phase` and `icf_total` are kept. */
  function Keep(r: IcfRecord): IcfLatest {
    IcfLatest(r.patientId, r.rehabPhase, r.icfTotal)
  }

  /** One output row per patient, in order of first appearance. */
  function LatestRows(parse: string -> Option<real>, rows: seq<IcfRecord>): (out: seq<IcfLatest>)
    ensures |out| == |Distinct(IcfIds(rows))|
    ensures forall i :: 0 <= i < |out| ==> out[i].patientId == Distinct(IcfIds(rows))[i]
  {
    var ids := Distinct(IcfIds(rows));
    assert forall i :: 0 <= i < |ids| ==> LatestIndex(parse, rows, ids[i]).Some? by {
      forall i | 0 <= i < |ids| ensures LatestIndex(parse, rows, ids[i]).Some? {
        assert ids[i] in IcfIds(rows);
        var j :| 0 <= j < |rows| && IcfIds(rows)[j] == ids[i];
        assert rows[j].patientId == ids[i];
      }
    }
    seq(|ids|, i requires 0 <= i < |ids| => Keep(rows[LatestIndex(parse, rows, ids[i]).value]))
  }

  /**
   * The header of a loader's result: an empty table is returned as it was
   * read, header and all; otherwise the loader's own output columns.
   */
  function ResultHeader<R>(t: Table<R>, output: set<string>): (h: set<string>)
    ensures t.rows == [] ==> h == t.columns
    ensures t.rows != [] ==> h == output
  {
    if t.rows == [] then t.columns else output
  }

  /** The columns of a non-empty loader result: the ICF selection, and the two `groupby` means. */
  const IcfOutput: set<string> := {"patient_id", "rehab_phase", "icf_total"}
  const GaitOutput: set<string> := {"patient_id", "gait_abnormal_prob"}
  const SensorOutput: set<string> := {"patient_id", "action_risk_score"}

  /** `load_icf_data` after `read_csv`. */
  function LoadIcfSpec(parse: string -> Option<real>, t: Table<IcfRecord>): (r: Result<seq<IcfLatest>, SchemaError>)
    ensures t.rows == [] ==> r == Ok([])
    ensures r.Err? <==> t.rows != [] && !(IcfRequired <= t.columns)
    ensures r.Err? ==> r.error == MissingColumns("ICF", IcfRequired - t.columns)
  {
    if t.rows == [] then Ok([])
    else
      match ValidateColumns(t.columns, IcfRequired, "ICF")
      case Fail(e) => Err(e)
      case Pass => Ok(LatestRows(parse, t.rows))
  }

  /** The entry of `m` for `k`, if any. */
  function Lookup<K, V>(m: map<K, V>, k: K): Option<V> {
    if k in m then Some(m[k]) else None
  }

  /** How the kept index changes when one more row is read. */
  lemma LatestIndexStep(parse: string -> Option<real>, rows: seq<IcfRecord>, i: nat, id: PatientId)
    requires i < |rows|
    ensures var prev := LatestIndex(parse, rows[..i], id);
      LatestIndex(parse, rows[..i + 1], id) ==
        if rows[i].patientId == id && (prev.None? || TimeLe(TimeOf(parse, rows[prev.value]), TimeOf(parse, rows[i])))
        then Some(i) else prev
  {
    assert rows[..i + 1][..i] == rows[..i];
  }

  /** One pass over the rows: the patients in order of first appearance and the index kept for each. */
  method ScanLatest(parse: string -> Option<real>, rows: seq<IcfRecord>) returns (order: seq<PatientId>, kept: map<PatientId, nat>)
    ensures order == Distinct(IcfIds(rows))
    ensures forall id :: id in kept <==> id in order
    ensures forall id :: Lookup(kept, id) == LatestIndex(parse, rows, id)
  {
    var ids := IcfIds(rows);
    order, kept := [], map[];
    for i := 0 to |rows|
      invariant order == Distinct(ids[..i])
      invariant forall id :: id in kept <==> id in order
      invariant forall id :: id in kept ==> kept[id] < i
      invariant forall id :: Lookup(kept, id) == LatestIndex(parse, rows[..i], id)
    {
      DistinctStep(ids, i);
      var id := rows[i].patientId;
      ghost var before := kept;
      if id !in kept || TimeLe(TimeOf(parse, rows[kept[id]]), TimeOf(parse, rows[i])) {
        kept := kept[id := i];
      }
      forall x ensures Lookup(kept, x) == LatestIndex(parse, rows[..i + 1], x) {
        LatestIndexStep(parse, rows, i, x);
        assert Lookup(before, x) == LatestIndex(parse, rows[..i], x);
      }
      if id !in order {
        order := order + [id];
      }
    }
    assert rows[..|rows|] == rows;
    assert ids[..|rows|] == ids;
  }

  method LatestPerPatient(parse: string -> Option<real>, rows: seq<IcfRecord>) returns (out: seq<IcfLatest>)
    ensures out == LatestRows(parse, rows)
  {
    var order, kept := ScanLatest(parse, rows);
    ghost var spec := LatestRows(parse, rows);
    out := [];
    for j := 0 to |order|
      invariant out == spec[..j]
    {
      assert order[j] in IcfIds(rows);
      assert Lookup(kept, order[j]) == LatestIndex(parse, rows, order[j]);
      var row := Keep(rows[kept[order[j]]]);
      assert row == spec[j];
      out := out + [row];
    }
    assert spec[..|order|] == spec;
  }

  /** `load_icf_data` after `read_csv`: the empty table passes unchecked, else the column check, then the latest row per patient. */
  method LoadIcf(parse: string -> Option<real>, t: Table<IcfRecord>) returns (r: Result<seq<IcfLatest>, SchemaError>)
    ensures r == LoadIcfSpec(parse, t)
  {
    if t.rows == [] {
      return Ok([]);
    }
    var check := ValidateColumns(t.columns, IcfRequired, "ICF");
    if check.Fail? {
      return Err(check.error);
    }
    var out := LatestPerPatient(parse, t.rows);
    return Ok(out);
  }

  // ---------------------------------------------------------------------
  // Per-patient mean (gait and sensor)
  // ---------------------------------------------------------------------

  function ObservationIds(obs: seq<Observation>): (ids: seq<PatientId>)
    ensures |ids| == |obs|
    ensures forall i :: 0 <= i < |obs| ==> ids[i] == obs[i].patientId
  {
    seq(|obs|, i requires 0 <= i < |obs| => obs[i].patientId)
  }

  /** The non-missing values of one patient, in order. */
  function PresentFor(obs: seq<Observation>, id: PatientId): seq<real> {
    if obs == [] then []
    else
      var o := obs[|obs| - 1];
      PresentFor(obs[..|obs| - 1], id) + (if o.patientId == id && o.value.Some? then [o.value.value] else [])
  }

  /** `groupby("patient_id", as_index=False)[column].mean()`: one row per patient, the mean of its non-missing values. */
  function GroupMeans(obs: seq<Observation>): (out: seq<PatientMean>)
    ensures |out| == |Distinct(ObservationIds(obs))|
    ensures forall i :: 0 <= i < |out| ==> out[i].patientId == Distinct(ObservationIds(obs))[i]
  {
    var ids := Distinct(ObservationIds(obs));
    seq(|ids|, i requires 0 <= i < |ids| => PatientMean(ids[i], Mean(PresentFor(obs, ids[i]))))
  }

  lemma SumAppend(s: seq<real>, v: real)
    ensures Sum(s + [v]) == Sum(s) + v
  {
    assert (s + [v])[..|s|] == s;
  }

  /** Running sum and count of one patient's non-missing values. */
  function Tally(obs: seq<Observation>, id: PatientId): (real, nat) {
    if obs == [] then (0.0, 0) else Count(Tally(obs[..|obs| - 1], id), obs[|obs| - 1], id)
  }

  /** Adds one reading to a patient's running sum and count, if it is theirs and not missing. */
  function Count(t: (real, nat), o: Observation, id: PatientId): (real, nat) {
    if o.patientId == id && o.value.Some? then (t.0 + o.value.value, t.1 + 1) else t
  }

  /** The tally is the sum and the number of the patient's non-missing values. */
  lemma {:induction false} TallyIsSumAndCount(obs: seq<Observation>, id: PatientId)
    ensures Tally(obs, id) == (Sum(PresentFor(obs, id)), |PresentFor(obs, id)|)
  {
    if obs != [] {
      var n := |obs| - 1;
      TallyIsSumAndCount(obs[..n], id);
      var before := PresentFor(obs[..n], id);
      if obs[n].patientId == id && obs[n].value.Some? {
        assert PresentFor(obs, id) == before + [obs[n].value.value];
        SumAppend(before, obs[n].value.value);
      } else {
        assert PresentFor(obs, id) == before;
      }
    }
  }

  /** How a patient's tally changes when one more reading is read. */
  lemma TallyStep(obs: seq<Observation>, i: nat, id: PatientId)
    requires i < |obs|
    ensures Tally(obs[..i + 1], id) == Count(Tally(obs[..i], id), obs[i], id)
  {
    assert obs[..i + 1][..i] == obs[..i];
  }

  /** A patient with no reading yet has an empty tally. */
  lemma {:induction false} TallyAbsent(obs: seq<Observation>, id: PatientId)
    requires id !in ObservationIds(obs)
    ensures Tally(obs, id) == (0.0, 0)
  {
    if obs != [] {
      var n := |obs| - 1;
      assert ObservationIds(obs[..n]) == ObservationIds(obs)[..n];
      TallyAbsent(obs[..n], id);
    }
  }

  /** A patient not among the first appearances so far has an empty tally so far. */
  lemma TallyNotYetSeen(obs: seq<Observation>, i: nat, order: seq<PatientId>)
    requires i < |obs|
    requires order == Distinct(ObservationIds(obs)[..i])
    requires obs[i].patientId !in order
    ensures Tally(obs[..i], obs[i].patientId) == (0.0, 0)
  {
    assert ObservationIds(obs[..i]) == ObservationIds(obs)[..i];
    TallyAbsent(obs[..i], obs[i].patientId);
  }

  /** Updating the reading's own patient keeps every tally in the map current. */
  lemma TalliesStep(obs: seq<Observation>, i: nat, acc: map<PatientId, (real, nat)>, next: (real, nat))
    requires i < |obs|
    requires forall id :: id in acc ==> acc[id] == Tally(obs[..i], id)
    requires next == Tally(obs[..i + 1], obs[i].patientId)
    ensures var updated := acc[obs[i].patientId := next];
      forall id :: id in updated ==> updated[id] == Tally(obs[..i + 1], id)
  {
    forall x | x in acc && x != obs[i].patientId ensures acc[x] == Tally(obs[..i + 1], x) {
      TallyStep(obs, i, x);
    }
  }

  /** One pass over the readings: the patients in order of first appearance and each one's tally. */
  method ScanTallies(obs: seq<Observation>) returns (order: seq<PatientId>, acc: map<PatientId, (real, nat)>)
    ensures order == Distinct(ObservationIds(obs))
    ensures forall id :: id in acc <==> id in order
    ensures forall id :: id in acc ==> acc[id] == Tally(obs, id)
  {
    var ids := ObservationIds(obs);
    order, acc := [], map[];
    for i := 0 to |obs|
      invariant order == Distinct(ids[..i])
      invariant forall id :: id in acc <==> id in order
      invariant forall id :: id in acc ==> acc[id] == Tally(obs[..i], id)
    {
      DistinctStep(ids, i);
      var o := obs[i];
      var cur := (0.0, 0);
      if o.patientId in acc {
        cur := acc[o.patientId];
      } else {
        TallyNotYetSeen(obs, i, order);
      }
      assert cur == Tally(obs[..i], o.patientId);
      var next := Count(cur, o, o.patientId);
      TallyStep(obs, i, o.patientId);
      TalliesStep(obs, i, acc, next);
      acc := acc[o.patientId := next];
      if o.patientId !in order {
        order := order + [o.patientId];
      }
    }
    assert obs[..|obs|] == obs;
    assert ids[..|obs|] == ids;
  }

  /** The mean a tally stands for: missing for a count of 0, else the sum over the count. */
  function TallyMean(t: (real, nat)): Option<real> {
    if t.1 == 0 then None else Some(t.0 / (t.1 as real))
  }

  lemma TallyMeanIsMean(obs: seq<Observation>, id: PatientId)
    ensures TallyMean(Tally(obs, id)) == Mean(PresentFor(obs, id))
  {
    TallyIsSumAndCount(obs, id);
  }

  method GroupMean(obs: seq<Observation>) returns (out: seq<PatientMean>)
    ensures out == GroupMeans(obs)
  {
    var order, acc := ScanTallies(obs);
    ghost var spec := GroupMeans(obs);
    out := [];
    for j := 0 to |order|
      invariant out == spec[..j]
    {
      var id := order[j];
      var mean := TallyMean(acc[id]);
      TallyMeanIsMean(obs, id);
      assert PatientMean(id, mean) == spec[j];
      out := out + [PatientMean(id, mean)];
    }
    assert spec[..|order|] == spec;
  }

  // ---------------------------------------------------------------------
  // Gait
  // ---------------------------------------------------------------------

  /** The gait probabilities after `pd.to_numeric(errors="coerce")`. */
  function GaitObservations(parse: string -> Option<real>, rows: seq<GaitRecord>): (obs: seq<Observation>)
    ensures |obs| == |rows|
    ensures forall i :: 0 <= i < |rows| ==> obs[i].patientId == rows[i].patientId
    ensures forall i :: 0 <= i < |rows| ==> (obs[i].value.None? <==> ToNumeric(parse, rows[i].gaitAbnormalProb).None?)
  {
    seq(|rows|, i requires 0 <= i < |rows| => Observation(rows[i].patientId, ToNumeric(parse, rows[i].gaitAbnormalProb)))
  }

  /** `load_gait_data` after `read_csv`. */
  function LoadGaitSpec(parse: string -> Option<real>, t: Table<GaitRecord>): (r: Result<seq<PatientMean>, SchemaError>)
    ensures t.rows == [] ==> r == Ok([])
    ensures r.Err? <==> t.rows != [] && !(GaitRequired <= t.columns)
    ensures r.Err? ==> r.error == MissingColumns("Gait", GaitRequired - t.columns)
  {
    if t.rows == [] then Ok([])
    else
      match ValidateColumns(t.columns, GaitRequired, "Gait")
      case Fail(e) => Err(e)
      case Pass => Ok(GroupMeans(GaitObservations(parse, t.rows)))
  }

  /** `load_gait_data` after `read_csv`: coerce the probability column, then the mean per patient. */
  method LoadGait(parse: string -> Option<real>, t: Table<GaitRecord>) returns (r: Result<seq<PatientMean>, SchemaError>)
    ensures r == LoadGaitSpec(parse, t)
  {
    if t.rows == [] {
      return Ok([]);
    }
    var check := ValidateColumns(t.columns, GaitRequired, "Gait");
    if check.Fail? {
      return Err(check.error);
    }
    var obs: seq<Observation> := [];
    for i := 0 to |t.rows|
      invariant obs == GaitObservations(parse, t.rows[..i])
    {
      obs := obs + [Observation(t.rows[i].patientId, ToNumeric(parse, t.rows[i].gaitAbnormalProb))];
    }
    assert t.rows[..|t.rows|] == t.rows;
    var means := GroupMean(obs);
    return Ok(means);
  }

  // ---------------------------------------------------------------------
  // Sensor
  // ---------------------------------------------------------------------

  /** The quality scores after `pd.to_numeric(errors="coerce")`. */
  function Qualities(parse: string -> Option<real>, rows: seq<SensorRecord>): (qs: seq<Option<real>>)
    ensures |qs| == |rows|
  {
    seq(|rows|, i requires 0 <= i < |rows| => ToNumeric(parse, rows[i].qualityScore))
  }

  /** `quality_score.max(skipna=True) > 1`: the whole column is taken to be on a 0-100 scale. */
  predicate RescaleNeeded(qs: seq<Option<real>>) {
    var m := MaxPresent(qs);
    m.Some? && m.value > 1.0
  }

  /** `clip(lower=0, upper=1)`. */
  function Clip(x: real): (y: real)
    ensures 0.0 <= y <= 1.0
    ensures 0.0 <= x <= 1.0 ==> y == x
  {
    if x < 0.0 then 0.0 else if x > 1.0 then 1.0 else x
  }

  /** The action risk of one reading: rescaled if the column is, clipped to [0, 1], inverted; NaN stays NaN. */
  function ActionRisk(rescale: bool, q: Option<real>): (r: Option<real>)
    ensures r.None? <==> q.None?
    ensures r.Some? ==> 0.0 <= r.value <= 1.0
  {
    match q
    case None => None
    case Some(v) => Some(1.0 - Clip(if rescale then v / 100.0 else v))
  }

  function SensorObservations(parse: string -> Option<real>, rows: seq<SensorRecord>): (obs: seq<Observation>)
    ensures |obs| == |rows|
    ensures forall i :: 0 <= i < |rows| ==> obs[i].patientId == rows[i].patientId
    ensures forall i :: 0 <= i < |rows| ==> (obs[i].value.None? <==> ToNumeric(parse, rows[i].qualityScore).None?)
    ensures forall i :: 0 <= i < |rows| && obs[i].value.Some? ==> 0.0 <= obs[i].value.value <= 1.0
  {
    var qs := Qualities(parse, rows);
    var rescale := RescaleNeeded(qs);
    seq(|rows|, i requires 0 <= i < |rows| => Observation(rows[i].patientId, ActionRisk(rescale, qs[i])))
  }

  /** `load_sensor_data` after `read_csv`. */
  function LoadSensorSpec(parse: string -> Option<real>, t: Table<SensorRecord>): (r: Result<seq<PatientMean>, SchemaError>)
    ensures t.rows == [] ==> r == Ok([])
    ensures r.Err? <==> t.rows != [] && !(SensorRequired <= t.columns)
    ensures r.Err? ==> r.error == MissingColumns("Sensor", SensorRequired - t.columns)
  {
    if t.rows == [] then Ok([])
    else
      match ValidateColumns(t.columns, SensorRequired, "Sensor")
      case Fail(e) => Err(e)
      case Pass => Ok(GroupMeans(SensorObservations(parse, t.rows)))
  }

  /** The rescale test holds exactly when some non-missing quality exceeds 1. */
  lemma RescaleNeededIff(qs: seq<Option<real>>)
    ensures RescaleNeeded(qs) <==> exists i :: 0 <= i < |qs| && qs[i].Some? && qs[i].value > 1.0
  {
    if exists i :: 0 <= i < |qs| && qs[i].Some? && qs[i].value > 1.0 {
      var i :| 0 <= i < |qs| && qs[i].Some? && qs[i].value > 1.0;
      assert qs[i].value in Present(qs);
    }
  }

  /** Coerces the quality column and tests it for the 0-100 scale. */
  method ScanQualities(parse: string -> Option<real>, rows: seq<SensorRecord>) returns (quality: seq<Option<real>>, rescale: bool)
    ensures quality == Qualities(parse, rows)
    ensures rescale == RescaleNeeded(quality)
  {
    ghost var qs := Qualities(parse, rows);
    quality := [];
    var above := false;
    for i := 0 to |rows|
      invariant quality == qs[..i]
      invariant above <==> exists j :: 0 <= j < i && qs[j].Some? && qs[j].value > 1.0
    {
      var q := ToNumeric(parse, rows[i].qualityScore);
      assert q == qs[i];
      quality := quality + [q];
      if q.Some? && q.value > 1.0 {
        above := true;
      }
      assert qs[..i + 1] == qs[..i] + [q];
    }
    assert quality == qs;
    RescaleNeededIff(qs);
    rescale := above;
  }

  /** Rescales, clips and inverts every quality into an action risk. */
  method ActionRisks(rows: seq<SensorRecord>, quality: seq<Option<real>>, rescale: bool) returns (obs: seq<Observation>)
    requires |quality| == |rows|
    ensures obs == seq(|rows|, i requires 0 <= i < |rows| => Observation(rows[i].patientId, ActionRisk(rescale, quality[i])))
  {
    obs := [];
    for i := 0 to |rows|
      invariant |obs| == i
      invariant forall j :: 0 <= j < i ==> obs[j] == Observation(rows[j].patientId, ActionRisk(rescale, quality[j]))
    {
      var risk: Option<real> := None;
      if quality[i].Some? {
        var q := quality[i].value;
        if rescale {
          q := q / 100.0;
        }
        q := Clip(q);
        risk := Some(1.0 - q);
      }
      obs := obs + [Observation(rows[i].patientId, risk)];
    }
  }

  /** `load_sensor_data` after `read_csv`: coerce, detect the 0-100 scale, rescale, clip, invert, then the mean per patient. */
  method LoadSensor(parse: string -> Option<real>, t: Table<SensorRecord>) returns (r: Result<seq<PatientMean>, SchemaError>)
    ensures r == LoadSensorSpec(parse, t)
  {
    if t.rows == [] {
      return Ok([]);
    }
    var check := ValidateColumns(t.columns, SensorRequired, "Sensor");
    if check.Fail? {
      return Err(check.error);
    }
    var quality, rescale := ScanQualities(parse, t.rows);
    var obs := ActionRisks(t.rows, quality, rescale);
    assert obs == SensorObservations(parse, t.rows);
    var means := GroupMean(obs);
    return Ok(means);
  }

  // ---------------------------------------------------------------------
  // What the loaders promise
  // ---------------------------------------------------------------------

  function LatestIds(out: seq<IcfLatest>): (ids: seq<PatientId>)
    ensures |ids| == |out|
    ensures forall i :: 0 <= i < |out| ==> ids[i] == out[i].patientId
  {
    seq(|out|, i requires 0 <= i < |out| => out[i].patientId)
  }

  function MeanIds(out: seq<PatientMean>): (ids: seq<PatientId>)
    ensures |ids| == |out|
    ensures forall i :: 0 <= i < |out| ==> ids[i] == out[i].patientId
  {
    seq(|out|, i requires 0 <= i < |out| => out[i].patientId)
  }

  /**
   * The kept row is a row of the patient whose time step no other row of the
   * patient exceeds (a missing time step counting as the largest), and every
   * later row of the patient has a strictly smaller time step.
   */
  lemma {:induction false} LatestIndexIsLast(parse: string -> Option<real>, rows: seq<IcfRecord>, id: PatientId)
    ensures var k := LatestIndex(parse, rows, id);
      k.Some? ==> forall j :: 0 <= j < |rows| && rows[j].patientId == id ==>
        TimeLe(TimeOf(parse, rows[j]), TimeOf(parse, rows[k.value])) &&
        (k.value < j ==> !TimeLe(TimeOf(parse, rows[k.value]), TimeOf(parse, rows[j])))
  {
    if rows != [] {
      var n := |rows| - 1;
      var init := rows[..n];
      LatestIndexIsLast(parse, init, id);
      assert forall j :: 0 <= j < n ==> init[j] == rows[j];
    }
  }

  /**
   * `load_icf_data` keeps one row per patient, and for each patient exactly
   * the row that sorting by time step (missing last) and taking the tail
   * selects; only the phase and the total are carried over.
   */
  lemma IcfLatestPerPatient(parse: string -> Option<real>, rows: seq<IcfRecord>)
    ensures var out := LatestRows(parse, rows);
      && NoDuplicates(LatestIds(out))
      && (forall id :: id in LatestIds(out) <==> id in IcfIds(rows))
      && forall i :: 0 <= i < |out| ==>
           exists k :: 0 <= k < |rows| && rows[k].patientId == out[i].patientId && out[i] == Keep(rows[k]) &&
             forall j :: 0 <= j < |rows| && rows[j].patientId == out[i].patientId ==>
               TimeLe(TimeOf(parse, rows[j]), TimeOf(parse, rows[k])) &&
               (k < j ==> !TimeLe(TimeOf(parse, rows[k]), TimeOf(parse, rows[j])))
  {
    var out := LatestRows(parse, rows);
    var ids := Distinct(IcfIds(rows));
    forall i | 0 <= i < |out| ensures out[i].patientId == ids[i] {
      assert ids[i] in IcfIds(rows);
    }
    assert LatestIds(out) == ids;
    forall i | 0 <= i < |out|
      ensures exists k :: 0 <= k < |rows| && rows[k].patientId == out[i].patientId && out[i] == Keep(rows[k]) &&
                          forall j :: 0 <= j < |rows| && rows[j].patientId == out[i].patientId ==>
                            TimeLe(TimeOf(parse, rows[j]), TimeOf(parse, rows[k])) &&
                            (k < j ==> !TimeLe(TimeOf(parse, rows[k]), TimeOf(parse, rows[j])))
    {
      assert ids[i] in IcfIds(rows);
      var k := LatestIndex(parse, rows, ids[i]).value;
      LatestIndexIsLast(parse, rows, ids[i]);
      assert out[i] == Keep(rows[k]);
    }
  }

  /**
   * The quirk of the missing-last sort: a patient with a time step that does
   * not parse keeps a row whose time step is missing, whatever the other rows hold.
   */
  lemma IcfUnparsableTimeStepWins(parse: string -> Option<real>, rows: seq<IcfRecord>, j: nat)
    requires j < |rows| && TimeOf(parse, rows[j]).None?
    ensures var k := LatestIndex(parse, rows, rows[j].patientId);
      k.Some? && TimeOf(parse, rows[k.value]).None? && j <= k.value
  {
    LatestIndexIsLast(parse, rows, rows[j].patientId);
  }

  /** A patient's non-missing values are exactly the values of their readings that are not missing. */
  lemma {:induction false} PresentForMember(obs: seq<Observation>, id: PatientId, v: real)
    ensures v in PresentFor(obs, id) <==>
      exists j :: 0 <= j < |obs| && obs[j].patientId == id && obs[j].value == Some(v)
  {
    if v in PresentFor(obs, id) {
      var j := PresentForSource(obs, id, v);
    }
    forall j | 0 <= j < |obs| && obs[j].patientId == id && obs[j].value == Some(v) ensures v in PresentFor(obs, id) {
      PresentForHas(obs, id, j);
    }
  }

  /** Every value gathered for a patient comes from one of its rows. */
  lemma {:induction false} PresentForSource(obs: seq<Observation>, id: PatientId, v: real) returns (j: nat)
    requires v in PresentFor(obs, id)
    ensures j < |obs| && obs[j].patientId == id && obs[j].value == Some(v)
  {
    var n := |obs| - 1;
    var init := obs[..n];
    if v in PresentFor(init, id) {
      j := PresentForSource(init, id, v);
      assert obs[j] == init[j];
    } else {
      j := n;
    }
  }

  /** Every present value of a patient's row is gathered. */
  lemma {:induction false} PresentForHas(obs: seq<Observation>, id: PatientId, j: nat)
    requires j < |obs| && obs[j].patientId == id && obs[j].value.Some?
    ensures obs[j].value.value in PresentFor(obs, id)
  {
    var n := |obs| - 1;
    if j < n {
      PresentForHas(obs[..n], id, j);
    }
  }

  /**
   * `groupby(...).mean()` yields exactly one row per patient that has a
   * reading, and that row's value is missing exactly when all of the
   * patient's readings are, else it is the arithmetic mean of them.
   */
  lemma GroupMeansPerPatient(obs: seq<Observation>)
    ensures var out := GroupMeans(obs);
      && NoDuplicates(MeanIds(out))
      && (forall id :: id in MeanIds(out) <==> id in ObservationIds(obs))
      && forall i :: 0 <= i < |out| ==>
           && out[i].mean == Mean(PresentFor(obs, out[i].patientId))
           && (out[i].mean.None? <==> forall j :: 0 <= j < |obs| && obs[j].patientId == out[i].patientId ==> obs[j].value.None?)
  {
    var out := GroupMeans(obs);
    assert MeanIds(out) == Distinct(ObservationIds(obs));
    forall i | 0 <= i < |out|
      ensures out[i].mean.None? <==> forall j :: 0 <= j < |obs| && obs[j].patientId == out[i].patientId ==> obs[j].value.None?
    {
      NothingPresentIff(obs, out[i].patientId);
    }
  }

  /** A patient has no value to average exactly when all of the patient's readings are missing. */
  lemma NothingPresentIff(obs: seq<Observation>, id: PatientId)
    ensures PresentFor(obs, id) == [] <==> forall j :: 0 <= j < |obs| && obs[j].patientId == id ==> obs[j].value.None?
  {
    var vs := PresentFor(obs, id);
    if vs != [] {
      PresentForMember(obs, id, vs[0]);
    } else {
      forall j | 0 <= j < |obs| && obs[j].patientId == id ensures obs[j].value.None? {
        if obs[j].value.Some? {
          PresentForMember(obs, id, obs[j].value.value);
        }
      }
    }
  }

  /** When every reading lies in [lo, hi], so does every per-patient mean. */
  lemma GroupMeansBounded(obs: seq<Observation>, lo: real, hi: real)
    requires forall j :: 0 <= j < |obs| && obs[j].value.Some? ==> lo <= obs[j].value.value <= hi
    ensures forall i :: 0 <= i < |GroupMeans(obs)| && GroupMeans(obs)[i].mean.Some? ==>
      lo <= GroupMeans(obs)[i].mean.value <= hi
  {
    var out := GroupMeans(obs);
    forall i | 0 <= i < |out| && out[i].mean.Some? ensures lo <= out[i].mean.value <= hi {
      var vs := PresentFor(obs, out[i].patientId);
      forall k | 0 <= k < |vs| ensures lo <= vs[k] <= hi {
        PresentForMember(obs, out[i].patientId, vs[k]);
      }
      MeanBounds(vs, lo, hi);
    }
  }

  /** Every action risk the sensor loader produces lies in [0, 1], and so does every patient's mean. */
  lemma SensorRiskInUnitRange(parse: string -> Option<real>, t: Table<SensorRecord>)
    ensures var r := LoadSensorSpec(parse, t);
      r.Ok? ==> forall i :: 0 <= i < |r.value| && r.value[i].mean.Some? ==> 0.0 <= r.value[i].mean.value <= 1.0
  {
    if t.rows != [] {
      GroupMeansBounded(SensorObservations(parse, t.rows), 0.0, 1.0);
    }
  }

  /**
   * The 0-100 detection scales the whole column: when one quality exceeds 1,
   * every reading is divided by 100 before clipping, including readings that
   * were already fractions.
   */
  lemma SensorRescaleAppliesToAll(parse: string -> Option<real>, rows: seq<SensorRecord>, i: nat)
    requires i < |rows|
    ensures var qs := Qualities(parse, rows);
      var o := SensorObservations(parse, rows)[i];
      (exists j :: 0 <= j < |qs| && qs[j].Some? && qs[j].value > 1.0) ==>
        o.value == (if qs[i].Some? then Some(1.0 - Clip(qs[i].value / 100.0)) else None)
  {
    RescaleNeededIff(Qualities(parse, rows));
  }

  /** The converse: when no quality exceeds 1, no reading is divided by 100. */
  lemma SensorNoRescaleKeepsScale(parse: string -> Option<real>, rows: seq<SensorRecord>, i: nat)
    requires i < |rows|
    ensures var qs := Qualities(parse, rows);
      var o := SensorObservations(parse, rows)[i];
      (forall j :: 0 <= j < |qs| && qs[j].Some? ==> qs[j].value <= 1.0) ==>
        o.value == (if qs[i].Some? then Some(1.0 - Clip(qs[i].value)) else None)
  {
    RescaleNeededIff(Qualities(parse, rows));
  }
}
