/**
 * `run_fusion_pipeline` without its file I/O: the three loaders applied to
 * tables already read, then `fuse_and_decide`; and the worked scenarios of
 * the fusion rules.
 */
module Pipeline {
  import opened Wrappers
  import opened Rows
  import opened Stats
  import opened Schema
  import opened Loaders
  import opened Scoring
  import opened Fusion

  /** Each loader passes its table: an empty one unchecked, a non-empty one with every required column. */
  predicate IcfPasses(t: Table<IcfRecord>) { t.rows == [] || IcfRequired <= t.columns }
  predicate GaitPasses(t: Table<GaitRecord>) { t.rows == [] || GaitRequired <= t.columns }
  predicate SensorPasses(t: Table<SensorRecord>) { t.rows == [] || SensorRequired <= t.columns }

  /** Some loader raises. */
  predicate LoadsFail(icfTable: Table<IcfRecord>, gaitTable: Table<GaitRecord>, sensorTable: Table<SensorRecord>) {
    !(IcfPasses(icfTable) && GaitPasses(gaitTable) && SensorPasses(sensorTable))
  }

  /** The first column `fuse_and_decide` cannot find in the three loaders' results. */
  function FuseMissing(icfTable: Table<IcfRecord>, gaitTable: Table<GaitRecord>, sensorTable: Table<SensorRecord>): Option<string> {
    MissingRead(ResultHeader(icfTable, IcfOutput), ResultHeader(gaitTable, GaitOutput), ResultHeader(sensorTable, SensorOutput))
  }

  /**
   * The first loader that raises stops the pipeline with its error; then
   * `fuse_and_decide` raises a `KeyError` when some table has rows and
   * either `patient_id`, the merge key, is missing from some loader result's
   * header or another column it reads is in none of them; only an empty
   * table's header, passed through as read, can bring that about.
   */
  function PipelineSpec(parse: string -> Option<real>, icfTable: Table<IcfRecord>, gaitTable: Table<GaitRecord>,
                        sensorTable: Table<SensorRecord>): (r: Result<Report, SchemaError>)
    ensures r.Err? <==>
      || LoadsFail(icfTable, gaitTable, sensorTable)
      || (!(icfTable.rows == [] && gaitTable.rows == [] && sensorTable.rows == []) && FuseMissing(icfTable, gaitTable, sensorTable).Some?)
    ensures r.Err? && !IcfPasses(icfTable) ==> r.error == MissingColumns("ICF", IcfRequired - icfTable.columns)
    ensures r.Err? && IcfPasses(icfTable) && !GaitPasses(gaitTable) ==> r.error == MissingColumns("Gait", GaitRequired - gaitTable.columns)
    ensures r.Err? && IcfPasses(icfTable) && GaitPasses(gaitTable) && !SensorPasses(sensorTable) ==>
      r.error == MissingColumns("Sensor", SensorRequired - sensorTable.columns)
    ensures r.Err? && !LoadsFail(icfTable, gaitTable, sensorTable) ==>
      r.error == MissingKey(FuseMissing(icfTable, gaitTable, sensorTable).value)
  {
    LoadedEmptyIff(parse, icfTable, gaitTable, sensorTable);
    match LoadIcfSpec(parse, icfTable)
    case Err(e) => Err(e)
    case Ok(icf) =>
      match LoadGaitSpec(parse, gaitTable)
      case Err(e) => Err(e)
      case Ok(gait) =>
        match LoadSensorSpec(parse, sensorTable)
        case Err(e) => Err(e)
        case Ok(sensor) =>
          FuseFramesSpec(parse, icf, ResultHeader(icfTable, IcfOutput), gait, ResultHeader(gaitTable, GaitOutput),
                         sensor, ResultHeader(sensorTable, SensorOutput))
  }

  method RunPipeline(parse: string -> Option<real>, icfTable: Table<IcfRecord>, gaitTable: Table<GaitRecord>,
                     sensorTable: Table<SensorRecord>) returns (r: Result<Report, SchemaError>)
    ensures r == PipelineSpec(parse, icfTable, gaitTable, sensorTable)
  {
    var icf := LoadIcf(parse, icfTable);
    if icf.Err? {
      return Err(icf.error);
    }
    var gait := LoadGait(parse, gaitTable);
    if gait.Err? {
      return Err(gait.error);
    }
    var sensor := LoadSensor(parse, sensorTable);
    if sensor.Err? {
      return Err(sensor.error);
    }
    r := FuseFrames(parse, icf.value, ResultHeader(icfTable, IcfOutput), gait.value, ResultHeader(gaitTable, GaitOutput),
                    sensor.value, ResultHeader(sensorTable, SensorOutput));
  }

  /** A loader's result is empty exactly when its table is. */
  lemma LoadedEmptyIff(parse: string -> Option<real>, icfTable: Table<IcfRecord>, gaitTable: Table<GaitRecord>,
                       sensorTable: Table<SensorRecord>)
    ensures LoadIcfSpec(parse, icfTable).Ok? ==> (LoadIcfSpec(parse, icfTable).value == [] <==> icfTable.rows == [])
    ensures LoadGaitSpec(parse, gaitTable).Ok? ==> (LoadGaitSpec(parse, gaitTable).value == [] <==> gaitTable.rows == [])
    ensures LoadSensorSpec(parse, sensorTable).Ok? ==> (LoadSensorSpec(parse, sensorTable).value == [] <==> sensorTable.rows == [])
  {
    if icfTable.rows != [] {
      assert IcfIds(icfTable.rows)[0] in Distinct(IcfIds(icfTable.rows));
    }
    if gaitTable.rows != [] {
      var obs := GaitObservations(parse, gaitTable.rows);
      assert ObservationIds(obs)[0] in Distinct(ObservationIds(obs));
    }
    if sensorTable.rows != [] {
      var obs := SensorObservations(parse, sensorTable.rows);
      assert ObservationIds(obs)[0] in Distinct(ObservationIds(obs));
    }
  }

  /**
   * An empty sensor table, whose header (even the required one, which has no
   * `action_risk_score`) is passed through as read, makes the fusion raise
   * as soon as another table has rows.
   */
  lemma EmptySensorTableFails(parse: string -> Option<real>, icfTable: Table<IcfRecord>, gaitTable: Table<GaitRecord>,
                              sensorTable: Table<SensorRecord>)
    requires sensorTable.rows == [] && (icfTable.rows != [] || gaitTable.rows != [])
    requires "action_risk_score" !in icfTable.columns + gaitTable.columns + sensorTable.columns
    ensures PipelineSpec(parse, icfTable, gaitTable, sensorTable).Err?
  {
    var m := FuseMissing(icfTable, gaitTable, sensorTable);
    assert "action_risk_score" !in ResultHeader(icfTable, IcfOutput) + ResultHeader(gaitTable, GaitOutput) + ResultHeader(sensorTable, SensorOutput);
  }

  // ---------------------------------------------------------------------
  // What the pipeline promises
  // ---------------------------------------------------------------------

  function GaitIds(rows: seq<GaitRecord>): (ids: seq<PatientId>)
    ensures |ids| == |rows|
    ensures forall i :: 0 <= i < |rows| ==> ids[i] == rows[i].patientId
  {
    seq(|rows|, i requires 0 <= i < |rows| => rows[i].patientId)
  }

  function SensorIds(rows: seq<SensorRecord>): (ids: seq<PatientId>)
    ensures |ids| == |rows|
    ensures forall i :: 0 <= i < |rows| ==> ids[i] == rows[i].patientId
  {
    seq(|rows|, i requires 0 <= i < |rows| => rows[i].patientId)
  }

  /** The loaded ICF table has one row per patient of the input table. */
  lemma IcfLoaded(parse: string -> Option<real>, t: Table<IcfRecord>)
    ensures var r := LoadIcfSpec(parse, t);
      r.Ok? ==> NoDuplicates(LatestIds(r.value)) && forall id :: id in LatestIds(r.value) <==> id in IcfIds(t.rows)
  {
    if t.rows != [] {
      IcfLatestPerPatient(parse, t.rows);
    }
  }

  /** The loaded gait table has one row per patient of the input table. */
  lemma GaitLoaded(parse: string -> Option<real>, t: Table<GaitRecord>)
    ensures var r := LoadGaitSpec(parse, t);
      r.Ok? ==> NoDuplicates(MeanIds(r.value)) && forall id :: id in MeanIds(r.value) <==> id in GaitIds(t.rows)
  {
    if t.rows != [] {
      var obs := GaitObservations(parse, t.rows);
      GroupMeansPerPatient(obs);
      assert ObservationIds(obs) == GaitIds(t.rows);
    }
  }

  /** The loaded sensor table has one row per patient of the input table. */
  lemma SensorLoaded(parse: string -> Option<real>, t: Table<SensorRecord>)
    ensures var r := LoadSensorSpec(parse, t);
      r.Ok? ==> NoDuplicates(MeanIds(r.value)) && forall id :: id in MeanIds(r.value) <==> id in SensorIds(t.rows)
  {
    if t.rows != [] {
      var obs := SensorObservations(parse, t.rows);
      GroupMeansPerPatient(obs);
      assert ObservationIds(obs) == SensorIds(t.rows);
    }
  }

  /**
   * End to end: one result row for each patient that appears in any of the
   * three input tables and for no other; every action risk lies in [0, 1];
   * every tier is decided on the row's own score at its own normalised total.
   */
  /** A successful run is the fusion of the three loaders' results. */
  lemma PipelineOk(parse: string -> Option<real>, icfTable: Table<IcfRecord>, gaitTable: Table<GaitRecord>,
                   sensorTable: Table<SensorRecord>)
    requires PipelineSpec(parse, icfTable, gaitTable, sensorTable).Ok?
    ensures LoadIcfSpec(parse, icfTable).Ok? && LoadGaitSpec(parse, gaitTable).Ok? && LoadSensorSpec(parse, sensorTable).Ok?
    ensures PipelineSpec(parse, icfTable, gaitTable, sensorTable).value ==
      FuseSpec(parse, LoadIcfSpec(parse, icfTable).value, LoadGaitSpec(parse, gaitTable).value, LoadSensorSpec(parse, sensorTable).value)
  {
  }

  lemma PipelinePerPatient(parse: string -> Option<real>, icfTable: Table<IcfRecord>, gaitTable: Table<GaitRecord>,
                           sensorTable: Table<SensorRecord>)
    ensures var r := PipelineSpec(parse, icfTable, gaitTable, sensorTable);
      r.Ok? ==>
        && NoDuplicates(DecisionIds(r.value.rows))
        && (forall id :: id in DecisionIds(r.value.rows) <==>
              id in IcfIds(icfTable.rows) || id in GaitIds(gaitTable.rows) || id in SensorIds(sensorTable.rows))
        && (forall i :: 0 <= i < |r.value.rows| ==> 0.0 <= r.value.rows[i].action <= 1.0)
        && DecidedAtOwnNorm(r.value.rows)
  {
    if PipelineSpec(parse, icfTable, gaitTable, sensorTable).Ok? {
      PipelineIds(parse, icfTable, gaitTable, sensorTable);
      PipelineRows(parse, icfTable, gaitTable, sensorTable);
    }
  }

  /** The patients of a successful run: each input patient once. */
  lemma PipelineIds(parse: string -> Option<real>, icfTable: Table<IcfRecord>, gaitTable: Table<GaitRecord>,
                    sensorTable: Table<SensorRecord>)
    requires PipelineSpec(parse, icfTable, gaitTable, sensorTable).Ok?
    ensures var out := PipelineSpec(parse, icfTable, gaitTable, sensorTable).value.rows;
      && NoDuplicates(DecisionIds(out))
      && (forall id :: id in DecisionIds(out) <==>
            id in IcfIds(icfTable.rows) || id in GaitIds(gaitTable.rows) || id in SensorIds(sensorTable.rows))
  {
    var icf := LoadIcfSpec(parse, icfTable).value;
    var gait := LoadGaitSpec(parse, gaitTable).value;
    var sensor := LoadSensorSpec(parse, sensorTable).value;
    PipelineOk(parse, icfTable, gaitTable, sensorTable);
    IcfLoaded(parse, icfTable);
    GaitLoaded(parse, gaitTable);
    SensorLoaded(parse, sensorTable);
    FusePerPatient(parse, icf, gait, sensor);
    FuseIds(parse, icf, gait, sensor);
  }

  /** The rows of a successful run: action risks in [0, 1], tiers at their own normalised totals. */
  lemma PipelineRows(parse: string -> Option<real>, icfTable: Table<IcfRecord>, gaitTable: Table<GaitRecord>,
                     sensorTable: Table<SensorRecord>)
    requires PipelineSpec(parse, icfTable, gaitTable, sensorTable).Ok?
    ensures var out := PipelineSpec(parse, icfTable, gaitTable, sensorTable).value.rows;
      && (forall i :: 0 <= i < |out| ==> 0.0 <= out[i].action <= 1.0)
      && DecidedAtOwnNorm(out)
  {
    var icf := LoadIcfSpec(parse, icfTable).value;
    var gait := LoadGaitSpec(parse, gaitTable).value;
    var sensor := LoadSensorSpec(parse, sensorTable).value;
    PipelineOk(parse, icfTable, gaitTable, sensorTable);
    IcfLoaded(parse, icfTable);
    GaitLoaded(parse, gaitTable);
    SensorLoaded(parse, sensorTable);
    FusePerPatient(parse, icf, gait, sensor);
    FuseTiers(parse, icf, gait, sensor);
    SensorRiskInUnitRange(parse, sensorTable);
    var out := PipelineSpec(parse, icfTable, gaitTable, sensorTable).value.rows;
    forall i | 0 <= i < |out| ensures 0.0 <= out[i].action <= 1.0 {
      MeanOfBounded(sensor, out[i].patientId, 0.0, 1.0);
    }
  }

  /**
   * With every gait probability in [0, 1], every result row's gait value is
   * in [0, 1], and so is its score at its own normalised total.
   */
  lemma PipelineGaitInUnitRange(parse: string -> Option<real>, icfTable: Table<IcfRecord>, gaitTable: Table<GaitRecord>,
                                sensorTable: Table<SensorRecord>)
    requires forall j :: 0 <= j < |gaitTable.rows| && ToNumeric(parse, gaitTable.rows[j].gaitAbnormalProb).Some? ==>
      0.0 <= ToNumeric(parse, gaitTable.rows[j].gaitAbnormalProb).value <= 1.0
    ensures var r := PipelineSpec(parse, icfTable, gaitTable, sensorTable);
      r.Ok? ==> forall i :: 0 <= i < |r.value.rows| ==> 0.0 <= r.value.rows[i].gait <= 1.0
    ensures var r := PipelineSpec(parse, icfTable, gaitTable, sensorTable);
      r.Ok? ==> forall i :: 0 <= i < |r.value.rows| ==>
        && Normalize(Totals(r.value.rows))[i].Some?
        && 0.0 <= RiskScore(r.value.rows[i].gait, r.value.rows[i].action, Normalize(Totals(r.value.rows))[i].value) <= 1.0
  {
    var r := PipelineSpec(parse, icfTable, gaitTable, sensorTable);
    if r.Ok? {
      var icf := LoadIcfSpec(parse, icfTable).value;
      var gait := LoadGaitSpec(parse, gaitTable).value;
      var sensor := LoadSensorSpec(parse, sensorTable).value;
      PipelineOk(parse, icfTable, gaitTable, sensorTable);
      IcfLoaded(parse, icfTable);
      GaitLoaded(parse, gaitTable);
      SensorLoaded(parse, sensorTable);
      FusePerPatient(parse, icf, gait, sensor);
      if gaitTable.rows != [] {
        GroupMeansBounded(GaitObservations(parse, gaitTable.rows), 0.0, 1.0);
      }
      var out := r.value.rows;
      forall i | 0 <= i < |out| ensures 0.0 <= out[i].gait <= 1.0 {
        MeanOfBounded(gait, out[i].patientId, 0.0, 1.0);
      }
      PipelinePerPatient(parse, icfTable, gaitTable, sensorTable);
      var ns := Normalize(Totals(out));
      forall i | 0 <= i < |out|
        ensures ns[i].Some? && 0.0 <= RiskScore(out[i].gait, out[i].action, ns[i].value) <= 1.0
      {
        assert ns[i].Some?;
        assert 0.0 <= ns[i].value <= 1.0;
      }
    }
  }
}
