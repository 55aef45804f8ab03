/** Tables as the loaders receive them, and the column check they run first. */
module Schema {
  import opened Wrappers

  /** The columns each source must carry (extra columns are ignored). */
  const IcfRequired: set<string> := {"patient_id", "time_step", "rehab_phase", "icf_total", "rom", "vas"}
  const GaitRequired: set<string> := {"patient_id", "gait_abnormal_prob"}
  const SensorRequired: set<string> := {"patient_id", "action_type", "quality_score"}

  /**
   * A table read from a file: its header and its rows. A row record holds
   * only the cells the core reads; the cells of a column that is absent from
   * the header are never looked at, because the column check fails first.
   */
  datatype Table<R> = Table(columns: set<string>, rows: seq<R>)

  /**
   * A missing column: the `ValueError` a loader raises for a table that lacks
   * required columns (the source's name and the missing set), or the
   * `KeyError` raised where the fusion reads a column no input frame has.
   */
  datatype SchemaError =
    | MissingColumns(source: string, missing: set<string>)
    | MissingKey(column: string)

  /** `_validate_columns`: fails exactly when a required column is absent, naming every absent one. */
  function ValidateColumns(columns: set<string>, required: set<string>, name: string): (r: Outcome<SchemaError>)
    ensures r.Pass? <==> required <= columns
    ensures r.Fail? ==> r.error.MissingColumns? && r.error.source == name
    ensures r.Fail? ==> forall c :: c in r.error.missing <==> c in required && c !in columns
  {
    var missing := required - columns;
    assert required <= columns <==> forall c :: c in required ==> c !in missing;
    if missing != {} then Fail(MissingColumns(name, missing)) else Pass
  }
}
