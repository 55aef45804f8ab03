# Fusion decision core, modelled in Dafny

This project models the multi-source fusion and risk-decision routine of
`fusion/decision.py`. It covers three per-patient assessment tables: functioning (ICF), gait and IMU sensor quality.

- **Loaders.** Each loader turns a table that has already been read into one row per patient:
  - ICF keeps the latest assessment;
  - gait takes the mean abnormality probability;
  - sensor takes the mean action risk after it rescales, clips and inverts the quality scores.
- **`fuse_and_decide`.** It outer-joins the three tables on `patient_id` and defaults missing values:
  - 0.5 for gait and action risk;
  - the cohort median for the functioning total.

  It then min-max normalises the total over the cohort and scores each patient `0.5·g + 0.3·a + 0.2·(1 − n)`. Each score is classified low / medium / high against a threshold that depends on the rehabilitation phase and is clamped.
- **Pipeline.** Runs the three loaders and then the fusion. The first loader that reports missing columns stops it. The fusion itself raises a `KeyError` when some table has rows and either `patient_id` is missing from some loader result's header or another column it reads is in none of them.

Numbers are `real`. A missing value (pandas NaN) is `None` of `Option<real>`. A raw CSV cell is a `Cell`: a number, unparsed text, or blank. `pd.to_numeric(errors="coerce")` is the function `parse: string -> Option<real>`, given as a parameter. The
step-by-step parts are methods with loops over sequences of row records:
- the loaders;
- the join;
- the defaulting;
- the row-wise `apply` of `_decide_row`.

Each of these methods is proved equal to a specification function, and the properties are lemmas about those functions. `_validate_columns`, `_normalize_series`, `_dynamic_threshold` and `_decide_row` are plain functions.

Files:
- `wrappers.dfy`: `Option`, `Result`, `Outcome`.
- `rows.dfy`: cells, the `to_numeric` coercion, the distinct ids that a `groupby` forms, and ASCII lower-casing.
- `stats.dfy`: sum, mean, min/max and median over present values.
- `schema.dfy`: the required columns and `_validate_columns`.
- `loaders.dfy`: the three loaders and their properties.
- `scoring.dfy`: normalisation, threshold, score and tier.
- `fusion.dfy`: the outer join, the defaulting, and `fuse_and_decide`.
- `pipeline.dfy`: `run_fusion_pipeline` without file I/O.
- `scenarios.dfy`: worked examples.

Two quirks of the code are kept as written and stated as lemmas:
- **Sensor rescale.** A single quality above 1 makes every row be divided by 100, including rows that were already fractions (`SensorRescaleAppliesToAll`, `SensorOutlierExample`). Without such a quality no row is divided (`SensorNoRescaleKeepsScale`).
- **ICF sort.** A `time_step` that does not parse sorts last, so that row is the one kept (`IcfUnparsableTimeStepWins`, `IcfUnparsableExample`).
- **Empty sensor file.** A loader returns an empty table as read, with its input header (lines 44-45, 57-58, 69-70). The sensor input header has no `action_risk_score`. So an empty sensor file, next to ICF or gait rows, makes line 122 raise a `KeyError` instead of defaulting every action risk to 0.5 (`EmptySensorTableFails`, `EmptySensorHeaderExample`). Lines 44-45, 57-58 and 69-70 return an empty table without error, yet line 122 then fails; the model follows the code.

The `icf_total` written to the output is the coerced, median-filled total (lines 120 and 126 reassign the column before it is selected at line 146). It is not the raw value, and the model follows the code here.

## Model

| member | source | states |
|---|---|---|
| Schema.ValidateColumns | fusion/decision.py:35-38 | fails exactly when a required column is absent; the error names the table and exactly the missing columns |
| Loaders.LoadIcfSpec | fusion/decision.py:41-51 | an empty table loads as empty without validation; a non-empty one fails exactly when it lacks an ICF column, with the missing set |
| Loaders.LoadIcf | fusion/decision.py:41-51 | the loader, run step by step, equals the ICF specification |
| Loaders.TimeLe | fusion/decision.py:49 | the `sort_values` order on coerced time steps, a missing step last; characterised by Loaders.TimeLeOrder |
| Loaders.TimeLeOrder | fusion/decision.py:49 | a total preorder: reflexive, total and transitive; numbers compare by value; a missing step is after every number and level only with another missing one |
| Loaders.LatestIndex | fusion/decision.py:49-50 | a patient's kept row exists exactly when the patient has a row, and it is one of the patient's rows |
| Loaders.ScanLatest | fusion/decision.py:48-50 | one pass records the patients in first-appearance order and, for each, the row the sort-then-tail keeps |
| Loaders.LatestPerPatient | fusion/decision.py:48-51 | builds one output row per patient from the scan, equal to the specification |
| Loaders.LatestIndexIsLast | fusion/decision.py:49-50 | no row of the patient has a later time step than the kept one (missing counts as latest), and every row after it is strictly earlier |
| Loaders.LatestRows | fusion/decision.py:48-51 | sort by time step and `tail(1)` per patient: one row per distinct patient, in first-appearance order; which row is kept is characterised by Loaders.IcfLatestPerPatient and Loaders.LatestIndexIsLast |
| Loaders.Keep | fusion/decision.py:51 | keeps `patient_id`, `rehab_phase` and `icf_total` of a row; that each kept row is the `Keep` of the patient's latest row is stated by Loaders.IcfLatestPerPatient |
| Loaders.IcfLatestPerPatient | fusion/decision.py:48-51 | at most one row per patient; ids are exactly the input ids; each kept row carries the phase and total of the patient's latest row |
| Loaders.IcfUnparsableTimeStepWins | fusion/decision.py:48-50 | a patient with an unparsable time step keeps a row whose time step is missing, at or after that row |
| Loaders.GroupMean | fusion/decision.py:62 | the per-patient mean, computed by one tallying pass, equals the specification |
| Loaders.ScanTallies | fusion/decision.py:62 | the tallying pass yields each patient's sum and count of present values |
| Loaders.TallyIsSumAndCount | fusion/decision.py:62 | a patient's tally is the sum and number of their present values |
| Loaders.PresentForMember | fusion/decision.py:62 | a value enters a patient's mean exactly when one of the patient's rows holds it |
| Loaders.PresentForSource | fusion/decision.py:62 | every value averaged for a patient comes from one of that patient's rows |
| Loaders.PresentForHas | fusion/decision.py:62 | every present value in a patient's row is averaged for that patient |
| Loaders.NothingPresentIff | fusion/decision.py:62 | a patient has nothing to average iff all of the patient's readings are missing |
| Loaders.TallyMeanIsMean | fusion/decision.py:62 | the one-pass running sum and count give the mean of the patient's present values |
| Loaders.GroupMeans | fusion/decision.py:62 | `groupby(...).mean()`: one row per distinct patient, in first-appearance order; each row's value is characterised by Loaders.GroupMeansPerPatient |
| Loaders.GroupMeansPerPatient | fusion/decision.py:62 | exactly one row per patient; its value is the mean of the patient's present values, missing iff all of them are missing |
| Loaders.GroupMeansBounded | fusion/decision.py:62 | per-patient means stay within any bound the values share |
| Loaders.GaitObservations | fusion/decision.py:61 | one observation per gait row, of that row's patient, missing exactly when its probability does not parse |
| Loaders.LoadGaitSpec | fusion/decision.py:54-63 | empty passes through unvalidated; a non-empty table fails exactly when it lacks a gait column |
| Loaders.LoadGait | fusion/decision.py:54-63 | the loader, run step by step, equals the gait specification |
| Loaders.ResultHeader | fusion/decision.py:44-79 | a loader result's header: an empty table keeps the header it was read with, a loaded one has the loader's output columns |
| Rows.ToNumeric | fusion/decision.py:48 | `to_numeric(errors="coerce")` on one cell: a number is kept, a blank is missing, text is what the parser reads or missing; never an error |
| Loaders.Clip | fusion/decision.py:76 | the clipped value lies in [0,1] and is unchanged when already there |
| Loaders.ActionRisk | fusion/decision.py:74-77 | missing stays missing; a present risk lies in [0,1] |
| Loaders.Qualities | fusion/decision.py:73 | one coerced quality per sensor row |
| Loaders.SensorObservations | fusion/decision.py:73-77 | one action risk per sensor row, of that row's patient, missing exactly when its quality does not parse, else in [0,1]; the shared rescale is characterised by Loaders.SensorRescaleAppliesToAll |
| Loaders.RescaleNeeded | fusion/decision.py:74 | `max(skipna=True) > 1`; characterised by Loaders.RescaleNeededIff |
| Loaders.RescaleNeededIff | fusion/decision.py:74 | the 0-100 rescale fires exactly when some present quality exceeds 1 |
| Loaders.ScanQualities | fusion/decision.py:73-74 | one pass coerces the qualities and decides the rescale as the column maximum does |
| Loaders.ActionRisks | fusion/decision.py:75-77 | every row gets the risk of its own quality under the shared rescale decision |
| Loaders.LoadSensorSpec | fusion/decision.py:66-79 | empty passes through unvalidated; a non-empty table fails exactly when it lacks a sensor column |
| Loaders.LoadSensor | fusion/decision.py:66-79 | the loader, run step by step, equals the sensor specification |
| Loaders.SensorRiskInUnitRange | fusion/decision.py:76-78 | every per-patient action risk lies in [0,1] |
| Loaders.SensorRescaleAppliesToAll | fusion/decision.py:74-75 | one quality above 1 divides every row's quality by 100 before the clip |
| Loaders.SensorNoRescaleKeepsScale | fusion/decision.py:74-76 | with no quality above 1, no row is divided: every risk is one minus its own clipped quality |
| Rows.Distinct | fusion/decision.py:50 | the grouped ids are exactly the input ids, without repeats |
| Rows.Lower | fusion/decision.py:94 | keeps the length and lower-cases character by character |
| Rows.LowerChar | fusion/decision.py:94 | the result is never an upper-case ASCII letter; an upper-case letter becomes its lower-case letter, anything else is kept |
| Rows.LowerIdempotent | fusion/decision.py:94 | lower-casing twice is lower-casing once |
| Stats.Present | fusion/decision.py:83 | `dropna()`: the present values, in order; a value is kept exactly when it occurs present in the column; empty exactly when every value is missing |
| Stats.Mean | fusion/decision.py:62 | missing exactly for no values; otherwise mean times count is the sum |
| Stats.MeanBounds | fusion/decision.py:62 | the mean of values in [lo, hi] lies in [lo, hi] |
| Stats.MinPresent | fusion/decision.py:85 | missing iff no value is present; otherwise a present value no larger than any other |
| Stats.MaxPresent | fusion/decision.py:86 | missing iff no value is present; otherwise a present value no smaller than any other |
| Stats.SortAscending | fusion/decision.py:126 | a sorted permutation of the values, as the median needs |
| Stats.Median | fusion/decision.py:126 | lies between the min and the max of the values; by its definition it is the middle sorted value, or the mean of the two middle ones |
| Stats.MedianPresent | fusion/decision.py:126 | missing iff no value is present; otherwise between the smallest and largest present value |
| Scoring.Degenerate | fusion/decision.py:83-88 | the two tests that give 0.5 everywhere: nothing present, or min equals max; characterised by Scoring.DegenerateIff |
| Scoring.DegenerateIff | fusion/decision.py:83-88 | a column is degenerate exactly when all of its present values are equal |
| Scoring.Scale | fusion/decision.py:89 | a value within [lo, hi] scales into [0,1]; lo scales to 0 and hi to 1 |
| Scoring.ScaleMonotone | fusion/decision.py:89 | scaling keeps order |
| Scoring.Normalize | fusion/decision.py:82-89 | keeps the length; every present output lies in [0,1] |
| Scoring.NormalizeCases | fusion/decision.py:82-89 | all 0.5 when nothing is present or min equals max; otherwise exactly the missing stay missing, min < max, a present value is `(x - min) / (max - min)`, the min maps to 0 and the max to 1 |
| Scoring.NormalizeMonotone | fusion/decision.py:89 | larger totals never normalise lower |
| Scoring.NormalizeTotal | fusion/decision.py:83-89 | a column with no missing value, or with only missing values, normalises with none missing |
| Scoring.PhaseBase | fusion/decision.py:93-94 | the base is one of 0.55, 0.60, 0.65 |
| Scoring.PhaseBaseValues | fusion/decision.py:93-94 | early/mid/late give 0.55/0.60/0.65; an unlisted phase such as rehab and a missing phase give the default 0.60 |
| Scoring.PhaseBaseMixedCase | fusion/decision.py:93-94 | EARLY, Mid and Late are read as early, mid and late |
| Scoring.PhaseBaseIgnoresCase | fusion/decision.py:94 | a phase and its lower-cased form get the same base |
| Scoring.Clamp | fusion/decision.py:96 | the result lies in [lo, hi] and equals the input when it already does |
| Scoring.Threshold | fusion/decision.py:92-96 | always within [0.30, 0.85] |
| Scoring.ThresholdAtNeutral | fusion/decision.py:95 | at normalised total 0.5 the threshold is the phase's base |
| Scoring.ThresholdUnclampedOnUnitRange | fusion/decision.py:95-96 | for totals in [0,1] the clamp never binds and the threshold is within 0.05 of the base |
| Scoring.ThresholdMonotone | fusion/decision.py:95-96 | a higher normalised total never lowers the threshold |
| Scoring.RiskScore | fusion/decision.py:129-133 | the score lies in [0,1] when gait, action risk and normalised total do |
| Scoring.RiskScoreMonotone | fusion/decision.py:129-133 | the score rises with gait and action risk and falls with the normalised total |
| Scoring.Decide | fusion/decision.py:135-142 | high iff score ≥ T, medium iff T − 0.10 ≤ score < T, low iff score < T − 0.10 |
| Scoring.Tier.Label | fusion/decision.py:138-142 | the string `_decide_row` returns for a tier; characterised by Scoring.LabelNamesTier |
| Scoring.LabelNamesTier | fusion/decision.py:138-142 | every label is one of low, medium and high, and a label names one tier |
| Scoring.DecideMonotone | fusion/decision.py:138-142 | a higher score never gets a lower tier |
| Fusion.MeansFor | fusion/decision.py:117 | no matching value exactly when the right table lacks the id |
| Fusion.IndexMeans | fusion/decision.py:117 | one pass groups the right table's values by id |
| Fusion.JoinLeftRows | fusion/decision.py:117 | each left row yields one row per matching right row, or one with the column missing |
| Fusion.RightOnlyRows | fusion/decision.py:117 | the right rows whose id the left lacks become rows of their own |
| Fusion.OuterJoin | fusion/decision.py:117-118 | the join, run step by step, equals the outer-join specification |
| Fusion.JoinLeftIds | fusion/decision.py:117 | the matched part holds exactly the left ids |
| Fusion.RightOnlyIds | fusion/decision.py:117 | the right-only part holds exactly the right ids the left lacks |
| Fusion.MatchRows | fusion/decision.py:117 | a left row yields one row per matching right value, each of its patient, or one row with the column missing |
| Fusion.JoinLeft | fusion/decision.py:117 | the matched and left-only rows of the outer join; characterised by Fusion.JoinLeftIds and Fusion.JoinLeftDistinct |
| Fusion.RightOnly | fusion/decision.py:117 | the right-only rows of the outer join; characterised by Fusion.RightOnlyIds and Fusion.RightOnlyDistinct |
| Fusion.Join | fusion/decision.py:117 | the outer merge on `patient_id`; characterised by Fusion.JoinIds and Fusion.JoinKeyed |
| Fusion.JoinIds | fusion/decision.py:117 | the outer join's ids are exactly the union of both sides' ids |
| Fusion.RowForAt | fusion/decision.py:117 | with distinct ids, looking a row up by id finds it |
| Fusion.MeanOfAt | fusion/decision.py:117 | with distinct ids, looking a value up by id finds it |
| Fusion.MeanOfBounded | fusion/decision.py:117 | a looked-up value keeps any bound the table's values share |
| Fusion.MeansForDistinct | fusion/decision.py:117 | with distinct right ids, each id matches at most one value |
| Fusion.JoinLeftDistinct | fusion/decision.py:117 | with distinct right ids, every left row yields exactly one row carrying its value |
| Fusion.MatchOne | fusion/decision.py:117 | a left row with at most one matching right row yields exactly one row, carrying the match or a missing value |
| Fusion.RightOnlyDistinct | fusion/decision.py:117 | with distinct right ids, right-only rows are distinct, absent on the left, and carry their value |
| Fusion.JoinKeyed | fusion/decision.py:117 | one-row-per-patient sides join into one row per patient: its left row (or empty) with its right value (or missing) |
| Fusion.Merge | fusion/decision.py:117-118 | the two outer merges; characterised by Fusion.MergeIds and Fusion.MergePerPatient |
| Fusion.MergeTables | fusion/decision.py:117-118 | the two merges equal the merge specification |
| Fusion.MergeIds | fusion/decision.py:117-118 | the merged ids are exactly the union of the three tables' ids |
| Fusion.MergePerPatient | fusion/decision.py:117-118 | with one row per patient in each table, one merged row per patient holding that patient's phase, total, gait and action values |
| Fusion.DefaultedIcf | fusion/decision.py:120-126 | after the median fill the totals are all present when one parsed (own value kept, within the parsed range), else all missing |
| Fusion.IcfValues | fusion/decision.py:120 | one coerced total per merged row; its use in the fill is characterised by Fusion.DefaultedIcf |
| Fusion.FillRow | fusion/decision.py:124-126 | one row's gait and action defaulted to 0.5 and its total replaced; characterised by Fusion.FuseRowsKeep |
| Fusion.FillAll | fusion/decision.py:124-126 | one filled row per merged row; the filled totals are characterised by Fusion.DefaultedIcf |
| Fusion.CoerceTotals | fusion/decision.py:120 | coerces every merged total |
| Fusion.FillRows | fusion/decision.py:124-126 | fills every missing value, row by row |
| Fusion.Defaulted | fusion/decision.py:120-126 | one defaulted row per merged row; the filled totals are characterised by Fusion.DefaultedIcf, the gait and action defaults by Fusion.FuseRowsKeep |
| Fusion.FillDefaults | fusion/decision.py:120-126 | the defaulting steps equal the defaulting specification |
| Fusion.Norms | fusion/decision.py:128 | every row gets a normalised total in [0,1] |
| Fusion.Classify | fusion/decision.py:129-142 | `_decide_row` on one row at a given normalised total; its tier bands are characterised by Scoring.Decide |
| Fusion.Decisions | fusion/decision.py:128-144 | one decision per defaulted row, each at that row's normalised total; characterised by Fusion.DecisionsTiers |
| Fusion.FuseRows | fusion/decision.py:117-144 | one decision per merged row; characterised by Fusion.FuseRowsKeep, Fusion.FuseTotals and Fusion.FuseTiers |
| Fusion.DecideRows | fusion/decision.py:129-144 | the row-wise scoring and classification equals the specification |
| Fusion.Fuse | fusion/decision.py:99-155 | the whole routine, step by step, equals the fusion specification |
| Fusion.FuseSpec | fusion/decision.py:105-155 | the result always has the six-column header `patient_id`, `rehab_phase`, `icf_total`, `gait_abnormal_prob`, `action_risk_score`, `final_risk_level` |
| Fusion.MissingRead | fusion/decision.py:117-155 | no column is missing exactly when every input header has `patient_id` and each other output column but the tier is in some header; a reported column is an output column, and one other than `patient_id` is in no header |
| Fusion.FuseFramesSpec | fusion/decision.py:99-155 | fails exactly when some input has rows and a read column is missing, with a `KeyError` for that column; otherwise the fusion specification |
| Fusion.FuseFrames | fusion/decision.py:99-155 | the routine with its column reads, step by step, equals that specification |
| Fusion.FuseRowsKeep | fusion/decision.py:124-125 | each row keeps its id and phase; gait and action are the merged values or 0.5 |
| Fusion.FuseEmptyIff | fusion/decision.py:105-118 | six columns; no rows exactly when all three inputs are empty |
| Fusion.FuseIds | fusion/decision.py:117-118 | the result's ids are exactly the union of the three inputs' ids |
| Fusion.FusePerPatient | fusion/decision.py:117-126 | with one row per patient per input: one result row per patient with the patient's ICF phase, and means or 0.5 |
| Fusion.DecisionsTiers | fusion/decision.py:128-144 | the decisions keep the totals column, and every row's tier is `_decide_row`'s verdict on its own score at its own normalised total over that column |
| Fusion.UniformNormalized | fusion/decision.py:82-89 | a column with all totals present or all missing normalises with none missing, into [0,1]: 0.5 everywhere without a spread, else each total min-max scaled |
| Fusion.FuseTiers | fusion/decision.py:128-144 | every tier is the verdict on the row's own score at its own normalised total, in [0,1]: the row's total min-max scaled over the result's totals, or 0.5 when they do not spread |
| Fusion.FuseTotals | fusion/decision.py:120-126 | the output totals: all missing when none parses, else all present within the parsed range and the own value where it parses |
| Fusion.FuseDegenerateCohort | fusion/decision.py:128-142 | a cohort whose totals do not spread is decided at normalised total 0.5 |
| Pipeline.PipelineSpec | fusion/decision.py:158-163 | fails exactly when a non-empty table lacks a required column, or when some table has rows and either `patient_id` is missing from some loader result's header or another column the fusion reads is in none of them; a loader failure is the first failing loader's, otherwise the error is the fusion's `KeyError` |
| Pipeline.RunPipeline | fusion/decision.py:158-163 | running the loaders then the fusion equals the pipeline specification |
| Pipeline.LoadedEmptyIff | fusion/decision.py:44-70 | each loader's result has no rows exactly when its table has none |
| Pipeline.EmptySensorTableFails | fusion/decision.py:69-122 | an empty sensor table next to ICF or gait rows, with `action_risk_score` in no header, makes the pipeline fail |
| Pipeline.IcfLoaded | fusion/decision.py:48-51 | the loaded ICF table has one row per input patient |
| Pipeline.GaitLoaded | fusion/decision.py:62 | the loaded gait table has one row per input patient |
| Pipeline.SensorLoaded | fusion/decision.py:78 | the loaded sensor table has one row per input patient |
| Pipeline.PipelineOk | fusion/decision.py:158-163 | a successful run means all three loaders succeeded, and its result is the fusion of their results |
| Pipeline.PipelineIds | fusion/decision.py:158-163 | a successful run has no repeated patient, and its patients are exactly those of the three input tables |
| Pipeline.PipelineRows | fusion/decision.py:158-163 | a successful run's action risks lie in [0,1] and every tier is decided at the row's own normalised total |
| Pipeline.PipelinePerPatient | fusion/decision.py:158-163 | when it succeeds: one result row per patient of any input table, action risk in [0,1], and every tier decided at the row's own normalised total |
| Pipeline.PipelineGaitInUnitRange | fusion/decision.py:129-133 | gait probabilities in [0,1] give result gait values in [0,1], and every row's score at its own normalised total in [0,1] |
| Scenarios.TwoReadingsMean | fusion/decision.py:62 | two present readings of a patient give their average |
| Scenarios.GaitMeanExample | fusion/decision.py:62 | gait 0.2 and 0.8 average to 0.5 |
| Scenarios.SensorRisksExample | fusion/decision.py:73-77 | qualities 90 and 70 give risks 0.1 and 0.3 |
| Scenarios.SensorMeanExample | fusion/decision.py:66-79 | and a mean action risk of 0.2 |
| Scenarios.SensorOutlierExample | fusion/decision.py:74-77 | another patient's 2.0 turns quality 0.8 into risk 0.992 |
| Scenarios.IcfLatestExample | fusion/decision.py:48-50 | of steps 1 and 2 (totals 40, 60) the total 60 is kept |
| Scenarios.IcfUnparsableExample | fusion/decision.py:48-50 | an unparsable step wins over step 5 |
| Scenarios.SingleRowDecision | fusion/decision.py:82-88 | a one-patient cohort is decided at normalised total 0.5 |
| Scenarios.SinglePatientLowExample | fusion/decision.py:117-144 | gait 0.5, action 0.2, mid phase: score 0.41, tier low |
| Scenarios.GaitOnlyHighExample | fusion/decision.py:117-144 | gait 0.9 only: score 0.70, tier high |
| Scenarios.JoinSamePatient | fusion/decision.py:117 | a left row and a right row of one patient join into one row carrying the right value |
| Scenarios.JoinRightAlone | fusion/decision.py:117 | a right row with no left partner becomes a row of its own with the left columns missing |
| Scenarios.SinglePatientMerge | fusion/decision.py:117-118 | one-row tables of one patient merge into one row with all three sources' values |
| Scenarios.SinglePatientDefaulted | fusion/decision.py:120-126 | a single row's own total, gait and action values are kept by the defaulting |
| Scenarios.EmptySensorHeaderExample | fusion/decision.py:122 | one ICF row, empty gait and sensor files with their required headers: `KeyError` for `action_risk_score` |
| Scenarios.SinglePatientClassified | fusion/decision.py:129-142 | score 0.41 against mid-phase threshold 0.60: tier low |

## Left out

- File I/O. `pd.read_csv` and `to_csv` (lines 43, 56, 68, 164), the path fields of `FusionConfig` and the demo scripts are not modelled. Tables enter as sequences of row records with a set of column names.
- `to_numeric` parsing of text is the parameter `parse` and is not modelled. IEEE-754 rounding, infinities and pandas dtypes are not modelled: numbers are exact reals.
- Pandas row order. Both `groupby` and the outer merge emit rows sorted by patient id; the model emits them in first-appearance order (left rows, then right-only rows). Lemmas are stated per patient id, not per position.
- Stability of `sort_values` on equal time steps is not modelled. Among tied rows the model keeps the later input row.
- Missing (NaN) patient ids, which `groupby` drops: patient ids are always-present strings.
- The `_validate_columns` message renders the missing set as a sorted list. The model carries the set itself.
- Column-name collisions of an empty table's header with another table's output columns. Pandas would add `_x`/`_y` suffixes in the merge; the model reads each column from the union of the headers.
- `_dynamic_threshold` with a NaN normalised total is not modelled. Inside the fusion it cannot occur (`Fusion.Norms`).
- The `to_numeric` calls on `gait_abnormal_prob` and `action_risk_score` (lines 121-122) are the identity. The loaders already yield numbers or missing.
- `str.lower()` is modelled for ASCII letters only.
- The `rom`, `vas` and `action_type` columns are required but never read, so they appear only as required column names.
- The merge is modelled as pandas' general many-to-many outer join. Its per-patient characterisation (Fusion.JoinKeyed, Fusion.MergePerPatient) assumes one row per patient on each side. The loaders guarantee this (Pipeline.IcfLoaded, Pipeline.GaitLoaded, Pipeline.SensorLoaded).
