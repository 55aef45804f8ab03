/** Worked examples of the loaders and the fusion rules on small tables. */
module Scenarios {
  import opened Wrappers
  import opened Rows
  import opened Stats
  import opened Schema
  import opened Loaders
  import opened Scoring
  import opened Fusion
  import opened Pipeline

  /** A parser that reads no text as a number. */
  function NoNumbers(s: string): Option<real> {
    None
  }

  /** Two present readings of one patient: one row whose value is their average. */
  lemma TwoReadingsMean(id: PatientId, x: real, y: real)
    ensures GroupMeans([Observation(id, Some(x)), Observation(id, Some(y))]) == [PatientMean(id, Some((x + y) / 2.0))]
  {
    var obs := [Observation(id, Some(x)), Observation(id, Some(y))];
    assert obs[..1] == [Observation(id, Some(x))];
    assert Distinct(ObservationIds(obs)) == [id] by {
      assert ObservationIds(obs) == [id, id];
      assert ObservationIds(obs)[..1] == [id];
    }
    assert PresentFor(obs[..1], id) == [x] by {
      assert obs[..1][..0] == [];
    }
    assert PresentFor(obs, id) == [x, y];
    assert Sum([x]) == x by {
      assert [x][..0] == [];
    }
    assert Sum([x, y]) == x + y by {
      assert [x, y][..1] == [x];
    }
  }

  /** Gait readings 0.2 and 0.8 of one patient average to 0.5. */
  lemma GaitMeanExample()
    ensures GroupMeans([Observation("P1", Some(0.2)), Observation("P1", Some(0.8))]) == [PatientMean("P1", Some(0.5))]
  {
    TwoReadingsMean("P1", 0.2, 0.8);
  }

  /** Qualities 90 and 70 exceed 1, so they are read on the 0-100 scale: action risks 0.1 and 0.3. */
  lemma SensorRisksExample()
    ensures SensorObservations(NoNumbers, [SensorRecord("P1", Num(90.0)), SensorRecord("P1", Num(70.0))])
      == [Observation("P1", Some(0.1)), Observation("P1", Some(0.3))]
  {
    var rows := [SensorRecord("P1", Num(90.0)), SensorRecord("P1", Num(70.0))];
    var qs := Qualities(NoNumbers, rows);
    assert qs == [Some(90.0), Some(70.0)];
    RescaleNeededIff(qs);
    assert RescaleNeeded(qs) by {
      assert qs[0].value > 1.0;
    }
  }

  /** ... and the patient's mean action risk is 0.2. */
  lemma SensorMeanExample()
    ensures LoadSensorSpec(NoNumbers, Table(SensorRequired, [SensorRecord("P1", Num(90.0)), SensorRecord("P1", Num(70.0))]))
      == Ok([PatientMean("P1", Some(0.2))])
  {
    SensorRisksExample();
    TwoReadingsMean("P1", 0.1, 0.3);
  }

  /** One value above 1 rescales the other patients' fractions too: 0.8 becomes 0.008, a risk of 0.992. */
  lemma SensorOutlierExample()
    ensures var rows := [SensorRecord("P1", Num(0.8)), SensorRecord("P2", Num(2.0))];
      SensorObservations(NoNumbers, rows)[0] == Observation("P1", Some(0.992))
  {
    var rows := [SensorRecord("P1", Num(0.8)), SensorRecord("P2", Num(2.0))];
    var qs := Qualities(NoNumbers, rows);
    assert qs == [Some(0.8), Some(2.0)];
    RescaleNeededIff(qs);
    assert RescaleNeeded(qs) by {
      assert qs[1].value > 1.0;
    }
  }

  /** Of time steps 1 and 2 with totals 40 and 60, the row at step 2 is kept. */
  lemma IcfLatestExample()
    ensures LatestRows(NoNumbers, [IcfRecord("P1", Num(1.0), Some("mid"), Num(40.0)), IcfRecord("P1", Num(2.0), Some("mid"), Num(60.0))])
      == [IcfLatest("P1", Some("mid"), Num(60.0))]
  {
    var rows := [IcfRecord("P1", Num(1.0), Some("mid"), Num(40.0)), IcfRecord("P1", Num(2.0), Some("mid"), Num(60.0))];
    assert rows[..1] == [rows[0]];
    assert Distinct(IcfIds(rows)) == ["P1"] by {
      assert IcfIds(rows) == ["P1", "P1"];
      assert IcfIds(rows)[..1] == ["P1"];
    }
    assert LatestIndex(NoNumbers, rows, "P1") == Some(1);
  }

  /** A time step that does not parse sorts last, so its row is kept over a later-numbered one. */
  lemma IcfUnparsableExample()
    ensures LatestRows(NoNumbers, [IcfRecord("P1", Text("n/a"), Some("mid"), Num(50.0)), IcfRecord("P1", Num(5.0), Some("mid"), Num(70.0))])
      == [IcfLatest("P1", Some("mid"), Num(50.0))]
  {
    var rows := [IcfRecord("P1", Text("n/a"), Some("mid"), Num(50.0)), IcfRecord("P1", Num(5.0), Some("mid"), Num(70.0))];
    assert rows[..1] == [rows[0]];
    assert Distinct(IcfIds(rows)) == ["P1"] by {
      assert IcfIds(rows) == ["P1", "P1"];
      assert IcfIds(rows)[..1] == ["P1"];
    }
    assert LatestIndex(NoNumbers, rows, "P1") == Some(0);
  }

  /**
   * A single patient in mid phase with gait 0.5 and action risk 0.2: the
   * normalised total is 0.5, the score 0.41, below 0.50, so the tier is low.
   */
  lemma SinglePatientLowExample()
    ensures FuseSpec(NoNumbers, [IcfLatest("P1", Some("mid"), Num(60.0))], [PatientMean("P1", Some(0.5))], [PatientMean("P1", Some(0.2))]).rows
      == [Decision("P1", Some("mid"), Some(60.0), 0.5, 0.2, Low)]
  {
    var merged := [Merged("P1", Some("mid"), Num(60.0), Some(0.5), Some(0.2))];
    SinglePatientMerge();
    SingleRowDecision(NoNumbers, merged);
    SinglePatientDefaulted();
    SinglePatientClassified();
  }

  lemma SinglePatientDefaulted()
    ensures Defaulted(NoNumbers, [Merged("P1", Some("mid"), Num(60.0), Some(0.5), Some(0.2))])
      == [Filled("P1", Some("mid"), Some(60.0), 0.5, 0.2)]
  {
    assert IcfValues(NoNumbers, [Merged("P1", Some("mid"), Num(60.0), Some(0.5), Some(0.2))]) == [Some(60.0)];
  }

  /** Score 0.41 in mid phase at normalised total 0.5: threshold 0.60, more than 0.10 above the score. */
  lemma SinglePatientClassified()
    ensures Classify(Filled("P1", Some("mid"), Some(60.0), 0.5, 0.2), 0.5) == Decision("P1", Some("mid"), Some(60.0), 0.5, 0.2, Low)
  {
    PhaseBaseValues();
    ThresholdAtNeutral(Some("mid"));
    assert RiskScore(0.5, 0.2, 0.5) == 0.41;
  }

  /** A left row and a right row of the same patient join into one row. */
  lemma JoinSamePatient(row: Merged, right: PatientMean, column: Column)
    requires row.patientId == right.patientId
    ensures Join([row], [right], column) == [WithColumn(row, column, right.mean)]
  {
    assert [row][..0] == [] && [right][..0] == [];
    assert MeansFor([right], row.patientId) == [right.mean];
    assert MatchRows(row, [right.mean], column) == [WithColumn(row, column, right.mean)];
    assert JoinLeft([row], [right], column) == [WithColumn(row, column, right.mean)];
    assert MergedIds([row]) == [row.patientId];
    assert RightOnly([row.patientId], [right], column) == [];
  }

  /** A right row with nothing on the left becomes a row of its own. */
  lemma JoinRightAlone(right: PatientMean, column: Column)
    ensures Join([], [right], column) == [WithColumn(EmptyRow(right.patientId), column, right.mean)]
  {
    assert [right][..0] == [];
    assert MergedIds([]) == [];
    assert RightOnly([], [right], column) == [WithColumn(EmptyRow(right.patientId), column, right.mean)];
  }

  /** The three one-row tables of one patient merge into one row. */
  lemma SinglePatientMerge()
    ensures Merge([IcfLatest("P1", Some("mid"), Num(60.0))], [PatientMean("P1", Some(0.5))], [PatientMean("P1", Some(0.2))])
      == [Merged("P1", Some("mid"), Num(60.0), Some(0.5), Some(0.2))]
  {
    var icf := [IcfLatest("P1", Some("mid"), Num(60.0))];
    assert IcfRows(icf) == [Merged("P1", Some("mid"), Num(60.0), None, None)];
    JoinSamePatient(Merged("P1", Some("mid"), Num(60.0), None, None), PatientMean("P1", Some(0.5)), GaitColumn);
    JoinSamePatient(Merged("P1", Some("mid"), Num(60.0), Some(0.5), None), PatientMean("P1", Some(0.2)), ActionColumn);
  }

  /**
   * A patient only the gait table knows, with probability 0.9: action risk
   * defaults to 0.5, the total stays missing, the normalised total is 0.5,
   * the score 0.70 and the tier high at the default threshold 0.60.
   */
  lemma GaitOnlyHighExample()
    ensures FuseSpec(NoNumbers, [], [PatientMean("P2", Some(0.9))], []).rows
      == [Decision("P2", None, None, 0.9, 0.5, High)]
  {
    var gait := [PatientMean("P2", Some(0.9))];
    var merged := Merge([], gait, []);
    assert merged == [Merged("P2", None, Blank, Some(0.9), None)] by {
      assert IcfRows([]) == [];
      JoinRightAlone(PatientMean("P2", Some(0.9)), GaitColumn);
      var first := [Merged("P2", None, Blank, Some(0.9), None)];
      assert JoinLeft(first, [], ActionColumn) == first by {
        assert first[..0] == [];
      }
    }
    SingleRowDecision(NoNumbers, merged);
    assert RiskScore(0.9, 0.5, 0.5) == 0.70;
    assert Threshold(None, 0.5) == 0.60;
  }

  /** A cohort of one is degenerate: its row is decided at normalised total 0.5. */
  lemma SingleRowDecision(parse: string -> Option<real>, merged: seq<Merged>)
    requires |merged| == 1
    ensures var rows := Defaulted(parse, merged);
      FuseRows(parse, merged) == [Classify(rows[0], 0.5)]
  {
    var rows := Defaulted(parse, merged);
    DefaultedIcf(parse, merged);
    var col := IcfColumn(rows);
    assert Degenerate(col) by {
      if Present(col) != [] {
        assert MinPresent(col).value == MaxPresent(col).value by {
          assert Some(MinPresent(col).value) in col && Some(MaxPresent(col).value) in col;
        }
      }
    }
    NormalizeCases(col, 0);
  }

  /**
   * One valid ICF row, an empty gait table and an empty sensor table, both
   * with their required headers: the sensor header has no
   * `action_risk_score`, so the fusion raises a `KeyError` for it.
   */
  lemma EmptySensorHeaderExample()
    ensures PipelineSpec(NoNumbers, Table(IcfRequired, [IcfRecord("P1", Num(1.0), Some("mid"), Num(60.0))]),
                         Table(GaitRequired, []), Table(SensorRequired, []))
      == Err(MissingKey("action_risk_score"))
  {
    var icfTable := Table(IcfRequired, [IcfRecord("P1", Num(1.0), Some("mid"), Num(60.0))]);
    assert ResultHeader(icfTable, IcfOutput) == IcfOutput;
    assert "action_risk_score" !in IcfOutput + GaitRequired + SensorRequired;
    assert "patient_id" in GaitRequired && "patient_id" in SensorRequired && "icf_total" in IcfOutput
      && "gait_abnormal_prob" in GaitRequired;
  }
}
