/** Threshold alerts: limits, severities, and the two suppressions. */
module AlertEvaluator {
  import opened Numbers
  import opened SensorSpecs
  import opened HealthIndex

  datatype Severity = Info | Caution | Serious | Emergency

  datatype Alert = Alert(sensor: Sensor, severity: Severity, value: real, low: real, high: real)

  /** `_threshold_violated`. */
  predicate Violated(value: real, s: Spec) {
    match s.threshold
    case Bidirectional => Abs(value - s.nominal) > s.safe
    case UpperBound => value > s.nominal + s.safe
    case LowerBound => value < s.nominal - s.safe
    case ExactMatch => !(Abs(value - s.nominal) < 0.000001)
  }

  /** The deviation an alert grades by; an exact-match sensor counts as a full range out. */
  function GradedDeviation(value: real, s: Spec): real {
    match s.threshold
    case Bidirectional => Abs(value - s.nominal)
    case UpperBound => Max(0.0, value - s.nominal)
    case LowerBound => Max(0.0, s.nominal - value)
    case ExactMatch => Abs(CritRange(s))
  }

  function Graded(normalised: real, weight: real): Severity {
    if normalised >= 0.9 || weight >= 35.0 then Emergency
    else if normalised >= 0.6 then Serious
    else if normalised >= 0.3 then Caution
    else Info
  }

  /** `_severity_from_spec`; warning and critical are `Caution` and `Serious` here. */
  function SeverityOf(value: real, s: Spec): Severity {
    Graded(Normalised(GradedDeviation(value, s), s), s.weight)
  }

  function LowLimit(s: Spec): real {
    match s.threshold
    case UpperBound => s.nominal - s.safe
    case LowerBound => s.critical
    case _ => s.nominal - Abs(s.critical - s.nominal)
  }

  function HighLimit(s: Spec): real {
    match s.threshold
    case UpperBound => s.critical
    case LowerBound => s.nominal + s.safe
    case _ => s.nominal + Abs(s.critical - s.nominal)
  }

  /** The diesel engine sleeps: speed measured, and at most 50 rpm. */
  predicate Asleep(kind: LocoType, values: map<Sensor, real>) {
    kind == TE33A && DieselRpm in values && values[DieselRpm] <= 50.0
  }

  /** The oil pressure expected at the present engine speed. */
  function ExpectedPressure(values: map<Sensor, real>): real {
    1.5 + (if DieselRpm in values then values[DieselRpm] else 0.0) / 1050.0 * 1.5
  }

  predicate Suppressed(kind: LocoType, sensor: Sensor, values: map<Sensor, real>)
    requires sensor in values
  {
    || (Asleep(kind, values) && sensor in {DieselRpm, OilPressure})
    || (sensor == OilPressure && values[sensor] >= ExpectedPressure(values))
  }

  function AlertOf(row: Row, value: real): Alert {
    Alert(row.sensor, SeverityOf(value, row.spec), value, LowLimit(row.spec), HighLimit(row.spec))
  }

  predicate Raises(kind: LocoType, row: Row, values: map<Sensor, real>) {
    row.sensor in values && !Suppressed(kind, row.sensor, values) && Violated(values[row.sensor], row.spec)
  }

  /** The alerts of the rows that raise one, in the order of the table. */
  function AlertsOf(kind: LocoType, rows: seq<Row>, values: map<Sensor, real>): seq<Alert>
    decreases |rows|
  {
    if rows == [] then []
    else
      var row := rows[|rows| - 1];
      AlertsOf(kind, rows[..|rows| - 1], values) +
      if Raises(kind, row, values) then [AlertOf(row, values[row.sensor])] else []
  }

  /** The loop of `evaluate_alerts`. */
  method Evaluate(kind: LocoType, rows: seq<Row>, values: map<Sensor, real>) returns (alerts: seq<Alert>)
    ensures alerts == AlertsOf(kind, rows, values)
  {
    var asleep := kind == TE33A && DieselRpm in values && values[DieselRpm] <= 50.0;
    alerts := [];
    for i := 0 to |rows|
      invariant alerts == AlertsOf(kind, rows[..i], values)
    {
      assert rows[..i + 1][..i] == rows[..i];
      var row := rows[i];
      if row.sensor !in values {
        continue;
      }
      var value := values[row.sensor];
      if asleep && row.sensor in {DieselRpm, OilPressure} {
        continue;
      }
      if row.sensor == OilPressure {
        var rpm := if DieselRpm in values then values[DieselRpm] else 0.0;
        if value >= 1.5 + rpm / 1050.0 * 1.5 {
          continue;
        }
      }
      if !Violated(value, row.spec) {
        continue;
      }
      alerts := alerts + [AlertOf(row, value)];
    }
    assert rows[..|rows|] == rows;
  }

  /** `evaluate_alerts`. */
  method EvaluateAlerts(r: Reading) returns (alerts: seq<Alert>)
    ensures alerts == AlertsOf(r.kind, SpecsOf(r.kind), SensorMap(r.sensors))
  {
    alerts := Evaluate(r.kind, SpecsOf(r.kind), SensorMap(r.sensors));
  }
}

/** Alerts and the health index judge the same reading. */
module AlertTheorems {
  import opened Numbers
  import opened SensorSpecs
  import opened HealthIndex
  import opened AlertEvaluator

  /** For every limit but an exact match, a threshold is violated exactly when the sensor is penalised. */
  lemma ViolatedIffPenalised(v: real, s: Spec, p: Powers)
    requires Sound(s) && Lawful(p) && s.threshold != ExactMatch
    ensures Violated(v, s) <==> Penalty(v, s, p) > 0.0
  {
    PenaltyRange(v, s, p);
  }

  /** For an exact match they agree exactly on readings within a millionth of nominal, and on those that even
      the relative tolerance tells apart when the safe zone is narrower than the critical range. */
  lemma ExactMatchAgreesIff(v: real, s: Spec, p: Powers)
    requires Sound(s) && Lawful(p) && s.threshold == ExactMatch
    ensures (Violated(v, s) <==> Penalty(v, s, p) > 0.0) <==>
              (Abs(v - s.nominal) < 0.000001 || (!IsClose(v, s.nominal) && s.safe < CritRange(s)))
  {
    PenaltyRange(v, s, p);
  }

  // ----- Severity

  function Rank(s: Severity): nat {
    match s
    case Info => 0
    case Caution => 1
    case Serious => 2
    case Emergency => 3
  }

  /** Of two readings of one sensor, the more penalised is graded no lower, and so is the more deviating. */
  lemma SeverityFollowsPenalty(v: real, w: real, s: Spec, p: Powers)
    requires Sound(s) && Lawful(p) && s.threshold != ExactMatch
    ensures Penalty(v, s, p) <= Penalty(w, s, p) ==> Rank(SeverityOf(v, s)) <= Rank(SeverityOf(w, s))
    ensures Deviation(v, s) <= Deviation(w, s) ==> Rank(SeverityOf(v, s)) <= Rank(SeverityOf(w, s))
  {
    PenaltyOrder(w, v, s, p);
    PenaltyOrder(v, w, s, p);
  }

  /** An emergency is a sensor of fatal weight, or one whose penalty has reached that of 90 percent of its
      critical range. */
  lemma EmergencyIff(v: real, s: Spec, p: Powers)
    requires Sound(s) && Lawful(p) && s.threshold != ExactMatch
    ensures SeverityOf(v, s) == Emergency <==> s.weight >= 35.0 || Penalty(v, s, p) >= s.weight * p.pow(0.9, s.k)
  {
    assert GradedDeviation(v, s) == Deviation(v, s);
    PenaltyBelowIff(v, 0.9, s, p);
  }

  /** A violated degenerate limit is an emergency from the first millionth on. */
  lemma DegenerateIsEmergency(v: real, s: Spec)
    requires Sound(s) && Degenerate(s) && s.threshold != ExactMatch && Deviation(v, s) >= s.safe + 0.000001
    ensures Violated(v, s) && SeverityOf(v, s) == Emergency
  {
    NormalisedShape(Deviation(v, s), Deviation(v, s), s);
  }

  /** The limits an alert shows are those of the critical value, not of the safe zone: a violating value lies
      outside them exactly when it deviates further than the critical value does. */
  lemma OutsideShownLimitsIff(v: real, s: Spec)
    requires Sound(s) && Sided(s) && s.threshold != ExactMatch && Violated(v, s)
    ensures v < LowLimit(s) || v > HighLimit(s) <==> Deviation(v, s) > Abs(s.critical - s.nominal)
  {
  }

  /** So every alert between the safe zone and the critical value reports a value inside the limits it shows. */
  lemma AlertsInsideShownLimits(v: real, s: Spec)
    requires Sound(s) && Sided(s) && s.threshold != ExactMatch
    ensures Violated(v, s) && LowLimit(s) <= v <= HighLimit(s) <==>
              s.safe < Deviation(v, s) <= Abs(s.critical - s.nominal)
  {
    if Violated(v, s) {
      OutsideShownLimitsIff(v, s);
    }
  }

  // ----- Whole readings

  lemma {:induction false} AlertsAreRaised(kind: LocoType, rows: seq<Row>, values: map<Sensor, real>, a: Alert)
    ensures a in AlertsOf(kind, rows, values) <==>
              exists i :: 0 <= i < |rows| && Raises(kind, rows[i], values) &&
                          a == AlertOf(rows[i], values[rows[i].sensor])
    decreases |rows|
  {
    if rows != [] {
      var n := |rows| - 1;
      AlertsAreRaised(kind, rows[..n], values, a);
      assert forall i :: 0 <= i < n ==> rows[..n][i] == rows[i];
    }
  }

  /** On either locomotive type, a sensor of the table raises an alert exactly when the health index
      penalises its reading and neither suppression applies. */
  lemma AlertIffPenalisedAndNotSuppressed(r: Reading, i: nat, p: Powers)
    requires Lawful(p) && i < |SpecsOf(r.kind)| && SpecsOf(r.kind)[i].sensor in SensorMap(r.sensors)
    ensures var (row, values) := (SpecsOf(r.kind)[i], SensorMap(r.sensors));
            (exists a :: a in AlertsOf(r.kind, SpecsOf(r.kind), values) && a.sensor == row.sensor) <==>
            (Penalty(values[row.sensor], row.spec, p) > 0.0 && !Suppressed(r.kind, row.sensor, values))
  {
    var rows, values := SpecsOf(r.kind), SensorMap(r.sensors);
    TablesAreSound(r.kind);
    ViolatedIffPenalised(values[rows[i].sensor], rows[i].spec, p);
    var a := AlertOf(rows[i], values[rows[i].sensor]);
    AlertsAreRaised(r.kind, rows, values, a);
    forall b | b in AlertsOf(r.kind, rows, values) && b.sensor == rows[i].sensor
      ensures Raises(r.kind, rows[i], values)
    {
      AlertsAreRaised(r.kind, rows, values, b);
    }
  }

  // ----- The suppressions

  /** The diesel's rows in its table. */
  function RpmSpec(): Spec { SpecsOf(TE33A)[0].spec }

  function OilSpec(): Spec { SpecsOf(TE33A)[1].spec }

  /** Masking engine speed while the engine sleeps hides nothing: no such speed violates its limit. */
  lemma SleepingSpeedIsNoViolation(values: map<Sensor, real>)
    requires Asleep(TE33A, values)
    ensures !Violated(values[DieselRpm], RpmSpec())
  {
  }

  /** Oil pressure raises an alert exactly when the engine is awake and the pressure is below both the limit
      of 2.5 bar and the pressure expected at the present speed. From 700 rpm on, the second adds nothing. */
  lemma OilAlertIff(values: map<Sensor, real>)
    requires OilPressure in values
    ensures Raises(TE33A, SpecsOf(TE33A)[1], values) <==>
              !Asleep(TE33A, values) && values[OilPressure] < 2.5 && values[OilPressure] < ExpectedPressure(values)
    ensures DieselRpm in values && values[DieselRpm] >= 700.0 ==>
              (Raises(TE33A, SpecsOf(TE33A)[1], values) <==> values[OilPressure] < 2.5)
  {
  }

  /** The alerts of a sleeping engine are masked, its penalties are not: oil pressure costs health points exactly
      when it is below 2.5 bar, as in an engine that is awake, while no alert is raised. */
  lemma SleepingEngineIsStillPenalised(values: map<Sensor, real>, p: Powers)
    requires Lawful(p) && Asleep(TE33A, values) && OilPressure in values
    ensures !Raises(TE33A, SpecsOf(TE33A)[1], values)
    ensures Penalty(values[OilPressure], OilSpec(), p) > 0.0 <==> values[OilPressure] < 2.5
  {
    TablesAreSound(TE33A);
    ViolatedIffPenalised(values[OilPressure], OilSpec(), p);
  }

  // ----- Everything an alert says

  /** The severity of a penalty: an emergency for a sensor of fatal weight, otherwise by the penalties of 90, 60 and 30
      percent of the critical range. */
  function BandOf(penalty: real, s: Spec, p: Powers): Severity {
    BandAmong(penalty, s.weight, CostAt(0.9, s, p), CostAt(0.6, s, p), CostAt(0.3, s, p))
  }

  function BandAmong(penalty: real, weight: real, emergency: real, serious: real, caution: real): Severity {
    if weight >= 35.0 || penalty >= emergency then Emergency
    else if penalty >= serious then Serious
    else if penalty >= caution then Caution
    else Info
  }

  function CostAt(x: real, s: Spec, p: Powers): real { s.weight * p.pow(x, s.k) }

  lemma {:induction false} BelowCostIff(v: real, x: real, s: Spec, p: Powers, cost: real)
    requires Sound(s) && Lawful(p) && 0.0 <= x <= 1.0 && cost == CostAt(x, s, p)
    ensures Penalty(v, s, p) < cost <==> Normalised(Deviation(v, s), s) < x
  {
    PenaltyBelowIff(v, x, s, p);
  }

  lemma {:induction false} GradeIsBand(penalty: real, x: real, weight: real, emergency: real, serious: real,
                                       caution: real)
    requires (penalty < emergency <==> x < 0.9) && (penalty < serious <==> x < 0.6) && (penalty < caution <==> x < 0.3)
    ensures Graded(x, weight) == BandAmong(penalty, weight, emergency, serious, caution)
  {
  }

  /** A sensor is graded by its penalised share. */
  lemma {:induction false} SeverityFollowsBands(v: real, s: Spec, p: Powers)
    requires Sound(s) && Lawful(p) && s.threshold != ExactMatch
    ensures SeverityOf(v, s) == BandOf(Penalty(v, s, p), s, p)
  {
    assert GradedDeviation(v, s) == Deviation(v, s);
    var emergency, serious, caution := CostAt(0.9, s, p), CostAt(0.6, s, p), CostAt(0.3, s, p);
    BelowCostIff(v, 0.9, s, p, emergency);
    BelowCostIff(v, 0.6, s, p, serious);
    BelowCostIff(v, 0.3, s, p, caution);
    GradeIsBand(Penalty(v, s, p), Normalised(Deviation(v, s), s), s.weight, emergency, serious, caution);
  }

  /** The limits shown: the critical value on the side that is watched, and the end of the safe zone on the other; for
      a sensor watched on both sides, the critical distance either way. */
  ghost predicate ShowsLimits(a: Alert, s: Spec) {
    match s.threshold
    case UpperBound => a.low == s.nominal - s.safe && a.high == s.critical
    case LowerBound => a.low == s.critical && a.high == s.nominal + s.safe
    case _ => s.nominal - a.low == a.high - s.nominal == Abs(s.critical - s.nominal)
  }

  /** The row raises: its sensor was read and is penalised, and neither suppression applies - a diesel engine measured
      at 50 rpm or less hides its speed and oil pressure, and oil pressure is expected at 1.5 bar plus one for every
      700 rpm. */
  ghost predicate RaisesAlert(kind: LocoType, row: Row, v: map<Sensor, real>, p: Powers) {
    && row.sensor in v && Penalty(v[row.sensor], row.spec, p) > 0.0
    && !(kind == TE33A && DieselRpm in v && v[DieselRpm] <= 50.0 &&
         (row.sensor == DieselRpm || row.sensor == OilPressure))
    && !(row.sensor == OilPressure && 700.0 * (v[OilPressure] - 1.5) >= if DieselRpm in v then v[DieselRpm] else 0.0)
  }

  lemma {:induction false} ExpectedPressureIs(v: map<Sensor, real>, x: real)
    ensures x >= ExpectedPressure(v) <==> 700.0 * (x - 1.5) >= if DieselRpm in v then v[DieselRpm] else 0.0
  {
    var rpm := if DieselRpm in v then v[DieselRpm] else 0.0;
    assert rpm / 1050.0 * 1.5 == rpm / 700.0;
  }

  lemma {:induction false} RaisesIff(kind: LocoType, row: Row, v: map<Sensor, real>, p: Powers)
    requires Sound(row.spec) && Lawful(p) && row.spec.threshold != ExactMatch
    ensures Raises(kind, row, v) <==> RaisesAlert(kind, row, v, p)
  {
    if row.sensor in v {
      ViolatedIffPenalised(v[row.sensor], row.spec, p);
      ExpectedPressureIs(v, v[row.sensor]);
    }
  }

  /** The alert is about this row: its sensor and value, graded by its penalty, with the limits of the row. */
  ghost predicate Tells(a: Alert, row: Row, v: map<Sensor, real>, p: Powers) {
    && row.sensor in v && a.sensor == row.sensor && a.value == v[row.sensor]
    && a.severity == BandOf(Penalty(v[row.sensor], row.spec, p), row.spec, p) && ShowsLimits(a, row.spec)
  }

  lemma {:induction false} AlertTells(row: Row, v: map<Sensor, real>, p: Powers)
    requires Sound(row.spec) && Lawful(p) && row.spec.threshold != ExactMatch && row.sensor in v
    ensures Tells(AlertOf(row, v[row.sensor]), row, v, p)
  {
    SeverityFollowsBands(v[row.sensor], row.spec, p);
  }

  /** `at` lists the rows below n that raise, in order, and the alerts are about them, one each. */
  ghost predicate OnePerRow(alerts: seq<Alert>, kind: LocoType, rows: seq<Row>, n: nat, v: map<Sensor, real>, p: Powers,
                            at: seq<nat>)
    requires n <= |rows|
  {
    && |at| == |alerts|
    && (forall j :: 0 <= j < |at| ==> at[j] < n && Tells(alerts[j], rows[at[j]], v, p))
    && (forall i, j :: 0 <= i < j < |at| ==> at[i] < at[j])
    && (forall k: nat :: k < n ==> (k in at <==> RaisesAlert(kind, rows[k], v, p)))
  }

  lemma {:induction false} OneRowMore(alerts: seq<Alert>, kind: LocoType, rows: seq<Row>, n: nat, v: map<Sensor, real>,
                                      p: Powers, at: seq<nat>, a: Alert)
    requires n < |rows| && OnePerRow(alerts, kind, rows, n, v, p, at)
    ensures !RaisesAlert(kind, rows[n], v, p) ==> OnePerRow(alerts, kind, rows, n + 1, v, p, at)
    ensures RaisesAlert(kind, rows[n], v, p) && Tells(a, rows[n], v, p) ==>
              OnePerRow(alerts + [a], kind, rows, n + 1, v, p, at + [n])
  {
    assert n !in at;
  }

  lemma {:induction false} AlertsOneRowMore(kind: LocoType, rows: seq<Row>, n: nat, v: map<Sensor, real>)
    requires n < |rows|
    ensures AlertsOf(kind, rows[..n + 1], v) == AlertsOf(kind, rows[..n], v) +
              if Raises(kind, rows[n], v) then [AlertOf(rows[n], v[rows[n].sensor])] else []
  {
    assert rows[..n + 1][..n] == rows[..n];
  }

  lemma {:induction false} AlertsUpTo(kind: LocoType, rows: seq<Row>, n: nat, v: map<Sensor, real>, p: Powers)
    returns (at: seq<nat>)
    requires Lawful(p) && n <= |rows|
    requires forall i :: 0 <= i < |rows| ==> Sound(rows[i].spec) && rows[i].spec.threshold != ExactMatch
    ensures OnePerRow(AlertsOf(kind, rows[..n], v), kind, rows, n, v, p, at)
    decreases n
  {
    if n == 0 {
      at := [];
    } else {
      at := AlertsUpTo(kind, rows, n - 1, v, p);
      var row, before := rows[n - 1], AlertsOf(kind, rows[..n - 1], v);
      AlertsOneRowMore(kind, rows, n - 1, v);
      RaisesIff(kind, row, v, p);
      if Raises(kind, row, v) {
        AlertTells(row, v, p);
        OneRowMore(before, kind, rows, n - 1, v, p, at, AlertOf(row, v[row.sensor]));
        at := at + [n - 1];
      } else {
        OneRowMore(before, kind, rows, n - 1, v, p, at, Alert(row.sensor, Info, 0.0, 0.0, 0.0));
        assert before + [] == before;
      }
    }
  }

  /** The alerts of a reading, in full: one for every row of the table that raises, in the order of the table, each
      with the sensor and its value, the severity of its penalty, and its limits. */
  lemma {:induction false} AlertsInFull(r: Reading, p: Powers) returns (at: seq<nat>)
    requires Lawful(p)
    ensures var (rows, v) := (SpecsOf(r.kind), SensorMap(r.sensors));
            OnePerRow(AlertsOf(r.kind, rows, v), r.kind, rows, |rows|, v, p, at)
  {
    var rows := SpecsOf(r.kind);
    TablesAreSound(r.kind);
    assert rows[..|rows|] == rows;
    at := AlertsUpTo(r.kind, rows, |rows|, SensorMap(r.sensors), p);
  }
}
