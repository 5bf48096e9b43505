/** Per-sensor limits, and the deviation formulas the health index and the alerts share. */
module SensorSpecs {
  import opened Numbers
  import opened RealSums

  datatype LocoType = TE33A | KZ8A

  datatype Sensor =
    | DieselRpm | OilPressure | CoolantTemp | FuelLevel | FuelRate | TractionMotorTemp | CrankcasePressure
    | CatenaryVoltage | PantographCurrent | TransformerTemp | IgbtTemp | RecuperationCurrent | DcLinkVoltage
    | SpeedActual | SpeedTarget | BrakePipePressure | WheelSlipRatio

  datatype Threshold = Bidirectional | UpperBound | LowerBound | ExactMatch

  datatype Spec = Spec(weight: real, nominal: real, safe: real, critical: real, threshold: Threshold, k: real,
                       aging: bool, reference: real)

  datatype Row = Row(sensor: Sensor, spec: Spec)

  function CritRange(s: Spec): (r: real)
    ensures r > 0.0
  {
    Max(0.000001, Abs(s.critical - s.nominal) - s.safe)
  }

  function Limits(weight: real, nominal: real, safe: real, critical: real, threshold: Threshold, k: real): Spec {
    Spec(weight, nominal, safe, critical, threshold, k, false, 0.0)
  }

  function CommonRows(): seq<Row> {
    [Row(BrakePipePressure, Limits(40.0, 5.1, 0.2, 2.0, LowerBound, 3.0)),
     Row(WheelSlipRatio, Limits(20.0, 0.0, 0.05, 0.5, UpperBound, 2.0)),
     Row(SpeedActual, Limits(15.0, 60.0, 60.0, 120.0, UpperBound, 2.0))]
  }

  function SpecsOf(t: LocoType): seq<Row> {
    match t
    case TE33A =>
      [Row(DieselRpm, Limits(15.0, 700.0, 200.0, 1050.0, UpperBound, 2.0)),
       Row(OilPressure, Limits(35.0, 3.5, 1.0, 1.5, LowerBound, 2.0)),
       Row(CoolantTemp, Limits(20.0, 82.0, 13.0, 95.0, UpperBound, 2.0)),
       Row(FuelLevel, Limits(10.0, 50.0, 40.0, 5.0, LowerBound, 1.5)),
       Row(FuelRate, Limits(10.0, 80.0, 60.0, 200.0, UpperBound, 1.5)),
       Row(TractionMotorTemp, Limits(15.0, 85.0, 45.0, 130.0, UpperBound, 2.0)),
       Row(CrankcasePressure, Limits(40.0, 0.0, 10.0, 50.0, UpperBound, 3.0))] + CommonRows()
    case KZ8A =>
      [Row(CatenaryVoltage, Limits(25.0, 25000.0, 4000.0, 19000.0, Bidirectional, 2.0)),
       Row(PantographCurrent, Limits(15.0, 200.0, 150.0, 400.0, UpperBound, 2.0)),
       Row(TransformerTemp, Spec(20.0, 65.0, 15.0, 90.0, UpperBound, 2.0, true, 65.0)),
       Row(IgbtTemp, Spec(30.0, 57.0, 18.0, 85.0, UpperBound, 2.0, true, 57.0)),
       Row(RecuperationCurrent, Limits(5.0, 100.0, 100.0, 0.0, LowerBound, 1.0)),
       Row(DcLinkVoltage, Limits(20.0, 2800.0, 300.0, 2000.0, Bidirectional, 2.0))] + CommonRows()
  }

  /** What the deviation lemmas ask of a specification. */
  predicate Sound(s: Spec) { s.weight > 0.0 && s.safe >= 0.0 && s.k > 0.0 }

  /** The critical value lies on the side the limit watches. */
  predicate Sided(s: Spec) {
    (s.threshold == UpperBound ==> s.critical >= s.nominal) && (s.threshold == LowerBound ==> s.critical <= s.nominal)
  }

  /** An ageing sensor ages by the temperatures its limit watches: those above nominal. */
  predicate AgesAboveNominal(s: Spec) { s.aging ==> s.threshold == UpperBound && s.reference == s.nominal }

  lemma TablesAgeAboveNominal(t: LocoType)
    ensures forall row :: row in SpecsOf(t) ==> AgesAboveNominal(row.spec)
  {
  }

  ghost predicate DistinctSensors(rows: seq<Row>) {
    forall i, j :: 0 <= i < j < |rows| ==> rows[i].sensor != rows[j].sensor
  }

  /** The shipped tables meet it, list each sensor once, put critical values on the right side, and use no
      exact-match limit. */
  lemma TablesAreSound(t: LocoType)
    ensures forall i :: 0 <= i < |SpecsOf(t)| ==>
              Sound(SpecsOf(t)[i].spec) && Sided(SpecsOf(t)[i].spec) && SpecsOf(t)[i].spec.threshold != ExactMatch
    ensures DistinctSensors(SpecsOf(t))
  {
  }

  /** A safe zone that reaches the critical value, leaving no room to normalise in. */
  predicate Degenerate(s: Spec) { Abs(s.critical - s.nominal) <= s.safe }

  predicate DegenerateAsListed(r: Row) {
    Degenerate(r.spec) <==> r.sensor in {CoolantTemp, TractionMotorTemp, SpeedActual, RecuperationCurrent}
  }

  lemma CommonAsListed()
    ensures forall r :: r in CommonRows() ==> DegenerateAsListed(r)
  {
  }

  /** Exactly four of the shipped limits are degenerate. */
  lemma DegenerateRows(t: LocoType)
    ensures forall r :: r in SpecsOf(t) ==> DegenerateAsListed(r)
  {
    CommonAsListed();
    forall r | r in SpecsOf(t) ensures DegenerateAsListed(r) {
      if r !in CommonRows() {
        assert r in SpecsOf(t)[..|SpecsOf(t)| - 3];
      }
    }
  }

  // ----- Powers

  /** Real powers: `x ** k`, and 2 to a power. */
  datatype Powers = Powers(pow: (real, real) -> real, exp2: real -> real)

  /** On [0, 1] a positive power is strictly increasing from 0 to 1. */
  ghost predicate PowIsLawful(pow: (real, real) -> real) {
    && (forall k :: k > 0.0 ==> pow(0.0, k) == 0.0 && pow(1.0, k) == 1.0)
    && (forall x, y, k :: 0.0 <= x < y <= 1.0 && k > 0.0 ==> pow(x, k) < pow(y, k))
  }

  /** Powers of two increase from 1 and double with every step. */
  ghost predicate Exp2IsLawful(exp2: real -> real) {
    && exp2(0.0) == 1.0
    && (forall x, y :: x < y ==> exp2(x) < exp2(y))
    && (forall x :: exp2(x + 1.0) == 2.0 * exp2(x))
  }

  ghost predicate Lawful(p: Powers) { PowIsLawful(p.pow) && Exp2IsLawful(p.exp2) }

  lemma PowersStayInUnit(p: Powers, x: real, k: real)
    requires Lawful(p) && 0.0 <= x <= 1.0 && k > 0.0
    ensures 0.0 <= p.pow(x, k) <= 1.0 && (p.pow(x, k) > 0.0 <==> x > 0.0) && (x == 1.0 ==> p.pow(x, k) == 1.0)
  {
    assert p.pow(0.0, k) == 0.0 && p.pow(1.0, k) == 1.0;
  }

  // ----- Deviations

  /** `math.isclose` with its default relative tolerance and an absolute one of 1e-6. */
  predicate IsClose(a: real, b: real) {
    Abs(a - b) <= Max(0.000000001 * Max(Abs(a), Abs(b)), 0.000001)
  }

  /** `_raw_deviation`. */
  function Deviation(value: real, s: Spec): (d: real)
    ensures d >= 0.0
  {
    match s.threshold
    case Bidirectional => Abs(value - s.nominal)
    case UpperBound => Max(0.0, value - s.nominal)
    case LowerBound => Max(0.0, s.nominal - value)
    case ExactMatch => if IsClose(value, s.nominal) then 0.0 else Abs(CritRange(s))
  }

  /** A deviation beyond the safe zone, as a share of the critical range, at most 1. */
  function Normalised(deviation: real, s: Spec): real {
    Min(1.0, Max(0.0, deviation - s.safe) / CritRange(s))
  }

  lemma {:induction false} DivisionKeepsOrder(a: real, b: real, c: real)
    requires c > 0.0
    ensures a < b <==> a / c < b / c
    ensures a == b <==> a / c == b / c
  {
    ScalingKeepsOrder(a / c, b / c, c);
    assert a / c * c == a && b / c * c == b;
  }

  /** Zero exactly inside the safe zone, one exactly from the critical value on, growing with the deviation. */
  lemma NormalisedShape(d: real, e: real, s: Spec)
    requires d <= e
    ensures 0.0 <= Normalised(d, s) <= Normalised(e, s) <= 1.0
    ensures Normalised(d, s) > 0.0 <==> d > s.safe
    ensures Normalised(d, s) == 1.0 <==> d >= s.safe + CritRange(s)
  {
    var c := CritRange(s);
    DivisionKeepsOrder(Max(0.0, d - s.safe), Max(0.0, e - s.safe), c);
    DivisionKeepsOrder(0.0, Max(0.0, d - s.safe), c);
    DivisionKeepsOrder(Max(0.0, d - s.safe), c, c);
    assert 0.0 / c == 0.0 && c / c == 1.0;
  }

  /** How far a value that is x away from nominal counts as deviating: on both sides, above, or below. */
  lemma DeviationOfOffset(x: real, s: Spec)
    requires s.threshold != ExactMatch
    ensures s.threshold == Bidirectional ==> Deviation(s.nominal + x, s) == Abs(x)
    ensures s.threshold == UpperBound ==> Deviation(s.nominal + x, s) == if x > 0.0 then x else 0.0
    ensures s.threshold == LowerBound ==> Deviation(s.nominal + x, s) == if x < 0.0 then -x else 0.0
  {
  }

  /** In between it is linear: a deviation a share x of the way from the safe zone to the critical value is x. */
  lemma {:induction false} ShareOfTheRange(d: real, x: real, s: Spec)
    requires Abs(s.critical - s.nominal) - s.safe >= 0.000001 && 0.0 <= x <= 1.0
    requires d == s.safe + x * (Abs(s.critical - s.nominal) - s.safe)
    ensures Normalised(d, s) == x
  {
    var c := CritRange(s);
    assert c == Abs(s.critical - s.nominal) - s.safe;
    ScalingKeepsOrder(0.0, x, c);
    assert Max(0.0, d - s.safe) == x * c;
    assert x * c / c == x;
  }

  /** `_sensor_penalty`, without the percentage. */
  function Penalty(value: real, s: Spec, p: Powers): real {
    s.weight * p.pow(Normalised(Deviation(value, s), s), s.k)
  }

  lemma {:induction false} WeightedOrder(a: real, b: real, w: real)
    requires w > 0.0
    ensures (a < b <==> w * a < w * b) && (a == b <==> w * a == w * b)
  {
    ScalingKeepsOrder(a, b, w);
  }

  lemma PowOrder(p: Powers, x: real, y: real, k: real)
    requires Lawful(p) && 0.0 <= x <= 1.0 && 0.0 <= y <= 1.0 && k > 0.0
    ensures x < y <==> p.pow(x, k) < p.pow(y, k)
  {
  }

  lemma {:induction false} Weighed(a: real, w: real)
    requires w > 0.0 && 0.0 <= a <= 1.0
    ensures 0.0 <= w * a <= w && (w * a > 0.0 <==> a > 0.0) && (a == 1.0 ==> w * a == w)
  {
    WeightedOrder(0.0, a, w);
    WeightedOrder(a, 1.0, w);
  }

  lemma {:induction false} PowerRange(x: real, s: Spec, p: Powers)
    requires Sound(s) && Lawful(p) && 0.0 <= x <= 1.0
    ensures var a := s.weight * p.pow(x, s.k);
            0.0 <= a <= s.weight && (a > 0.0 <==> x > 0.0) && (x == 1.0 ==> a == s.weight)
  {
    PowersStayInUnit(p, x, s.k);
    Weighed(p.pow(x, s.k), s.weight);
  }

  lemma {:induction false} PowerOrder(x: real, y: real, s: Spec, p: Powers)
    requires Sound(s) && Lawful(p) && 0.0 <= x <= 1.0 && 0.0 <= y <= 1.0
    ensures s.weight * p.pow(x, s.k) < s.weight * p.pow(y, s.k) <==> x < y
  {
    PowOrder(p, x, y, s.k);
    WeightedOrder(p.pow(x, s.k), p.pow(y, s.k), s.weight);
  }

  lemma PenaltyIsPower(v: real, s: Spec, p: Powers)
    ensures Penalty(v, s, p) == s.weight * p.pow(Normalised(Deviation(v, s), s), s.k)
  {
  }

  /** A value that share of the way out costs the share to the limit's power, times its weight. */
  lemma {:induction false} PenaltyOfShare(v: real, x: real, s: Spec, p: Powers)
    requires Abs(s.critical - s.nominal) - s.safe >= 0.000001 && 0.0 <= x <= 1.0
    requires Deviation(v, s) == s.safe + x * (Abs(s.critical - s.nominal) - s.safe)
    ensures Penalty(v, s, p) == s.weight * p.pow(x, s.k)
  {
    ShareOfTheRange(Deviation(v, s), x, s);
    PenaltyIsPower(v, s, p);
  }

  /** A penalty is below that of a share x of the critical range exactly when the deviation is. */
  lemma PenaltyBelowIff(v: real, x: real, s: Spec, p: Powers)
    requires Sound(s) && Lawful(p) && 0.0 <= x <= 1.0
    ensures Penalty(v, s, p) < s.weight * p.pow(x, s.k) <==> Normalised(Deviation(v, s), s) < x
  {
    NormalisedShape(Deviation(v, s), Deviation(v, s), s);
    PowerOrder(Normalised(Deviation(v, s), s), x, s, p);
    PenaltyIsPower(v, s, p);
  }

  /** The penalty is between nothing and the full weight, and is positive exactly outside the safe zone. */
  lemma PenaltyRange(v: real, s: Spec, p: Powers)
    requires Sound(s) && Lawful(p)
    ensures 0.0 <= Penalty(v, s, p) <= s.weight
    ensures Penalty(v, s, p) > 0.0 <==> Deviation(v, s) > s.safe
  {
    var x := Normalised(Deviation(v, s), s);
    NormalisedShape(Deviation(v, s), Deviation(v, s), s);
    PowerRange(x, s, p);
    PenaltyIsPower(v, s, p);
  }

  /** Penalties order readings as their normalised deviations do, so they grow with the deviation. */
  lemma PenaltyOrder(v: real, w: real, s: Spec, p: Powers)
    requires Sound(s) && Lawful(p)
    ensures Penalty(v, s, p) < Penalty(w, s, p) <==> Normalised(Deviation(v, s), s) < Normalised(Deviation(w, s), s)
    ensures Deviation(v, s) <= Deviation(w, s) ==> Penalty(v, s, p) <= Penalty(w, s, p)
  {
    var d, e := Deviation(v, s), Deviation(w, s);
    NormalisedShape(d, d, s);
    NormalisedShape(e, e, s);
    if d <= e {
      NormalisedShape(d, e, s);
    }
    PowerOrder(Normalised(d, s), Normalised(e, s), s, p);
    PowerOrder(Normalised(e, s), Normalised(d, s), s, p);
  }

  /** A sensor with a degenerate limit takes the whole weight as soon as it is a millionth outside. */
  lemma DegenerateJumps(v: real, s: Spec, p: Powers)
    requires Sound(s) && Lawful(p) && Degenerate(s)
    ensures Deviation(v, s) >= s.safe + 0.000001 ==> Penalty(v, s, p) == s.weight
  {
    NormalisedShape(Deviation(v, s), Deviation(v, s), s);
    PowerRange(Normalised(Deviation(v, s), s), s, p);
  }
}
