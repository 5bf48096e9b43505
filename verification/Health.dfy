/** The health index: weighted penalties, thermal ageing, and the five worst factors. */
module HealthIndex {
  import opened Numbers
  import opened RealSums
  import opened SensorSpecs
  import StableSort

  type LocoId(==)

  datatype Payload = Payload(sensor: Sensor, value: real)

  datatype Reading = Reading(loco: LocoId, kind: LocoType, sensors: seq<Payload>)

  datatype Entry = Entry(sensor: Sensor, penalty: real, percent: real, value: real)

  datatype Category = Normal | Warning | Critical

  datatype Factor = Factor(entry: Entry, share: real)

  datatype Report = Report(score: real, category: Category, factors: seq<Factor>, damage: real)

  type Damages = map<(LocoId, Sensor), real>

  // ----- One reading

  /** The last value of each sensor. */
  function SensorMap(sensors: seq<Payload>): map<Sensor, real>
    decreases |sensors|
  {
    if sensors == [] then map[]
    else SensorMap(sensors[..|sensors| - 1])[sensors[|sensors| - 1].sensor := sensors[|sensors| - 1].value]
  }

  /** The Montsinger increment: nothing up to the reference, doubling every six degrees above it. */
  function Increment(value: real, s: Spec, p: Powers): real {
    if value <= s.reference then 0.0 else (p.exp2((value - s.reference) / 6.0) - 1.0) * 0.001
  }

  function DamageAt(d: Damages, loco: LocoId, sensor: Sensor): real {
    if (loco, sensor) in d then d[(loco, sensor)] else 0.0
  }

  function Aged(d: Damages, loco: LocoId, row: Row, value: real, p: Powers): Damages {
    if value <= row.spec.reference then d
    else d[(loco, row.sensor) := DamageAt(d, loco, row.sensor) + Increment(value, row.spec, p)]
  }

  /** The damages after the rows of a table have seen a reading. */
  function DamagesAfter(d: Damages, loco: LocoId, rows: seq<Row>, values: map<Sensor, real>, p: Powers): Damages
    decreases |rows|
  {
    if rows == [] then d
    else
      var before, row := DamagesAfter(d, loco, rows[..|rows| - 1], values, p), rows[|rows| - 1];
      if row.sensor in values && row.spec.aging then Aged(before, loco, row, values[row.sensor], p) else before
  }

  /** The damage one row reports, after its own update of it. */
  function RowDamage(after: Damages, loco: LocoId, row: Row): real {
    if row.spec.aging then DamageAt(after, loco, row.sensor) else 0.0
  }

  function EntryOf(after: Damages, loco: LocoId, row: Row, value: real, p: Powers): Entry {
    Entry(row.sensor, Penalty(value, row.spec, p) + RowDamage(after, loco, row),
          Normalised(Deviation(value, row.spec), row.spec) * 100.0, value)
  }

  function Entries(d: Damages, loco: LocoId, rows: seq<Row>, values: map<Sensor, real>, p: Powers): seq<Entry>
    decreases |rows|
  {
    if rows == [] then []
    else
      var row := rows[|rows| - 1];
      Entries(d, loco, rows[..|rows| - 1], values, p) +
      if row.sensor in values then [EntryOf(DamagesAfter(d, loco, rows, values, p), loco, row, values[row.sensor], p)]
      else []
  }

  function TotalDamage(d: Damages, loco: LocoId, rows: seq<Row>, values: map<Sensor, real>, p: Powers): real
    decreases |rows|
  {
    if rows == [] then 0.0
    else
      var row := rows[|rows| - 1];
      TotalDamage(d, loco, rows[..|rows| - 1], values, p) +
      if row.sensor in values then RowDamage(DamagesAfter(d, loco, rows, values, p), loco, row) else 0.0
  }

  // ----- Ranking

  function Lightness(e: Entry): real { -e.penalty }

  /** Heaviest first; entries of equal weight stay in the order of the table. */
  function Ranked(s: seq<Entry>): (r: seq<Entry>)
    ensures |r| == |s|
  {
    StableSort.Sorted(s, Lightness)
  }

  function Penalties(s: seq<Entry>): (r: seq<real>)
    ensures |r| == |s| && forall i :: 0 <= i < |r| ==> r[i] == s[i].penalty
  {
    seq(|s|, i requires 0 <= i < |s| => s[i].penalty)
  }

  function ScoreOf(total: real): real { Max(0.0, Min(100.0, 100.0 - total)) }

  function CategoryOf(score: real): Category {
    if score >= 80.0 then Normal else if score >= 50.0 then Warning else Critical
  }

  function Share(penalty: real, total: real): real { penalty / Max(total, 0.000001) * 100.0 }

  /** The first five of a ranking, with their shares of the total. */
  function Top(ranked: seq<Entry>, total: real): (r: seq<Factor>)
    ensures |r| == (if |ranked| <= 5 then |ranked| else 5)
    ensures forall i :: 0 <= i < |r| ==> r[i] == Factor(ranked[i], Share(ranked[i].penalty, total))
  {
    seq(if |ranked| <= 5 then |ranked| else 5,
        i requires 0 <= i < |ranked| => Factor(ranked[i], Share(ranked[i].penalty, total)))
  }

  function Total(d: Damages, r: Reading, p: Powers): real {
    Sum(Penalties(Ranked(Entries(d, r.loco, SpecsOf(r.kind), SensorMap(r.sensors), p))))
  }

  function ReportOf(d: Damages, r: Reading, p: Powers): Report {
    var ranked := Ranked(Entries(d, r.loco, SpecsOf(r.kind), SensorMap(r.sensors), p));
    var total := Total(d, r, p);
    Report(ScoreOf(total), CategoryOf(ScoreOf(total)), Top(ranked, total),
           TotalDamage(d, r.loco, SpecsOf(r.kind), SensorMap(r.sensors), p))
  }

  function DamagesAfterReading(d: Damages, r: Reading, p: Powers): Damages {
    DamagesAfter(d, r.loco, SpecsOf(r.kind), SensorMap(r.sensors), p)
  }

  // ----- The service

  class HealthService {
    var damages: Damages
    const p: Powers

    constructor (p: Powers)
      ensures damages == map[] && this.p == p
    {
      damages, this.p := map[], p;
    }

    /** `_update_damage`. */
    method UpdateDamage(loco: LocoId, row: Row, value: real) returns (total: real)
      modifies this
      ensures damages == Aged(old(damages), loco, row, value, p)
      ensures total == DamageAt(damages, loco, row.sensor)
    {
      if value > row.spec.reference {
        var increment := (p.exp2((value - row.spec.reference) / 6.0) - 1.0) * 0.001;
        damages := damages[(loco, row.sensor) := DamageAt(damages, loco, row.sensor) + increment];
      }
      total := DamageAt(damages, loco, row.sensor);
    }

    method ReadSensors(sensors: seq<Payload>) returns (values: map<Sensor, real>)
      ensures values == SensorMap(sensors)
    {
      values := map[];
      for i := 0 to |sensors|
        invariant values == SensorMap(sensors[..i])
      {
        assert sensors[..i + 1][..i] == sensors[..i];
        values := values[sensors[i].sensor := sensors[i].value];
      }
      assert sensors[..|sensors|] == sensors;
    }

    /** The loop of `calculate_health`. */
    method Penalise(loco: LocoId, rows: seq<Row>, values: map<Sensor, real>)
      returns (entries: seq<Entry>, damage: real)
      modifies this
      ensures damages == DamagesAfter(old(damages), loco, rows, values, p)
      ensures entries == Entries(old(damages), loco, rows, values, p)
      ensures damage == TotalDamage(old(damages), loco, rows, values, p)
    {
      ghost var was := damages;
      entries, damage := [], 0.0;
      for i := 0 to |rows|
        invariant damages == DamagesAfter(was, loco, rows[..i], values, p)
        invariant entries == Entries(was, loco, rows[..i], values, p)
        invariant damage == TotalDamage(was, loco, rows[..i], values, p)
      {
        assert rows[..i + 1][..i] == rows[..i];
        var row := rows[i];
        if row.sensor in values {
          var value := values[row.sensor];
          var penalty := Penalty(value, row.spec, p);
          if row.spec.aging {
            var more := UpdateDamage(loco, row, value);
            penalty, damage := penalty + more, damage + more;
          }
          var share := Normalised(Deviation(value, row.spec), row.spec) * 100.0;
          entries := entries + [Entry(row.sensor, penalty, share, value)];
        }
      }
      assert rows[..|rows|] == rows;
    }

    /** `calculate_health`. */
    method CalculateHealth(r: Reading) returns (report: Report)
      modifies this
      ensures report == ReportOf(old(damages), r, p)
      ensures damages == DamagesAfterReading(old(damages), r, p)
    {
      var values := ReadSensors(r.sensors);
      var entries, damage := Penalise(r.loco, SpecsOf(r.kind), values);
      entries := Ranked(entries);
      var total := Sum(Penalties(entries));
      var score := Max(0.0, Min(100.0, 100.0 - total));
      report := Report(score, CategoryOf(score), Top(entries, total), damage);
    }
  }
}

/** What the health index guarantees. */
module HealthTheorems {
  import opened Numbers
  import opened RealSums
  import opened SensorSpecs
  import opened HealthIndex
  import Counting
  import StableSort

  // ----- Ranking

  lemma {:induction false} SumOfPenalties(s: seq<Entry>, e: Entry)
    ensures Sum(Penalties(s + [e])) == Sum(Penalties(s)) + e.penalty
  {
    assert Penalties(s + [e])[..|s|] == Penalties(s);
  }

  lemma {:induction false} InsertSums(e: Entry, s: seq<Entry>)
    ensures Sum(Penalties(StableSort.Insert(e, s, Lightness))) == Sum(Penalties(s)) + e.penalty
    decreases |s|
  {
    if s == [] || Lightness(s[|s| - 1]) <= Lightness(e) {
      SumOfPenalties(s, e);
    } else {
      var init, last := s[..|s| - 1], s[|s| - 1];
      InsertSums(e, init);
      SumOfPenalties(StableSort.Insert(e, init, Lightness), last);
      assert s == init + [last];
      SumOfPenalties(init, last);
    }
  }

  lemma {:induction false} RankedSum(s: seq<Entry>)
    ensures Sum(Penalties(Ranked(s))) == Sum(Penalties(s))
    decreases |s|
  {
    if s != [] {
      RankedSum(s[..|s| - 1]);
      InsertSums(s[|s| - 1], Ranked(s[..|s| - 1]));
      assert s == s[..|s| - 1] + [s[|s| - 1]];
      SumOfPenalties(s[..|s| - 1], s[|s| - 1]);
    }
  }

  function Chosen(s: seq<Entry>): seq<Entry> { StableSort.First(s, Lightness, 5) }

  function Others(s: seq<Entry>): seq<Entry> { StableSort.Rest(s, Lightness, 5) }

  /** The factors reported are the five heaviest entries: together with the others they make up all entries,
      and none of the others outweighs one of them. */
  lemma {:induction false} TopFiveAreHeaviest(s: seq<Entry>, total: real, x: Entry)
    ensures Counting.Occurrences(Chosen(s), x) + Counting.Occurrences(Others(s), x) == Counting.Occurrences(s, x)
    ensures forall i, j :: 0 <= i < |Chosen(s)| && 0 <= j < |Others(s)| ==> Chosen(s)[i].penalty >= Others(s)[j].penalty
    ensures forall i, j :: 0 <= i < j < |Chosen(s)| ==> Chosen(s)[i].penalty >= Chosen(s)[j].penalty
    ensures |Top(Ranked(s), total)| == |Chosen(s)|
    ensures forall i :: 0 <= i < |Chosen(s)| ==> Top(Ranked(s), total)[i].entry == Chosen(s)[i]
  {
    StableSort.FirstAreSmallest(s, Lightness, 5, x);
    StableSort.SortedMembers(s, Lightness);
    forall i, j | 0 <= i < j < |Chosen(s)| ensures Chosen(s)[i].penalty >= Chosen(s)[j].penalty {
      assert Lightness(Chosen(s)[i]) <= Lightness(Chosen(s)[j]);
    }
    forall i, j | 0 <= i < |Chosen(s)| && 0 <= j < |Others(s)| ensures Chosen(s)[i].penalty >= Others(s)[j].penalty {
      assert Lightness(Chosen(s)[i]) <= Lightness(Others(s)[j]);
    }
  }

  // ----- Shares

  function Shares(f: seq<Factor>): (r: seq<real>)
    ensures |r| == |f| && forall i :: 0 <= i < |r| ==> r[i] == f[i].share
  {
    seq(|f|, i requires 0 <= i < |f| => f[i].share)
  }

  lemma {:induction false} QuotientOfSum(a: real, b: real, c: real)
    requires c > 0.0
    ensures (a + b) / c * 100.0 == a / c * 100.0 + b / c * 100.0
  {
  }

  lemma {:induction false} SharesOf(f: seq<Factor>, ps: seq<real>, total: real)
    requires |f| == |ps| && forall i :: 0 <= i < |f| ==> f[i].share == Share(ps[i], total)
    ensures Sum(Shares(f)) == Share(Sum(ps), total)
    decreases |f|
  {
    if f == [] {
      assert Share(0.0, total) == 0.0 / Max(total, 0.000001) * 100.0 == 0.0;
    } else {
      var n := |f| - 1;
      SharesOf(f[..n], ps[..n], total);
      assert Shares(f)[..n] == Shares(f[..n]);
      QuotientOfSum(Sum(ps[..n]), ps[n], Max(total, 0.000001));
    }
  }

  lemma {:induction false} SumsNonnegative(xs: seq<real>, n: nat)
    requires n <= |xs| && forall i :: 0 <= i < |xs| ==> xs[i] >= 0.0
    ensures 0.0 <= Sum(xs[..n]) <= Sum(xs)
    decreases |xs|
  {
    if n == |xs| {
      assert xs[..n] == xs;
      if n > 0 {
        SumsNonnegative(xs[..n - 1], n - 1);
        assert xs[..n - 1][..n - 1] == xs[..n - 1];
      }
    } else {
      SumsNonnegative(xs[..|xs| - 1], n);
      assert xs[..|xs| - 1][..n] == xs[..n];
    }
  }

  lemma {:induction false} ShareAtMostAll(part: real, total: real)
    requires 0.0 <= part <= total
    ensures 0.0 <= Share(part, total) <= 100.0
    ensures part == total && total >= 0.000001 ==> Share(part, total) == 100.0
  {
    var base := Max(total, 0.000001);
    DivisionKeepsOrder(0.0, part, base);
    DivisionKeepsOrder(part, base, base);
    assert base / base == 1.0 && 0.0 / base == 0.0;
  }

  lemma {:induction false} SharesOfPrefix(f: seq<Factor>, ps: seq<real>, total: real)
    requires |f| <= |ps| && forall i :: 0 <= i < |f| ==> f[i].share == Share(ps[i], total)
    requires total == Sum(ps) && forall i :: 0 <= i < |ps| ==> ps[i] >= 0.0
    ensures 0.0 <= Sum(Shares(f)) <= 100.0
    ensures |f| == |ps| && total >= 0.000001 ==> Sum(Shares(f)) == 100.0
  {
    SharesOf(f, ps[..|f|], total);
    SumsNonnegative(ps, |f|);
    assert |f| == |ps| ==> ps[..|f|] == ps;
    ShareAtMostAll(Sum(ps[..|f|]), total);
  }

  /** The shares of the reported factors add up to at most 100 percent, and to exactly that when at most five
      sensors are penalised and the total is not negligible. */
  lemma {:induction false} SharesAddUp(s: seq<Entry>, total: real)
    requires total == Sum(Penalties(Ranked(s))) && forall e :: e in s ==> e.penalty >= 0.0
    ensures 0.0 <= Sum(Shares(Top(Ranked(s), total))) <= 100.0
    ensures |s| <= 5 && total >= 0.000001 ==> Sum(Shares(Top(Ranked(s), total))) == 100.0
  {
    StableSort.SortedMembers(s, Lightness);
    forall i | 0 <= i < |s| ensures Penalties(Ranked(s))[i] >= 0.0 {
      assert Ranked(s)[i] in Ranked(s);
    }
    SharesOfPrefix(Top(Ranked(s), total), Penalties(Ranked(s)), total);
  }

  // ----- Damage

  ghost predicate NoNegativeDamage(d: Damages) { forall k :: k in d ==> d[k] >= 0.0 }

  /** Nothing at or below the reference, more with every degree above it. */
  lemma IncrementShape(v: real, w: real, s: Spec, p: Powers)
    requires Lawful(p) && v <= w
    ensures 0.0 <= Increment(v, s, p) <= Increment(w, s, p)
    ensures Increment(v, s, p) > 0.0 <==> v > s.reference
  {
    DivisionKeepsOrder(0.0, v - s.reference, 6.0);
    DivisionKeepsOrder(v - s.reference, w - s.reference, 6.0);
    assert 0.0 / 6.0 == 0.0;
  }

  function TwoTo(n: nat): real { if n == 0 then 1.0 else 2.0 * TwoTo(n - 1) }

  lemma {:induction false} SixDegreesDouble(v: real, s: Spec, p: Powers)
    requires Lawful(p) && v > s.reference
    ensures Increment(v + 6.0, s, p) + 0.001 == 2.0 * (Increment(v, s, p) + 0.001)
  {
    var x := (v - s.reference) / 6.0;
    assert (v + 6.0 - s.reference) / 6.0 == x + 1.0;
  }

  lemma {:induction false} DoubledAgain(before: real, base: real, doubled: real, factor: real)
    requires before == factor * base && doubled == 2.0 * before
    ensures doubled == (2.0 * factor) * base
  {
  }

  /** The Montsinger rule: the ageing rate - the increment and its base together - grows by a factor of 2^n
      over n times six degrees. */
  lemma {:induction false} AgeingRateDoubles(v: real, n: nat, s: Spec, p: Powers, rate: real)
    requires Lawful(p) && v > s.reference && rate == Increment(v, s, p) + 0.001
    ensures Increment(v + 6.0 * n as real, s, p) + 0.001 == TwoTo(n) * rate
    decreases n
  {
    if n > 0 {
      var before := v + 6.0 * (n - 1) as real;
      AgeingRateDoubles(v, n - 1, s, p, rate);
      SixDegreesDouble(before, s, p);
      assert v + 6.0 * n as real == before + 6.0;
      DoubledAgain(Increment(before, s, p) + 0.001, rate, Increment(v + 6.0 * n as real, s, p) + 0.001, TwoTo(n - 1));
    } else {
      assert v + 6.0 * 0 as real == v;
    }
  }

  lemma {:induction false} TwoToIsExp(n: nat, p: Powers)
    requires Lawful(p)
    ensures p.exp2(n as real) == TwoTo(n)
    decreases n
  {
    if n > 0 {
      TwoToIsExp(n - 1, p);
      assert (n - 1) as real + 1.0 == n as real;
    }
  }

  /** And from the reference itself: n times six degrees above it age by (2^n - 1) thousandths. */
  lemma {:induction false} AgeingAboveReference(n: nat, s: Spec, p: Powers)
    requires Lawful(p)
    ensures Increment(s.reference + 6.0 * n as real, s, p) == (TwoTo(n) - 1.0) * 0.001
  {
    TwoToIsExp(n, p);
    assert (s.reference + 6.0 * n as real - s.reference) / 6.0 == n as real;
  }

  /** How much a reading adds to one damage counter. */
  function Added(kind: LocoType, values: map<Sensor, real>, sensor: Sensor, p: Powers): real {
    AddedBy(SpecsOf(kind), values, sensor, p)
  }

  function AddedBy(rows: seq<Row>, values: map<Sensor, real>, sensor: Sensor, p: Powers): real
    decreases |rows|
  {
    if rows == [] then 0.0
    else
      var row := rows[|rows| - 1];
      AddedBy(rows[..|rows| - 1], values, sensor, p) +
      if row.sensor == sensor && sensor in values && row.spec.aging then Increment(values[sensor], row.spec, p) else 0.0
  }

  lemma {:induction false} AgedAt(d: Damages, loco: LocoId, row: Row, value: real, p: Powers, other: LocoId,
                                  sensor: Sensor)
    ensures DamageAt(Aged(d, loco, row, value, p), other, sensor)
         == DamageAt(d, other, sensor) +
            (if other == loco && sensor == row.sensor then Increment(value, row.spec, p) else 0.0)
  {
  }

  lemma {:induction false} DamageGrowsByIncrements(d: Damages, loco: LocoId, rows: seq<Row>, values: map<Sensor, real>,
                                                   p: Powers, other: LocoId, sensor: Sensor)
    ensures DamageAt(DamagesAfter(d, loco, rows, values, p), other, sensor)
         == DamageAt(d, other, sensor) + if other == loco then AddedBy(rows, values, sensor, p) else 0.0
    decreases |rows|
  {
    if rows != [] {
      var init, row := rows[..|rows| - 1], rows[|rows| - 1];
      DamageGrowsByIncrements(d, loco, init, values, p, other, sensor);
      if row.sensor in values && row.spec.aging {
        AgedAt(DamagesAfter(d, loco, init, values, p), loco, row, values[row.sensor], p, other, sensor);
      }
    }
  }

  lemma {:induction false} AddedIsNonnegative(rows: seq<Row>, values: map<Sensor, real>, sensor: Sensor, p: Powers)
    requires Lawful(p)
    ensures AddedBy(rows, values, sensor, p) >= 0.0
    decreases |rows|
  {
    if rows != [] {
      AddedIsNonnegative(rows[..|rows| - 1], values, sensor, p);
      if sensor in values {
        IncrementShape(values[sensor], values[sensor], rows[|rows| - 1].spec, p);
      }
    }
  }

  function DamagesOver(d: Damages, readings: seq<Reading>, p: Powers): Damages
    decreases |readings|
  {
    if readings == [] then d
    else DamagesAfterReading(DamagesOver(d, readings[..|readings| - 1], p), readings[|readings| - 1], p)
  }

  /** Everything the readings of one locomotive add to one of its counters. */
  function AddedOver(readings: seq<Reading>, loco: LocoId, sensor: Sensor, p: Powers): real
    decreases |readings|
  {
    if readings == [] then 0.0
    else
      var r := readings[|readings| - 1];
      AddedOver(readings[..|readings| - 1], loco, sensor, p) +
      if r.loco == loco then Added(r.kind, SensorMap(r.sensors), sensor, p) else 0.0
  }

  /** Damage is the sum of the locomotive's own increments over any run, so it never decreases and no other
      locomotive or sensor touches it. */
  lemma {:induction false} DamageAccumulates(d: Damages, readings: seq<Reading>, p: Powers, loco: LocoId,
                                             sensor: Sensor)
    requires Lawful(p)
    ensures DamageAt(DamagesOver(d, readings, p), loco, sensor)
         == DamageAt(d, loco, sensor) + AddedOver(readings, loco, sensor, p)
    ensures DamageAt(d, loco, sensor) <= DamageAt(DamagesOver(d, readings, p), loco, sensor)
    decreases |readings|
  {
    if readings != [] {
      var n := |readings| - 1;
      var r := readings[n];
      DamageAccumulates(d, readings[..n], p, loco, sensor);
      DamageGrowsByIncrements(DamagesOver(d, readings[..n], p), r.loco, SpecsOf(r.kind), SensorMap(r.sensors), p, loco,
                              sensor);
      AddedIsNonnegative(SpecsOf(r.kind), SensorMap(r.sensors), sensor, p);
    }
  }

  // ----- The score

  /** Reading `w` is, sensor by sensor, at least as far from nominal as `v`. */
  ghost predicate FurtherOut(rows: seq<Row>, v: map<Sensor, real>, w: map<Sensor, real>) {
    && v.Keys == w.Keys
    && (forall row :: row in rows && row.sensor in v ==>
          Deviation(v[row.sensor], row.spec) <= Deviation(w[row.sensor], row.spec))
  }

  ghost predicate AllSound(rows: seq<Row>) {
    forall row :: row in rows ==> Sound(row.spec) && AgesAboveNominal(row.spec)
  }

  /** An ageing sensor further from nominal ages no less. */
  lemma {:induction false} IncrementFollowsDeviation(v: real, w: real, s: Spec, p: Powers)
    requires Lawful(p) && s.aging && AgesAboveNominal(s) && Deviation(v, s) <= Deviation(w, s)
    ensures Increment(v, s, p) <= Increment(w, s, p)
  {
    if v <= s.reference {
      IncrementShape(w, w, s, p);
    } else {
      IncrementShape(v, w, s, p);
    }
  }

  lemma {:induction false} AddedOrder(rows: seq<Row>, v: map<Sensor, real>, w: map<Sensor, real>, sensor: Sensor,
                                      p: Powers)
    requires Lawful(p) && FurtherOut(rows, v, w) && AllSound(rows)
    ensures AddedBy(rows, v, sensor, p) <= AddedBy(rows, w, sensor, p)
    decreases |rows|
  {
    if rows != [] {
      var row := rows[|rows| - 1];
      assert row in rows && FurtherOut(rows[..|rows| - 1], v, w) && AllSound(rows[..|rows| - 1]);
      AddedOrder(rows[..|rows| - 1], v, w, sensor, p);
      if row.sensor == sensor && sensor in v && row.spec.aging {
        IncrementFollowsDeviation(v[sensor], w[sensor], row.spec, p);
      }
    }
  }

  lemma {:induction false} RowOrder(d: Damages, loco: LocoId, rows: seq<Row>, v: map<Sensor, real>,
                                    w: map<Sensor, real>, p: Powers, row: Row)
    requires Lawful(p) && FurtherOut(rows, v, w) && AllSound(rows)
    requires rows != [] && row == rows[|rows| - 1] && row.sensor in v
    ensures EntryOf(DamagesAfter(d, loco, rows, v, p), loco, row, v[row.sensor], p).penalty
         <= EntryOf(DamagesAfter(d, loco, rows, w, p), loco, row, w[row.sensor], p).penalty
  {
    assert row in rows;
    PenaltyOrder(v[row.sensor], w[row.sensor], row.spec, p);
    DamageGrowsByIncrements(d, loco, rows, v, p, loco, row.sensor);
    DamageGrowsByIncrements(d, loco, rows, w, p, loco, row.sensor);
    AddedOrder(rows, v, w, row.sensor, p);
  }

  lemma {:induction false} EntriesOrder(d: Damages, loco: LocoId, rows: seq<Row>, v: map<Sensor, real>,
                                        w: map<Sensor, real>, p: Powers)
    requires Lawful(p) && FurtherOut(rows, v, w) && AllSound(rows)
    ensures Sum(Penalties(Entries(d, loco, rows, v, p))) <= Sum(Penalties(Entries(d, loco, rows, w, p)))
    decreases |rows|
  {
    if rows != [] {
      var init := rows[..|rows| - 1];
      assert FurtherOut(init, v, w) && AllSound(init);
      EntriesOrder(d, loco, init, v, w, p);
      SumOfEntries(d, loco, rows, v, p, rows[|rows| - 1]);
      SumOfEntries(d, loco, rows, w, p, rows[|rows| - 1]);
      if rows[|rows| - 1].sensor in v {
        RowOrder(d, loco, rows, v, w, p, rows[|rows| - 1]);
      }
    }
  }

  lemma {:induction false} SumOfEntries(d: Damages, loco: LocoId, rows: seq<Row>, v: map<Sensor, real>, p: Powers,
                                        row: Row)
    requires rows != [] && row == rows[|rows| - 1]
    ensures row.sensor in v ==>
              Sum(Penalties(Entries(d, loco, rows, v, p))) ==
                Sum(Penalties(Entries(d, loco, rows[..|rows| - 1], v, p))) +
                EntryOf(DamagesAfter(d, loco, rows, v, p), loco, row, v[row.sensor], p).penalty
    ensures row.sensor !in v ==> Entries(d, loco, rows, v, p) == Entries(d, loco, rows[..|rows| - 1], v, p)
  {
    if row.sensor in v {
      SumOfPenalties(Entries(d, loco, rows[..|rows| - 1], v, p),
                     EntryOf(DamagesAfter(d, loco, rows, v, p), loco, row, v[row.sensor], p));
    }
  }

  lemma TablesAllSound(t: LocoType)
    ensures AllSound(SpecsOf(t))
  {
    TablesAreSound(t);
    TablesAgeAboveNominal(t);
  }

  lemma {:induction false} EntriesNonnegative(d: Damages, loco: LocoId, rows: seq<Row>, v: map<Sensor, real>, p: Powers)
    requires Lawful(p) && NoNegativeDamage(d) && AllSound(rows)
    ensures forall e :: e in Entries(d, loco, rows, v, p) ==> e.penalty >= 0.0
    decreases |rows|
  {
    if rows != [] {
      var row := rows[|rows| - 1];
      assert row in rows && AllSound(rows[..|rows| - 1]);
      EntriesNonnegative(d, loco, rows[..|rows| - 1], v, p);
      if row.sensor in v {
        PenaltyRange(v[row.sensor], row.spec, p);
        DamageGrowsByIncrements(d, loco, rows, v, p, loco, row.sensor);
        AddedIsNonnegative(rows, v, row.sensor, p);
      }
    }
  }

  lemma TotalsOrder(d: Damages, r: Reading, s: Reading, p: Powers)
    requires Lawful(p) && r.loco == s.loco && r.kind == s.kind
    requires FurtherOut(SpecsOf(r.kind), SensorMap(r.sensors), SensorMap(s.sensors))
    ensures Total(d, r, p) <= Total(d, s, p)
  {
    var rows, v, w := SpecsOf(r.kind), SensorMap(r.sensors), SensorMap(s.sensors);
    TablesAllSound(r.kind);
    EntriesOrder(d, r.loco, rows, v, w, p);
    RankedSum(Entries(d, r.loco, rows, v, p));
    RankedSum(Entries(d, s.loco, rows, w, p));
  }

  /** The score lies in [0, 100], and never rises when sensors move further from nominal. */
  lemma ScoreFallsWithDeviation(d: Damages, r: Reading, s: Reading, p: Powers)
    requires Lawful(p) && r.loco == s.loco && r.kind == s.kind
    requires FurtherOut(SpecsOf(r.kind), SensorMap(r.sensors), SensorMap(s.sensors))
    ensures 0.0 <= ReportOf(d, s, p).score <= ReportOf(d, r, p).score <= 100.0
  {
    TotalsOrder(d, r, s, p);
  }

  function EntriesOf(d: Damages, r: Reading, p: Powers): seq<Entry> {
    Entries(d, r.loco, SpecsOf(r.kind), SensorMap(r.sensors), p)
  }

  lemma TotalIsZeroIff(d: Damages, r: Reading, p: Powers)
    requires Lawful(p) && NoNegativeDamage(d)
    ensures Total(d, r, p) >= 0.0
    ensures Total(d, r, p) == 0.0 <==> forall e :: e in EntriesOf(d, r, p) ==> e.penalty == 0.0
  {
    var es := EntriesOf(d, r, p);
    TablesAllSound(r.kind);
    EntriesNonnegative(d, r.loco, SpecsOf(r.kind), SensorMap(r.sensors), p);
    RankedSum(es);
    assert forall i :: 0 <= i < |es| ==> es[i] in es && Penalties(es)[i] == es[i].penalty;
    SumIsZeroIff(Penalties(es));
  }

  /** A row that costs nothing: inside its safe zone, and no damage where it ages. */
  ghost predicate CostsNothing(after: Damages, loco: LocoId, row: Row, v: map<Sensor, real>)
    requires row.sensor in v
  {
    Deviation(v[row.sensor], row.spec) <= row.spec.safe && (row.spec.aging ==> DamageAt(after, loco, row.sensor) == 0.0)
  }

  lemma {:induction false} EntryIsZeroIff(after: Damages, loco: LocoId, row: Row, v: map<Sensor, real>, p: Powers)
    requires Lawful(p) && Sound(row.spec) && row.sensor in v && NoNegativeDamage(after)
    ensures EntryOf(after, loco, row, v[row.sensor], p).penalty == 0.0 <==> CostsNothing(after, loco, row, v)
  {
    PenaltyRange(v[row.sensor], row.spec, p);
  }

  lemma {:induction false} DamagesStayNonnegative(d: Damages, loco: LocoId, rows: seq<Row>, v: map<Sensor, real>,
                                                  p: Powers)
    requires Lawful(p) && NoNegativeDamage(d)
    ensures NoNegativeDamage(DamagesAfter(d, loco, rows, v, p))
  {
    var after := DamagesAfter(d, loco, rows, v, p);
    forall k | k in after ensures after[k] >= 0.0 {
      assert k == (k.0, k.1);
      DamageGrowsByIncrements(d, loco, rows, v, p, k.0, k.1);
      AddedIsNonnegative(rows, v, k.1, p);
    }
  }

  lemma {:induction false} AddedElsewhere(rows: seq<Row>, v: map<Sensor, real>, sensor: Sensor, p: Powers)
    requires forall i :: 0 <= i < |rows| ==> rows[i].sensor != sensor
    ensures AddedBy(rows, v, sensor, p) == 0.0
    decreases |rows|
  {
    if rows != [] {
      AddedElsewhere(rows[..|rows| - 1], v, sensor, p);
    }
  }

  /** A row's damage is settled once the row has been processed. */
  lemma {:induction false} LaterRowsLeaveDamage(d: Damages, loco: LocoId, rows: seq<Row>, n: nat, v: map<Sensor, real>,
                                                p: Powers)
    requires DistinctSensors(rows) && n < |rows|
    ensures DamageAt(DamagesAfter(d, loco, rows[..n + 1], v, p), loco, rows[n].sensor)
         == DamageAt(DamagesAfter(d, loco, rows, v, p), loco, rows[n].sensor)
    decreases |rows|
  {
    var last := |rows| - 1;
    if n == last {
      assert rows[..n + 1] == rows;
    } else {
      assert rows[..last][..n + 1] == rows[..n + 1];
      LaterRowsLeaveDamage(d, loco, rows[..last], n, v, p);
      DamageGrowsByIncrements(d, loco, rows, v, p, loco, rows[n].sensor);
      DamageGrowsByIncrements(d, loco, rows[..last], v, p, loco, rows[n].sensor);
    }
  }

  ghost predicate AllCostNothing(d: Damages, loco: LocoId, rows: seq<Row>, n: nat, v: map<Sensor, real>, p: Powers)
    requires n <= |rows|
  {
    forall i :: 0 <= i < n && rows[i].sensor in v ==>
      CostsNothing(DamagesAfter(d, loco, rows, v, p), loco, rows[i], v)
  }

  ghost predicate NoWeight(es: seq<Entry>) { forall e :: e in es ==> e.penalty == 0.0 }

  lemma {:induction false} RowIsZeroIff(d: Damages, loco: LocoId, rows: seq<Row>, n: nat, v: map<Sensor, real>,
                                        p: Powers)
    requires Lawful(p) && NoNegativeDamage(d) && AllSound(rows) && DistinctSensors(rows) && n < |rows|
    requires rows[n].sensor in v
    ensures EntryOf(DamagesAfter(d, loco, rows[..n + 1], v, p), loco, rows[n], v[rows[n].sensor], p).penalty == 0.0 <==>
            CostsNothing(DamagesAfter(d, loco, rows, v, p), loco, rows[n], v)
  {
    DamagesStayNonnegative(d, loco, rows[..n + 1], v, p);
    LaterRowsLeaveDamage(d, loco, rows, n, v, p);
    EntryIsZeroIff(DamagesAfter(d, loco, rows[..n + 1], v, p), loco, rows[n], v, p);
  }

  lemma {:induction false} AllCostOneMore(d: Damages, loco: LocoId, rows: seq<Row>, n: nat, v: map<Sensor, real>,
                                          p: Powers)
    requires n < |rows|
    ensures AllCostNothing(d, loco, rows, n + 1, v, p) <==>
            AllCostNothing(d, loco, rows, n, v, p) &&
            (rows[n].sensor in v ==> CostsNothing(DamagesAfter(d, loco, rows, v, p), loco, rows[n], v))
  {
  }

  lemma {:induction false} EntriesOneMore(d: Damages, loco: LocoId, rows: seq<Row>, n: nat, v: map<Sensor, real>,
                                          p: Powers)
    requires n < |rows|
    ensures Entries(d, loco, rows[..n + 1], v, p) == Entries(d, loco, rows[..n], v, p) +
              if rows[n].sensor in v
              then [EntryOf(DamagesAfter(d, loco, rows[..n + 1], v, p), loco, rows[n], v[rows[n].sensor], p)] else []
  {
    assert rows[..n + 1][..n] == rows[..n];
  }

  lemma {:induction false} EntriesAreZeroIff(d: Damages, loco: LocoId, rows: seq<Row>, n: nat, v: map<Sensor, real>,
                                             p: Powers)
    requires Lawful(p) && NoNegativeDamage(d) && AllSound(rows) && DistinctSensors(rows) && n <= |rows|
    ensures NoWeight(Entries(d, loco, rows[..n], v, p)) <==> AllCostNothing(d, loco, rows, n, v, p)
    decreases n
  {
    if n > 0 {
      EntriesAreZeroIff(d, loco, rows, n - 1, v, p);
      AllCostOneMore(d, loco, rows, n - 1, v, p);
      EntriesOneMore(d, loco, rows, n - 1, v, p);
      if rows[n - 1].sensor in v {
        RowIsZeroIff(d, loco, rows, n - 1, v, p);
        NoWeightOneMore(Entries(d, loco, rows[..n - 1], v, p),
                        EntryOf(DamagesAfter(d, loco, rows[..n], v, p), loco, rows[n - 1], v[rows[n - 1].sensor], p));
      }
    }
  }

  lemma {:induction false} NoWeightOneMore(es: seq<Entry>, e: Entry)
    ensures NoWeight(es + [e]) <==> NoWeight(es) && e.penalty == 0.0
  {
    assert e in es + [e];
    assert forall x :: x in es ==> x in es + [e];
  }

  /** A locomotive scores the full 100 exactly when every sensor of its table that was read is inside its safe
      zone and, where it ages, carries no damage after the reading. */
  lemma {:induction false} FullScoreIff(d: Damages, r: Reading, p: Powers)
    requires Lawful(p) && NoNegativeDamage(d)
    ensures ReportOf(d, r, p).score == 100.0 <==>
              forall i :: 0 <= i < |SpecsOf(r.kind)| && SpecsOf(r.kind)[i].sensor in SensorMap(r.sensors) ==>
                CostsNothing(DamagesAfterReading(d, r, p), r.loco, SpecsOf(r.kind)[i], SensorMap(r.sensors))
  {
    var rows := SpecsOf(r.kind);
    TotalIsZeroIff(d, r, p);
    TablesAreSound(r.kind);
    TablesAllSound(r.kind);
    EntriesAreZeroIff(d, r.loco, rows, |rows|, SensorMap(r.sensors), p);
    assert rows[..|rows|] == rows;
  }

  lemma {:induction false} SumIsZeroIff(xs: seq<real>)
    requires forall i :: 0 <= i < |xs| ==> xs[i] >= 0.0
    ensures Sum(xs) >= 0.0 && (Sum(xs) == 0.0 <==> forall i :: 0 <= i < |xs| ==> xs[i] == 0.0)
    decreases |xs|
  {
    if xs != [] {
      SumIsZeroIff(xs[..|xs| - 1]);
      assert forall i :: 0 <= i < |xs| - 1 ==> xs[..|xs| - 1][i] == xs[i];
    }
  }

  /** On every run the reported shares add up to at most 100 percent. */
  lemma ReportSharesAddUp(d: Damages, readings: seq<Reading>, r: Reading, p: Powers)
    requires Lawful(p) && NoNegativeDamage(d)
    ensures var now := DamagesOver(d, readings, p);
            0.0 <= Sum(Shares(ReportOf(now, r, p).factors)) <= 100.0
  {
    var now := DamagesOver(d, readings, p);
    forall k | k in now ensures now[k] >= 0.0 {
      DamageAccumulates(d, readings, p, k.0, k.1);
      assert k == (k.0, k.1);
    }
    TablesAllSound(r.kind);
    EntriesNonnegative(now, r.loco, SpecsOf(r.kind), SensorMap(r.sensors), p);
    SharesAddUp(EntriesOf(now, r, p), Total(now, r, p));
  }
}
