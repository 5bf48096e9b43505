/** What a health report says, in terms of the reading. */
module HealthReports {
  import opened Numbers
  import opened RealSums
  import opened SensorSpecs
  import opened HealthIndex
  import opened HealthTheorems
  import StableSort

  // ----- The values read

  /** The last payload of a sensor counts... */
  lemma {:induction false} LastPayloadCounts(sensors: seq<Payload>, i: nat)
    requires i < |sensors| && forall j :: i < j < |sensors| ==> sensors[j].sensor != sensors[i].sensor
    ensures sensors[i].sensor in SensorMap(sensors) && SensorMap(sensors)[sensors[i].sensor] == sensors[i].value
    decreases |sensors|
  {
    if i < |sensors| - 1 {
      LastPayloadCounts(sensors[..|sensors| - 1], i);
    }
  }

  /** ...and a sensor no payload carries is not read. */
  lemma {:induction false} OthersAreNotRead(sensors: seq<Payload>, x: Sensor)
    requires forall i :: 0 <= i < |sensors| ==> sensors[i].sensor != x
    ensures x !in SensorMap(sensors)
    decreases |sensors|
  {
    if sensors != [] {
      OthersAreNotRead(sensors[..|sensors| - 1], x);
    }
  }

  // ----- What the table costs

  /** What one sensor of the table costs: its penalty, and its damage where it ages. */
  function CostOf(after: Damages, loco: LocoId, row: Row, v: map<Sensor, real>, p: Powers): real {
    if row.sensor !in v then 0.0
    else Penalty(v[row.sensor], row.spec, p) + if row.spec.aging then DamageAt(after, loco, row.sensor) else 0.0
  }

  function Costs(after: Damages, loco: LocoId, rows: seq<Row>, v: map<Sensor, real>, p: Powers): (c: seq<real>)
    ensures |c| == |rows| && forall i :: 0 <= i < |c| ==> c[i] == CostOf(after, loco, rows[i], v, p)
  {
    seq(|rows|, i requires 0 <= i < |rows| => CostOf(after, loco, rows[i], v, p))
  }

  /** The damage of the sensors that were read and age. */
  function AgeOf(after: Damages, loco: LocoId, row: Row, v: map<Sensor, real>): real {
    if row.sensor in v && row.spec.aging then DamageAt(after, loco, row.sensor) else 0.0
  }

  function Ages(after: Damages, loco: LocoId, rows: seq<Row>, v: map<Sensor, real>): (c: seq<real>)
    ensures |c| == |rows| && forall i :: 0 <= i < |c| ==> c[i] == AgeOf(after, loco, rows[i], v)
  {
    seq(|rows|, i requires 0 <= i < |rows| => AgeOf(after, loco, rows[i], v))
  }

  lemma {:induction false} SumOneMore(xs: seq<real>, n: nat)
    requires n < |xs|
    ensures Sum(xs[..n + 1]) == Sum(xs[..n]) + xs[n]
  {
    assert xs[..n + 1][..n] == xs[..n];
  }

  lemma {:induction false} EntryCosts(d: Damages, loco: LocoId, rows: seq<Row>, n: nat, v: map<Sensor, real>, p: Powers)
    requires DistinctSensors(rows) && n < |rows| && rows[n].sensor in v
    ensures EntryOf(DamagesAfter(d, loco, rows[..n + 1], v, p), loco, rows[n], v[rows[n].sensor], p).penalty
         == CostOf(DamagesAfter(d, loco, rows, v, p), loco, rows[n], v, p)
  {
    LaterRowsLeaveDamage(d, loco, rows, n, v, p);
  }

  lemma {:induction false} OneMoreCosts(d: Damages, loco: LocoId, rows: seq<Row>, n: nat, v: map<Sensor, real>,
                                        p: Powers)
    requires DistinctSensors(rows) && n < |rows|
    ensures Sum(Penalties(Entries(d, loco, rows[..n + 1], v, p)))
         == Sum(Penalties(Entries(d, loco, rows[..n], v, p))) +
            CostOf(DamagesAfter(d, loco, rows, v, p), loco, rows[n], v, p)
  {
    EntriesOneMore(d, loco, rows, n, v, p);
    var before := Entries(d, loco, rows[..n], v, p);
    if rows[n].sensor in v {
      EntryCosts(d, loco, rows, n, v, p);
      SumOfPenalties(before, EntryOf(DamagesAfter(d, loco, rows[..n + 1], v, p), loco, rows[n], v[rows[n].sensor], p));
    } else {
      assert before + [] == before;
    }
  }

  lemma {:induction false} EntriesCost(d: Damages, loco: LocoId, rows: seq<Row>, n: nat, v: map<Sensor, real>,
                                       p: Powers)
    requires DistinctSensors(rows) && n <= |rows|
    ensures Sum(Penalties(Entries(d, loco, rows[..n], v, p)))
         == Sum(Costs(DamagesAfter(d, loco, rows, v, p), loco, rows, v, p)[..n])
    decreases n
  {
    if n > 0 {
      EntriesCost(d, loco, rows, n - 1, v, p);
      SumOneMore(Costs(DamagesAfter(d, loco, rows, v, p), loco, rows, v, p), n - 1);
      OneMoreCosts(d, loco, rows, n - 1, v, p);
    }
  }

  lemma {:induction false} DamageAges(d: Damages, loco: LocoId, rows: seq<Row>, n: nat, v: map<Sensor, real>, p: Powers)
    requires DistinctSensors(rows) && n <= |rows|
    ensures TotalDamage(d, loco, rows[..n], v, p)
         == Sum(Ages(DamagesAfter(d, loco, rows, v, p), loco, rows, v)[..n])
    decreases n
  {
    if n > 0 {
      DamageAges(d, loco, rows, n - 1, v, p);
      SumOneMore(Ages(DamagesAfter(d, loco, rows, v, p), loco, rows, v), n - 1);
      assert rows[..n][..n - 1] == rows[..n - 1];
      LaterRowsLeaveDamage(d, loco, rows, n - 1, v, p);
    }
  }

  /** What all sensors of the table cost together, after the reading. */
  function TotalCost(d: Damages, r: Reading, p: Powers): real {
    Sum(Costs(DamagesAfterReading(d, r, p), r.loco, SpecsOf(r.kind), SensorMap(r.sensors), p))
  }

  lemma {:induction false} TotalIsCost(d: Damages, r: Reading, p: Powers)
    ensures Total(d, r, p) == TotalCost(d, r, p)
  {
    var rows, v := SpecsOf(r.kind), SensorMap(r.sensors);
    TablesAreSound(r.kind);
    EntriesCost(d, r.loco, rows, |rows|, v, p);
    assert rows[..|rows|] == rows;
    var costs := Costs(DamagesAfterReading(d, r, p), r.loco, rows, v, p);
    assert costs[..|costs|] == costs;
    RankedSum(Entries(d, r.loco, rows, v, p));
  }

  /** The score is a hundred less what the sensors cost, not below zero nor above a hundred; up to a cost of 20 the
      locomotive is normal, up to 50 it is a warning, beyond that it is critical. The damage reported is that of the
      ageing sensors that were read. */
  lemma {:induction false} ReportSaysWhatItCosts(d: Damages, r: Reading, p: Powers)
    ensures var (report, cost) := (ReportOf(d, r, p), TotalCost(d, r, p));
            && report.score == (if cost <= 0.0 then 100.0 else if cost >= 100.0 then 0.0 else 100.0 - cost)
            && (report.category == Normal <==> cost <= 20.0)
            && (report.category == Warning <==> 20.0 < cost <= 50.0)
            && (report.category == Critical <==> cost > 50.0)
    ensures ReportOf(d, r, p).damage ==
              Sum(Ages(DamagesAfterReading(d, r, p), r.loco, SpecsOf(r.kind), SensorMap(r.sensors)))
  {
    var rows, v := SpecsOf(r.kind), SensorMap(r.sensors);
    TotalIsCost(d, r, p);
    TablesAreSound(r.kind);
    DamageAges(d, r.loco, rows, |rows|, v, p);
    assert rows[..|rows|] == rows;
    var ages := Ages(DamagesAfterReading(d, r, p), r.loco, rows, v);
    assert ages[..|ages|] == ages;
  }

  // ----- The factors

  /** The factor is a sensor of the table that was read, with its value, how far out it is, and what it costs. */
  ghost predicate IsFactorOf(f: Factor, after: Damages, loco: LocoId, row: Row, v: map<Sensor, real>, p: Powers) {
    && row.sensor in v && f.entry.sensor == row.sensor && f.entry.value == v[row.sensor]
    && f.entry.percent == 100.0 * Normalised(Deviation(v[row.sensor], row.spec), row.spec)
    && f.entry.penalty == CostOf(after, loco, row, v, p)
  }

  lemma {:induction false} EntryIsOfRow(d: Damages, loco: LocoId, rows: seq<Row>, n: nat, v: map<Sensor, real>,
                                        p: Powers, e: Entry)
    returns (i: nat)
    requires DistinctSensors(rows) && n <= |rows| && e in Entries(d, loco, rows[..n], v, p)
    ensures i < |rows| && rows[i].sensor in v
    ensures e == EntryOf(DamagesAfter(d, loco, rows[..i + 1], v, p), loco, rows[i], v[rows[i].sensor], p)
    decreases n
  {
    EntriesOneMore(d, loco, rows, n - 1, v, p);
    if e in Entries(d, loco, rows[..n - 1], v, p) {
      i := EntryIsOfRow(d, loco, rows, n - 1, v, p, e);
    } else {
      i := n - 1;
    }
  }

  lemma {:induction false} FactorEntry(d: Damages, r: Reading, p: Powers, k: nat)
    requires k < |ReportOf(d, r, p).factors|
    ensures var (f, es) := (ReportOf(d, r, p).factors[k], Entries(d, r.loco, SpecsOf(r.kind), SensorMap(r.sensors), p));
            f.entry in es && f.share == Share(f.entry.penalty, Total(d, r, p))
  {
    var es := Entries(d, r.loco, SpecsOf(r.kind), SensorMap(r.sensors), p);
    StableSort.SortedMembers(es, Lightness);
    assert Ranked(es)[k] in Ranked(es);
  }

  lemma {:induction false} EntryIsSensor(d: Damages, loco: LocoId, rows: seq<Row>, v: map<Sensor, real>, p: Powers,
                                         f: Factor)
    returns (i: nat)
    requires DistinctSensors(rows) && f.entry in Entries(d, loco, rows, v, p)
    ensures i < |rows| && IsFactorOf(f, DamagesAfter(d, loco, rows, v, p), loco, rows[i], v, p)
  {
    assert rows[..|rows|] == rows;
    i := EntryIsOfRow(d, loco, rows, |rows|, v, p, f.entry);
    EntryCosts(d, loco, rows, i, v, p);
  }

  /** Every reported factor is such a sensor... */
  lemma {:induction false} FactorsAreSensors(d: Damages, r: Reading, p: Powers, k: nat) returns (i: nat)
    requires k < |ReportOf(d, r, p).factors|
    ensures i < |SpecsOf(r.kind)|
    ensures IsFactorOf(ReportOf(d, r, p).factors[k], DamagesAfterReading(d, r, p), r.loco, SpecsOf(r.kind)[i],
                       SensorMap(r.sensors), p)
  {
    FactorEntry(d, r, p, k);
    TablesAreSound(r.kind);
    i := EntryIsSensor(d, r.loco, SpecsOf(r.kind), SensorMap(r.sensors), p, ReportOf(d, r, p).factors[k]);
  }

  /** ...and its share is its part of the whole cost, in percent. */
  lemma {:induction false} SharesAreProportional(d: Damages, r: Reading, p: Powers, k: nat, f: Factor, total: real)
    requires k < |ReportOf(d, r, p).factors| && f == ReportOf(d, r, p).factors[k]
    requires total == TotalCost(d, r, p) && total >= 0.000001
    ensures f.share == f.entry.penalty / total * 100.0
  {
    FactorEntry(d, r, p, k);
    TotalIsCost(d, r, p);
  }
}
