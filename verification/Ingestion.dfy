/** The smoothing filter: one exponential moving average per locomotive and sensor. */
module EmaFilter {
  import opened Optional
  import opened SensorSpecs
  import opened HealthIndex

  type Key = (LocoId, Sensor)

  function Gain(sensor: Sensor): (g: real)
    ensures 0.0 < g < 1.0
  {
    match sensor
    case CoolantTemp => 0.10
    case TransformerTemp => 0.10
    case IgbtTemp => 0.15
    case TractionMotorTemp => 0.10
    case CatenaryVoltage => 0.30
    case PantographCurrent => 0.30
    case DcLinkVoltage => 0.35
    case WheelSlipRatio => 0.25
    case DieselRpm => 0.25
    case _ => 0.20
  }

  function Blend(g: real, raw: real, previous: real): real { g * raw + (1.0 - g) * previous }

  function Filtered(state: map<Key, real>, key: Key, raw: real): real {
    if key in state then Blend(Gain(key.1), raw, state[key]) else raw
  }

  function WithoutLoco(state: map<Key, real>, loco: LocoId): map<Key, real> {
    map k | k in state && k.0 != loco :: state[k]
  }

  function AfterReset(state: map<Key, real>, loco: LocoId, sensor: Option<Sensor>): map<Key, real> {
    match sensor
    case Some(s) => state - {(loco, s)}
    case None => WithoutLoco(state, loco)
  }

  class Filter {
    var state: map<Key, real>

    constructor ()
      ensures state == map[]
    {
      state := map[];
    }

    /** `ema_filter`. */
    method Apply(loco: LocoId, sensor: Sensor, raw: real) returns (filtered: real)
      modifies this
      ensures filtered == Filtered(old(state), (loco, sensor), raw)
      ensures state == old(state)[(loco, sensor) := filtered]
    {
      var key := (loco, sensor);
      if key !in state {
        state := state[key := raw];
        return raw;
      }
      var gain := Gain(sensor);
      filtered := gain * raw + (1.0 - gain) * state[key];
      state := state[key := filtered];
    }

    /** `reset_filter`. */
    method Reset(loco: LocoId, sensor: Option<Sensor>)
      modifies this
      ensures state == AfterReset(old(state), loco, sensor)
    {
      match sensor {
        case Some(s) =>
          state := state - {(loco, s)};
        case None =>
          var doomed := set k | k in state && k.0 == loco;
          while doomed != {}
            invariant forall k :: k in doomed ==> k.0 == loco
            invariant state.Keys <= old(state).Keys
            invariant forall k :: k in old(state) ==> (k in state <==> k.0 != loco || k in doomed)
            invariant forall k :: k in state ==> state[k] == old(state)[k]
            decreases doomed
          {
            var k :| k in doomed;
            state, doomed := state - {k}, doomed - {k};
          }
      }
    }
  }

  // ----- One average, by itself

  /** The moving average of a nonempty series; it starts at the first value. */
  function Ema(g: real, values: seq<real>): real
    requires values != []
    decreases |values|
  {
    if |values| == 1 then values[0]
    else Blend(g, values[|values| - 1], Ema(g, values[..|values| - 1]))
  }

  lemma {:induction false} NonnegativeProduct(x: real, y: real)
    requires x >= 0.0 && y >= 0.0
    ensures x * y >= 0.0
  {
  }

  lemma {:induction false} BlendIsBetween(g: real, x: real, y: real, low: real, high: real)
    requires 0.0 <= g <= 1.0 && low <= x <= high && low <= y <= high
    ensures low <= Blend(g, x, y) <= high
  {
    NonnegativeProduct(g, x - low);
    NonnegativeProduct(1.0 - g, y - low);
    NonnegativeProduct(g, high - x);
    NonnegativeProduct(1.0 - g, high - y);
  }

  lemma {:induction false} EmaStep(g: real, values: seq<real>, x: real)
    requires values != []
    ensures Ema(g, values + [x]) == Blend(g, x, Ema(g, values))
  {
    assert (values + [x])[..|values|] == values;
  }

  /** The average never leaves the range of the values it has seen. */
  lemma {:induction false} EmaStaysInRange(g: real, values: seq<real>, low: real, high: real)
    requires 0.0 <= g <= 1.0 && values != [] && forall i :: 0 <= i < |values| ==> low <= values[i] <= high
    ensures low <= Ema(g, values) <= high
    decreases |values|
  {
    if |values| > 1 {
      var n := |values| - 1;
      EmaStaysInRange(g, values[..n], low, high);
      BlendIsBetween(g, values[n], Ema(g, values[..n]), low, high);
    }
  }

  function Power(x: real, n: nat): real { if n == 0 then 1.0 else x * Power(x, n - 1) }

  function Repeat(c: real, n: nat): (s: seq<real>)
    ensures |s| == n && forall i :: 0 <= i < n ==> s[i] == c
  {
    seq(n, _ => c)
  }

  /** n blends towards a constant. */
  function Approach(g: real, start: real, c: real, n: nat): real {
    if n == 0 then start else Blend(g, c, Approach(g, start, c, n - 1))
  }

  lemma {:induction false} OneBlendCloser(g: real, c: real, e: real, q: real, more: real, gap: real)
    requires e - c == q * gap && more == (1.0 - g) * q
    ensures Blend(g, c, e) - c == more * gap
  {
    assert Blend(g, c, e) - c == (1.0 - g) * (e - c);
  }

  lemma {:induction false} ApproachIsPower(g: real, start: real, c: real, n: nat, gap: real)
    requires gap == start - c
    ensures Approach(g, start, c, n) - c == Power(1.0 - g, n) * gap
    decreases n
  {
    if n > 0 {
      ApproachIsPower(g, start, c, n - 1, gap);
      OneBlendCloser(g, c, Approach(g, start, c, n - 1), Power(1.0 - g, n - 1), Power(1.0 - g, n), gap);
    }
  }

  lemma {:induction false} EmaApproaches(g: real, values: seq<real>, c: real, n: nat)
    requires values != []
    ensures Ema(g, values + Repeat(c, n)) == Approach(g, Ema(g, values), c, n)
    decreases n
  {
    if n == 0 {
      assert values + Repeat(c, 0) == values;
    } else {
      EmaApproaches(g, values, c, n - 1);
      assert values + Repeat(c, n) == (values + Repeat(c, n - 1)) + [c];
      EmaStep(g, values + Repeat(c, n - 1), c);
    }
  }

  /** On a constant input the distance to it shrinks by exactly (1 - gain) with every sample. */
  lemma {:induction false} EmaConverges(g: real, values: seq<real>, c: real, n: nat)
    requires values != []
    ensures Ema(g, values + Repeat(c, n)) - c == Power(1.0 - g, n) * (Ema(g, values) - c)
  {
    EmaApproaches(g, values, c, n);
    ApproachIsPower(g, Ema(g, values), c, n, Ema(g, values) - c);
  }

  // ----- Any interleaving of filtering and resets

  datatype Op = Feed(key: Key, raw: real) | Reset(loco: LocoId, sensor: Option<Sensor>)

  function AfterOp(state: map<Key, real>, op: Op): map<Key, real> {
    match op
    case Feed(key, raw) => state[key := Filtered(state, key, raw)]
    case Reset(loco, sensor) => AfterReset(state, loco, sensor)
  }

  function AfterOps(ops: seq<Op>): map<Key, real>
    decreases |ops|
  {
    if ops == [] then map[] else AfterOp(AfterOps(ops[..|ops| - 1]), ops[|ops| - 1])
  }

  predicate Resets(op: Op, key: Key) {
    op.Reset? && op.loco == key.0 && (op.sensor == None || op.sensor == Some(key.1))
  }

  /** What was fed to one key since it was last reset. */
  function FedSinceReset(ops: seq<Op>, key: Key): seq<real>
    decreases |ops|
  {
    if ops == [] then []
    else
      var before, op := FedSinceReset(ops[..|ops| - 1], key), ops[|ops| - 1];
      if op.Feed? && op.key == key then before + [op.raw] else if Resets(op, key) then [] else before
  }

  lemma OtherOpsLeave(state: map<Key, real>, op: Op, key: Key)
    requires !Resets(op, key) && (op.Feed? ==> op.key != key)
    ensures key in AfterOp(state, op) <==> key in state
    ensures key in state ==> AfterOp(state, op)[key] == state[key]
  {
  }

  /** However calls for different keys interleave, a key holds the average of exactly its own values since
      its own last reset, or nothing when there are none. */
  lemma {:induction false} StateIsOwnAverage(ops: seq<Op>, key: Key)
    ensures key in AfterOps(ops) <==> FedSinceReset(ops, key) != []
    ensures key in AfterOps(ops) ==> AfterOps(ops)[key] == Ema(Gain(key.1), FedSinceReset(ops, key))
    decreases |ops|
  {
    if ops != [] {
      var before, op := ops[..|ops| - 1], ops[|ops| - 1];
      StateIsOwnAverage(before, key);
      if op.Feed? && op.key == key {
        if key in AfterOps(before) {
          EmaStep(Gain(key.1), FedSinceReset(before, key), op.raw);
        }
      } else if !Resets(op, key) {
        OtherOpsLeave(AfterOps(before), op, key);
      }
    }
  }

  /** So a filtered value lies between the smallest and the largest raw value since the reset. */
  lemma FilteredStaysInRange(ops: seq<Op>, key: Key, low: real, high: real)
    requires FedSinceReset(ops, key) != []
    requires forall i :: 0 <= i < |FedSinceReset(ops, key)| ==> low <= FedSinceReset(ops, key)[i] <= high
    ensures key in AfterOps(ops) && low <= AfterOps(ops)[key] <= high
  {
    StateIsOwnAverage(ops, key);
    EmaStaysInRange(Gain(key.1), FedSinceReset(ops, key), low, high);
  }
}

/** Flattening readings to rows, with the noise floor for high-frequency streams. */
module Ingestion {
  import opened RealSums
  import opened Optional
  import opened Numbers
  import opened SensorSpecs
  import opened HealthIndex
  import opened EmaFilter

  datatype StoredRow = StoredRow(sensor: Sensor, raw: real, filtered: real)

  /** The change is too small to persist. */
  predicate BelowFloor(filtered: real, last: real) {
    Abs(filtered - last) / (Abs(last) + 0.000000001) < 0.005
  }

  predicate Suppresses(last: map<Key, real>, key: Key, filtered: real, fast: bool) {
    fast && key in last && BelowFloor(filtered, last[key])
  }

  // ----- One reading, as functions of the sensors processed so far

  function EmaAfter(state: map<Key, real>, loco: LocoId, sensors: seq<Payload>): map<Key, real>
    decreases |sensors|
  {
    if sensors == [] then state
    else
      var before, s := EmaAfter(state, loco, sensors[..|sensors| - 1]), sensors[|sensors| - 1];
      before[(loco, s.sensor) := Filtered(before, (loco, s.sensor), s.value)]
  }

  /** The filtered value of a sensor, given those before it in the reading. */
  function FilteredAt(state: map<Key, real>, loco: LocoId, sensors: seq<Payload>, i: nat): real
    requires i < |sensors|
  {
    Filtered(EmaAfter(state, loco, sensors[..i]), (loco, sensors[i].sensor), sensors[i].value)
  }

  function LastAfter(state: map<Key, real>, last: map<Key, real>, loco: LocoId, fast: bool, sensors: seq<Payload>):
    map<Key, real>
    decreases |sensors|
  {
    if sensors == [] then last
    else
      var n := |sensors| - 1;
      var before, key := LastAfter(state, last, loco, fast, sensors[..n]), (loco, sensors[n].sensor);
      var filtered := FilteredAt(state, loco, sensors, n);
      if !fast || Suppresses(before, key, filtered, fast) then before else before[key := filtered]
  }

  function RowsAfter(state: map<Key, real>, last: map<Key, real>, loco: LocoId, fast: bool, sensors: seq<Payload>):
    seq<StoredRow>
    decreases |sensors|
  {
    if sensors == [] then []
    else
      var n := |sensors| - 1;
      var before, key := RowsAfter(state, last, loco, fast, sensors[..n]), (loco, sensors[n].sensor);
      var filtered := FilteredAt(state, loco, sensors, n);
      if Suppresses(LastAfter(state, last, loco, fast, sensors[..n]), key, filtered, fast) then before
      else before + [StoredRow(sensors[n].sensor, sensors[n].value, filtered)]
  }

  lemma {:induction false} ValuesOfPrefix(state: map<Key, real>, loco: LocoId, sensors: seq<Payload>, n: nat, i: nat)
    requires i < n <= |sensors|
    ensures FilteredAt(state, loco, sensors[..n], i) == FilteredAt(state, loco, sensors, i)
  {
    assert sensors[..n][..i] == sensors[..i];
  }

  class Flattener {
    const filter: Filter
    var last: map<Key, real>

    constructor (filter: Filter)
      ensures this.filter == filter && last == map[]
    {
      this.filter, last := filter, map[];
    }

    /** Decides whether a filtered value is stored, and remembers it for fast streams. */
    method Persist(key: Key, filtered: real, fast: bool) returns (kept: bool)
      modifies this`last
      ensures kept == !Suppresses(old(last), key, filtered, fast)
      ensures last == if kept && fast then old(last)[key := filtered] else old(last)
    {
      if fast {
        if key in last {
          var change := Abs(filtered - last[key]) / (Abs(last[key]) + 0.000000001);
          if change < 0.005 {
            return false;
          }
        }
        last := last[key := filtered];
      }
      return true;
    }

    /** `flatten_reading`: rewrites the sensor values to the filtered ones and returns the rows to store. */
    method Flatten(loco: LocoId, sampleRate: real, sensors: array<Payload>) returns (rows: seq<StoredRow>)
      modifies this`last, filter, sensors
      ensures filter.state == EmaAfter(old(filter.state), loco, old(sensors[..]))
      ensures last == LastAfter(old(filter.state), old(last), loco, sampleRate >= 10.0, old(sensors[..]))
      ensures rows == RowsAfter(old(filter.state), old(last), loco, sampleRate >= 10.0, old(sensors[..]))
      ensures forall i :: 0 <= i < sensors.Length ==>
                sensors[i] == Payload(old(sensors[i].sensor), FilteredAt(old(filter.state), loco, old(sensors[..]), i))
    {
      ghost var was, state, memory := sensors[..], filter.state, last;
      var fast := sampleRate >= 10.0;
      rows := [];
      for i := 0 to sensors.Length
        invariant filter.state == EmaAfter(state, loco, was[..i])
        invariant last == LastAfter(state, memory, loco, fast, was[..i])
        invariant rows == RowsAfter(state, memory, loco, fast, was[..i])
        invariant forall j :: 0 <= j < i ==> sensors[j] == Payload(was[j].sensor, FilteredAt(state, loco, was, j))
        invariant forall j :: i <= j < sensors.Length ==> sensors[j] == was[j]
      {
        assert was[..i + 1][..i] == was[..i];
        ValuesOfPrefix(state, loco, was, i + 1, i);
        var sensor, raw := sensors[i].sensor, sensors[i].value;
        var filtered := filter.Apply(loco, sensor, raw);
        sensors[i] := Payload(sensor, filtered);
        var kept := Persist((loco, sensor), filtered, fast);
        if kept {
          rows := rows + [StoredRow(sensor, raw, filtered)];
        }
      }
      assert was[..|was|] == was;
    }
  }

  // ----- What one reading guarantees

  /** A change is below the floor when it is less than half a percent of the last value persisted. */
  lemma {:induction false} BelowFloorIff(filtered: real, last: real)
    ensures BelowFloor(filtered, last) <==> 200.0 * Abs(filtered - last) < Abs(last) + 0.000000001
  {
    var d, change := Abs(last) + 0.000000001, Abs(filtered - last);
    RatioBelow(change, d, change / d);
  }

  lemma {:induction false} RatioBelow(a: real, d: real, q: real)
    requires d > 0.0 && q == a / d
    ensures q < 0.005 <==> 200.0 * a < d
  {
    assert q * d == a;
    ScalingKeepsOrder(q, 0.005, d);
  }

  lemma {:induction false} NoChangeIsBelowFloor(x: real)
    ensures BelowFloor(x, x)
  {
    var d := Abs(x) + 0.000000001;
    assert 0.0 / d == 0.0;
  }

  /** After a high-frequency reading, whatever was suppressed, every sensor it carried has been persisted at a
      value within the noise floor of its present filtered value. */
  lemma {:induction false} PersistedIsCurrent(state: map<Key, real>, last: map<Key, real>, loco: LocoId,
                                              sensors: seq<Payload>, i: nat)
    requires i < |sensors|
    ensures var (now, kept) := (EmaAfter(state, loco, sensors), LastAfter(state, last, loco, true, sensors));
            var key := (loco, sensors[i].sensor);
            key in now && key in kept && BelowFloor(now[key], kept[key])
    decreases |sensors|
  {
    var n := |sensors| - 1;
    NoChangeIsBelowFloor(FilteredAt(state, loco, sensors, n));
    if sensors[i].sensor != sensors[n].sensor {
      PersistedIsCurrent(state, last, loco, sensors[..n], i);
    }
  }

  lemma {:induction false} SlowReadingsLeaveMemory(state: map<Key, real>, last: map<Key, real>, loco: LocoId,
                                                   sensors: seq<Payload>)
    ensures LastAfter(state, last, loco, false, sensors) == last
    ensures |RowsAfter(state, last, loco, false, sensors)| == |sensors|
    decreases |sensors|
  {
    if sensors != [] {
      SlowReadingsLeaveMemory(state, last, loco, sensors[..|sensors| - 1]);
    }
  }

  /** Below ten hertz nothing is suppressed: one row per sensor, and the noise-floor memory is left alone. */
  lemma {:induction false} SlowReadingsAreKept(state: map<Key, real>, last: map<Key, real>, loco: LocoId,
                                               sensors: seq<Payload>, i: nat)
    requires i < |sensors|
    ensures LastAfter(state, last, loco, false, sensors) == last
    ensures var rows := RowsAfter(state, last, loco, false, sensors);
            && |rows| == |sensors|
            && rows[i] == StoredRow(sensors[i].sensor, sensors[i].value, FilteredAt(state, loco, sensors, i))
    decreases |sensors|
  {
    var n := |sensors| - 1;
    SlowReadingsLeaveMemory(state, last, loco, sensors);
    SlowReadingsLeaveMemory(state, last, loco, sensors[..n]);
    if i < n {
      SlowReadingsAreKept(state, last, loco, sensors[..n], i);
      ValuesOfPrefix(state, loco, sensors, n, i);
    }
  }

  /** The rows of one key among those stored. */
  function RowsOf(rows: seq<StoredRow>, sensor: Sensor): seq<real>
    decreases |rows|
  {
    if rows == [] then []
    else RowsOf(rows[..|rows| - 1], sensor) +
         if rows[|rows| - 1].sensor == sensor then [rows[|rows| - 1].filtered] else []
  }

  /** Values that each differ from the one before by at least the noise floor. */
  ghost predicate Stepwise(previous: Option<real>, values: seq<real>) {
    forall i :: 0 <= i < |values| ==>
      (i > 0 ==> !BelowFloor(values[i], values[i - 1])) &&
      (i == 0 && previous.Some? ==> !BelowFloor(values[i], previous.value))
  }

  function LastOf(last: map<Key, real>, key: Key): Option<real> { if key in last then Some(last[key]) else None }

  lemma {:induction false} RowsOfConcat(rows: seq<StoredRow>, row: StoredRow, sensor: Sensor)
    ensures RowsOf(rows + [row], sensor) == RowsOf(rows, sensor) + (if row.sensor == sensor then [row.filtered] else [])
  {
    assert (rows + [row])[..|rows|] == rows;
  }

  lemma {:induction false} NextValueSteps(previous: Option<real>, values: seq<real>, x: real)
    requires Stepwise(previous, values)
    requires values != [] ==> !BelowFloor(x, values[|values| - 1])
    requires values == [] && previous.Some? ==> !BelowFloor(x, previous.value)
    ensures Stepwise(previous, values + [x])
  {
  }

  lemma {:induction false} StoredRowsEnd(state: map<Key, real>, last: map<Key, real>, loco: LocoId,
                                         sensors: seq<Payload>, sensor: Sensor)
    ensures var values := RowsOf(RowsAfter(state, last, loco, true, sensors), sensor);
            LastOf(LastAfter(state, last, loco, true, sensors), (loco, sensor))
              == if values == [] then LastOf(last, (loco, sensor)) else Some(values[|values| - 1])
    decreases |sensors|
  {
    if sensors != [] {
      var n := |sensors| - 1;
      StoredRowsEnd(state, last, loco, sensors[..n], sensor);
      RowsOfConcat(RowsAfter(state, last, loco, true, sensors[..n]),
                   StoredRow(sensors[n].sensor, sensors[n].value, FilteredAt(state, loco, sensors, n)), sensor);
    }
  }

  /** The rows a high-frequency stream stores for a sensor are never within the noise floor of one another in
      turn, starting from the last value persisted before; the last of them is the new persisted value. */
  lemma {:induction false} StoredRowsStep(state: map<Key, real>, last: map<Key, real>, loco: LocoId,
                                          sensors: seq<Payload>, sensor: Sensor)
    ensures var values := RowsOf(RowsAfter(state, last, loco, true, sensors), sensor);
            && Stepwise(LastOf(last, (loco, sensor)), values)
            && LastOf(LastAfter(state, last, loco, true, sensors), (loco, sensor))
                 == if values == [] then LastOf(last, (loco, sensor)) else Some(values[|values| - 1])
    decreases |sensors|
  {
    StoredRowsEnd(state, last, loco, sensors, sensor);
    if sensors != [] {
      var n := |sensors| - 1;
      StoredRowsStep(state, last, loco, sensors[..n], sensor);
      var before, f := RowsAfter(state, last, loco, true, sensors[..n]), FilteredAt(state, loco, sensors, n);
      RowsOfConcat(before, StoredRow(sensors[n].sensor, sensors[n].value, f), sensor);
      if sensors[n].sensor == sensor &&
         !Suppresses(LastAfter(state, last, loco, true, sensors[..n]), (loco, sensor), f, true)
      {
        NextValueSteps(LastOf(last, (loco, sensor)), RowsOf(before, sensor), f);
      }
    }
  }

  /** Every raw value is fed to the filter, stored or not: flattening is a run of filter calls. */
  function Fed(loco: LocoId, sensors: seq<Payload>): (ops: seq<Op>)
    ensures |ops| == |sensors|
    ensures forall i :: 0 <= i < |ops| ==> ops[i] == Feed((loco, sensors[i].sensor), sensors[i].value)
  {
    seq(|sensors|, i requires 0 <= i < |sensors| => Feed((loco, sensors[i].sensor), sensors[i].value))
  }

  lemma {:induction false} FlatteningFeedsTheFilter(ops: seq<Op>, loco: LocoId, sensors: seq<Payload>)
    ensures EmaAfter(AfterOps(ops), loco, sensors) == AfterOps(ops + Fed(loco, sensors))
    decreases |sensors|
  {
    if sensors == [] {
      assert ops + Fed(loco, sensors) == ops;
    } else {
      var n := |sensors| - 1;
      FlatteningFeedsTheFilter(ops, loco, sensors[..n]);
      assert (ops + Fed(loco, sensors))[..|ops| + n] == ops + Fed(loco, sensors[..n]);
    }
  }
}
