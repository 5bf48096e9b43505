/** Rows of a bucketed telemetry query. A row without an average is a gap. */
module TelemetryRows {
  import opened Optional

  /** `bucket` is the start of the time bucket in epoch seconds. */
  datatype Row = Row(bucket: real, avg: Option<real>, low: Option<real>, high: Option<real>, last: Option<real>,
                     locomotive: string, sensor: string, unit: string)

  predicate IsGap(row: Row) { row.avg == None }

  predicate GapFree(rows: seq<Row>, lo: nat, hi: nat)
    requires lo <= hi <= |rows|
  {
    forall j :: lo <= j < hi ==> !IsGap(rows[j])
  }

  predicate AllGaps(rows: seq<Row>, lo: nat, hi: nat)
    requires lo <= hi <= |rows|
  {
    forall j :: lo <= j < hi ==> IsGap(rows[j])
  }

  /** Time order: strict, or with repeated buckets, as when several sensors share one query. */
  ghost predicate InTimeOrder(rows: seq<Row>, strict: bool) {
    forall i, j :: 0 <= i < j < |rows| ==>
                     rows[i].bucket <= rows[j].bucket && (strict ==> rows[i].bucket < rows[j].bucket)
  }
}

/** Sentinel rows for missing data. */
module GapMarkers {
  import opened Optional
  import opened TelemetryRows

  const GAP_FACTOR := 3.0

  /** The sentinel between two rows: halfway in time, without values. */
  function Marker(prev: Row, cur: Row): Row {
    Row((prev.bucket + cur.bucket) / 2.0, None, None, None, None, cur.locomotive, cur.sensor, cur.unit)
  }

  predicate GapBetween(prev: Row, cur: Row, threshold: real) { cur.bucket - prev.bucket > threshold }

  /** The rows, with a marker wherever two neighbours are more than `threshold` apart. */
  function Marked(rows: seq<Row>, threshold: real): seq<Row>
    decreases |rows|
  {
    var n := |rows|;
    if n <= 1 then rows
    else
      Marked(rows[..n - 1], threshold)
      + (if GapBetween(rows[n - 2], rows[n - 1], threshold) then [Marker(rows[n - 2], rows[n - 1])] else [])
      + [rows[n - 1]]
  }

  function MarkGaps(rows: seq<Row>, bucketSeconds: real): seq<Row> {
    if rows == [] || bucketSeconds <= 0.0 then rows else Marked(rows, bucketSeconds * GAP_FACTOR)
  }

  /** `_insert_gap_markers`. */
  method InsertGapMarkers(rows: seq<Row>, bucketSeconds: real) returns (out: seq<Row>)
    ensures out == MarkGaps(rows, bucketSeconds)
  {
    if rows == [] || bucketSeconds <= 0.0 {
      return rows;
    }
    var threshold := bucketSeconds * GAP_FACTOR;
    out := [rows[0]];
    for i := 1 to |rows|
      invariant out == Marked(rows[..i], threshold)
    {
      var prev, cur := rows[i - 1], rows[i];
      assert rows[..i + 1][..i] == rows[..i];
      if cur.bucket - prev.bucket > threshold {
        out := out + [Marker(prev, cur)];
      }
      out := out + [cur];
    }
    assert rows[..|rows|] == rows;
  }

  /** Where row `i` ends up among the markers. */
  function Position(rows: seq<Row>, threshold: real, i: nat): nat
    requires i < |rows|
    decreases i
  {
    if i == 0 then 0
    else Position(rows, threshold, i - 1) + (if GapBetween(rows[i - 1], rows[i], threshold) then 2 else 1)
  }

  lemma {:induction false} MarkedLength(rows: seq<Row>, threshold: real, m: nat)
    requires 1 <= m <= |rows|
    ensures |Marked(rows[..m], threshold)| == Position(rows, threshold, m - 1) + 1
    decreases m
  {
    if m > 1 {
      assert rows[..m][..m - 1] == rows[..m - 1];
      MarkedLength(rows, threshold, m - 1);
    }
  }

  lemma {:induction false} MarkedPrefix(rows: seq<Row>, threshold: real, m: nat)
    requires 1 <= m <= |rows|
    ensures Marked(rows[..m], threshold) <= Marked(rows, threshold)
    decreases |rows|
  {
    if m < |rows| {
      assert rows[..|rows| - 1][..m] == rows[..m];
      MarkedPrefix(rows[..|rows| - 1], threshold, m);
    } else {
      assert rows[..m] == rows;
    }
  }

  lemma MarkedTail(rows: seq<Row>, threshold: real, i: nat)
    requires i < |rows|
    ensures var out := Marked(rows[..i + 1], threshold);
            && out != [] && out[|out| - 1] == rows[i]
            && (i > 0 && GapBetween(rows[i - 1], rows[i], threshold) ==>
                  |out| > 1 && out[|out| - 2] == Marker(rows[i - 1], rows[i]))
  {
    var front := rows[..i + 1];
    assert front[|front| - 1] == rows[i];
    if i > 0 {
      assert front[|front| - 2] == rows[i - 1];
    }
  }

  /** Exactly what gap insertion does: row i sits at its position, the row before it is one or two places
      away, and in the second case the place between them holds the marker, strictly between the two in
      time. Nothing else is in the output. */
  lemma MarkersSitExactlyInGaps(rows: seq<Row>, threshold: real, i: nat)
    requires i < |rows| && threshold >= 0.0
    ensures var out := Marked(rows, threshold);
            && |out| == Position(rows, threshold, |rows| - 1) + 1
            && Position(rows, threshold, i) < |out|
            && out[Position(rows, threshold, i)] == rows[i]
    ensures i > 0 && GapBetween(rows[i - 1], rows[i], threshold) ==>
              var out, at := Marked(rows, threshold), Position(rows, threshold, i);
              && 0 < at < |out| && out[at - 1] == Marker(rows[i - 1], rows[i])
              && rows[i - 1].bucket < out[at - 1].bucket < rows[i].bucket
  {
    MarkedLength(rows, threshold, i + 1);
    MarkedLength(rows, threshold, |rows|);
    MarkedPrefix(rows, threshold, i + 1);
    MarkedTail(rows, threshold, i);
    assert rows[..|rows|] == rows;
    var front, out := Marked(rows[..i + 1], threshold), Marked(rows, threshold);
    assert forall j :: 0 <= j < |front| ==> out[j] == front[j];
  }

  /** Row i is in its place, and right behind the row before it unless they are more than `limit` apart; then one gap
      stands halfway between them. */
  ghost predicate InPlace(rows: seq<Row>, out: seq<Row>, limit: real, at: seq<nat>, i: nat)
    requires |at| == |rows| && i < |rows|
  {
    && at[i] < |out| && out[at[i]] == rows[i]
    && (i > 0 ==>
          if rows[i].bucket - rows[i - 1].bucket > limit then
            && at[i] == at[i - 1] + 2 && IsGap(out[at[i] - 1])
            && out[at[i] - 1].bucket - rows[i - 1].bucket == rows[i].bucket - out[at[i] - 1].bucket
            && out[at[i] - 1].locomotive == rows[i].locomotive && out[at[i] - 1].sensor == rows[i].sensor
            && out[at[i] - 1].unit == rows[i].unit
          else at[i] == at[i - 1] + 1)
  }

  /** `at` says where the rows went, from the front to the end of the output. */
  ghost predicate Places(rows: seq<Row>, out: seq<Row>, limit: real, at: seq<nat>) {
    && |at| == |rows| && (rows != [] ==> at[0] == 0 && at[|rows| - 1] == |out| - 1)
    && forall i :: 0 <= i < |rows| ==> InPlace(rows, out, limit, at, i)
  }

  function Positions(rows: seq<Row>, threshold: real): (at: seq<nat>)
    ensures |at| == |rows| && forall i :: 0 <= i < |rows| ==> at[i] == Position(rows, threshold, i)
  {
    seq(|rows|, i requires 0 <= i < |rows| => Position(rows, threshold, i))
  }

  lemma {:induction false} PositionIsInPlace(rows: seq<Row>, threshold: real, i: nat)
    requires i < |rows| && threshold >= 0.0
    ensures InPlace(rows, Marked(rows, threshold), threshold, Positions(rows, threshold), i)
  {
    MarkersSitExactlyInGaps(rows, threshold, i);
  }

  /** A gap appears exactly where two rows are more than three buckets apart; without a bucket width, or without rows,
      nothing is added. */
  lemma {:induction false} GapsBeyondThreeBuckets(rows: seq<Row>, bucketSeconds: real) returns (at: seq<nat>)
    ensures bucketSeconds > 0.0 && rows != [] ==> Places(rows, MarkGaps(rows, bucketSeconds), 3.0 * bucketSeconds, at)
    ensures bucketSeconds <= 0.0 || rows == [] ==> MarkGaps(rows, bucketSeconds) == rows
  {
    var threshold := 3.0 * bucketSeconds;
    assert threshold == bucketSeconds * GAP_FACTOR;
    at := Positions(rows, threshold);
    if bucketSeconds > 0.0 && rows != [] {
      forall i | 0 <= i < |rows| ensures InPlace(rows, Marked(rows, threshold), threshold, at, i) {
        PositionIsInPlace(rows, threshold, i);
      }
      MarkersSitExactlyInGaps(rows, threshold, |rows| - 1);
    }
  }

  /** The rows that carry data. */
  function DropGaps(rows: seq<Row>): seq<Row>
    decreases |rows|
  {
    if rows == [] then []
    else
      var n := |rows|;
      DropGaps(rows[..n - 1]) + (if IsGap(rows[n - 1]) then [] else [rows[n - 1]])
  }

  lemma DropGapsAppend(rows: seq<Row>, row: Row)
    ensures DropGaps(rows + [row]) == DropGaps(rows) + (if IsGap(row) then [] else [row])
  {
    assert (rows + [row])[..|rows|] == rows;
  }

  lemma {:induction false} DropGapsOfData(rows: seq<Row>)
    requires GapFree(rows, 0, |rows|)
    ensures DropGaps(rows) == rows
    decreases |rows|
  {
    if rows != [] {
      DropGapsOfData(rows[..|rows| - 1]);
    }
  }

  lemma {:induction false} MarkedKeepsData(rows: seq<Row>, threshold: real)
    ensures DropGaps(Marked(rows, threshold)) == DropGaps(rows)
    decreases |rows|
  {
    var n := |rows|;
    if n > 1 {
      var front := Marked(rows[..n - 1], threshold);
      MarkedKeepsData(rows[..n - 1], threshold);
      DropGapsAppend(front, Marker(rows[n - 2], rows[n - 1]));
      DropGapsAppend(front, rows[n - 1]);
      DropGapsAppend(front + [Marker(rows[n - 2], rows[n - 1])], rows[n - 1]);
      assert front + [] == front;
    }
  }

  /** Gap insertion is undone by dropping the gap rows, for any rows at all; on data rows that gives the
      input back. */
  lemma {:induction false} DroppingGapsUndoesInsertion(rows: seq<Row>, bucketSeconds: real)
    ensures DropGaps(MarkGaps(rows, bucketSeconds)) == DropGaps(rows)
    ensures GapFree(rows, 0, |rows|) ==> DropGaps(MarkGaps(rows, bucketSeconds)) == rows
  {
    MarkedKeepsData(rows, bucketSeconds * GAP_FACTOR);
    if GapFree(rows, 0, |rows|) {
      DropGapsOfData(rows);
    }
  }

  lemma {:induction false} MarkedEnds(rows: seq<Row>, threshold: real)
    requires rows != []
    ensures Marked(rows, threshold) != []
    ensures Marked(rows, threshold)[|Marked(rows, threshold)| - 1] == rows[|rows| - 1]
    ensures Marked(rows, threshold)[0] == rows[0]
    decreases |rows|
  {
    if |rows| > 1 {
      MarkedEnds(rows[..|rows| - 1], threshold);
    }
  }

  lemma AppendKeepsOrder(rows: seq<Row>, row: Row, strict: bool)
    requires InTimeOrder(rows, strict)
    requires rows != [] ==> rows[|rows| - 1].bucket <= row.bucket && (strict ==> rows[|rows| - 1].bucket < row.bucket)
    ensures InTimeOrder(rows + [row], strict)
  {
  }

  lemma {:induction false} AppendMarkedKeepsOrder(front: seq<Row>, prev: Row, cur: Row, threshold: real, strict: bool)
    requires threshold >= 0.0 && InTimeOrder(front, strict) && front != [] && front[|front| - 1] == prev
    requires prev.bucket <= cur.bucket && (strict ==> prev.bucket < cur.bucket)
    ensures InTimeOrder(front + (if GapBetween(prev, cur, threshold) then [Marker(prev, cur)] else []) + [cur], strict)
  {
    if GapBetween(prev, cur, threshold) {
      AppendKeepsOrder(front, Marker(prev, cur), strict);
      AppendKeepsOrder(front + [Marker(prev, cur)], cur, strict);
    } else {
      AppendKeepsOrder(front, cur, strict);
      assert front + [] == front;
    }
  }

  lemma {:induction false} MarkedInTimeOrder(rows: seq<Row>, threshold: real, strict: bool)
    requires threshold >= 0.0 && InTimeOrder(rows, strict)
    ensures InTimeOrder(Marked(rows, threshold), strict)
    decreases |rows|
  {
    var n := |rows|;
    if n > 1 {
      MarkedInTimeOrder(rows[..n - 1], threshold, strict);
      MarkedEnds(rows[..n - 1], threshold);
      AppendMarkedKeepsOrder(Marked(rows[..n - 1], threshold), rows[n - 2], rows[n - 1], threshold, strict);
    }
  }

  /** An ordered time axis stays ordered, and a strictly ordered one strictly. */
  lemma MarkingKeepsTimeOrder(rows: seq<Row>, bucketSeconds: real, strict: bool)
    requires InTimeOrder(rows, strict)
    ensures InTimeOrder(MarkGaps(rows, bucketSeconds), strict)
  {
    if bucketSeconds > 0.0 {
      MarkedInTimeOrder(rows, bucketSeconds * GAP_FACTOR, strict);
    }
  }

  ghost predicate GapsIsolated(rows: seq<Row>) {
    forall i :: 0 <= i < |rows| - 1 && IsGap(rows[i]) ==> !IsGap(rows[i + 1])
  }

  lemma {:induction false} MarkedGapsIsolated(rows: seq<Row>, threshold: real)
    requires GapFree(rows, 0, |rows|)
    ensures GapsIsolated(Marked(rows, threshold))
    ensures rows != [] ==> Marked(rows, threshold) != []
                           && !IsGap(Marked(rows, threshold)[|Marked(rows, threshold)| - 1])
    decreases |rows|
  {
    if |rows| > 1 {
      MarkedGapsIsolated(rows[..|rows| - 1], threshold);
    }
  }

  /** Markers put among data rows never touch each other, and never come last. */
  lemma MarkersAreIsolated(rows: seq<Row>, bucketSeconds: real)
    requires GapFree(rows, 0, |rows|)
    ensures var out := MarkGaps(rows, bucketSeconds);
            GapsIsolated(out) && (out != [] ==> !IsGap(out[|out| - 1]))
  {
    MarkedGapsIsolated(rows, bucketSeconds * GAP_FACTOR);
  }
}
