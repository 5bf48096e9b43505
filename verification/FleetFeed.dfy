/** The fleet aggregator: latest state per locomotive, a log of category changes, and a summary. */
module FleetAggregator {
  import opened Optional
  import StableSort

  type LocoId(==)
  type Kind(==)

  /** The health categories; any other text counts as critical. */
  datatype Category = Good | Attention | Other(name: string)

  datatype LocoState = LocoState(id: LocoId, kind: Kind, score: real, category: Category)

  datatype Change = Change(id: LocoId, kind: Kind, previous: Category, next: Category, score: real)

  /** A health message; without an id, or with a score that is no number, it changes nothing. */
  datatype Message = Message(id: Option<LocoId>, kind: Kind, score: Option<real>, category: Category)

  /** `order` is the insertion order of the dictionary. */
  datatype Fleet = Fleet(order: seq<LocoId>, states: map<LocoId, LocoState>, changes: seq<Change>)

  predicate Effective(m: Message) { m.id.Some? && m.score.Some? }

  function Updated(f: Fleet, m: Message): Fleet {
    if !Effective(m) then f
    else
      var id, s := m.id.value, LocoState(m.id.value, m.kind, m.score.value, m.category);
      if id !in f.states then f.(order := f.order + [id], states := f.states[id := s])
      else if f.states[id].category == m.category then f.(states := f.states[id := s])
      else f.(states := f.states[id := s],
              changes := f.changes + [Change(id, m.kind, f.states[id].category, m.category, m.score.value)])
  }

  ghost predicate OrderOk(order: seq<LocoId>, states: map<LocoId, LocoState>) {
    && (forall i :: 0 <= i < |order| ==> order[i] in states)
    && (forall id :: id in states ==> id in order)
    && (forall i, j :: 0 <= i < j < |order| ==> order[i] != order[j])
  }

  // ----- The summary

  datatype Summary = Summary(size: nat, totalScore: real, good: nat, attention: nat, critical: nat,
                             worst: seq<LocoState>)

  function StatesInOrder(order: seq<LocoId>, states: map<LocoId, LocoState>): (s: seq<LocoState>)
    requires forall i :: 0 <= i < |order| ==> order[i] in states
    ensures |s| == |order| && forall i :: 0 <= i < |s| ==> s[i] == states[order[i]]
  {
    seq(|order|, i requires 0 <= i < |order| => states[order[i]])
  }

  function Count(s: seq<LocoState>, c: Category): nat
    decreases |s|
  {
    if s == [] then 0 else Count(s[..|s| - 1], c) + if s[|s| - 1].category == c then 1 else 0
  }

  function TotalScore(s: seq<LocoState>): real
    decreases |s|
  {
    if s == [] then 0.0 else TotalScore(s[..|s| - 1]) + s[|s| - 1].score
  }

  function ScoreOf(s: LocoState): real { s.score }

  class Aggregator {
    var order: seq<LocoId>
    var states: map<LocoId, LocoState>
    var changes: seq<Change>

    ghost predicate Valid()
      reads this
    {
      OrderOk(order, states)
    }

    function View(): Fleet
      reads this
    {
      Fleet(order, states, changes)
    }

    constructor ()
      ensures Valid() && View() == Fleet([], map[], [])
    {
      order, states, changes := [], map[], [];
    }

    /** `_update_state`. */
    method UpdateState(m: Message)
      requires Valid()
      modifies this
      ensures Valid() && View() == Updated(old(View()), m)
    {
      if m.id == None || m.score == None {
        return;
      }
      var id := m.id.value;
      var known := id in states;
      var previous := if known then states[id].category else m.category;
      if !known {
        order := order + [id];
      }
      states := states[id := LocoState(id, m.kind, m.score.value, m.category)];
      if known && previous != m.category {
        changes := changes + [Change(id, m.kind, previous, m.category, m.score.value)];
      }
    }

    /** `_drain_changes`. */
    method DrainChanges() returns (drained: seq<Change>)
      modifies this`changes
      ensures drained == old(changes) && changes == []
    {
      drained, changes := changes, [];
    }

    /** `_compute_summary`, before rounding. */
    method ComputeSummary() returns (s: Summary)
      requires Valid()
      ensures var all := StatesInOrder(order, states);
              && s.size == |states| && s.size == s.good + s.attention + s.critical
              && s.good == Count(all, Good) && s.attention == Count(all, Attention)
              && s.totalScore == TotalScore(all)
              && s.worst == StableSort.First(all, ScoreOf, 10)
    {
      var all := StatesInOrder(order, states);
      var good, attention, critical, total := 0, 0, 0, 0.0;
      for i := 0 to |all|
        invariant good == Count(all[..i], Good) && attention == Count(all[..i], Attention)
        invariant total == TotalScore(all[..i]) && good + attention + critical == i
      {
        assert all[..i + 1][..i] == all[..i];
        total := total + all[i].score;
        if all[i].category == Good {
          good := good + 1;
        } else if all[i].category == Attention {
          attention := attention + 1;
        } else {
          critical := critical + 1;
        }
      }
      assert all[..|all|] == all;
      EachOnce(order, states);
      var worst := StableSort.First(all, ScoreOf, 10);
      s := Summary(|states|, total, good, attention, critical, worst);
    }
  }

  lemma {:induction false} EachOnce(order: seq<LocoId>, states: map<LocoId, LocoState>)
    requires OrderOk(order, states)
    ensures |order| == |states|
    decreases |order|
  {
    if order == [] {
      assert states.Keys == {};
    } else {
      var n := |order| - 1;
      var rest := states - {order[n]};
      forall id | id in rest ensures id in order[..n] {
        assert id in order;
      }
      EachOnce(order[..n], rest);
      assert states.Keys == rest.Keys + {order[n]};
    }
  }
}

/** What the dashboard makes of the published changes. */
module FleetDashboard {
  import opened FleetAggregator

  datatype Marker = Marker(kind: Kind, score: real, category: Category)

  function Shown(markers: map<LocoId, Marker>, changes: seq<Change>): map<LocoId, Marker>
    decreases |changes|
  {
    if changes == [] then markers
    else
      var c := changes[|changes| - 1];
      Shown(markers, changes[..|changes| - 1])[c.id := Marker(c.kind, c.score, c.next)]
  }

  class FleetSlice {
    var markers: map<LocoId, Marker>

    constructor ()
      ensures markers == map[]
    {
      markers := map[];
    }

    /** `fleetChangesReceived`. */
    method ChangesReceived(changes: seq<Change>)
      modifies this
      ensures markers == Shown(old(markers), changes)
    {
      for i := 0 to |changes|
        invariant markers == Shown(old(markers), changes[..i])
      {
        assert changes[..i + 1][..i] == changes[..i];
        markers := markers[changes[i].id := Marker(changes[i].kind, changes[i].score, changes[i].next)];
      }
      assert changes[..|changes|] == changes;
    }
  }

  lemma {:induction false} ShownInParts(markers: map<LocoId, Marker>, a: seq<Change>, b: seq<Change>)
    ensures Shown(markers, a + b) == Shown(Shown(markers, a), b)
    decreases |b|
  {
    if b == [] {
      assert a + b == a;
    } else {
      assert (a + b)[..|a + b| - 1] == a + b[..|b| - 1];
      ShownInParts(markers, a, b[..|b| - 1]);
    }
  }
}

/** The change feed tracks the fleet. */
module FleetFeed {
  import opened Optional
  import opened FleetAggregator
  import opened FleetDashboard
  import Counting
  import Numbers
  import StableSort

  /** A batch of drained changes, and whether publishing it succeeded. */
  datatype Batch = Batch(changes: seq<Change>, delivered: bool)

  datatype Event = Receive(message: Message) | Publish(delivered: bool)

  /** `firstSeen` remembers the category each locomotive was first seen with. */
  datatype World = World(fleet: Fleet, firstSeen: map<LocoId, Category>, batches: seq<Batch>)

  function Received(w: World, m: Message): World {
    World(Updated(w.fleet, m),
          if Effective(m) && m.id.value !in w.fleet.states then w.firstSeen[m.id.value := m.category] else w.firstSeen,
          w.batches)
  }

  /** One round of the publish loop: changes are drained before the publish that may fail. */
  function Published(w: World, delivered: bool): World {
    if w.fleet.states == map[] then w
    else World(w.fleet.(changes := []), w.firstSeen, w.batches + [Batch(w.fleet.changes, delivered)])
  }

  function Stepped(w: World, e: Event): World {
    match e
    case Receive(m) => Received(w, m)
    case Publish(delivered) => Published(w, delivered)
  }

  function After(events: seq<Event>): World
    decreases |events|
  {
    if events == [] then World(Fleet([], map[], []), map[], [])
    else Stepped(After(events[..|events| - 1]), events[|events| - 1])
  }

  function Drained(batches: seq<Batch>): seq<Change>
    decreases |batches|
  {
    if batches == [] then [] else Drained(batches[..|batches| - 1]) + batches[|batches| - 1].changes
  }

  function Delivered(batches: seq<Batch>): seq<Change>
    decreases |batches|
  {
    if batches == [] then []
    else Delivered(batches[..|batches| - 1]) +
         if batches[|batches| - 1].delivered then batches[|batches| - 1].changes else []
  }

  /** Every change ever recorded. */
  function Log(w: World): seq<Change> { Drained(w.batches) + w.fleet.changes }

  /** The category of a locomotive after a stretch of the log. */
  function Replayed(start: Category, log: seq<Change>, id: LocoId): Category
    decreases |log|
  {
    if log == [] then start
    else if log[|log| - 1].id == id then log[|log| - 1].next
    else Replayed(start, log[..|log| - 1], id)
  }

  lemma {:induction false} ReplayOneMore(start: Category, log: seq<Change>, c: Change, id: LocoId)
    ensures Replayed(start, log + [c], id) == if c.id == id then c.next else Replayed(start, log, id)
  {
    assert (log + [c])[..|log|] == log;
  }

  lemma {:induction false} ReplayUnknown(start: Category, log: seq<Change>, id: LocoId)
    requires forall i :: 0 <= i < |log| ==> log[i].id != id
    ensures Replayed(start, log, id) == start
    decreases |log|
  {
    if log != [] {
      ReplayUnknown(start, log[..|log| - 1], id);
    }
  }

  // ----- The log tracks the fleet

  /** A message that moves a known locomotive to another category. */
  ghost predicate Moves(w: World, m: Message) {
    Effective(m) && m.id.value in w.fleet.states && w.fleet.states[m.id.value].category != m.category
  }

  /** Replaying the log from the first-seen categories gives the present ones. */
  ghost predicate Tracks(w: World, log: seq<Change>) {
    && w.firstSeen.Keys == w.fleet.states.Keys
    && (forall id :: id in w.fleet.states ==> w.fleet.states[id].category == Replayed(w.firstSeen[id], log, id))
  }

  /** Every entry leads from the category its locomotive had just before to a different one. */
  ghost predicate Chained(first: map<LocoId, Category>, log: seq<Change>) {
    forall i :: 0 <= i < |log| ==>
      && log[i].id in first
      && log[i].previous == Replayed(first[log[i].id], log[..i], log[i].id)
      && log[i].previous != log[i].next
  }

  lemma {:induction false} ChainedPlus(first: map<LocoId, Category>, log: seq<Change>, c: Change)
    requires Chained(first, log) && c.id in first
    requires c.previous == Replayed(first[c.id], log, c.id) && c.previous != c.next
    ensures Chained(first, log + [c])
  {
    var all := log + [c];
    assert all[..|log|] == log;
    assert forall i :: 0 <= i < |log| ==> all[..i] == log[..i];
  }

  lemma {:induction false} ChainedNewcomer(first: map<LocoId, Category>, log: seq<Change>, id: LocoId, c: Category)
    requires Chained(first, log) && id !in first
    ensures Chained(first[id := c], log) && Replayed(c, log, id) == c
  {
    ReplayUnknown(c, log, id);
  }

  /** Receiving the message appends `more` to the log, which keeps tracking the fleet. */
  ghost predicate TracksOn(w: World, m: Message, log: seq<Change>, more: seq<Change>) {
    var next := Received(w, m);
    next.fleet.changes == w.fleet.changes + more && Tracks(next, log + more) && Chained(next.firstSeen, log + more)
  }

  lemma {:induction false} MoveTracks(w: World, m: Message, log: seq<Change>, c: Change)
    requires Tracks(w, log) && Chained(w.firstSeen, log) && Moves(w, m)
    requires c == Change(m.id.value, m.kind, w.fleet.states[m.id.value].category, m.category, m.score.value)
    ensures TracksOn(w, m, log, [c])
  {
    ChainedPlus(w.firstSeen, log, c);
    var next := Received(w, m);
    forall id | id in next.fleet.states
      ensures next.fleet.states[id].category == Replayed(next.firstSeen[id], log + [c], id) {
      ReplayOneMore(next.firstSeen[id], log, c, id);
    }
  }

  lemma {:induction false} NewcomerTracks(w: World, m: Message, log: seq<Change>)
    requires Tracks(w, log) && Chained(w.firstSeen, log) && Effective(m) && m.id.value !in w.fleet.states
    ensures TracksOn(w, m, log, [])
  {
    assert log + [] == log;
    ChainedNewcomer(w.firstSeen, log, m.id.value, m.category);
  }

  lemma {:induction false} IdleTracks(w: World, m: Message, log: seq<Change>)
    requires Tracks(w, log) && Chained(w.firstSeen, log) && !Moves(w, m)
    requires Effective(m) ==> m.id.value in w.fleet.states
    ensures TracksOn(w, m, log, [])
  {
    assert log + [] == log;
  }

  lemma {:induction false} ReceiveTracks(w: World, m: Message, log: seq<Change>) returns (more: seq<Change>)
    requires Tracks(w, log) && Chained(w.firstSeen, log)
    ensures TracksOn(w, m, log, more)
  {
    if Moves(w, m) {
      more := [Change(m.id.value, m.kind, w.fleet.states[m.id.value].category, m.category, m.score.value)];
      MoveTracks(w, m, log, more[0]);
    } else {
      more := [];
      if Effective(m) && m.id.value !in w.fleet.states {
        NewcomerTracks(w, m, log);
      } else {
        IdleTracks(w, m, log);
      }
    }
  }

  lemma {:induction false} ReceiveKeepsTrack(w: World, m: Message)
    requires Tracks(w, Log(w)) && Chained(w.firstSeen, Log(w))
    ensures var next := Received(w, m);
            Tracks(next, Log(next)) && Chained(next.firstSeen, Log(next))
  {
    var more := ReceiveTracks(w, m, Log(w));
    assert Log(w) + more == Log(Received(w, m));
  }

  lemma {:induction false} PublishKeepsLog(w: World, delivered: bool)
    ensures Log(Published(w, delivered)) == Log(w)
  {
    DrainOneMore(w.batches, Batch(w.fleet.changes, delivered));
  }

  /** On every run of messages and publishes, failed or not: replaying the whole log of changes from the
      first-seen categories gives the present category of every locomotive, and the log is a chain. */
  lemma {:induction false} LogTracksFleet(events: seq<Event>)
    ensures var w := After(events);
            Tracks(w, Log(w)) && Chained(w.firstSeen, Log(w))
    decreases |events|
  {
    if events != [] {
      var before := After(events[..|events| - 1]);
      LogTracksFleet(events[..|events| - 1]);
      match events[|events| - 1]
      case Receive(m) => ReceiveKeepsTrack(before, m);
      case Publish(delivered) => PublishKeepsLog(before, delivered);
    }
  }

  lemma {:induction false} DrainOneMore(batches: seq<Batch>, b: Batch)
    ensures Drained(batches + [b]) == Drained(batches) + b.changes
    ensures Delivered(batches + [b]) == Delivered(batches) + if b.delivered then b.changes else []
  {
    assert (batches + [b])[..|batches|] == batches;
  }

  // ----- The dashboard

  /** The dashboard of someone listening from the start. */
  function Dashboard(w: World): map<LocoId, Marker> { Shown(map[], Delivered(w.batches)) }

  ghost predicate Mentioned(log: seq<Change>, id: LocoId) { exists i :: 0 <= i < |log| && log[i].id == id }

  lemma {:induction false} MentionedInPrefix(log: seq<Change>, id: LocoId)
    requires log != []
    ensures Mentioned(log, id) <==> log[|log| - 1].id == id || Mentioned(log[..|log| - 1], id)
  {
    var before := log[..|log| - 1];
    if Mentioned(before, id) {
      var i :| 0 <= i < |before| && before[i].id == id;
      assert log[i].id == id;
    }
    if Mentioned(log, id) && log[|log| - 1].id != id {
      var i :| 0 <= i < |log| && log[i].id == id;
      assert before[i].id == id;
    }
  }

  lemma {:induction false} MarkersAreLastChanges(log: seq<Change>, id: LocoId, start: Category)
    ensures id in Shown(map[], log) <==> Mentioned(log, id)
    ensures id in Shown(map[], log) ==> Shown(map[], log)[id].category == Replayed(start, log, id)
    decreases |log|
  {
    if log != [] {
      MarkersAreLastChanges(log[..|log| - 1], id, start);
      MentionedInPrefix(log, id);
    }
  }

  lemma {:induction false} MentionedInParts(a: seq<Change>, b: seq<Change>, id: LocoId)
    ensures Mentioned(a + b, id) <==> Mentioned(a, id) || Mentioned(b, id)
  {
    if Mentioned(a, id) {
      var i :| 0 <= i < |a| && a[i].id == id;
      assert (a + b)[i].id == id;
    }
    if Mentioned(b, id) {
      var i :| 0 <= i < |b| && b[i].id == id;
      assert (a + b)[|a| + i].id == id;
    }
    if Mentioned(a + b, id) {
      var i :| 0 <= i < |a + b| && (a + b)[i].id == id;
      assert if i < |a| then a[i].id == id else b[i - |a|].id == id;
    }
  }

  /** The n-th batch is the last delivered one with a change of this locomotive. */
  ghost predicate LastDelivered(batches: seq<Batch>, n: nat, id: LocoId) {
    && n < |batches| && batches[n].delivered && Mentioned(batches[n].changes, id)
    && forall k :: n < k < |batches| && batches[k].delivered ==> !Mentioned(batches[k].changes, id)
  }

  /** What happened after the n-th batch: changes drained later, delivered or lost, and those still pending. */
  function Since(w: World, n: nat): seq<Change>
    requires n < |w.batches|
  {
    Drained(w.batches[n + 1..]) + w.fleet.changes
  }

  lemma {:induction false} DrainedInParts(a: seq<Batch>, b: seq<Batch>)
    ensures Drained(a + b) == Drained(a) + Drained(b)
    decreases |b|
  {
    if b == [] {
      assert a + b == a;
    } else {
      assert (a + b)[..|a + b| - 1] == a + b[..|b| - 1];
      DrainedInParts(a, b[..|b| - 1]);
    }
  }

  lemma {:induction false} DeliveredInParts(a: seq<Batch>, b: seq<Batch>)
    ensures Delivered(a + b) == Delivered(a) + Delivered(b)
    decreases |b|
  {
    if b == [] {
      assert a + b == a;
    } else {
      assert (a + b)[..|a + b| - 1] == a + b[..|b| - 1];
      DeliveredInParts(a, b[..|b| - 1]);
    }
  }

  lemma {:induction false} SilentBatches(batches: seq<Batch>, id: LocoId)
    requires forall k :: 0 <= k < |batches| && batches[k].delivered ==> !Mentioned(batches[k].changes, id)
    ensures !Mentioned(Delivered(batches), id)
    decreases |batches|
  {
    if batches != [] {
      SilentBatches(batches[..|batches| - 1], id);
      MentionedInParts(Delivered(batches[..|batches| - 1]), batches[|batches| - 1].changes, id);
    }
  }

  /** Once a locomotive is mentioned it no longer matters where it started. */
  lemma {:induction false} ReplayForgets(a: Category, b: Category, log: seq<Change>, id: LocoId)
    requires Mentioned(log, id)
    ensures Replayed(a, log, id) == Replayed(b, log, id)
    decreases |log|
  {
    MentionedInPrefix(log, id);
    if log[|log| - 1].id != id {
      ReplayForgets(a, b, log[..|log| - 1], id);
    }
  }

  lemma {:induction false} ReplayUnmentioned(start: Category, log: seq<Change>, id: LocoId)
    requires !Mentioned(log, id)
    ensures Replayed(start, log, id) == start
  {
    ReplayUnknown(start, log, id);
  }

  lemma {:induction false} DeliveredUpTo(batches: seq<Batch>, n: nat, id: LocoId, start: Category, other: Category)
    requires LastDelivered(batches, n, id)
    ensures Mentioned(Delivered(batches), id)
    ensures Replayed(start, Delivered(batches), id) == Replayed(other, Drained(batches[..n + 1]), id)
  {
    var before, b, rest := batches[..n], batches[n], batches[n + 1..];
    assert batches == (before + [b]) + rest && batches[..n + 1] == before + [b];
    DeliveredInParts(before + [b], rest);
    DrainOneMore(before, b);
    MentionedInParts(Delivered(before), b.changes, id);
    MentionedInParts(Delivered(before + [b]), Delivered(rest), id);
    SilentBatches(rest, id);
    ReplayConcat(start, Delivered(before + [b]), Delivered(rest), id);
    ReplayUnmentioned(Replayed(start, Delivered(before + [b]), id), Delivered(rest), id);
    ReplayConcat(start, Delivered(before), b.changes, id);
    ReplayConcat(other, Drained(before), b.changes, id);
    ReplayForgets(Replayed(start, Delivered(before), id), Replayed(other, Drained(before), id), b.changes, id);
  }

  lemma {:induction false} LogFrom(w: World, n: nat, start: Category, id: LocoId)
    requires n < |w.batches|
    ensures Replayed(start, Log(w), id) == Replayed(Replayed(start, Drained(w.batches[..n + 1]), id), Since(w, n), id)
  {
    assert w.batches == w.batches[..n + 1] + w.batches[n + 1..];
    DrainedInParts(w.batches[..n + 1], w.batches[n + 1..]);
    assert Log(w) == Drained(w.batches[..n + 1]) + Since(w, n);
    ReplayConcat(start, Drained(w.batches[..n + 1]), Since(w, n), id);
  }

  lemma {:induction false} FindLastDelivered(batches: seq<Batch>, id: LocoId) returns (n: nat)
    requires Mentioned(Delivered(batches), id)
    ensures LastDelivered(batches, n, id)
    decreases |batches|
  {
    var last := |batches| - 1;
    MentionedInParts(Delivered(batches[..last]), batches[last].changes, id);
    if batches[last].delivered && Mentioned(batches[last].changes, id) {
      n := last;
    } else {
      n := FindLastDelivered(batches[..last], id);
    }
  }

  /** The dashboard shows exactly the locomotives that some delivered batch mentions. */
  lemma {:induction false} MarkerIsShownIff(events: seq<Event>, id: LocoId)
    ensures var w := After(events);
            id in Dashboard(w) <==> exists n: nat :: LastDelivered(w.batches, n, id)
  {
    var w := After(events);
    MarkersAreLastChanges(Delivered(w.batches), id, Good);
    if Mentioned(Delivered(w.batches), id) {
      var n := FindLastDelivered(w.batches, id);
    }
    if n: nat :| LastDelivered(w.batches, n, id) {
      DeliveredUpTo(w.batches, n, id, Good, Good);
    }
  }

  /** A marker shows the category its locomotive had after the last delivered batch that mentions it, so it is
      current exactly when the changes since then - lost or pending - lead from the category shown back to it.
      When there is none of this locomotive, it is, whatever else was lost. */
  lemma {:induction false} MarkerIsCurrentIff(events: seq<Event>, id: LocoId, n: nat)
    requires LastDelivered(After(events).batches, n, id)
    ensures var w := After(events);
            && id in Dashboard(w) && id in w.fleet.states
            && var shown := Dashboard(w)[id].category;
            && w.fleet.states[id].category == Replayed(shown, Since(w, n), id)
            && (shown == w.fleet.states[id].category <==> Replayed(shown, Since(w, n), id) == shown)
            && (!Mentioned(Since(w, n), id) ==> shown == w.fleet.states[id].category)
  {
    var w := After(events);
    LogTracksFleet(events);
    DeliveredIsLogged(w.batches, id);
    DeliveredUpTo(w.batches, n, id, Good, Good);
    MentionedInParts(Drained(w.batches), w.fleet.changes, id);
    var i :| 0 <= i < |Log(w)| && Log(w)[i].id == id;
    var start := w.firstSeen[id];
    MarkersAreLastChanges(Delivered(w.batches), id, start);
    DeliveredUpTo(w.batches, n, id, start, start);
    LogFrom(w, n, start, id);
    if !Mentioned(Since(w, n), id) {
      ReplayUnmentioned(Dashboard(w)[id].category, Since(w, n), id);
    }
  }

  lemma {:induction false} DeliveredIsLogged(batches: seq<Batch>, id: LocoId)
    ensures Mentioned(Delivered(batches), id) ==> Mentioned(Drained(batches), id)
    decreases |batches|
  {
    if batches != [] {
      var last := |batches| - 1;
      DeliveredIsLogged(batches[..last], id);
      MentionedInParts(Delivered(batches[..last]), batches[last].changes, id);
      MentionedInParts(Drained(batches[..last]), batches[last].changes, id);
    }
  }

  lemma {:induction false} ReplayConcat(start: Category, a: seq<Change>, b: seq<Change>, id: LocoId)
    ensures Replayed(start, a + b, id) == Replayed(Replayed(start, a, id), b, id)
    decreases |b|
  {
    if b == [] {
      assert a + b == a;
    } else {
      assert (a + b)[..|a + b| - 1] == a + b[..|b| - 1];
      ReplayConcat(start, a, b[..|b| - 1], id);
    }
  }

  /** In particular, while no publish fails every marker without a pending change is current. */
  lemma {:induction false} MarkersAgreeWithoutLoss(events: seq<Event>, id: LocoId)
    requires var w := After(events);
             && (forall i :: 0 <= i < |w.batches| ==> w.batches[i].delivered)
             && !Mentioned(w.fleet.changes, id) && id in Dashboard(w)
    ensures var w := After(events);
            id in w.fleet.states && Dashboard(w)[id].category == w.fleet.states[id].category
  {
    var w := After(events);
    MarkersAreLastChanges(Delivered(w.batches), id, Good);
    var n := FindLastDelivered(w.batches, id);
    AllDelivered(w.batches[n + 1..]);
    SilentBatches(w.batches[n + 1..], id);
    MentionedInParts(Drained(w.batches[n + 1..]), w.fleet.changes, id);
    MarkerIsCurrentIff(events, id, n);
  }

  lemma {:induction false} AllDelivered(batches: seq<Batch>)
    requires forall i :: 0 <= i < |batches| ==> batches[i].delivered
    ensures Delivered(batches) == Drained(batches)
    decreases |batches|
  {
    if batches != [] {
      AllDelivered(batches[..|batches| - 1]);
    }
  }

  lemma {:induction false} TwoMore(events: seq<Event>, e: Event, f: Event)
    ensures After(events + [e, f]) == Stepped(Stepped(After(events), e), f)
  {
    assert (events + [e])[..|events|] == events;
    assert (events + [e, f])[..|events| + 1] == events + [e];
  }

  /** Whatever was lost before, a change that is published brings its locomotive's marker up to date. */
  lemma {:induction false} ChangeArrives(events: seq<Event>, m: Message)
    requires Moves(After(events), m)
    ensures var w := After(events + [Receive(m), Publish(true)]);
            && m.id.value in Dashboard(w) && m.id.value in w.fleet.states
            && Dashboard(w)[m.id.value] == Marker(m.kind, m.score.value, m.category)
            && w.fleet.states[m.id.value].category == m.category
  {
    var w := After(events);
    TwoMore(events, Receive(m), Publish(true));
    var moved := Received(w, m);
    DrainOneMore(moved.batches, Batch(moved.fleet.changes, true));
    ShownInParts(map[], Delivered(moved.batches), moved.fleet.changes);
    assert moved.fleet.changes[|moved.fleet.changes| - 1].next == m.category;
  }

  /** Both dashboards show the same of this locomotive. */
  ghost predicate SameMarker(a: map<LocoId, Marker>, b: map<LocoId, Marker>, id: LocoId) {
    (id in a <==> id in b) && (id in a ==> a[id] == b[id])
  }

  /** Nothing in these events moves the locomotive away from category `c`. */
  ghost predicate Steady(events: seq<Event>, id: LocoId, c: Category) {
    forall i :: 0 <= i < |events| && events[i].Receive? && events[i].message.id == Some(id) ==>
      events[i].message.category == c
  }

  /** The fleet has the locomotive in category `c`, with no change of it pending, and the dashboard shows of it
      what it showed in `w`. */
  ghost predicate Stuck(w: World, now: World, id: LocoId, c: Category) {
    && id in now.fleet.states && now.fleet.states[id].category == c && !Mentioned(now.fleet.changes, id)
    && SameMarker(Dashboard(w), Dashboard(now), id)
  }

  lemma {:induction false} SilentChangesShowNothing(markers: map<LocoId, Marker>, changes: seq<Change>, id: LocoId)
    requires !Mentioned(changes, id)
    ensures SameMarker(markers, Shown(markers, changes), id)
    decreases |changes|
  {
    if changes != [] {
      MentionedInPrefix(changes, id);
      SilentChangesShowNothing(markers, changes[..|changes| - 1], id);
    }
  }

  lemma {:induction false} ReceivingStaysStuck(w: World, now: World, m: Message, id: LocoId, c: Category)
    requires Stuck(w, now, id, c) && (m.id == Some(id) ==> m.category == c)
    ensures Stuck(w, Received(now, m), id, c)
  {
    var was, next := now.fleet.changes, Received(now, m).fleet.changes;
    if next != was {
      var last := next[|was|];
      assert next == was + [last] && last.id != id;
      MentionedInParts(was, [last], id);
    }
  }

  lemma {:induction false} PublishingStaysStuck(w: World, now: World, ok: bool, id: LocoId, c: Category)
    requires Stuck(w, now, id, c)
    ensures Stuck(w, Published(now, ok), id, c)
  {
    DrainOneMore(now.batches, Batch(now.fleet.changes, ok));
    ShownInParts(map[], Delivered(now.batches), now.fleet.changes);
    SilentChangesShowNothing(Dashboard(now), now.fleet.changes, id);
    assert Delivered(now.batches) + [] == Delivered(now.batches);
  }

  lemma {:induction false} StaysStuck(w: World, now: World, e: Event, id: LocoId, c: Category)
    requires Stuck(w, now, id, c) && (e.Receive? && e.message.id == Some(id) ==> e.message.category == c)
    ensures Stuck(w, Stepped(now, e), id, c)
  {
    match e
    case Receive(m) => ReceivingStaysStuck(w, now, m, id, c);
    case Publish(ok) => PublishingStaysStuck(w, now, ok, id, c);
  }

  lemma {:induction false} LosingStarts(events: seq<Event>, m: Message)
    requires Moves(After(events), m)
    ensures Stuck(After(events), After(events + [Receive(m), Publish(false)]), m.id.value, m.category)
  {
    TwoMore(events, Receive(m), Publish(false));
    var moved := Received(After(events), m);
    assert m.id.value in moved.fleet.states;
    DrainOneMore(moved.batches, Batch(moved.fleet.changes, false));
    assert Delivered(moved.batches) + [] == Delivered(moved.batches);
  }

  /** A change whose publish fails stays lost: whatever other locomotives do and however many publishes
      succeed, the marker stays as it was until the locomotive changes category again. */
  lemma {:induction false} LostChangeFreezesMarker(events: seq<Event>, m: Message, more: seq<Event>)
    requires Moves(After(events), m) && Steady(more, m.id.value, m.category)
    ensures var w := After(events + [Receive(m), Publish(false)] + more);
            && SameMarker(Dashboard(After(events)), Dashboard(w), m.id.value)
            && m.id.value in w.fleet.states && w.fleet.states[m.id.value].category == m.category
            && !Mentioned(w.fleet.changes, m.id.value)
    decreases |more|
  {
    var start := events + [Receive(m), Publish(false)];
    if more == [] {
      LosingStarts(events, m);
      assert start + [] == start;
    } else {
      var init, e := more[..|more| - 1], more[|more| - 1];
      LostChangeFreezesMarker(events, m, init);
      assert (start + more)[..|start + more| - 1] == start + init;
      StaysStuck(After(events), After(start + init), e, m.id.value, m.category);
    }
  }

  /** So one failed publish can leave a marker wrong for good: here the dashboard shows `b` and the fleet `c`. */
  lemma {:induction false} LostPublishLeavesMarkerStale(id: LocoId, kind: Kind, a: Category, b: Category, c: Category,
                                                        score: real, more: seq<Event>)
    requires a != b && b != c && Steady(more, id, c)
    ensures var (first, second) := (Message(Some(id), kind, Some(score), a), Message(Some(id), kind, Some(score), b));
            var third := Message(Some(id), kind, Some(score), c);
            var w := After([Receive(first), Receive(second), Publish(true)] + [Receive(third), Publish(false)] + more);
            && id in Dashboard(w) && id in w.fleet.states
            && Dashboard(w)[id].category == b && w.fleet.states[id].category == c
  {
    var seen := Receive(Message(Some(id), kind, Some(score), a));
    var m := Message(Some(id), kind, Some(score), b);
    assert After([]).fleet.states == map[];
    assert [seen][..0] == [];
    assert After([seen]) == Received(After([]), seen.message);
    ChangeArrives([seen], m);
    var first := [seen, Receive(m), Publish(true)];
    assert first == [seen] + [Receive(m), Publish(true)];
    LostChangeFreezesMarker(first, Message(Some(id), kind, Some(score), c), more);
  }

  // ----- The fleet itself

  /** A message that counts for a locomotive: it names it, and carries a score. */
  predicate CountsFor(e: Event, id: LocoId) { e.Receive? && e.message.id == Some(id) && e.message.score.Some? }

  /** The latest message that counts decides the state of its locomotive. */
  lemma {:induction false} LatestMessageDecides(events: seq<Event>, i: nat, id: LocoId)
    requires i < |events| && CountsFor(events[i], id)
    requires forall j :: i < j < |events| ==> !CountsFor(events[j], id)
    ensures var (w, m) := (After(events), events[i].message);
            id in w.fleet.states && w.fleet.states[id] == LocoState(id, m.kind, m.score.value, m.category)
    decreases |events|
  {
    if i < |events| - 1 {
      var before := events[..|events| - 1];
      LatestMessageDecides(before, i, id);
    }
  }

  /** And a locomotive that no message counts for is unknown. */
  lemma {:induction false} OthersAreUnknown(events: seq<Event>, id: LocoId)
    requires forall j :: 0 <= j < |events| ==> !CountsFor(events[j], id)
    ensures id !in After(events).fleet.states
    decreases |events|
  {
    if events != [] {
      OthersAreUnknown(events[..|events| - 1], id);
    }
  }

  // ----- The summary

  function InCategory(states: map<LocoId, LocoState>, c: Category): set<LocoId> {
    set id | id in states && states[id].category == c
  }

  lemma {:induction false} InCategoryIff(states: map<LocoId, LocoState>, id: LocoId, c: Category, x: LocoId)
    ensures x in InCategory(states - {id}, c) <==> x in InCategory(states, c) && x != id
  {
  }

  lemma {:induction false} OneLessInCategory(states: map<LocoId, LocoState>, id: LocoId, c: Category)
    requires id in states
    ensures |InCategory(states, c)| == |InCategory(states - {id}, c)| + if states[id].category == c then 1 else 0
  {
    var all, rest := InCategory(states, c), InCategory(states - {id}, c);
    forall x ensures x in rest <==> x in all && x != id {
      InCategoryIff(states, id, c, x);
    }
    if states[id].category == c {
      assert all == rest + {id};
    } else {
      assert all == rest;
    }
  }

  lemma {:induction false} OrderWithoutLast(order: seq<LocoId>, states: map<LocoId, LocoState>)
    requires OrderOk(order, states) && order != []
    ensures var n := |order| - 1;
            && OrderOk(order[..n], states - {order[n]})
            && StatesInOrder(order, states)[..n] == StatesInOrder(order[..n], states - {order[n]})
  {
    var n := |order| - 1;
    forall x | x in states - {order[n]} ensures x in order[..n] {
      assert x in order;
    }
  }

  /** A count of the summary is the number of locomotives in that category. */
  lemma {:induction false} CountsAreSizes(order: seq<LocoId>, states: map<LocoId, LocoState>, c: Category)
    requires OrderOk(order, states)
    ensures Count(StatesInOrder(order, states), c) == |InCategory(states, c)|
    decreases |order|
  {
    if order == [] {
      assert InCategory(states, c) == {};
    } else {
      var n := |order| - 1;
      OrderWithoutLast(order, states);
      CountsAreSizes(order[..n], states - {order[n]}, c);
      OneLessInCategory(states, order[n], c);
    }
  }

  /** The summary's list holds the ten lowest scores of the fleet, ties in order of first appearance. */
  lemma WorstAreLowest(all: seq<LocoState>, x: LocoState)
    ensures var (worst, others) := (StableSort.First(all, ScoreOf, 10), StableSort.Rest(all, ScoreOf, 10));
            && |worst| == Numbers.MinInt(10, |all|)
            && Counting.Occurrences(worst, x) + Counting.Occurrences(others, x) == Counting.Occurrences(all, x)
            && (forall i, j :: 0 <= i < |worst| && 0 <= j < |others| ==> worst[i].score <= others[j].score)
  {
    StableSort.FirstAreSmallest(all, ScoreOf, 10, x);
    var worst, others := StableSort.First(all, ScoreOf, 10), StableSort.Rest(all, ScoreOf, 10);
    forall i, j | 0 <= i < |worst| && 0 <= j < |others| ensures worst[i].score <= others[j].score {
      assert ScoreOf(worst[i]) <= ScoreOf(others[j]);
    }
  }
}
