/** One channel of the WebSocket server: messages fanned out to bounded per-client queues. */
module ChannelRelay {
  import opened Optional

  type ClientId(==, !new)
  type LocoId(==)
  type Body(==)

  /** A message off the channel: not decodable, a record that may name a locomotive, or any other value. */
  datatype Message = Undecodable(body: Body) | Record(body: Body, loco: Option<LocoId>) | Scalar(body: Body)

  /** What goes to the clients: the raw message, or its value in an envelope. */
  datatype Frame = Frame(message: Message, wrapped: bool)

  /** A client's filter, its queue, the frames written to its socket, and whether its sender still runs. */
  datatype Slot = Slot(filter: Option<LocoId>, queue: seq<Frame>, sent: seq<Frame>, sending: bool)

  /** `order` is the insertion order of the dictionary. */
  datatype Relay = Relay(order: seq<ClientId>, slots: map<ClientId, Slot>)

  const QUEUE_MAX: nat := 64

  function NewRelay(): Relay { Relay([], map[]) }

  function FrameOf(m: Message, envelope: bool): Frame { Frame(m, envelope && !m.Undecodable?) }

  /** Asking a decoded value that is no record for its locomotive raises. */
  predicate Raises(filter: Option<LocoId>, m: Message) { filter.Some? && m.Scalar? }

  /** A filter admits records of its locomotive, and everything that cannot be decoded. */
  predicate Admits(filter: Option<LocoId>, m: Message) {
    filter == None || m.Undecodable? || (m.Record? && m.loco == filter)
  }

  /** Enqueues, making room by dropping the oldest frame. */
  function Offered(queue: seq<Frame>, f: Frame): seq<Frame> {
    if |queue| >= QUEUE_MAX then queue[1..] + [f] else queue + [f]
  }

  function Reached(s: Slot, m: Message, envelope: bool): Slot {
    if Admits(s.filter, m) then s.(queue := Offered(s.queue, FrameOf(m, envelope))) else s
  }

  ghost predicate OrderOk(r: Relay) {
    && (forall i :: 0 <= i < |r.order| ==> r.order[i] in r.slots)
    && (forall c :: c in r.slots ==> c in r.order)
    && (forall i, j :: 0 <= i < j < |r.order| ==> r.order[i] != r.order[j])
  }

  /** Clients served before the first one that raises. */
  function Served(r: Relay, m: Message, n: nat): seq<ClientId>
    requires n <= |r.order| && forall i :: 0 <= i < |r.order| ==> r.order[i] in r.slots
    decreases |r.order| - n
  {
    if n == |r.order| || Raises(r.slots[r.order[n]].filter, m) then r.order[..n] else Served(r, m, n + 1)
  }

  function AllReached(slots: map<ClientId, Slot>, served: seq<ClientId>, m: Message,
                      envelope: bool): map<ClientId, Slot>
  {
    map c | c in slots :: if c in served then Reached(slots[c], m, envelope) else slots[c]
  }

  function FannedOut(r: Relay, m: Message, envelope: bool): Relay
    requires forall i :: 0 <= i < |r.order| ==> r.order[i] in r.slots
  {
    r.(slots := AllReached(r.slots, Served(r, m, 0), m, envelope))
  }

  function Added(r: Relay, c: ClientId, filter: Option<LocoId>): Relay {
    Relay(if c in r.slots then r.order else r.order + [c], r.slots[c := Slot(filter, [], [], true)])
  }

  function Without(order: seq<ClientId>, c: ClientId): (o: seq<ClientId>)
    ensures forall x :: x in o <==> x in order && x != c
    decreases |order|
  {
    if order == [] then []
    else Without(order[..|order| - 1], c) + if order[|order| - 1] == c then [] else [order[|order| - 1]]
  }

  function Removed(r: Relay, c: ClientId): Relay { Relay(Without(r.order, c), r.slots - {c}) }

  /** One turn of the sender: takes the oldest frame and writes it; a failed write ends the sender. */
  function SentOne(s: Slot, ok: bool): Slot {
    if !s.sending || s.queue == [] then s
    else if ok then s.(queue := s.queue[1..], sent := s.sent + [s.queue[0]])
    else s.(queue := s.queue[1..], sending := false)
  }

  function Sent(r: Relay, c: ClientId, ok: bool): Relay {
    if c in r.slots then r.(slots := r.slots[c := SentOne(r.slots[c], ok)]) else r
  }

  lemma {:induction false} OneMoreReached(slots: map<ClientId, Slot>, served: seq<ClientId>, c: ClientId, m: Message,
                                          envelope: bool)
    requires c in slots && c !in served
    ensures AllReached(slots, served, m, envelope)[c] == slots[c]
    ensures AllReached(slots, served + [c], m, envelope)
         == AllReached(slots, served, m, envelope)[c := Reached(slots[c], m, envelope)]
  {
  }

  lemma {:induction false} NextInOrder(r: Relay, i: nat, m: Message, envelope: bool)
    requires OrderOk(r) && i < |r.order|
    ensures var (c, now) := (r.order[i], AllReached(r.slots, r.order[..i], m, envelope));
            && now[c] == r.slots[c]
            && AllReached(r.slots, r.order[..i + 1], m, envelope) == now[c := Reached(r.slots[c], m, envelope)]
  {
    assert r.order[i] !in r.order[..i] && r.order[..i + 1] == r.order[..i] + [r.order[i]];
    OneMoreReached(r.slots, r.order[..i], r.order[i], m, envelope);
  }

  lemma {:induction false} FanningKeepsOrder(r: Relay, slots: map<ClientId, Slot>)
    requires OrderOk(r) && slots.Keys == r.slots.Keys
    ensures OrderOk(Relay(r.order, slots))
  {
  }

  lemma {:induction false} WithoutKeepsDistinct(order: seq<ClientId>, c: ClientId)
    requires forall i, j :: 0 <= i < j < |order| ==> order[i] != order[j]
    ensures forall i, j :: 0 <= i < j < |Without(order, c)| ==> Without(order, c)[i] != Without(order, c)[j]
    decreases |order|
  {
    if order != [] {
      WithoutKeepsDistinct(order[..|order| - 1], c);
      var rest := Without(order[..|order| - 1], c);
      forall i | 0 <= i < |rest| ensures rest[i] != order[|order| - 1] {
        assert rest[i] in rest;
      }
    }
  }

  class ChannelRelay {
    const envelope: bool
    var order: seq<ClientId>
    var slots: map<ClientId, Slot>

    function View(): Relay
      reads this
    {
      Relay(order, slots)
    }

    constructor (envelope: bool)
      ensures View() == NewRelay() && OrderOk(View()) && this.envelope == envelope
    {
      this.envelope, order, slots := envelope, [], map[];
    }

    /** `add_client`. */
    method AddClient(c: ClientId, filter: Option<LocoId>)
      requires OrderOk(View())
      modifies this
      ensures OrderOk(View()) && View() == Added(old(View()), c, filter)
    {
      if c !in slots {
        order := order + [c];
      }
      slots := slots[c := Slot(filter, [], [], true)];
    }

    /** `remove_client`. */
    method RemoveClient(c: ClientId) returns (remaining: nat)
      requires OrderOk(View())
      modifies this
      ensures OrderOk(View()) && View() == Removed(old(View()), c)
      ensures remaining == |slots|
    {
      WithoutKeepsDistinct(order, c);
      order, slots := Without(order, c), slots - {c};
      forall i | 0 <= i < |order| ensures order[i] in slots {
        assert order[i] in order;
      }
      remaining := |slots|;
    }

    /** The fan-out of one message to one client; false when asking for its locomotive raises. */
    method Serve(slot: Slot, m: Message) returns (next: Slot, ok: bool)
      ensures ok <==> !Raises(slot.filter, m)
      ensures ok ==> next == Reached(slot, m, envelope)
    {
      if slot.filter.Some? && !m.Undecodable? {
        if m.Scalar? {
          return slot, false;
        }
        if m.loco != slot.filter {
          return slot, true;
        }
      }
      var queue := slot.queue;
      if |queue| >= QUEUE_MAX {
        queue := queue[1..];
      }
      return slot.(queue := queue + [FrameOf(m, envelope)]), true;
    }

    /** The loop over the clients; ends at the first that raises. */
    method ServeAll(m: Message) returns (ok: bool)
      requires OrderOk(View())
      modifies this`slots
      ensures slots == AllReached(old(slots), Served(old(View()), m, 0), m, envelope)
      ensures ok <==> |Served(old(View()), m, 0)| == |order|
    {
      ghost var r := View();
      for i := 0 to |order|
        invariant Served(r, m, 0) == Served(r, m, i)
        invariant slots == AllReached(r.slots, r.order[..i], m, envelope)
      {
        NextInOrder(r, i, m, envelope);
        var next, served := Serve(slots[order[i]], m);
        if !served {
          return false;
        }
        slots := slots[order[i] := next];
      }
      assert order[..|order|] == order;
      return true;
    }

    /** The fan-out of one message; false when a client raised and ended it. */
    method FanOut(m: Message) returns (ok: bool)
      requires OrderOk(View())
      modifies this`slots
      ensures OrderOk(View()) && View() == FannedOut(old(View()), m, envelope)
      ensures ok <==> |Served(old(View()), m, 0)| == |order|
    {
      ok := ServeAll(m);
      FanningKeepsOrder(old(View()), slots);
    }

    /** One turn of `_sender_loop` for one client. */
    method SendNext(c: ClientId, ok: bool)
      requires OrderOk(View())
      modifies this`slots
      ensures OrderOk(View()) && View() == Sent(old(View()), c, ok)
    {
      if c in slots && slots[c].sending && slots[c].queue != [] {
        var slot := slots[c];
        var frame, rest := slot.queue[0], slot.queue[1..];
        if ok {
          slots := slots[c := slot.(queue := rest, sent := slot.sent + [frame])];
        } else {
          slots := slots[c := slot.(queue := rest, sending := false)];
        }
      }
    }
  }
}

/** What one client gets, whatever the others do. */
module FanOutTheorems {
  import opened Optional
  import opened ChannelRelay

  datatype Event = Add(client: ClientId, filter: Option<LocoId>) | Remove(client: ClientId)
    | Fan(message: Message) | Send(client: ClientId, ok: bool)

  function Stepped(r: Relay, e: Event, envelope: bool): Relay
    requires OrderOk(r)
  {
    match e
    case Add(c, filter) => Added(r, c, filter)
    case Remove(c) => Removed(r, c)
    case Fan(m) => FannedOut(r, m, envelope)
    case Send(c, ok) => Sent(r, c, ok)
  }

  lemma {:induction false} StepKeepsOrder(r: Relay, e: Event, envelope: bool)
    requires OrderOk(r)
    ensures OrderOk(Stepped(r, e, envelope))
  {
    if e.Remove? {
      WithoutKeepsDistinct(r.order, e.client);
      forall i | 0 <= i < |Without(r.order, e.client)| ensures Without(r.order, e.client)[i] in r.slots - {e.client} {
        assert Without(r.order, e.client)[i] in Without(r.order, e.client);
      }
    }
  }

  function After(events: seq<Event>, envelope: bool): (r: Relay)
    ensures OrderOk(r)
    decreases |events|
  {
    if events == [] then NewRelay()
    else
      var before := After(events[..|events| - 1], envelope);
      StepKeepsOrder(before, events[|events| - 1], envelope);
      Stepped(before, events[|events| - 1], envelope)
  }

  // ----- Which clients a message reaches

  lemma {:induction false} ServedIsPrefix(r: Relay, m: Message, n: nat)
    requires OrderOk(r) && n <= |r.order|
    ensures var k := |Served(r, m, n)|;
            && n <= k <= |r.order| && Served(r, m, n) == r.order[..k]
            && (forall i :: n <= i < k ==> !Raises(r.slots[r.order[i]].filter, m))
            && (k < |r.order| ==> Raises(r.slots[r.order[k]].filter, m))
    decreases |r.order| - n
  {
    if n < |r.order| && !Raises(r.slots[r.order[n]].filter, m) {
      ServedIsPrefix(r, m, n + 1);
    }
  }

  /** A message reaches the i-th client exactly when it raises for no client up to and including that one:
      only a decoded value that is no record can be cut off, and only by clients with a filter. */
  lemma {:induction false} ReachesIff(r: Relay, m: Message, i: nat)
    requires OrderOk(r) && i < |r.order|
    ensures r.order[i] in Served(r, m, 0) <==>
              forall j :: 0 <= j <= i ==> !(m.Scalar? && r.slots[r.order[j]].filter.Some?)
  {
    ServedIsPrefix(r, m, 0);
    InPrefixIff(r, |Served(r, m, 0)|, i);
  }

  lemma {:induction false} InPrefixIff(r: Relay, k: nat, i: nat)
    requires OrderOk(r) && i < |r.order| && k <= |r.order|
    ensures r.order[i] in r.order[..k] <==> i < k
  {
    if i < k {
      assert r.order[..k][i] == r.order[i];
    }
  }

  lemma RecordsReachAll(r: Relay, m: Message, c: ClientId)
    requires OrderOk(r) && c in r.slots && !m.Scalar?
    ensures c in Served(r, m, 0)
  {
    var i :| 0 <= i < |r.order| && r.order[i] == c;
    ReachesIff(r, m, i);
  }

  // ----- Isolation

  /** A client's slot, from its own additions, removals and sends and the messages alone. */
  function Alone(events: seq<Event>, c: ClientId, envelope: bool): Option<Slot>
    decreases |events|
  {
    if events == [] then None
    else AloneAfter(Alone(events[..|events| - 1], c, envelope), events[|events| - 1], c, envelope)
  }

  function AloneAfter(s: Option<Slot>, e: Event, c: ClientId, envelope: bool): Option<Slot> {
    match e
    case Add(d, filter) => if d == c then Some(Slot(filter, [], [], true)) else s
    case Remove(d) => if d == c then None else s
    case Fan(m) => if s.Some? then Some(Reached(s.value, m, envelope)) else s
    case Send(d, ok) => if d == c && s.Some? then Some(SentOne(s.value, ok)) else s
  }

  function SlotOf(r: Relay, c: ClientId): Option<Slot> { if c in r.slots then Some(r.slots[c]) else None }

  lemma {:induction false} FanIsIsolated(r: Relay, m: Message, c: ClientId, envelope: bool)
    requires OrderOk(r) && !m.Scalar?
    ensures SlotOf(FannedOut(r, m, envelope), c) == AloneAfter(SlotOf(r, c), Fan(m), c, envelope)
  {
    if c in r.slots {
      RecordsReachAll(r, m, c);
    }
  }

  lemma {:induction false} StepIsIsolated(r: Relay, e: Event, c: ClientId, envelope: bool)
    requires OrderOk(r) && (e.Fan? ==> !e.message.Scalar?)
    ensures SlotOf(Stepped(r, e, envelope), c) == AloneAfter(SlotOf(r, c), e, c, envelope)
  {
    if e.Fan? {
      FanIsIsolated(r, e.message, c, envelope);
    }
  }

  ghost predicate NoScalars(events: seq<Event>) {
    forall i :: 0 <= i < |events| && events[i].Fan? ==> !events[i].message.Scalar?
  }

  /** Isolation: as long as the channel carries no decodable value that is not a record, what a client has
      queued and sent depends on its own calls only - no other client's filter, slowness or failure matters. */
  lemma {:induction false} ClientsAreIsolated(events: seq<Event>, c: ClientId, envelope: bool)
    requires NoScalars(events)
    ensures SlotOf(After(events, envelope), c) == Alone(events, c, envelope)
    decreases |events|
  {
    if events != [] {
      var before, e := events[..|events| - 1], events[|events| - 1];
      ClientsAreIsolated(before, c, envelope);
      StepIsIsolated(After(before, envelope), e, c, envelope);
    }
  }

  /** For any other value isolation holds exactly up to the first filtered client: an unfiltered client with
      room in its queue gets it exactly when no client before it in the order has a filter; otherwise nothing
      changes for it. */
  lemma {:induction false} ScalarIsCutOffIff(r: Relay, m: Message, i: nat, envelope: bool)
    requires OrderOk(r) && i < |r.order| && m.Scalar? && r.slots[r.order[i]].filter == None
    ensures var c, free := r.order[i], forall j :: 0 <= j < i ==> r.slots[r.order[j]].filter == None;
            && SlotOf(FannedOut(r, m, envelope), c) == (if free then AloneAfter(SlotOf(r, c), Fan(m), c, envelope)
                                                        else SlotOf(r, c))
            && (|r.slots[c].queue| < QUEUE_MAX ==>
                  (SlotOf(FannedOut(r, m, envelope), c) == AloneAfter(SlotOf(r, c), Fan(m), c, envelope) <==> free))
  {
    var c := r.order[i];
    ReachesIff(r, m, i);
    assert |r.slots[c].queue| < QUEUE_MAX ==> |Reached(r.slots[c], m, envelope).queue| == |r.slots[c].queue| + 1;
  }

  // ----- What a client gets

  /** The frames meant for a client since it was last added. */
  function Meant(events: seq<Event>, c: ClientId, envelope: bool): seq<Frame>
    decreases |events|
  {
    if events == [] then []
    else MeantAfter(Meant(events[..|events| - 1], c, envelope), Alone(events[..|events| - 1], c, envelope),
                    events[|events| - 1], c, envelope)
  }

  function MeantAfter(before: seq<Frame>, s: Option<Slot>, e: Event, c: ClientId, envelope: bool): seq<Frame> {
    match e
    case Add(d, _) => if d == c then [] else before
    case Remove(d) => if d == c then [] else before
    case Fan(m) => if s.Some? && Admits(s.value.filter, m) then before + [FrameOf(m, envelope)] else before
    case Send(_, _) => before
  }

  /** `a` is what is left of `b` after leaving some elements out. */
  predicate Subsequence(a: seq<Frame>, b: seq<Frame>)
    decreases |b|
  {
    if a == [] then true
    else if b == [] then false
    else if a[|a| - 1] == b[|b| - 1] && Subsequence(a[..|a| - 1], b[..|b| - 1]) then true
    else Subsequence(a, b[..|b| - 1])
  }

  lemma {:induction false} SubsequenceSkips(a: seq<Frame>, b: seq<Frame>, f: Frame)
    requires Subsequence(a, b)
    ensures Subsequence(a, b + [f])
  {
    assert (b + [f])[..|b|] == b;
  }

  lemma {:induction false} SubsequenceTakes(a: seq<Frame>, b: seq<Frame>, f: Frame)
    requires Subsequence(a, b)
    ensures Subsequence(a + [f], b + [f])
  {
    assert (a + [f])[..|a|] == a && (b + [f])[..|b|] == b;
  }

  lemma {:induction false} SubsequenceLength(a: seq<Frame>, b: seq<Frame>)
    requires Subsequence(a, b)
    ensures |a| <= |b| && (|a| == |b| ==> a == b)
    decreases |b|
  {
    if a != [] {
      if a[|a| - 1] == b[|b| - 1] && Subsequence(a[..|a| - 1], b[..|b| - 1]) {
        SubsequenceLength(a[..|a| - 1], b[..|b| - 1]);
        assert a == a[..|a| - 1] + [a[|a| - 1]] && b == b[..|b| - 1] + [b[|b| - 1]];
      } else {
        SubsequenceLength(a, b[..|b| - 1]);
      }
    }
  }

  /** The queue is the newest part of these frames, and what was sent comes, in order, from the part before it. */
  ghost predicate InOrder(s: Slot, meant: seq<Frame>) {
    && |s.queue| <= QUEUE_MAX && |s.queue| <= |meant|
    && s.queue == meant[|meant| - |s.queue|..]
    && Subsequence(s.sent, meant[..|meant| - |s.queue|])
  }

  lemma {:induction false} OfferKeepsOrder(s: Slot, meant: seq<Frame>, f: Frame)
    requires InOrder(s, meant)
    ensures InOrder(s.(queue := Offered(s.queue, f)), meant + [f])
  {
    var k := |meant| - |s.queue|;
    if |s.queue| >= QUEUE_MAX {
      assert (meant + [f])[..k + 1] == meant[..k] + [meant[k]];
      SubsequenceSkips(s.sent, meant[..k], meant[k]);
    } else {
      assert (meant + [f])[..k] == meant[..k];
    }
  }

  lemma {:induction false} TakeOldest(s: Slot, meant: seq<Frame>, k: nat)
    requires InOrder(s, meant) && s.queue != [] && k == |meant| - |s.queue|
    ensures meant[..k + 1] == meant[..k] + [s.queue[0]] && s.queue[1..] == meant[k + 1..]
  {
  }

  lemma {:induction false} SendKeepsOrder(s: Slot, meant: seq<Frame>, ok: bool)
    requires InOrder(s, meant)
    ensures InOrder(SentOne(s, ok), meant)
  {
    if s.sending && s.queue != [] {
      var k := |meant| - |s.queue|;
      TakeOldest(s, meant, k);
      SubsequenceTakes(s.sent, meant[..k], s.queue[0]);
      SubsequenceSkips(s.sent, meant[..k], s.queue[0]);
      assert |meant| - |s.queue[1..]| == k + 1;
    }
  }

  /** The frames that got to a client since it was last added: those it admits, of the messages that no client
      up to it in the order cut off. */
  function Got(events: seq<Event>, c: ClientId, envelope: bool): seq<Frame>
    decreases |events|
  {
    if events == [] then []
    else GotAfter(Got(events[..|events| - 1], c, envelope), After(events[..|events| - 1], envelope),
                  events[|events| - 1], c, envelope)
  }

  predicate Gets(r: Relay, m: Message, c: ClientId)
    requires OrderOk(r)
  {
    c in r.slots && c in Served(r, m, 0) && Admits(r.slots[c].filter, m)
  }

  function GotAfter(got: seq<Frame>, r: Relay, e: Event, c: ClientId, envelope: bool): seq<Frame>
    requires OrderOk(r)
  {
    match e
    case Add(d, _) => if d == c then [] else got
    case Remove(d) => if d == c then [] else got
    case Fan(m) => if Gets(r, m, c) then got + [FrameOf(m, envelope)] else got
    case Send(_, _) => got
  }

  lemma {:induction false} StepKeepsInOrder(r: Relay, e: Event, c: ClientId, envelope: bool, got: seq<Frame>)
    requires OrderOk(r) && (c in r.slots ==> InOrder(r.slots[c], got)) && c in Stepped(r, e, envelope).slots
    ensures InOrder(Stepped(r, e, envelope).slots[c], GotAfter(got, r, e, c, envelope))
  {
    if e.Fan? && Gets(r, e.message, c) {
      OfferKeepsOrder(r.slots[c], got, FrameOf(e.message, envelope));
    } else if e.Send? && e.client == c {
      SendKeepsOrder(r.slots[c], got, e.ok);
    }
  }

  lemma {:induction false} SlotsAreInOrder(events: seq<Event>, c: ClientId, envelope: bool)
    requires c in After(events, envelope).slots
    ensures InOrder(After(events, envelope).slots[c], Got(events, c, envelope))
    decreases |events|
  {
    var before, e := events[..|events| - 1], events[|events| - 1];
    if c in After(before, envelope).slots {
      SlotsAreInOrder(before, c, envelope);
    }
    StepKeepsInOrder(After(before, envelope), e, c, envelope, Got(before, c, envelope));
  }

  lemma {:induction false} CompleteIff(s: Slot, meant: seq<Frame>)
    requires InOrder(s, meant)
    ensures s.sent + s.queue == meant <==> |s.sent| + |s.queue| == |meant|
  {
    var k := |meant| - |s.queue|;
    SubsequenceLength(s.sent, meant[..k]);
    assert meant == meant[..k] + s.queue;
  }

  /** For every client on every run, whatever the channel carries: its queue is a suffix, of at most 64 frames, of
      the frames that got to it; what it was sent is an in-order selection of the earlier ones, and is all of them
      exactly when their numbers agree. */
  lemma {:induction false} ClientSeesItsMessagesInOrder(events: seq<Event>, c: ClientId, envelope: bool, s: Slot)
    requires SlotOf(After(events, envelope), c) == Some(s)
    ensures InOrder(s, Got(events, c, envelope))
    ensures s.sent + s.queue == Got(events, c, envelope) <==> |s.sent| + |s.queue| == |Got(events, c, envelope)|
  {
    SlotsAreInOrder(events, c, envelope);
    CompleteIff(s, Got(events, c, envelope));
  }

  /** Who gets a message: a client that no filtered client up to it keeps from a value that is no record, and whose
      filter, if it has one, is the locomotive of the record; what cannot be decoded goes to everyone. */
  lemma {:induction false} GetsIff(r: Relay, m: Message, i: nat)
    requires OrderOk(r) && i < |r.order|
    ensures Gets(r, m, r.order[i]) <==>
              match m
              case Undecodable(_) => true
              case Record(_, loco) => r.slots[r.order[i]].filter == None || r.slots[r.order[i]].filter == loco
              case Scalar(_) => forall j :: 0 <= j <= i ==> r.slots[r.order[j]].filter == None
  {
    ReachesIff(r, m, i);
  }

  /** What gets to it: the message, in the envelope of the channel if there is one and the message can be decoded. */
  lemma {:induction false} MessageArrives(events: seq<Event>, m: Message, c: ClientId, envelope: bool)
    ensures var frame := Frame(m, envelope && (m.Record? || m.Scalar?));
            Got(events + [Fan(m)], c, envelope) ==
              Got(events, c, envelope) + if Gets(After(events, envelope), m, c) then [frame] else []
  {
    assert (events + [Fan(m)])[..|events|] == events;
  }

  /** The frames a client loses since it was last added: the oldest of a full queue for each newcomer, and the one in
      hand when a write fails. */
  function LostOf(events: seq<Event>, c: ClientId, envelope: bool): nat
    decreases |events|
  {
    if events == [] then 0
    else LostAfter(LostOf(events[..|events| - 1], c, envelope), After(events[..|events| - 1], envelope),
                   events[|events| - 1], c)
  }

  function LostAfter(lost: nat, r: Relay, e: Event, c: ClientId): nat
    requires OrderOk(r)
  {
    match e
    case Add(d, _) => if d == c then 0 else lost
    case Remove(d) => if d == c then 0 else lost
    case Fan(m) => lost + if Gets(r, m, c) && |r.slots[c].queue| >= 64 then 1 else 0
    case Send(d, ok) =>
      lost + if d == c && c in r.slots && r.slots[c].sending && r.slots[c].queue != [] && !ok then 1 else 0
  }

  lemma {:induction false} StepAccounts(r: Relay, e: Event, c: ClientId, envelope: bool, got: seq<Frame>, lost: nat)
    requires OrderOk(r) && c in Stepped(r, e, envelope).slots
    requires c in r.slots ==> |r.slots[c].sent| + |r.slots[c].queue| + lost == |got|
    ensures var s := Stepped(r, e, envelope).slots[c];
            |s.sent| + |s.queue| + LostAfter(lost, r, e, c) == |GotAfter(got, r, e, c, envelope)|
  {
  }

  /** Every frame that got to a client is sent, queued or lost in one of these two ways: nothing is dropped while there
      is room, and nothing is sent twice. */
  lemma {:induction false} EveryFrameIsAccountedFor(events: seq<Event>, c: ClientId, envelope: bool)
    requires c in After(events, envelope).slots
    ensures var s := After(events, envelope).slots[c];
            |s.sent| + |s.queue| + LostOf(events, c, envelope) == |Got(events, c, envelope)|
    decreases |events|
  {
    var before, e := events[..|events| - 1], events[|events| - 1];
    if c in After(before, envelope).slots {
      EveryFrameIsAccountedFor(before, c, envelope);
    }
    StepAccounts(After(before, envelope), e, c, envelope, Got(before, c, envelope), LostOf(before, c, envelope));
  }

  /** The client's sender has ended, having sent these frames. */
  ghost predicate IsSilent(r: Relay, c: ClientId, sent: seq<Frame>) {
    c in r.slots && !r.slots[c].sending && r.slots[c].sent == sent
  }

  lemma {:induction false} StepStaysSilent(r: Relay, e: Event, c: ClientId, envelope: bool, sent: seq<Frame>)
    requires OrderOk(r) && IsSilent(r, c, sent) && e != Remove(c) && !(e.Add? && e.client == c)
    ensures IsSilent(Stepped(r, e, envelope), c, sent)
  {
  }

  lemma {:induction false} OneEventMoreStaysSilent(events: seq<Event>, e: Event, c: ClientId, envelope: bool,
                                                   sent: seq<Frame>)
    requires IsSilent(After(events, envelope), c, sent) && e != Remove(c) && !(e.Add? && e.client == c)
    ensures IsSilent(After(events + [e], envelope), c, sent)
  {
    assert (events + [e])[..|events|] == events;
    StepStaysSilent(After(events, envelope), e, c, envelope, sent);
  }

  /** Nothing adds or removes the client. */
  ghost predicate LeavesAlone(events: seq<Event>, c: ClientId) {
    forall i :: 0 <= i < |events| ==> events[i] != Remove(c) && !(events[i].Add? && events[i].client == c)
  }

  lemma {:induction false} StaysSilentUpTo(events: seq<Event>, more: seq<Event>, n: nat, c: ClientId, envelope: bool,
                                           sent: seq<Frame>)
    requires IsSilent(After(events, envelope), c, sent) && LeavesAlone(more, c) && n <= |more|
    ensures IsSilent(After(events + more[..n], envelope), c, sent)
    decreases n
  {
    if n == 0 {
      assert events + more[..0] == events;
    } else {
      StaysSilentUpTo(events, more, n - 1, c, envelope, sent);
      assert events + more[..n] == events + more[..n - 1] + [more[n - 1]];
      OneEventMoreStaysSilent(events + more[..n - 1], more[n - 1], c, envelope, sent);
    }
  }

  /** A failed write ends the sender: from then on nothing more is sent, whatever is queued, until the client is added
      again. */
  lemma {:induction false} DeadSenderIsSilent(events: seq<Event>, more: seq<Event>, c: ClientId, envelope: bool,
                                              sent: seq<Frame>)
    requires IsSilent(After(events, envelope), c, sent) && LeavesAlone(more, c)
    ensures IsSilent(After(events + more, envelope), c, sent)
  {
    StaysSilentUpTo(events, more, |more|, c, envelope, sent);
    assert more[..|more|] == more;
  }

  lemma {:induction false} FailedWriteEndsTheSender(r: Relay, c: ClientId, envelope: bool)
    requires OrderOk(r) && c in r.slots && r.slots[c].queue != []
    ensures IsSilent(Stepped(r, Send(c, false), envelope), c, r.slots[c].sent)
  {
  }

  lemma {:induction false} OneEventGetsAllMeant(r: Relay, e: Event, c: ClientId, envelope: bool, got: seq<Frame>)
    requires OrderOk(r) && (e.Fan? ==> !e.message.Scalar?)
    ensures GotAfter(got, r, e, c, envelope) == MeantAfter(got, SlotOf(r, c), e, c, envelope)
  {
    if e.Fan? && c in r.slots {
      RecordsReachAll(r, e.message, c);
    }
  }

  /** Without a value that is no record, these are all the frames that match its filter. */
  lemma {:induction false} AllThatIsMeantArrives(events: seq<Event>, c: ClientId, envelope: bool)
    requires NoScalars(events)
    ensures Got(events, c, envelope) == Meant(events, c, envelope)
    decreases |events|
  {
    if events != [] {
      var before, e := events[..|events| - 1], events[|events| - 1];
      AllThatIsMeantArrives(before, c, envelope);
      ClientsAreIsolated(before, c, envelope);
      OneEventGetsAllMeant(After(before, envelope), e, c, envelope, Got(before, c, envelope));
    }
  }

  /** So on such runs a client's queue is the newest part of all that matches its filter. */
  lemma {:induction false} ClientSeesAllItsMessages(events: seq<Event>, c: ClientId, envelope: bool, s: Slot)
    requires NoScalars(events) && SlotOf(After(events, envelope), c) == Some(s)
    ensures InOrder(s, Meant(events, c, envelope))
    ensures s.sent + s.queue == Meant(events, c, envelope) <==>
              |s.sent| + |s.queue| == |Meant(events, c, envelope)|
  {
    ClientSeesItsMessagesInOrder(events, c, envelope, s);
    AllThatIsMeantArrives(events, c, envelope);
  }
}
