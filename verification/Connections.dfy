/** The connection manager: which socket listens to which channel, under a cap on sockets. */
module ConnectionManager {
  import opened Optional
  import opened ChannelRelay

  type Channel(==, !new)

  /** `connections` holds the channels of every connected socket, `relays` the clients of every channel. */
  datatype Hub = Hub(relays: map<Channel, Relay>, connections: map<ClientId, set<Channel>>)

  function ChannelsOf(h: Hub, ws: ClientId): set<Channel> { if ws in h.connections then h.connections[ws] else {} }

  function Accepted(h: Hub, ws: ClientId, limit: nat): Hub {
    if |h.connections| >= limit then h else h.(connections := h.connections[ws := {}])
  }

  /** The locked half of `subscribe`. */
  function Registered(h: Hub, ws: ClientId, ch: Channel): Hub {
    Hub(if ch in h.relays then h.relays else h.relays[ch := NewRelay()],
        h.connections[ws := ChannelsOf(h, ws) + {ch}])
  }

  /** The other half; it fails when the channel has no relay. */
  function Joined(h: Hub, ws: ClientId, ch: Channel, filter: Option<LocoId>): Hub
    requires ch in h.relays
  {
    h.(relays := h.relays[ch := Added(h.relays[ch], ws, filter)])
  }

  function Subscribed(h: Hub, ws: ClientId, ch: Channel, filter: Option<LocoId>): Hub {
    Joined(Registered(h, ws, ch), ws, ch, filter)
  }

  /** Takes a client out of one channel, and the relay away with its last client. */
  function Left(relays: map<Channel, Relay>, ws: ClientId, ch: Channel): map<Channel, Relay> {
    if ch !in relays then relays
    else if Removed(relays[ch], ws).slots == map[] then relays - {ch}
    else relays[ch := Removed(relays[ch], ws)]
  }

  /** The relays after a client has left a set of channels. */
  function LeftAll(relays: map<Channel, Relay>, ws: ClientId, channels: set<Channel>): map<Channel, Relay> {
    map ch | ch in relays && !(ch in channels && Removed(relays[ch], ws).slots == map[]) ::
      if ch in channels then Removed(relays[ch], ws) else relays[ch]
  }

  function Disconnected(h: Hub, ws: ClientId): Hub {
    Hub(LeftAll(h.relays, ws, ChannelsOf(h, ws)), h.connections - {ws})
  }

  /** The steps of `disconnect` up to the point where it waits for the manager's lock: the socket is off the
      list, has left the channels in `left` for good, and has just left `ch`, whose relay it will drop. */
  function WaitingToDrop(h: Hub, ws: ClientId, left: set<Channel>, ch: Channel): Hub
    requires ch in h.relays && ch !in left
  {
    Hub(LeftAll(h.relays, ws, left)[ch := Removed(h.relays[ch], ws)], h.connections - {ws})
  }

  /** What `disconnect` does once it has the lock again. */
  function Dropped(h: Hub, ch: Channel): Hub { h.(relays := h.relays - {ch}) }

  lemma {:induction false} LeavingOneMore(relays: map<Channel, Relay>, ws: ClientId, gone: set<Channel>, ch: Channel)
    requires ch !in gone
    ensures LeftAll(relays, ws, gone + {ch}) == Left(LeftAll(relays, ws, gone), ws, ch)
  {
  }

  class ConnectionManager {
    const limit: nat
    var relays: map<Channel, Relay>
    var connections: map<ClientId, set<Channel>>

    function View(): Hub
      reads this
    {
      Hub(relays, connections)
    }

    constructor (limit: nat)
      ensures View() == Hub(map[], map[]) && this.limit == limit
    {
      this.limit, relays, connections := limit, map[], map[];
    }

    /** `accept`: false when the cap is reached. */
    method Accept(ws: ClientId) returns (ok: bool)
      modifies this`connections
      ensures ok <==> |old(connections)| < limit
      ensures View() == Accepted(old(View()), ws, limit)
    {
      if |connections| >= limit {
        return false;
      }
      connections := connections[ws := {}];
      return true;
    }

    /** `subscribe`, as one step. */
    method Subscribe(ws: ClientId, ch: Channel, filter: Option<LocoId>)
      modifies this
      ensures View() == Subscribed(old(View()), ws, ch, filter)
    {
      if ch !in relays {
        relays := relays[ch := NewRelay()];
      }
      connections := connections[ws := (if ws in connections then connections[ws] else {}) + {ch}];
      relays := relays[ch := Added(relays[ch], ws, filter)];
    }

    /** `disconnect`, as one step. */
    method Disconnect(ws: ClientId)
      modifies this
      ensures View() == Disconnected(old(View()), ws)
    {
      var channels := if ws in connections then connections[ws] else {};
      connections := connections - {ws};
      var rest := channels;
      assert LeftAll(relays, ws, {}) == relays;
      while rest != {}
        invariant rest <= channels && connections == old(connections) - {ws}
        invariant relays == LeftAll(old(relays), ws, channels - rest)
        decreases rest
      {
        var ch :| ch in rest;
        LeavingOneMore(old(relays), ws, channels - rest, ch);
        assert channels - (rest - {ch}) == channels - rest + {ch};
        if ch in relays {
          var relay := Removed(relays[ch], ws);
          relays := if relay.slots == map[] then relays - {ch} else relays[ch := relay];
        }
        rest := rest - {ch};
      }
      assert channels - {} == channels;
    }
  }
}

/** Relay membership and the sockets' channel sets agree. */
module ConnectionTheorems {
  import opened Optional
  import opened ChannelRelay
  import opened ConnectionManager

  ghost predicate IsMember(h: Hub, ws: ClientId, ch: Channel) { ch in h.relays && ws in h.relays[ch].slots }

  /** A socket is a client of a channel's relay exactly when the channel is in its set. */
  ghost predicate Consistent(h: Hub) {
    forall ws, ch :: IsMember(h, ws, ch) <==> ch in ChannelsOf(h, ws)
  }

  /** Membership is right, and no relay is empty. */
  ghost predicate Sane(h: Hub) { Consistent(h) && RelaysOk(h, {}) }

  // ----- A hub in the middle of a call

  type Places = set<(ClientId, Channel)>

  /** Membership is right but for the `extra` clients still in a relay, the channels still `missing` a client,
      and the `hollow` relays that may be empty. */
  ghost predicate InFlux(h: Hub, extra: Places, missing: Places, hollow: set<Channel>) {
    && (forall ws, ch :: ch in ChannelsOf(h, ws) ==> IsMember(h, ws, ch) || (ws, ch) in missing)
    && (forall ws, ch :: IsMember(h, ws, ch) ==> ch in ChannelsOf(h, ws) || (ws, ch) in extra)
    && RelaysOk(h, hollow)
  }

  ghost predicate RelaysOk(h: Hub, hollow: set<Channel>) {
    forall ch :: ch in h.relays ==> OrderOk(h.relays[ch]) && (ch in hollow || h.relays[ch].slots != map[])
  }

  lemma {:induction false} SaneIsNoFlux(h: Hub)
    ensures Sane(h) <==> InFlux(h, {}, {}, {})
  {
    if InFlux(h, {}, {}, {}) {
      forall ws, ch ensures IsMember(h, ws, ch) <==> ch in ChannelsOf(h, ws) {
      }
    }
  }

  /** Accepting keeps membership right exactly when it is refused or the socket had no channels yet. */
  lemma {:induction false} AcceptKeepsIff(h: Hub, ws: ClientId, limit: nat)
    requires Consistent(h)
    ensures Consistent(Accepted(h, ws, limit)) <==> |h.connections| >= limit || ChannelsOf(h, ws) == {}
    ensures |h.connections| <= limit ==> |Accepted(h, ws, limit).connections| <= limit
  {
    var g := Accepted(h, ws, limit);
    if |h.connections| < limit {
      if ChannelsOf(h, ws) != {} {
        var ch :| ch in ChannelsOf(h, ws);
        assert IsMember(h, ws, ch) && IsMember(g, ws, ch) && ch !in ChannelsOf(g, ws);
      } else {
        forall x, ch ensures IsMember(g, x, ch) <==> ch in ChannelsOf(g, x) {
          assert IsMember(h, x, ch) <==> ch in ChannelsOf(h, x);
        }
      }
    }
  }

  lemma {:induction false} AddingKeepsOrder(r: Relay, c: ClientId, filter: Option<LocoId>)
    requires OrderOk(r)
    ensures OrderOk(Added(r, c, filter))
  {
  }

  lemma {:induction false} RemovingKeepsOrder(r: Relay, c: ClientId)
    requires OrderOk(r)
    ensures OrderOk(Removed(r, c))
  {
    WithoutKeepsDistinct(r.order, c);
    forall i | 0 <= i < |Without(r.order, c)| ensures Without(r.order, c)[i] in r.slots - {c} {
      assert Without(r.order, c)[i] in Without(r.order, c);
    }
  }

  lemma {:induction false} MembersAfterSubscribing(h: Hub, ws: ClientId, ch: Channel, filter: Option<LocoId>,
                                                    x: ClientId, c: Channel)
    ensures IsMember(Subscribed(h, ws, ch, filter), x, c) <==> IsMember(h, x, c) || (x == ws && c == ch)
    ensures c in ChannelsOf(Subscribed(h, ws, ch, filter), x) <==> c in ChannelsOf(h, x) || (x == ws && c == ch)
  {
  }

  lemma {:induction false} SubscribingKeepsRelays(h: Hub, ws: ClientId, ch: Channel, filter: Option<LocoId>,
                                                   hollow: set<Channel>)
    requires RelaysOk(h, hollow)
    ensures RelaysOk(Subscribed(h, ws, ch, filter), hollow)
  {
    AddingKeepsOrder(if ch in h.relays then h.relays[ch] else NewRelay(), ws, filter);
    assert ws in Subscribed(h, ws, ch, filter).relays[ch].slots;
  }

  /** Subscribing in one step keeps membership right, for connected and unknown sockets alike. */
  lemma {:induction false} SubscribeKeeps(h: Hub, ws: ClientId, ch: Channel, filter: Option<LocoId>)
    requires Sane(h)
    ensures Sane(Subscribed(h, ws, ch, filter))
  {
    SaneIsNoFlux(h);
    SubscribeKeepsFlux(h, ws, ch, filter, {}, {}, {});
    SaneIsNoFlux(Subscribed(h, ws, ch, filter));
  }

  /** It keeps the cap exactly when the socket is connected already or there is room for one more, since it
      enrols an unknown socket without asking. */
  lemma {:induction false} SubscribeKeepsCapIff(h: Hub, ws: ClientId, ch: Channel, filter: Option<LocoId>, limit: nat)
    requires |h.connections| <= limit
    ensures |Subscribed(h, ws, ch, filter).connections| <= limit <==> ws in h.connections || |h.connections| < limit
  {
    assert Subscribed(h, ws, ch, filter).connections.Keys == h.connections.Keys + {ws};
  }

  lemma {:induction false} MembersAfterLeaving(h: Hub, ws: ClientId, x: ClientId, ch: Channel)
    ensures var g := Disconnected(h, ws);
            && (IsMember(g, x, ch) <==> IsMember(h, x, ch) && !(x == ws && ch in ChannelsOf(h, ws)))
            && (ch in ChannelsOf(g, x) <==> x != ws && ch in ChannelsOf(h, x))
  {
    assert IsMember(h, x, ch) && x != ws ==> x in Removed(h.relays[ch], ws).slots;
  }

  lemma {:induction false} AcceptKeepsFlux(h: Hub, ws: ClientId, limit: nat, extra: Places, missing: Places,
                                           hollow: set<Channel>)
    requires InFlux(h, extra, missing, hollow) && AcceptIsClean(h, Accept(ws), limit)
    ensures InFlux(Accepted(h, ws, limit), extra, missing, hollow)
  {
    var g := Accepted(h, ws, limit);
    forall x, ch ensures ch in ChannelsOf(g, x) <==> ch in ChannelsOf(h, x) {
    }
    forall x, ch ensures IsMember(g, x, ch) <==> IsMember(h, x, ch) {
    }
  }

  lemma {:induction false} SubscribeKeepsFlux(h: Hub, ws: ClientId, ch: Channel, filter: Option<LocoId>, extra: Places,
                                              missing: Places, hollow: set<Channel>)
    requires InFlux(h, extra, missing, hollow)
    ensures InFlux(Subscribed(h, ws, ch, filter), extra, missing, hollow)
  {
    var g := Subscribed(h, ws, ch, filter);
    forall x, c | c in ChannelsOf(g, x) ensures IsMember(g, x, c) || (x, c) in missing {
      MembersAfterSubscribing(h, ws, ch, filter, x, c);
    }
    forall x, c | IsMember(g, x, c) ensures c in ChannelsOf(g, x) || (x, c) in extra {
      MembersAfterSubscribing(h, ws, ch, filter, x, c);
    }
    SubscribingKeepsRelays(h, ws, ch, filter, hollow);
  }

  lemma {:induction false} LeavingKeepsRelays(h: Hub, ws: ClientId, hollow: set<Channel>)
    requires RelaysOk(h, hollow)
    ensures RelaysOk(Disconnected(h, ws), hollow)
  {
    forall ch | ch in Disconnected(h, ws).relays ensures OrderOk(Disconnected(h, ws).relays[ch]) {
      RemovingKeepsOrder(h.relays[ch], ws);
    }
  }

  lemma {:induction false} DisconnectKeepsFlux(h: Hub, ws: ClientId, extra: Places, missing: Places,
                                               hollow: set<Channel>)
    requires InFlux(h, extra, missing, hollow)
    ensures InFlux(Disconnected(h, ws), extra, missing, hollow)
  {
    var g := Disconnected(h, ws);
    forall x, c | c in ChannelsOf(g, x) ensures IsMember(g, x, c) || (x, c) in missing {
      MembersAfterLeaving(h, ws, x, c);
    }
    forall x, c | IsMember(g, x, c) ensures c in ChannelsOf(g, x) || (x, c) in extra {
      MembersAfterLeaving(h, ws, x, c);
    }
    LeavingKeepsRelays(h, ws, hollow);
  }

  /** Disconnecting in one step leaves the socket nowhere, everyone else where they were, and no empty relay. */
  lemma {:induction false} DisconnectKeeps(h: Hub, ws: ClientId)
    requires Sane(h)
    ensures Sane(Disconnected(h, ws)) && |Disconnected(h, ws).connections| <= |h.connections|
    ensures ws !in Disconnected(h, ws).connections
  {
    SaneIsNoFlux(h);
    DisconnectKeepsFlux(h, ws, {}, {}, {});
    SaneIsNoFlux(Disconnected(h, ws));
    DisconnectKeepsCap(h, ws);
  }

  lemma {:induction false} DisconnectKeepsCap(h: Hub, ws: ClientId)
    ensures |Disconnected(h, ws).connections| <= |h.connections|
  {
    var g := Disconnected(h, ws);
    assert g.connections.Keys <= h.connections.Keys;
    SmallerSet(g.connections.Keys, h.connections.Keys);
  }

  lemma {:induction false} SmallerSet<T>(a: set<T>, b: set<T>)
    requires a <= b
    ensures |a| <= |b|
  {
    assert b == a + (b - a);
  }

  // ----- What the calls leave alone

  /** A subscriber starts with an empty queue and its own filter, and nobody else's place in a channel changes. */
  lemma {:induction false} SubscribingStartsFresh(h: Hub, ws: ClientId, ch: Channel, filter: Option<LocoId>,
                                                  x: ClientId, c: Channel)
    ensures var g := Subscribed(h, ws, ch, filter);
            && IsMember(g, ws, ch) && g.relays[ch].slots[ws] == Slot(filter, [], [], true)
            && (IsMember(h, x, c) && (x != ws || c != ch) ==>
                  IsMember(g, x, c) && g.relays[c].slots[x] == h.relays[c].slots[x])
  {
  }

  /** Disconnecting leaves everyone else's queue as it was. */
  lemma {:induction false} LeavingDisturbsNobody(h: Hub, ws: ClientId, x: ClientId, c: Channel)
    requires x != ws && IsMember(h, x, c)
    ensures var g := Disconnected(h, ws);
            IsMember(g, x, c) && g.relays[c].slots[x] == h.relays[c].slots[x]
  {
    assert x in Removed(h.relays[c], ws).slots;
  }

  /** A socket is let in exactly below the cap, without channels and without a word to the relays. */
  lemma {:induction false} AcceptingLetsIn(h: Hub, ws: ClientId, limit: nat, x: ClientId)
    ensures var g := Accepted(h, ws, limit);
            && g.relays == h.relays
            && (if |h.connections| < limit then ws in g.connections && g.connections[ws] == {} else g == h)
            && (x != ws ==> ChannelsOf(g, x) == ChannelsOf(h, x) && (x in g.connections <==> x in h.connections))
  {
  }

  // ----- Whole runs

  datatype Call = Accept(ws: ClientId) | Subscribe(ws: ClientId, ch: Channel, filter: Option<LocoId>)
    | Disconnect(ws: ClientId)

  function Done(h: Hub, call: Call, limit: nat): Hub {
    match call
    case Accept(ws) => Accepted(h, ws, limit)
    case Subscribe(ws, ch, filter) => Subscribed(h, ws, ch, filter)
    case Disconnect(ws) => Disconnected(h, ws)
  }

  function AfterCalls(h: Hub, calls: seq<Call>, limit: nat): Hub
    decreases |calls|
  {
    if calls == [] then h else Done(AfterCalls(h, calls[..|calls| - 1], limit), calls[|calls| - 1], limit)
  }

  function Fresh(): Hub { Hub(map[], map[]) }

  /** An accept is refused, or finds the socket without channels - as it does when the socket is not connected. */
  ghost predicate AcceptIsClean(h: Hub, call: Call, limit: nat) {
    call.Accept? ==> |h.connections| >= limit || ChannelsOf(h, call.ws) == {}
  }

  ghost predicate AcceptsAreClean(h: Hub, calls: seq<Call>, limit: nat) {
    forall n :: 0 <= n < |calls| ==> AcceptIsClean(AfterCalls(h, calls[..n], limit), calls[n], limit)
  }

  lemma {:induction false} AcceptsBeforeAreClean(h: Hub, calls: seq<Call>, limit: nat)
    requires calls != [] && AcceptsAreClean(h, calls, limit)
    ensures AcceptsAreClean(h, calls[..|calls| - 1], limit)
  {
    var before := calls[..|calls| - 1];
    forall n | 0 <= n < |before| ensures AcceptIsClean(AfterCalls(h, before[..n], limit), before[n], limit) {
      assert before[..n] == calls[..n] && before[n] == calls[n];
    }
  }

  /** Whole calls neither add to what another call has left open nor close it. */
  lemma {:induction false} CallsKeepFlux(h: Hub, calls: seq<Call>, limit: nat, extra: Places, missing: Places,
                                         hollow: set<Channel>)
    requires InFlux(h, extra, missing, hollow) && AcceptsAreClean(h, calls, limit)
    ensures InFlux(AfterCalls(h, calls, limit), extra, missing, hollow)
    decreases |calls|
  {
    if calls != [] {
      var n := |calls| - 1;
      AcceptsBeforeAreClean(h, calls, limit);
      CallsKeepFlux(h, calls[..n], limit, extra, missing, hollow);
      var g := AfterCalls(h, calls[..n], limit);
      match calls[n]
      case Accept(ws) => AcceptKeepsFlux(g, ws, limit, extra, missing, hollow);
      case Subscribe(ws, ch, filter) => SubscribeKeepsFlux(g, ws, ch, filter, extra, missing, hollow);
      case Disconnect(ws) => DisconnectKeepsFlux(g, ws, extra, missing, hollow);
    }
  }

  ghost predicate SaneAfter(calls: seq<Call>, n: nat, limit: nat)
    requires n <= |calls|
  {
    Sane(AfterCalls(Fresh(), calls[..n], limit))
  }

  lemma {:induction false} SaneUpTo(calls: seq<Call>, n: nat, limit: nat)
    requires n <= |calls| && AcceptsAreClean(Fresh(), calls, limit)
    ensures SaneAfter(calls, n, limit)
    decreases |calls|
  {
    if n == |calls| {
      assert calls[..n] == calls;
      SaneIsNoFlux(Fresh());
      CallsKeepFlux(Fresh(), calls, limit, {}, {}, {});
      SaneIsNoFlux(AfterCalls(Fresh(), calls, limit));
    } else {
      var before := calls[..|calls| - 1];
      AcceptsBeforeAreClean(Fresh(), calls, limit);
      SaneUpTo(before, n, limit);
      assert before[..n] == calls[..n];
    }
  }

  lemma {:induction false} UncleanAcceptSpoils(calls: seq<Call>, n: nat, limit: nat)
    requires n < |calls| && SaneAfter(calls, n, limit) && SaneAfter(calls, n + 1, limit)
    ensures AcceptIsClean(AfterCalls(Fresh(), calls[..n], limit), calls[n], limit)
  {
    assert calls[..n + 1][..n] == calls[..n];
    if calls[n].Accept? {
      AcceptKeepsIff(AfterCalls(Fresh(), calls[..n], limit), calls[n].ws, limit);
    }
  }

  /** On every run of whole calls, whoever subscribes, relay membership equals the channel sets and no relay is
      empty throughout exactly when every accept is refused or finds the socket without channels. */
  lemma {:induction false} RunKeepsMembershipIff(calls: seq<Call>, limit: nat)
    ensures (forall n: nat :: n <= |calls| ==> SaneAfter(calls, n, limit)) <==> AcceptsAreClean(Fresh(), calls, limit)
  {
    if forall n: nat :: n <= |calls| ==> SaneAfter(calls, n, limit) {
      forall n | 0 <= n < |calls| ensures AcceptIsClean(AfterCalls(Fresh(), calls[..n], limit), calls[n], limit) {
        assert SaneAfter(calls, n, limit) && SaneAfter(calls, n + 1, limit);
        UncleanAcceptSpoils(calls, n, limit);
      }
    }
    if AcceptsAreClean(Fresh(), calls, limit) {
      forall n: nat | n <= |calls| ensures SaneAfter(calls, n, limit) {
        SaneUpTo(calls, n, limit);
      }
    }
  }

  /** No socket is accepted while it is connected. */
  ghost predicate AcceptsInTurn(calls: seq<Call>, limit: nat) {
    forall n :: 0 <= n < |calls| && calls[n].Accept? ==>
      calls[n].ws !in AfterCalls(Fresh(), calls[..n], limit).connections
  }

  /** In particular when no connected socket is accepted again. */
  lemma {:induction false} RunKeepsMembership(calls: seq<Call>, limit: nat)
    requires AcceptsInTurn(calls, limit)
    ensures Sane(AfterCalls(Fresh(), calls, limit))
  {
    SaneUpTo(calls, |calls|, limit);
    assert calls[..|calls|] == calls;
  }

  /** The socket is connected, or there is room for one more. */
  ghost predicate HasPlace(h: Hub, call: Call, limit: nat) {
    call.Subscribe? ==> call.ws in h.connections || |h.connections| < limit
  }

  lemma {:induction false} CallKeepsCapIff(h: Hub, call: Call, limit: nat)
    requires |h.connections| <= limit
    ensures |Done(h, call, limit).connections| <= limit <==> HasPlace(h, call, limit)
  {
    match call
    case Accept(ws) =>
      assert Accepted(h, ws, limit).connections.Keys <= h.connections.Keys + {ws};
      SmallerSet(Accepted(h, ws, limit).connections.Keys, h.connections.Keys + {ws});
    case Subscribe(ws, ch, filter) => SubscribeKeepsCapIff(h, ws, ch, filter, limit);
    case Disconnect(ws) => DisconnectKeepsCap(h, ws);
  }

  ghost predicate CapHolds(calls: seq<Call>, n: nat, limit: nat)
    requires n <= |calls|
  {
    |AfterCalls(Fresh(), calls[..n], limit).connections| <= limit
  }

  /** On every run the number of connected sockets stays within the cap throughout exactly when no unknown
      socket subscribes while the server is full. */
  lemma {:induction false} RunKeepsCapIff(calls: seq<Call>, limit: nat)
    ensures (forall n: nat :: n <= |calls| ==> CapHolds(calls, n, limit)) <==>
            (forall n :: 0 <= n < |calls| ==> HasPlace(AfterCalls(Fresh(), calls[..n], limit), calls[n], limit))
  {
    if forall n: nat :: n <= |calls| ==> CapHolds(calls, n, limit) {
      forall n | 0 <= n < |calls| ensures HasPlace(AfterCalls(Fresh(), calls[..n], limit), calls[n], limit) {
        assert CapHolds(calls, n, limit) && CapHolds(calls, n + 1, limit);
        OneCallMore(calls, n, limit);
      }
    }
    if forall n :: 0 <= n < |calls| ==> HasPlace(AfterCalls(Fresh(), calls[..n], limit), calls[n], limit) {
      forall n: nat | n <= |calls| ensures CapHolds(calls, n, limit) {
        CapUpTo(calls, n, limit);
      }
    }
  }

  lemma {:induction false} OneCallMore(calls: seq<Call>, n: nat, limit: nat)
    requires n < |calls| && CapHolds(calls, n, limit)
    ensures CapHolds(calls, n + 1, limit) <==> HasPlace(AfterCalls(Fresh(), calls[..n], limit), calls[n], limit)
  {
    assert calls[..n + 1][..n] == calls[..n];
    CallKeepsCapIff(AfterCalls(Fresh(), calls[..n], limit), calls[n], limit);
  }

  lemma {:induction false} CapUpTo(calls: seq<Call>, n: nat, limit: nat)
    requires n <= |calls|
    requires forall k :: 0 <= k < |calls| ==> HasPlace(AfterCalls(Fresh(), calls[..k], limit), calls[k], limit)
    ensures CapHolds(calls, n, limit)
    decreases n
  {
    if n > 0 {
      CapUpTo(calls, n - 1, limit);
      OneCallMore(calls, n - 1, limit);
    }
  }

  // ----- Other calls in the middle of `subscribe`

  lemma {:induction false} RegisteringIsFlux(h: Hub, ws: ClientId, ch: Channel)
    requires Sane(h)
    ensures InFlux(Registered(h, ws, ch), {}, {(ws, ch)}, {ch})
  {
    var g := Registered(h, ws, ch);
    forall x, c | c in ChannelsOf(g, x) ensures IsMember(g, x, c) || (x, c) in {(ws, ch)} {
      assert IsMember(h, x, c) <==> c in ChannelsOf(h, x);
    }
    forall x, c | IsMember(g, x, c) ensures c in ChannelsOf(g, x) {
      assert IsMember(h, x, c) <==> c in ChannelsOf(h, x);
    }
  }

  lemma {:induction false} JoiningIsSane(h: Hub, ws: ClientId, ch: Channel, filter: Option<LocoId>)
    requires InFlux(h, {}, {(ws, ch)}, {ch}) && ch in h.relays && ch in ChannelsOf(h, ws)
    ensures Sane(Joined(h, ws, ch, filter))
  {
    var g := Joined(h, ws, ch, filter);
    forall x, c ensures IsMember(g, x, c) <==> c in ChannelsOf(g, x) {
      assert IsMember(g, x, c) <==> IsMember(h, x, c) || (x == ws && c == ch);
    }
    AddingKeepsOrder(h.relays[ch], ws, filter);
    assert ws in g.relays[ch].slots;
  }

  lemma {:induction false} JoiningClosesFlux(h: Hub, ws: ClientId, ch: Channel, filter: Option<LocoId>)
    requires InFlux(h, {}, {(ws, ch)}, {ch}) && ch in h.relays
    ensures Sane(Joined(h, ws, ch, filter)) <==> ch in ChannelsOf(h, ws)
  {
    if ch in ChannelsOf(h, ws) {
      JoiningIsSane(h, ws, ch, filter);
    } else {
      var g := Joined(h, ws, ch, filter);
      assert IsMember(g, ws, ch) && ch !in ChannelsOf(g, ws);
    }
  }

  /** The two halves of `subscribe` must not be separated. If any whole calls could run between them, the second
      half would find the relay and leave the hub sane exactly when the channel still has a relay and is still
      in the socket's set; and without a relay the hub it fails on is inconsistent while the set still has it. */
  lemma {:induction false} SplitSubscribeIsSaneIff(h: Hub, ws: ClientId, ch: Channel, filter: Option<LocoId>,
                                                   calls: seq<Call>, limit: nat)
    requires Sane(h) && AcceptsAreClean(Registered(h, ws, ch), calls, limit)
    ensures var g := AfterCalls(Registered(h, ws, ch), calls, limit);
            if ch in g.relays then Sane(Joined(g, ws, ch, filter)) <==> ch in ChannelsOf(g, ws)
            else ch in ChannelsOf(g, ws) ==> !Consistent(g)
  {
    RegisteringIsFlux(h, ws, ch);
    CallsKeepFlux(Registered(h, ws, ch), calls, limit, {}, {(ws, ch)}, {ch});
    var g := AfterCalls(Registered(h, ws, ch), calls, limit);
    if ch in g.relays {
      JoiningClosesFlux(g, ws, ch, filter);
    } else if ch in ChannelsOf(g, ws) {
      assert !IsMember(g, ws, ch);
    }
  }

  lemma {:induction false} OnlyClientIff(r: Relay, y: ClientId)
    ensures Removed(r, y).slots == map[] <==> forall x :: x in r.slots ==> x == y
  {
    if x :| x in r.slots && x != y {
      assert x in Removed(r, y).slots;
    }
  }

  lemma {:induction false} RelayGoesIff(h: Hub, y: ClientId, ch: Channel)
    requires ch in h.relays
    ensures ch !in Disconnected(h, y).relays <==>
              ch in ChannelsOf(h, y) && forall x :: x in h.relays[ch].slots ==> x == y
  {
    OnlyClientIff(h.relays[ch], y);
  }

  lemma {:induction false} PlacesAfterRegistering(h: Hub, ws: ClientId, ch: Channel, x: ClientId)
    ensures ch in Registered(h, ws, ch).relays
    ensures x in Registered(h, ws, ch).relays[ch].slots <==> IsMember(h, x, ch)
    ensures ch in ChannelsOf(Registered(h, ws, ch), x) <==> x == ws || ch in ChannelsOf(h, x)
  {
  }

  /** One disconnect in between is enough: it spoils the subscription exactly when it is the socket's own, or
      that of the channel's only client. */
  lemma {:induction false} OneDisconnectSpoilsIff(h: Hub, ws: ClientId, ch: Channel, y: ClientId)
    requires Sane(h)
    ensures var g := Disconnected(Registered(h, ws, ch), y);
            !(ch in g.relays && ch in ChannelsOf(g, ws)) <==>
            y == ws || (IsMember(h, y, ch) && forall x :: IsMember(h, x, ch) ==> x == y)
  {
    RelayGoesIff(Registered(h, ws, ch), y, ch);
    MembersAfterLeaving(Registered(h, ws, ch), y, ws, ch);
    PlacesAfterRegistering(h, ws, ch, y);
    PlacesAfterRegistering(h, ws, ch, ws);
    forall x ensures x in Registered(h, ws, ch).relays[ch].slots <==> IsMember(h, x, ch) {
      PlacesAfterRegistering(h, ws, ch, x);
    }
    assert IsMember(h, y, ch) <==> ch in ChannelsOf(h, y);
  }

  // ----- Other calls in the middle of `disconnect`

  /** The places a leaving socket still holds. */
  function StillToLeave(ws: ClientId, channels: set<Channel>): Places { set c | c in channels :: (ws, c) }

  lemma {:induction false} MembersWhileWaiting(h: Hub, ws: ClientId, left: set<Channel>, ch: Channel, x: ClientId,
                                                c: Channel)
    requires ch in h.relays && ch !in left
    ensures IsMember(WaitingToDrop(h, ws, left, ch), x, c) <==>
            IsMember(h, x, c) && !(x == ws && (c in left || c == ch))
    ensures c in ChannelsOf(WaitingToDrop(h, ws, left, ch), x) <==> x != ws && c in ChannelsOf(h, x)
  {
    assert c in left && IsMember(h, x, c) && x != ws ==> x in Removed(h.relays[c], ws).slots;
  }

  lemma {:induction false} RelaysWhileWaiting(h: Hub, ws: ClientId, left: set<Channel>, ch: Channel)
    requires RelaysOk(h, {}) && ch in h.relays && ch !in left
    ensures RelaysOk(WaitingToDrop(h, ws, left, ch), {ch})
  {
    forall c | c in WaitingToDrop(h, ws, left, ch).relays
      ensures OrderOk(WaitingToDrop(h, ws, left, ch).relays[c]) {
      RemovingKeepsOrder(h.relays[c], ws);
    }
  }

  lemma {:induction false} WaitingIsFlux(h: Hub, ws: ClientId, left: set<Channel>, ch: Channel)
    requires Sane(h) && left <= ChannelsOf(h, ws) && ch in ChannelsOf(h, ws) - left && ch in h.relays
    ensures InFlux(WaitingToDrop(h, ws, left, ch), StillToLeave(ws, ChannelsOf(h, ws) - left - {ch}), {}, {ch})
  {
    var g, extra := WaitingToDrop(h, ws, left, ch), StillToLeave(ws, ChannelsOf(h, ws) - left - {ch});
    forall x, c | c in ChannelsOf(g, x) ensures IsMember(g, x, c) {
      MembersWhileWaiting(h, ws, left, ch, x, c);
      assert IsMember(h, x, c);
    }
    forall x, c | IsMember(g, x, c) ensures c in ChannelsOf(g, x) || (x, c) in extra {
      MembersWhileWaiting(h, ws, left, ch, x, c);
      assert IsMember(h, x, c) <==> c in ChannelsOf(h, x);
    }
    RelaysWhileWaiting(h, ws, left, ch);
  }

  lemma {:induction false} DroppingClosesFlux(h: Hub, ch: Channel, extra: Places)
    requires InFlux(h, extra, {}, {ch}) && forall ws :: (ws, ch) !in extra
    ensures InFlux(Dropped(h, ch), extra, {}, {}) <==> forall ws :: !IsMember(h, ws, ch)
  {
    var g := Dropped(h, ch);
    forall x, c ensures IsMember(g, x, c) <==> IsMember(h, x, c) && c != ch {
    }
    if x :| IsMember(h, x, ch) {
      assert ch in ChannelsOf(g, x) && !IsMember(g, x, ch);
    }
  }

  /** While `disconnect` waits for the lock to drop an emptied relay - `accept` may hold it across a close -
      other calls run. Dropping is harmless exactly when nobody is in the channel by then: membership is right
      but for the channels the socket has yet to leave, and altogether when this was the last one. */
  lemma {:induction false} DelayedDropIsHarmlessIff(h: Hub, ws: ClientId, left: set<Channel>, ch: Channel,
                                                    calls: seq<Call>, limit: nat)
    requires Sane(h) && left <= ChannelsOf(h, ws) && ch in ChannelsOf(h, ws) - left && ch in h.relays
    requires AcceptsAreClean(WaitingToDrop(h, ws, left, ch), calls, limit)
    ensures var g := AfterCalls(WaitingToDrop(h, ws, left, ch), calls, limit);
            var rest := ChannelsOf(h, ws) - left - {ch};
            && (InFlux(Dropped(g, ch), StillToLeave(ws, rest), {}, {}) <==> forall x :: !IsMember(g, x, ch))
            && (rest == {} ==> (Sane(Dropped(g, ch)) <==> forall x :: !IsMember(g, x, ch)))
  {
    var w, rest := WaitingToDrop(h, ws, left, ch), ChannelsOf(h, ws) - left - {ch};
    WaitingIsFlux(h, ws, left, ch);
    CallsKeepFlux(w, calls, limit, StillToLeave(ws, rest), {}, {ch});
    var g := AfterCalls(w, calls, limit);
    DroppingClosesFlux(g, ch, StillToLeave(ws, rest));
    if rest == {} {
      assert StillToLeave(ws, rest) == {};
      SaneIsNoFlux(Dropped(g, ch));
    }
  }

  /** A newcomer in that time is lost with the relay. */
  lemma {:induction false} NewcomerIsLost(h: Hub, ws: ClientId, other: ClientId, ch: Channel, filter: Option<LocoId>)
    requires Sane(h) && other != ws && ChannelsOf(h, ws) == {ch} && ch in h.relays
    ensures var g := Dropped(Subscribed(WaitingToDrop(h, ws, {}, ch), other, ch, filter), ch);
            ch in ChannelsOf(g, other) && !IsMember(g, other, ch) && !Sane(g)
  {
    var g := Dropped(Subscribed(WaitingToDrop(h, ws, {}, ch), other, ch, filter), ch);
    assert ch in ChannelsOf(g, other) && !IsMember(g, other, ch);
  }
}
