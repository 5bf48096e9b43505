/** The operator's fleet: locomotives added, edited, removed and ticked together by one runner. */
module SimulatorFleet {
  import opened Numbers
  import opened Optional
  import opened Locomotive
  import opened LocomotiveRuns
  import opened LocomotiveStates

  type RouteName(==)

  datatype Outcome = Done | AlreadyPresent | NotFound | UnknownRoute

  /** A request to add a locomotive; kilometres along the route. */
  datatype Request = Request(diesel: bool, route: RouteName, startKm: real, endKm: Option<real>, mode: Mode,
                             scenario: Scenario, onArrival: OnArrival, autoMode: bool, speed: real)

  // ----- Adding

  /** The state handed to the constructor. */
  function Requested(q: Request, routeLength: real): Loco {
    var endKm := if q.endKm.Some? then q.endKm.value else routeLength / 1000.0;
    var start := Max(0.0, Min(q.startKm, routeLength / 1000.0)) * 1000.0;
    var end := Max(start / 1000.0, Min(endKm, routeLength / 1000.0)) * 1000.0;
    Loco(q.diesel, routeLength, q.mode, q.scenario, q.autoMode, q.speed, 0, start, start, end, q.onArrival, false,
         0, 0, None, None, 0, true)
  }

  function Added(q: Request, routeLength: real, roll: nat): Loco { Initialised(Requested(q, routeLength), roll) }

  lemma KilometresAndBack(x: real)
    ensures x / 1000.0 * 1000.0 == x && x * 1000.0 / 1000.0 == x
  {
  }

  /** The segment asked for, in metres and inside the route. */
  function AskedStart(q: Request, routeLength: real): real { Max(0.0, Min(q.startKm * 1000.0, routeLength)) }

  function AskedEnd(q: Request, routeLength: real): real {
    Max(AskedStart(q, routeLength),
        if q.endKm.Some? then Min(q.endKm.value * 1000.0, routeLength) else routeLength)
  }

  /** A new train stands at the start asked for, and gets the end asked for exactly when that end lies
      beyond kilometre zero: an end at (or before) zero is taken for "no end given". */
  lemma AddedSegment(q: Request, routeLength: real, roll: nat)
    requires routeLength >= 0.0
    ensures var s := Added(q, routeLength, roll);
            && s.start == s.distance == AskedStart(q, routeLength)
            && s.end == (if AskedEnd(q, routeLength) > 0.0 then AskedEnd(q, routeLength) else routeLength)
            && InSegment(s) && (q.speed >= 0.0 ==> Bounded(s))
  {
    var r := Requested(q, routeLength);
    KilometresAndBack(routeLength);
    assert r.start == AskedStart(q, routeLength);
    KilometresAndBack(r.start);
    assert r.end == AskedEnd(q, routeLength);
  }

  /** For the rest it is as asked for: at a standstill only if so asked, in notch zero, facing forward, not arrived. */
  lemma AddedAsAsked(q: Request, routeLength: real, roll: nat)
    ensures var s := Added(q, routeLength, roll);
            && s.diesel == q.diesel && s.mode == q.mode && s.scenario == q.scenario && s.autoMode == q.autoMode
            && s.onArrival == q.onArrival && s.speed == q.speed && s.routeLength == routeLength
            && s.notch == 0 && s.forward && !s.arrived && s.modeTicks == 0 && s.scenarioTick == 0
            && s.igbt == None && s.brake == None
            && Durations(q.mode).0 <= s.modeDuration <= Durations(q.mode).1
  {
  }

  // ----- The runner

  /** An edit, with the route still a name. */
  datatype Change = Change(route: Option<RouteName>, edit: Edit)

  function Resolved(c: Change, routes: map<RouteName, real>): (e: Edit)
    requires c.route.Some? ==> c.route.value in routes
    ensures e.route.Some? ==> e.route.value in routes.Values
  {
    c.edit.(route := if c.route.Some? then Some(routes[c.route.value]) else None)
  }

  /** Arrived for good: dropped at the end of the tick. */
  predicate Finished(s: Loco) { s.arrived && s.onArrival == Remove }

  /** A fleet on its way from `was` to `goal`, with `rest` still to go. */
  ghost function Partly(was: map<LocoId, Loco>, goal: map<LocoId, Loco>, rest: set<LocoId>): map<LocoId, Loco>
    requires was.Keys == goal.Keys
  {
    map i | i in was :: if i in rest then was[i] else goal[i]
  }

  lemma PartlyAtEnds(was: map<LocoId, Loco>, goal: map<LocoId, Loco>)
    requires was.Keys == goal.Keys
    ensures Partly(was, goal, was.Keys) == was && Partly(was, goal, {}) == goal
  {
  }

  lemma PartlyStep(was: map<LocoId, Loco>, goal: map<LocoId, Loco>, rest: set<LocoId>, id: LocoId)
    requires was.Keys == goal.Keys && id in rest && id in was
    ensures Partly(was, goal, rest)[id := goal[id]] == Partly(was, goal, rest - {id})
    ensures Partly(was, goal, rest)[id] == was[id]
  {
  }

  class SimulationRunner {
    const routes: map<RouteName, real>
    const dt: real
    var fleet: map<LocoId, LocomotiveState>

    ghost predicate Valid()
      reads this
    {
      forall i :: i in fleet ==> fleet[i].id == i
    }

    ghost function Fleet(): (f: map<LocoId, Loco>)
      reads this, fleet.Values
      ensures f.Keys == fleet.Keys
    {
      map i | i in fleet :: fleet[i].View()
    }

    constructor (routes: map<RouteName, real>, dt: real)
      ensures Valid() && Fleet() == map[] && this.routes == routes && this.dt == dt
    {
      this.routes, this.dt, fleet := routes, dt, map[];
    }

    /** `add_locomotive`. */
    method Add(id: LocoId, q: Request, roll: nat) returns (r: Outcome)
      requires Valid()
      modifies this
      ensures Valid() && fresh(fleet.Values - old(fleet.Values))
      ensures r == AddOutcome(old(Fleet()), id, q, routes)
      ensures Fleet() == AfterAdd(old(Fleet()), id, q, roll, routes)
    {
      if q.route !in routes {
        return UnknownRoute;
      }
      if id in fleet {
        return AlreadyPresent;
      }
      var state := new LocomotiveState(id, Requested(q, routes[q.route]), roll);
      fleet := fleet[id := state];
      return Done;
    }

    /** `update_locomotive`. */
    method Update(id: LocoId, c: Change) returns (r: Outcome)
      requires Valid()
      modifies fleet.Values
      ensures r == UpdateOutcome(old(Fleet()), id, c, routes)
      ensures Fleet() == AfterUpdate(old(Fleet()), id, c, routes)
    {
      if id !in fleet {
        return NotFound;
      }
      if c.route.Some? && c.route.value !in routes {
        return UnknownRoute;
      }
      fleet[id].Update(Resolved(c, routes));
      return Done;
    }

    /** `remove_locomotive`. */
    method RemoveLocomotive(id: LocoId) returns (r: Outcome)
      requires Valid()
      modifies this
      ensures Valid() && fleet.Values <= old(fleet.Values)
      ensures r == if id in old(fleet) then Done else NotFound
      ensures Fleet() == old(Fleet()) - {id}
    {
      if id !in fleet {
        return NotFound;
      }
      fleet := fleet - {id};
      return Done;
    }

    method TickOne(id: LocoId, d: Draws)
      requires Valid() && id in fleet
      modifies fleet[id]
      ensures Fleet() == old(Fleet())[id := Ticked(old(Fleet()[id]), d, dt)]
    {
      fleet[id].Tick(d, dt);
    }

    /** The first loop of `_do_tick`. */
    method TickEach(draws: LocoId -> Draws)
      requires Valid()
      modifies fleet.Values
      ensures Fleet() == AllTicked(old(Fleet()), draws, dt)
    {
      ghost var was := Fleet();
      ghost var goal := AllTicked(was, draws, dt);
      var rest := fleet.Keys;
      PartlyAtEnds(was, goal);
      while rest != {}
        invariant rest <= fleet.Keys
        invariant Fleet() == Partly(was, goal, rest)
        decreases rest
      {
        var id :| id in rest;
        PartlyStep(was, goal, rest, id);
        TickOne(id, draws(id));
        rest := rest - {id};
      }
    }

    /** The second loop: drops the trains whose one-way trip is over. */
    method DropFinished()
      requires Valid()
      modifies this
      ensures Valid() && fleet.Values <= old(fleet.Values)
      ensures Fleet() == WithoutFinished(old(Fleet()))
    {
      ghost var was := Fleet();
      var rest := fleet.Keys;
      while rest != {}
        invariant rest <= fleet.Keys <= was.Keys
        invariant forall i :: i in fleet ==> fleet[i] == old(fleet[i])
        invariant forall i :: i in was ==> (i in fleet <==> i in rest || !Finished(was[i]))
        decreases rest
      {
        var id :| id in rest;
        if fleet[id].arrived && fleet[id].onArrival == Remove {
          fleet := fleet - {id};
        }
        rest := rest - {id};
      }
    }

    method Tick(draws: LocoId -> Draws)
      requires Valid()
      modifies this, fleet.Values
      ensures Valid() && fleet.Values <= old(fleet.Values)
      ensures Fleet() == AfterTick(old(Fleet()), draws, dt)
    {
      TickEach(draws);
      DropFinished();
    }
  }

  // ----- What each operation does to the fleet

  function AddOutcome(f: map<LocoId, Loco>, id: LocoId, q: Request, routes: map<RouteName, real>): Outcome {
    if q.route !in routes then UnknownRoute else if id in f then AlreadyPresent else Done
  }

  function AfterAdd(f: map<LocoId, Loco>, id: LocoId, q: Request, roll: nat,
                    routes: map<RouteName, real>): map<LocoId, Loco>
  {
    if AddOutcome(f, id, q, routes) == Done then f[id := Added(q, routes[q.route], roll)] else f
  }

  function UpdateOutcome(f: map<LocoId, Loco>, id: LocoId, c: Change, routes: map<RouteName, real>): Outcome {
    if id !in f then NotFound else if c.route.Some? && c.route.value !in routes then UnknownRoute else Done
  }

  function AfterUpdate(f: map<LocoId, Loco>, id: LocoId, c: Change, routes: map<RouteName, real>): map<LocoId, Loco> {
    if UpdateOutcome(f, id, c, routes) == Done then f[id := Edited(f[id], Resolved(c, routes))] else f
  }

  function AllTicked(f: map<LocoId, Loco>, draws: LocoId -> Draws, dt: real): map<LocoId, Loco> {
    map i | i in f :: Ticked(f[i], draws(i), dt)
  }

  function WithoutFinished(f: map<LocoId, Loco>): map<LocoId, Loco> { map i | i in f && !Finished(f[i]) :: f[i] }

  function AfterTick(f: map<LocoId, Loco>, draws: LocoId -> Draws, dt: real): map<LocoId, Loco> {
    WithoutFinished(AllTicked(f, draws, dt))
  }

  /** A tick takes each locomotive one tick on, and drops exactly those that have arrived for good and were to be
      removed. */
  lemma TickDropsTheArrived(f: map<LocoId, Loco>, draws: LocoId -> Draws, dt: real, id: LocoId)
    ensures var g := AfterTick(f, draws, dt);
            && (id in g <==> id in f && !(Ticked(f[id], draws(id), dt).arrived && f[id].onArrival == Remove))
            && (id in g ==> g[id] == Ticked(f[id], draws(id), dt))
  {
    if id in f {
      TickKeepsArrivalRule(f[id], draws(id), dt);
    }
  }

  lemma TickKeepsArrivalRule(s: Loco, d: Draws, dt: real)
    ensures Ticked(s, d, dt).onArrival == s.onArrival
  {
    TransitionIsOk(s, d);
    ScenarioIsOk(Transitioned(s, d));
  }

  datatype FleetEvent =
    | AddOne(id: LocoId, request: Request, roll: nat)
    | UpdateOne(id: LocoId, change: Change)
    | RemoveOne(id: LocoId)
    | TickAll(draws: LocoId -> Draws)

  function After(f: map<LocoId, Loco>, e: FleetEvent, routes: map<RouteName, real>, dt: real): map<LocoId, Loco> {
    match e
    case AddOne(id, q, roll) => AfterAdd(f, id, q, roll, routes)
    case UpdateOne(id, c) => AfterUpdate(f, id, c, routes)
    case RemoveOne(id) => f - {id}
    case TickAll(draws) => AfterTick(f, draws, dt)
  }

  function FleetRun(events: seq<FleetEvent>, routes: map<RouteName, real>, dt: real): map<LocoId, Loco>
    decreases |events|
  {
    if events == [] then map[]
    else After(FleetRun(events[..|events| - 1], routes, dt), events[|events| - 1], routes, dt)
  }

  // ----- One locomotive's own history

  /** How a locomotive began and what happened to it since. */
  datatype Life = Life(born: Loco, events: seq<Event>)

  function Now(l: Life, dt: real): Loco { Run(l.born, l.events, dt) }

  function Lived(l: Life, e: Event): Life { l.(events := l.events + [e]) }

  /** What one fleet event means to locomotive `id`, judged by its own history alone. */
  function Affected(life: Option<Life>, id: LocoId, e: FleetEvent, routes: map<RouteName, real>,
                    dt: real): Option<Life>
  {
    match e
    case AddOne(i, q, roll) =>
      if i == id && life == None && q.route in routes then Some(Life(Added(q, routes[q.route], roll), [])) else life
    case UpdateOne(i, c) =>
      if i == id && life.Some? && (c.route.Some? ==> c.route.value in routes)
      then Some(Lived(life.value, EditBy(Resolved(c, routes)))) else life
    case RemoveOne(i) => if i == id then None else life
    case TickAll(draws) =>
      if life == None || Finished(Now(Lived(life.value, TickBy(draws(id))), dt)) then None
      else Some(Lived(life.value, TickBy(draws(id))))
  }

  function LifeOf(id: LocoId, events: seq<FleetEvent>, routes: map<RouteName, real>, dt: real): Option<Life>
    decreases |events|
  {
    if events == [] then None
    else Affected(LifeOf(id, events[..|events| - 1], routes, dt), id, events[|events| - 1], routes, dt)
  }

  lemma LivingOneEventMore(l: Life, e: Event, dt: real)
    ensures Now(Lived(l, e), dt) == Stepped(Now(l, dt), e, dt)
  {
    assert (l.events + [e])[..|l.events + [e]| - 1] == l.events;
  }

  /** The fleet and a locomotive's own history agree on whether it is there and on its state. */
  ghost predicate Agree(f: map<LocoId, Loco>, id: LocoId, life: Option<Life>, dt: real) {
    (id in f <==> life.Some?) && (id in f ==> f[id] == Now(life.value, dt))
  }

  lemma AddsStayApart(f: map<LocoId, Loco>, id: LocoId, life: Option<Life>, e: FleetEvent, routes: map<RouteName, real>,
                      dt: real)
    requires Agree(f, id, life, dt) && e.AddOne?
    ensures Agree(After(f, e, routes, dt), id, Affected(life, id, e, routes, dt), dt)
  {
  }

  lemma UpdatesStayApart(f: map<LocoId, Loco>, id: LocoId, life: Option<Life>, e: FleetEvent,
                         routes: map<RouteName, real>, dt: real)
    requires Agree(f, id, life, dt) && e.UpdateOne?
    ensures Agree(After(f, e, routes, dt), id, Affected(life, id, e, routes, dt), dt)
  {
    var c := e.change;
    if e.id == id && life.Some? && (c.route.Some? ==> c.route.value in routes) {
      LivingOneEventMore(life.value, EditBy(Resolved(c, routes)), dt);
    }
  }

  lemma TicksStayApart(f: map<LocoId, Loco>, id: LocoId, life: Option<Life>, draws: LocoId -> Draws,
                       routes: map<RouteName, real>, dt: real)
    requires Agree(f, id, life, dt)
    ensures Agree(AfterTick(f, draws, dt), id, Affected(life, id, TickAll(draws), routes, dt), dt)
  {
    if life.Some? {
      LivingOneEventMore(life.value, TickBy(draws(id)), dt);
    }
  }

  lemma EventsStayApart(f: map<LocoId, Loco>, id: LocoId, life: Option<Life>, e: FleetEvent,
                        routes: map<RouteName, real>, dt: real)
    requires Agree(f, id, life, dt)
    ensures Agree(After(f, e, routes, dt), id, Affected(life, id, e, routes, dt), dt)
  {
    match e
    case AddOne(_, _, _) => AddsStayApart(f, id, life, e, routes, dt);
    case UpdateOne(_, _) => UpdatesStayApart(f, id, life, e, routes, dt);
    case RemoveOne(_) =>
    case TickAll(draws) => TicksStayApart(f, id, life, draws, routes, dt);
  }

  /** Locomotives do not interfere: on every run of the fleet, each one is there and is in the state that
      its own additions, edits and ticks lead to, whatever happens to the others. */
  lemma {:induction false} LocomotivesAreIndependent(id: LocoId, events: seq<FleetEvent>, routes: map<RouteName, real>,
                                                     dt: real)
    ensures Agree(FleetRun(events, routes, dt), id, LifeOf(id, events, routes, dt), dt)
    decreases |events|
  {
    if events != [] {
      var before := events[..|events| - 1];
      LocomotivesAreIndependent(id, before, routes, dt);
      EventsStayApart(FleetRun(before, routes, dt), id, LifeOf(id, before, routes, dt), events[|events| - 1], routes,
                      dt);
    }
  }

  // ----- Fleet-wide safety

  ghost predicate AllBounded(f: map<LocoId, Loco>) { forall i :: i in f ==> Bounded(f[i]) }

  predicate RequestOk(e: FleetEvent) { e.AddOne? ==> e.request.speed >= 0.0 }

  ghost predicate RoutesOk(routes: map<RouteName, real>) { forall r :: r in routes ==> routes[r] >= 0.0 }

  lemma {:induction false} EventKeepsFleetBounded(f: map<LocoId, Loco>, e: FleetEvent, routes: map<RouteName, real>,
                                                  dt: real)
    requires AllBounded(f) && dt >= 0.0 && RequestOk(e) && RoutesOk(routes)
    ensures AllBounded(After(f, e, routes, dt))
  {
    match e
    case AddOne(id, q, roll) =>
      if q.route in routes {
        AddedSegment(q, routes[q.route], roll);
      }
    case UpdateOne(id, c) =>
      if id in f && (c.route.Some? ==> c.route.value in routes) {
        EditKeepsSegmentIff(f[id], Resolved(c, routes));
      }
    case RemoveOne(id) =>
    case TickAll(draws) =>
      forall i | i in f ensures Bounded(Ticked(f[i], draws(i), dt)) {
        TickKeepsBounds(f[i], draws(i), dt);
      }
  }

  ghost predicate AllInSegment(f: map<LocoId, Loco>) { forall i :: i in f ==> InSegment(f[i]) }

  /** The event is no edit that pulls a start past the end it finds. */
  ghost predicate InvertsNone(f: map<LocoId, Loco>, e: FleetEvent, routes: map<RouteName, real>) {
    e.UpdateOne? && UpdateOutcome(f, e.id, e.change, routes) == Done ==>
      !InvertsSegment(f[e.id], Resolved(e.change, routes))
  }

  lemma {:induction false} EventKeepsSegments(f: map<LocoId, Loco>, e: FleetEvent, routes: map<RouteName, real>,
                                              dt: real)
    requires AllBounded(f) && AllInSegment(f) && dt >= 0.0 && RoutesOk(routes) && InvertsNone(f, e, routes)
    ensures AllInSegment(After(f, e, routes, dt))
  {
    match e
    case AddOne(id, q, roll) =>
      if q.route in routes {
        AddedSegment(q, routes[q.route], roll);
      }
    case UpdateOne(id, c) =>
      if UpdateOutcome(f, id, c, routes) == Done {
        EditKeepsSegmentIff(f[id], Resolved(c, routes));
      }
    case RemoveOne(id) =>
    case TickAll(draws) =>
      forall i | i in f ensures InSegment(Ticked(f[i], draws(i), dt)) {
        TickKeepsBounds(f[i], draws(i), dt);
      }
  }

  /** On every run in which no edit inverts the segment it finds, every locomotive is in its segment. */
  lemma {:induction false} FleetStaysInSegments(events: seq<FleetEvent>, routes: map<RouteName, real>, dt: real)
    requires dt >= 0.0 && RoutesOk(routes) && forall e :: e in events ==> RequestOk(e)
    requires forall n :: 0 <= n < |events| ==> InvertsNone(FleetRun(events[..n], routes, dt), events[n], routes)
    ensures AllInSegment(FleetRun(events, routes, dt))
    decreases |events|
  {
    if events != [] {
      var before := events[..|events| - 1];
      forall n | 0 <= n < |before| ensures InvertsNone(FleetRun(before[..n], routes, dt), before[n], routes) {
        assert before[..n] == events[..n];
      }
      FleetStaysInSegments(before, routes, dt);
      FleetStaysInBounds(before, routes, dt);
      EventKeepsSegments(FleetRun(before, routes, dt), events[|events| - 1], routes, dt);
    }
  }

  /** On every run, every locomotive of the fleet is on its route with a legal speed and notch, and after a
      tick none is left that finished a one-way trip. */
  lemma {:induction false} FleetStaysInBounds(events: seq<FleetEvent>, routes: map<RouteName, real>, dt: real)
    requires dt >= 0.0 && RoutesOk(routes) && forall e :: e in events ==> RequestOk(e)
    ensures AllBounded(FleetRun(events, routes, dt))
    ensures events != [] && events[|events| - 1].TickAll? ==>
              forall i :: i in FleetRun(events, routes, dt) ==> !Finished(FleetRun(events, routes, dt)[i])
    decreases |events|
  {
    if events != [] {
      var before := events[..|events| - 1];
      assert events[|events| - 1] in events;
      FleetStaysInBounds(before, routes, dt);
      EventKeepsFleetBounded(FleetRun(before, routes, dt), events[|events| - 1], routes, dt);
    }
  }
}
