/** The schedule of a locomotive in automatic mode: which mode follows which, when, and at what speed. */
module LocomotiveModes {
  import opened Numbers
  import opened Optional
  import opened Locomotive
  import opened LocomotiveRuns

  /** Depot, departure, cruising, arrival, depot; sleep ends in departure, an emergency in recovery and cruising. */
  function Successor(mode: Mode): Mode {
    match mode
    case Depot => Departure
    case Departure => Cruising
    case Cruising => Arrival
    case Arrival => Depot
    case AessSleep => Departure
    case Emergency => Recovery
    case Recovery => Cruising
  }

  /** Automatic, without a fault, and shuttling. */
  ghost predicate Scheduled(s: Loco) { s.autoMode && s.scenario != Fault && s.onArrival == Loop }

  /** The ticks a mode has left, the one that ends it included. */
  function Left(s: Loco): nat { if s.modeTicks + 1 < s.modeDuration then s.modeDuration - s.modeTicks else 1 }

  // ----- Durations

  /** A duration lies within the range of its mode, and every one in that range can be drawn. */
  lemma {:induction false} DurationsAreDrawn(mode: Mode, roll: nat, x: nat)
    requires Durations(mode).0 <= x <= Durations(mode).1
    ensures Durations(mode).0 <= DrawDuration(mode, roll) <= Durations(mode).1
    ensures DrawDuration(mode, x - Durations(mode).0) == x
  {
  }

  // ----- One tick

  /** In a mode with ticks left it stays; with its last tick the successor begins. */
  ghost predicate FollowsSchedule(s: Loco, t: Loco) {
    && Scheduled(t) && t.diesel == s.diesel
    && (if Left(s) > 1 then t.mode == s.mode && t.modeTicks == s.modeTicks + 1 && t.modeDuration == s.modeDuration
        else t.mode == Successor(s.mode) && t.modeTicks == 0
             && Durations(t.mode).0 <= t.modeDuration <= Durations(t.mode).1)
  }

  /** Speed and notch after one tick in the mode of `s`. */
  ghost predicate KeepsPace(s: Loco, t: Loco, drift: real) {
    match s.mode
    case Depot => t.speed == s.speed && t.notch == s.notch
    case AessSleep => t.speed == 0.0 && t.notch == 0
    case Departure =>
      && t.speed == Min(100.0, s.speed + 0.5)
      && (s.notch <= 8 ==>
            t.notch == if s.diesel && (s.modeTicks + 1) % 20 == 0 then MinInt(8, s.notch + 1) else s.notch)
    case Cruising =>
      && t.speed == Max(50.0, Min(110.0, s.speed + drift))
      && (if s.diesel then 5 <= t.notch <= 7 else t.notch == s.notch)
    case Arrival =>
      if Left(s) > 1 then
        && t.speed == Max(0.0, s.speed - 0.8) && t.notch == (if s.diesel then MaxInt(0, s.notch - 1) else s.notch)
      else t.speed == 0.0 && t.notch == 0 && t.distance == s.distance && t.forward == !s.forward
    case Emergency => t.speed == Max(0.0, s.speed - 2.0) && t.notch == s.notch
    case Recovery =>
      && t.speed == Min(60.0, s.speed + 0.3)
      && t.notch == (if s.diesel then MinInt(4, s.notch + if (s.modeTicks + 1) % 30 == 0 then 1 else 0) else s.notch)
  }

  /** Scenario and move leave the schedule, the speed and the notch alone; a stationary train stays put. */
  ghost predicate OnlyCarried(s: Loco, t: Loco) {
    && t.mode == s.mode && t.modeTicks == s.modeTicks && t.modeDuration == s.modeDuration
    && t.speed == s.speed && t.notch == s.notch && t.diesel == s.diesel
    && t.autoMode == s.autoMode && t.scenario == s.scenario && t.onArrival == s.onArrival
    && (s.speed <= 0.0 ==> t.forward == s.forward && t.distance == s.distance)
  }

  lemma CarriedByScenarioAndMove(s: Loco, dt: real)
    requires s.scenario != Fault && s.onArrival == Loop
    ensures OnlyCarried(s, Moved(WithScenario(s), dt))
  {
    ScenarioCarries(s);
    MoveCarries(WithScenario(s), dt);
  }

  lemma ScenarioCarries(s: Loco)
    requires s.scenario != Fault
    ensures OnlyCarried(s, WithScenario(s)) && WithScenario(s).forward == s.forward
    ensures WithScenario(s).distance == s.distance
  {
  }

  lemma MoveCarries(s: Loco, dt: real)
    requires s.onArrival == Loop
    ensures OnlyCarried(s, Moved(s, dt))
  {
  }

  /** What a transition does in automatic mode. */
  ghost predicate IsTransition(s: Loco, t: Loco, drift: real) { FollowsSchedule(s, t) && KeepsPace(s, t, drift) }

  lemma DepotTransition(s: Loco, d: Draws)
    requires Scheduled(s) && (s.mode == Depot || s.mode == AessSleep)
    ensures IsTransition(s, Transitioned(s, d), d.drift)
  {
  }

  lemma DepartureTransition(s: Loco, d: Draws)
    requires Scheduled(s) && s.mode == Departure
    ensures IsTransition(s, Transitioned(s, d), d.drift)
  {
  }

  lemma CruisingTransition(s: Loco, d: Draws)
    requires Scheduled(s) && s.mode == Cruising
    ensures IsTransition(s, Transitioned(s, d), d.drift)
  {
  }

  lemma ArrivalTransition(s: Loco, d: Draws)
    requires Scheduled(s) && s.mode == Arrival
    ensures IsTransition(s, Transitioned(s, d), d.drift)
  {
  }

  lemma EmergencyTransition(s: Loco, d: Draws)
    requires Scheduled(s) && (s.mode == Emergency || s.mode == Recovery)
    ensures IsTransition(s, Transitioned(s, d), d.drift)
  {
  }

  lemma {:induction false} TransitionIsOnSchedule(s: Loco, d: Draws)
    requires Scheduled(s)
    ensures IsTransition(s, Transitioned(s, d), d.drift)
  {
    match s.mode
    case Departure => DepartureTransition(s, d);
    case Cruising => CruisingTransition(s, d);
    case Arrival => ArrivalTransition(s, d);
    case Emergency => EmergencyTransition(s, d);
    case Recovery => EmergencyTransition(s, d);
    case Depot => DepotTransition(s, d);
    case AessSleep => DepotTransition(s, d);
  }

  lemma {:induction false} CarriedTransition(s: Loco, t: Loco, u: Loco, drift: real)
    requires IsTransition(s, t, drift) && OnlyCarried(t, u)
    ensures IsTransition(s, u, drift)
  {
  }

  lemma {:induction false} TickIsOnSchedule(s: Loco, d: Draws, dt: real)
    requires Scheduled(s)
    ensures IsTransition(s, Ticked(s, d, dt), d.drift)
  {
    TransitionIsOnSchedule(s, d);
    CarriedByScenarioAndMove(Transitioned(s, d), dt);
    CarriedTransition(s, Transitioned(s, d), Ticked(s, d, dt), d.drift);
  }

  // ----- The ticks of one mode

  /** Speed and notch after n ticks in the mode of `s`. Departure: half a kilometre per hour faster per tick up to 100,
      a diesel one notch up every twenty ticks of the mode, at most at eight. Recovery: 0.3 faster up to 60, a notch up
      every thirty ticks, at most at four. Cruising: between 50 and 110, a diesel in notch five to seven. Arrival: 0.8
      slower, a diesel a notch down; at the end at rest. An emergency without its fault: 2 slower. A train in the
      depot keeps its speed, a sleeping one has none. */
  ghost predicate Paced(s: Loco, t: Loco, n: nat)
    requires n > 0
  {
    match s.mode
    case Depot => t.speed == s.speed && t.notch == s.notch
    case AessSleep => t.speed == 0.0 && t.notch == 0
    case Departure =>
      && t.speed == Min(100.0, s.speed + n as real / 2.0)
      && (s.notch <= 8 ==>
            t.notch == if s.diesel then MinInt(8, s.notch + (s.modeTicks + n) / 20 - s.modeTicks / 20) else s.notch)
    case Cruising => 50.0 <= t.speed <= 110.0 && (if s.diesel then 5 <= t.notch <= 7 else t.notch == s.notch)
    case Arrival =>
      if n < Left(s) then
        && (s.speed >= 0.0 ==> t.speed == Max(0.0, s.speed - 0.8 * n as real))
        && (s.notch >= 0 ==> t.notch == if s.diesel then MaxInt(0, s.notch - n) else s.notch)
      else t.speed == 0.0 && t.notch == 0
    case Emergency =>
      (s.speed >= 0.0 ==> t.speed == Max(0.0, s.speed - 2.0 * n as real)) && t.notch == s.notch
    case Recovery =>
      && t.speed == Min(60.0, s.speed + 0.3 * n as real)
      && t.notch == if s.diesel then MinInt(4, s.notch + (s.modeTicks + n) / 30 - s.modeTicks / 30) else s.notch
  }

  /** Where n ticks lead: the mode lasts until its time is up, and then its successor begins, with a duration of its
      own. */
  ghost predicate Along(s: Loco, t: Loco, n: nat) {
    && Scheduled(t) && t.diesel == s.diesel
    && (if n < Left(s) then t.mode == s.mode && t.modeTicks == s.modeTicks + n && t.modeDuration == s.modeDuration
        else t.mode == Successor(s.mode) && t.modeTicks == 0
             && Durations(t.mode).0 <= t.modeDuration <= Durations(t.mode).1)
    && (n > 0 ==> Paced(s, t, n)) && (n == 0 ==> t == s)
  }

  lemma {:induction false} DepartureGoesOn(s: Loco, t: Loco, u: Loco, n: nat, drift: real)
    requires s.mode == Departure && Along(s, t, n) && n < Left(s) && IsTransition(t, u, drift)
    ensures Paced(s, u, n + 1)
  {
    var k := s.modeTicks + n;
    assert (k + 1) / 20 == k / 20 + if (k + 1) % 20 == 0 then 1 else 0;
  }

  lemma {:induction false} RecoveryGoesOn(s: Loco, t: Loco, u: Loco, n: nat, drift: real)
    requires s.mode == Recovery && Along(s, t, n) && n < Left(s) && IsTransition(t, u, drift)
    ensures Paced(s, u, n + 1)
  {
    var k := s.modeTicks + n;
    assert (k + 1) / 30 == k / 30 + if (k + 1) % 30 == 0 then 1 else 0;
  }

  lemma {:induction false} ArrivalGoesOn(s: Loco, t: Loco, u: Loco, n: nat, drift: real)
    requires (s.mode == Arrival || s.mode == Emergency) && Along(s, t, n) && n < Left(s) && IsTransition(t, u, drift)
    ensures Paced(s, u, n + 1)
  {
  }

  lemma {:induction false} OthersGoOn(s: Loco, t: Loco, u: Loco, n: nat, drift: real)
    requires s.mode == Depot || s.mode == AessSleep || s.mode == Cruising
    requires Along(s, t, n) && n < Left(s) && IsTransition(t, u, drift)
    ensures Paced(s, u, n + 1)
  {
  }

  lemma {:induction false} GoesOn(s: Loco, t: Loco, u: Loco, n: nat, drift: real)
    requires Along(s, t, n) && n < Left(s) && IsTransition(t, u, drift)
    ensures Along(s, u, n + 1)
  {
    match s.mode
    case Departure => DepartureGoesOn(s, t, u, n, drift);
    case Recovery => RecoveryGoesOn(s, t, u, n, drift);
    case Arrival => ArrivalGoesOn(s, t, u, n, drift);
    case Emergency => ArrivalGoesOn(s, t, u, n, drift);
    case Depot => OthersGoOn(s, t, u, n, drift);
    case AessSleep => OthersGoOn(s, t, u, n, drift);
    case Cruising => OthersGoOn(s, t, u, n, drift);
  }

  /** The schedule: from any state in automatic mode without a fault, the train keeps its mode and that mode's pace for
      the ticks it has left, and with the last of them the successor begins. */
  lemma {:induction false} ScheduleIsKept(s: Loco, draws: seq<Draws>, dt: real)
    requires Scheduled(s) && |draws| <= Left(s)
    ensures Along(s, Ticks(s, draws, dt), |draws|)
    decreases |draws|
  {
    if draws != [] {
      var n := |draws| - 1;
      ScheduleIsKept(s, draws[..n], dt);
      var t := Ticks(s, draws[..n], dt);
      TickIsOnSchedule(t, draws[n], dt);
      GoesOn(s, t, Ticked(t, draws[n], dt), n, draws[n].drift);
    }
  }

  /** So a departing train is cruising when its ticks are up, at the speed it reached. */
  lemma {:induction false} DepartureLeadsToCruising(s: Loco, draws: seq<Draws>, dt: real)
    requires Scheduled(s) && s.mode == Departure && |draws| == Left(s)
    ensures var t := Ticks(s, draws, dt);
            t.mode == Cruising && t.speed == Min(100.0, s.speed + |draws| as real / 2.0)
  {
    ScheduleIsKept(s, draws, dt);
  }

  /** An arriving train ends in the depot, at rest, where its last tick found it, and turned round. */
  lemma {:induction false} ArrivalEndsInTheDepot(s: Loco, draws: seq<Draws>, dt: real)
    requires Scheduled(s) && s.mode == Arrival && |draws| == Left(s)
    ensures var (t, before) := (Ticks(s, draws, dt), Ticks(s, draws[..|draws| - 1], dt));
            t.mode == Depot && t.speed == 0.0 && t.distance == before.distance && t.forward == !before.forward
  {
    var n := |draws| - 1;
    ScheduleIsKept(s, draws, dt);
    ScheduleIsKept(s, draws[..n], dt);
    TickIsOnSchedule(Ticks(s, draws[..n], dt), draws[n], dt);
  }

  /** Cruising follows its drift between 50 and 110. */
  lemma {:induction false} CruisingDrifts(s: Loco, d: Draws, dt: real)
    requires Scheduled(s) && s.mode == Cruising
    ensures var (v, t) := (s.speed + d.drift, Ticked(s, d, dt));
            t.speed == if v < 50.0 then 50.0 else if v > 110.0 then 110.0 else v
  {
    TickIsOnSchedule(s, d, dt);
  }

  /** A whole round: departure, cruising, arrival and the depot, one after the other for as long as each lasts. */
  lemma {:induction false} RoundTrip(s: Loco, a: seq<Draws>, b: seq<Draws>, c: seq<Draws>, e: seq<Draws>, dt: real)
    requires Scheduled(s) && s.mode == Departure && |a| == Left(s)
    requires |b| == Left(Ticks(s, a, dt)) && |c| == Left(Ticks(s, a + b, dt))
    requires |e| == Left(Ticks(s, a + b + c, dt))
    ensures Ticks(s, a, dt).mode == Cruising && Ticks(s, a + b, dt).mode == Arrival
    ensures Ticks(s, a + b + c, dt).mode == Depot && Ticks(s, a + b + c, dt).speed == 0.0
    ensures Ticks(s, a + b + c + e, dt).mode == Departure && Ticks(s, a + b + c + e, dt).speed == 0.0
  {
    TicksConcat(s, a, b, dt);
    TicksConcat(s, a + b, c, dt);
    TicksConcat(s, a + b + c, e, dt);
    ScheduleIsKept(s, a, dt);
    ScheduleIsKept(Ticks(s, a, dt), b, dt);
    ScheduleIsKept(Ticks(s, a + b, dt), c, dt);
    ScheduleIsKept(Ticks(s, a + b + c, dt), e, dt);
  }

  /** In manual mode nothing of this happens: mode, clock, speed and notch stay as the operator set them. */
  lemma {:induction false} ManualModeIsKept(s: Loco, draws: seq<Draws>, dt: real)
    requires !s.autoMode && s.scenario != Fault && s.onArrival == Loop
    ensures var t := Ticks(s, draws, dt);
            && t.mode == s.mode && t.modeTicks == s.modeTicks && t.speed == s.speed && t.notch == s.notch
            && !t.autoMode && t.scenario == s.scenario && t.onArrival == Loop
    decreases |draws|
  {
    if draws != [] {
      var n := |draws| - 1;
      ManualModeIsKept(s, draws[..n], dt);
      CarriedByScenarioAndMove(Ticks(s, draws[..n], dt), dt);
    }
  }

  // ----- Scenarios

  /** The scenario, its clock, and the two sensors it overrides. */
  ghost predicate SameSensors(s: Loco, t: Loco) {
    t.scenario == s.scenario && t.scenarioTick == s.scenarioTick && t.igbt == s.igbt && t.brake == s.brake
  }

  lemma TransitionKeepsSensors(s: Loco, d: Draws)
    ensures SameSensors(s, Transitioned(s, d))
  {
    TransitionIsOk(s, d);
  }

  lemma MoveKeepsSensors(s: Loco, dt: real)
    ensures SameSensors(s, Moved(s, dt))
  {
  }

  /** What the scenario has made of the sensors after k of its ticks: degradation heats the power modules by a degree
      every forty ticks from 57 up to 87, a fault lets the brake pressure fall by 0.33 per tick from 5.1 down to 1.8;
      the sensor a scenario does not override is left to itself. */
  ghost predicate Overridden(s: Loco) {
    var k := s.scenarioTick as real;
    && s.igbt == (if s.scenario == Degradation then Some(Min(87.0, 57.0 + k / 40.0)) else None)
    && s.brake == (if s.scenario == Fault then Some(Max(1.8, 5.1 - 0.33 * k)) else None)
  }

  lemma ScenarioOverrides(s: Loco)
    ensures var t := WithScenario(s);
            Overridden(t) && t.scenario == s.scenario && t.scenarioTick == s.scenarioTick + 1
  {
  }

  lemma {:induction false} TickOverrides(s: Loco, d: Draws, dt: real)
    ensures var t := Ticked(s, d, dt);
            Overridden(t) && t.scenario == s.scenario && t.scenarioTick == s.scenarioTick + 1
  {
    TransitionKeepsSensors(s, d);
    ScenarioOverrides(Transitioned(s, d));
    MoveKeepsSensors(WithScenario(Transitioned(s, d)), dt);
  }

  /** After any number of ticks the sensors are where the scenario's clock puts them. */
  lemma {:induction false} ScenarioDrivesSensors(s: Loco, draws: seq<Draws>, dt: real)
    requires draws != []
    ensures var t := Ticks(s, draws, dt);
            Overridden(t) && t.scenario == s.scenario && t.scenarioTick == s.scenarioTick + |draws|
    decreases |draws|
  {
    var n := |draws| - 1;
    if n > 0 {
      ScenarioDrivesSensors(s, draws[..n], dt);
    }
    TickOverrides(Ticks(s, draws[..n], dt), draws[n], dt);
  }

  /** A fault forces the emergency, in both modes of driving. */
  lemma FaultForcesEmergency(s: Loco, d: Draws, dt: real)
    requires s.scenario == Fault && s.onArrival == Loop
    ensures Ticked(s, d, dt).mode == Emergency
  {
    TransitionIsOk(s, d);
  }

  // ----- Moving

  /** Speed is in kilometres per hour: an hour covers a thousand metres for each, and strides add up over time. */
  lemma {:induction false} StridesCoverTheSpeed(s: Loco, a: real, b: real)
    ensures Stride(s, 3600.0) == 1000.0 * s.speed
    ensures Stride(s, a + b) == Stride(s, a) + Stride(s, b)
  {
    var perSecond := s.speed * 1000.0 / 3600.0;
    assert perSecond * (a + b) == perSecond * a + perSecond * b;
  }

  /** Arriving: at the end a one-way train has arrived and stands, in whatever mode it came, and a stopping one goes
      to the depot under the operator's hand; at the start both stand and turn forward. */
  lemma ArrivingAtABound(s: Loco, dt: real)
    requires s.speed > 0.0 && s.onArrival != Loop
    ensures s.forward && s.distance + Stride(s, dt) >= s.end ==>
              Moved(s, dt) == s.(distance := s.end, speed := 0.0, arrived := true,
                                 mode := if s.onArrival == Stop then Depot else s.mode,
                                 autoMode := s.autoMode && s.onArrival != Stop)
    ensures !s.forward && s.distance - Stride(s, dt) <= s.start ==>
              Moved(s, dt) == s.(distance := s.start, speed := 0.0, forward := true)
  {
  }

  // ----- Creation

  /** Creation keeps what fits: a segment on the route, a place in the segment, and a duration that was given; without
      one it draws one for the mode. Nothing else is touched. */
  lemma CreationKeepsWhatFits(s: Loco, roll: nat)
    ensures var t := Initialised(s, roll);
            && t == s.(start := t.start, end := t.end, distance := t.distance, modeDuration := t.modeDuration)
            && (s.modeDuration > 0 ==> t.modeDuration == s.modeDuration)
            && (s.modeDuration == 0 ==> t.modeDuration == DrawDuration(s.mode, roll))
            && (0.0 <= s.start <= s.end <= s.routeLength && s.end > 0.0 ==>
                  t.start == s.start && t.end == s.end && (s.start <= s.distance <= s.end ==> t.distance == s.distance))
  {
  }

  // ----- Edits

  lemma RouteAndSegmentStage(s: Loco, e: Edit)
    ensures var t := Resegmented(Rerouted(s, e), e);
            t == s.(routeLength := if e.route.Some? then e.route.value else s.routeLength, start := t.start,
                    end := t.end, distance := t.distance)
  {
  }

  /** The edit names this, or the old value stays. */
  function Given<T>(named: Option<T>, present: T): T { if named.Some? then named.value else present }

  lemma DriveStage(s: Loco, e: Edit)
    ensures var t := Remoded(Rescheduled(s, e), e);
            && t.mode == Given(e.mode, s.mode) && t.modeTicks == (if e.mode.Some? then 0 else s.modeTicks)
            && t.onArrival == Given(e.onArrival, s.onArrival) && t.autoMode == Given(e.autoMode, s.autoMode)
            && t.speed == (if e.speed.Some? then Max(0.0, e.speed.value) else s.speed)
            && t.notch == s.notch && t.forward == s.forward && t.arrived == s.arrived && t.diesel == s.diesel
            && t.routeLength == s.routeLength
  {
  }

  lemma ScenarioStage(s: Loco, e: Edit)
    ensures var t := Remoded(Rescheduled(s, e), e);
            && t.scenario == Given(e.scenario, s.scenario)
            && t.scenarioTick == (if t.scenario != s.scenario then 0 else s.scenarioTick)
            && (if t.scenario != s.scenario && t.scenario == Normal then t.igbt == None && t.brake == None
                else t.igbt == s.igbt && t.brake == s.brake)
  {
  }

  /** An edit sets what it names and nothing else: the mode with its clock, a speed not below zero... */
  lemma {:induction false} EditSetsTheDrive(s: Loco, e: Edit)
    ensures var t := Edited(s, e);
            && t.mode == Given(e.mode, s.mode) && t.modeTicks == (if e.mode.Some? then 0 else s.modeTicks)
            && t.onArrival == Given(e.onArrival, s.onArrival) && t.autoMode == Given(e.autoMode, s.autoMode)
            && t.speed == (if e.speed.Some? then Max(0.0, e.speed.value) else s.speed)
            && t.notch == s.notch && t.forward == s.forward && t.arrived == s.arrived && t.diesel == s.diesel
            && t.routeLength == Given(e.route, s.routeLength)
  {
    RouteAndSegmentStage(s, e);
    DriveStage(Resegmented(Rerouted(s, e), e), e);
  }

  /** ...and the scenario, if it is another one, with its clock; a return to normal clears both sensors at once. */
  lemma {:induction false} EditSetsTheScenario(s: Loco, e: Edit)
    ensures var t := Edited(s, e);
            && t.scenario == Given(e.scenario, s.scenario)
            && t.scenarioTick == (if t.scenario != s.scenario then 0 else s.scenarioTick)
            && (if t.scenario != s.scenario && t.scenario == Normal then t.igbt == None && t.brake == None
                else t.igbt == s.igbt && t.brake == s.brake)
  {
    RouteAndSegmentStage(s, e);
    ScenarioStage(Resegmented(Rerouted(s, e), e), e);
  }

  lemma SegmentStage(r: Loco, e: Edit)
    requires Bounded(r)
    requires e.startKm.Some? ==> 0.0 <= e.startKm.value * 1000.0 <= r.routeLength
    requires e.endKm.Some? ==> Resegmented(r, e).start <= e.endKm.value * 1000.0 <= r.routeLength
    ensures var t := Resegmented(r, e);
            && t.start == (if e.startKm.Some? then e.startKm.value * 1000.0 else r.start)
            && t.end == (if e.endKm.Some? then e.endKm.value * 1000.0 else r.end)
            && (t.start <= r.distance <= t.end ==> t.distance == r.distance)
            && (r.distance <= t.start <= t.end ==> t.distance == t.start)
  {
  }

  /** Within the route a segment becomes what was asked for, in kilometres; what is not asked for stays, or is the
      whole of a new route. A train inside it stays where it is, and one on a new route stands at the start. */
  lemma {:induction false} SegmentIsAsAsked(s: Loco, e: Edit)
    requires Bounded(s) && RouteOk(EditBy(e))
    requires var t := Edited(s, e);
             && (e.startKm.Some? ==> 0.0 <= e.startKm.value * 1000.0 <= t.routeLength)
             && (e.endKm.Some? ==> t.start <= e.endKm.value * 1000.0 <= t.routeLength)
    ensures var t := Edited(s, e);
            && t.start == (if e.startKm.Some? then e.startKm.value * 1000.0
                           else if e.route.Some? then 0.0 else s.start)
            && t.end == (if e.endKm.Some? then e.endKm.value * 1000.0
                         else if e.route.Some? then e.route.value else s.end)
            && (e.route == None && t.start <= s.distance <= t.end ==> t.distance == s.distance)
            && (e.route.Some? && t.start <= t.end ==> t.distance == t.start)
  {
    var r := Rerouted(s, e);
    OtherEditsAreOk(Resegmented(r, e), e);
    SegmentStage(r, e);
  }
}
