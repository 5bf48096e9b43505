/** One simulated locomotive as a value: the mode state machine, the operator's scenario, and the kinematics. */
module Locomotive {
  import opened Numbers
  import opened Optional

  datatype Mode = Depot | Departure | Cruising | Arrival | AessSleep | Emergency | Recovery

  datatype Scenario = Normal | Degradation | Fault

  datatype OnArrival = Loop | Stop | Remove

  /** Everything a tick reads or writes, as one value. Distances in metres, speed in km/h. */
  datatype Loco = Loco(diesel: bool, routeLength: real, mode: Mode, scenario: Scenario, autoMode: bool,
                       speed: real, notch: int, distance: real, start: real, end: real,
                       onArrival: OnArrival, arrived: bool, modeTicks: nat, modeDuration: nat,
                       igbt: Option<real>, brake: Option<real>, scenarioTick: nat, forward: bool)

  /** The random draws of one tick. */
  datatype Draws = Draws(notchRoll: nat, drift: real, durationRoll: nat)

  function Durations(mode: Mode): (range: (nat, nat))
    ensures range.0 < range.1
  {
    match mode
    case Depot => (600, 7200)
    case Departure => (180, 600)
    case Cruising => (1800, 10800)
    case Arrival => (180, 600)
    case AessSleep => (300, 1800)
    case Emergency => (60, 300)
    case Recovery => (300, 900)
  }

  /** A uniform draw from the duration range of a mode. */
  function DrawDuration(mode: Mode, roll: nat): nat {
    Durations(mode).0 + roll % (Durations(mode).1 - Durations(mode).0 + 1)
  }

  // ----- One tick, as functions

  function Entered(s: Loco, mode: Mode, d: Draws): Loco {
    s.(mode := mode, modeTicks := 0, modeDuration := DrawDuration(mode, d.durationRoll))
  }

  function EnteredWhenDue(s: Loco, mode: Mode, d: Draws): Loco {
    if s.modeTicks >= s.modeDuration then Entered(s, mode, d) else s
  }

  function Departed(s: Loco, d: Draws): Loco {
    var target := MinInt(8, s.notch + 1);
    EnteredWhenDue(s.(notch := if s.diesel && s.modeTicks % 20 == 0 && s.notch < target then target else s.notch,
                      speed := Min(100.0, s.speed + 0.5)), Cruising, d)
  }

  function Cruised(s: Loco, d: Draws): Loco {
    EnteredWhenDue(s.(notch := if s.diesel then 5 + d.notchRoll % 3 else s.notch,
                      speed := Max(50.0, Min(110.0, s.speed + d.drift))), Arrival, d)
  }

  function Arrived(s: Loco, d: Draws): Loco {
    if s.modeTicks >= s.modeDuration then Entered(s.(speed := 0.0, notch := 0, forward := !s.forward), Depot, d)
    else s.(notch := if !s.diesel then s.notch else if s.notch - 1 >= 0 then s.notch - 1 else 0,
            speed := Max(0.0, s.speed - 0.8))
  }

  function Recovered(s: Loco, d: Draws): Loco {
    var up := if s.modeTicks % 30 == 0 then 1 else 0;
    EnteredWhenDue(s.(notch := if s.diesel then MinInt(4, s.notch + up) else s.notch,
                      speed := Min(60.0, s.speed + 0.3)), Cruising, d)
  }

  function Braked(s: Loco, d: Draws): Loco {
    EnteredWhenDue(s.(speed := Max(0.0, s.speed - 2.0)), Recovery, d)
  }

  function Slept(s: Loco, d: Draws): Loco {
    EnteredWhenDue(s.(speed := 0.0, notch := 0), Departure, d)
  }

  function Dispatched(s: Loco, d: Draws): Loco {
    match s.mode
    case Depot => EnteredWhenDue(s, Departure, d)
    case Departure => Departed(s, d)
    case Cruising => Cruised(s, d)
    case Arrival => Arrived(s, d)
    case AessSleep => Slept(s, d)
    case Emergency => Braked(s, d)
    case Recovery => Recovered(s, d)
  }

  function Transitioned(s: Loco, d: Draws): Loco {
    if !s.autoMode then s else Dispatched(s.(modeTicks := s.modeTicks + 1), d)
  }

  function WithScenario(s: Loco): Loco {
    var t := s.(scenarioTick := s.scenarioTick + 1);
    match t.scenario
    case Normal => t.(igbt := None, brake := None)
    case Degradation =>
      t.(igbt := Some(57.0 + (87.0 - 57.0) * Min(1.0, t.scenarioTick as real / 1200.0)), brake := None)
    case Fault =>
      t.(igbt := None, mode := Emergency, speed := Max(0.0, t.speed - 2.0),
         brake := Some(if t.scenarioTick <= 10 then 5.1 + (1.8 - 5.1) * (t.scenarioTick as real / 10.0) else 1.8))
  }

  function BoundHit(s: Loco, atEnd: bool): Loco {
    if s.onArrival == Loop then s.(forward := !s.forward)
    else if atEnd then
      if s.onArrival == Stop then s.(speed := 0.0, mode := Depot, autoMode := false, arrived := true)
      else s.(speed := 0.0, arrived := true)
    else s.(speed := 0.0, forward := true)
  }

  /** Metres covered in one tick. */
  function Stride(s: Loco, dt: real): real { s.speed * 1000.0 / 3600.0 * dt }

  function Moved(s: Loco, dt: real): Loco {
    if s.speed <= 0.0 then s
    else if s.forward then
      if s.distance + Stride(s, dt) >= s.end then BoundHit(s.(distance := s.end), true)
      else s.(distance := s.distance + Stride(s, dt))
    else
      if s.distance - Stride(s, dt) <= s.start then BoundHit(s.(distance := s.start), false)
      else s.(distance := s.distance - Stride(s, dt))
  }

  function Ticked(s: Loco, d: Draws, dt: real): Loco {
    Moved(WithScenario(Transitioned(s, d)), dt)
  }

  // ----- Creation and operator edits

  /** `__post_init__`: bounds and position are forced into the route. */
  function Initialised(s: Loco, durationRoll: nat): Loco {
    var end0 := if s.end <= 0.0 then s.routeLength else s.end;
    var start := Max(0.0, Min(s.start, s.routeLength));
    var end := Max(start, Min(end0, s.routeLength));
    s.(modeDuration := if s.modeDuration == 0 then DrawDuration(s.mode, durationRoll) else s.modeDuration,
       start := start, end := end, distance := Max(start, Min(s.distance, end)))
  }

  /** A partial update; `route` is the length of the new route. */
  datatype Edit = Edit(route: Option<real>, startKm: Option<real>, endKm: Option<real>, mode: Option<Mode>,
                       scenario: Option<Scenario>, onArrival: Option<OnArrival>, autoMode: Option<bool>,
                       speed: Option<real>)

  function Rerouted(s: Loco, e: Edit): Loco {
    if e.route == None then s
    else s.(routeLength := e.route.value, start := 0.0, end := e.route.value, distance := 0.0)
  }

  function Resegmented(s: Loco, e: Edit): Loco {
    var start := if e.startKm.Some? then Max(0.0, Min(e.startKm.value * 1000.0, s.routeLength)) else s.start;
    var end := if e.endKm.Some? then Max(start, Min(e.endKm.value * 1000.0, s.routeLength)) else s.end;
    s.(start := start, end := end, distance := Max(start, Min(s.distance, end)))
  }

  function Remoded(s: Loco, e: Edit): Loco {
    s.(mode := if e.mode.Some? then e.mode.value else s.mode, modeTicks := if e.mode.Some? then 0 else s.modeTicks,
       onArrival := if e.onArrival.Some? then e.onArrival.value else s.onArrival,
       autoMode := if e.autoMode.Some? then e.autoMode.value else s.autoMode,
       speed := if e.speed.Some? then Max(0.0, e.speed.value) else s.speed)
  }

  function Rescheduled(s: Loco, e: Edit): Loco {
    if e.scenario == None || e.scenario.value == s.scenario then s
    else
      s.(scenario := e.scenario.value, scenarioTick := 0,
         igbt := if e.scenario.value == Normal then None else s.igbt,
         brake := if e.scenario.value == Normal then None else s.brake)
  }

  function Edited(s: Loco, e: Edit): Loco {
    Remoded(Rescheduled(Resegmented(Rerouted(s, e), e), e), e)
  }
}
