/** The locomotive object the runner holds. */
module LocomotiveStates {
  import opened Numbers
  import opened Optional
  import opened Locomotive
  import opened LocomotiveRuns

  type LocoId(==)

  class LocomotiveState {
    const id: LocoId
    const diesel: bool
    var routeLength: real
    var mode: Mode
    var scenario: Scenario
    var autoMode: bool
    var speed: real
    var notch: int
    var distance: real
    var start: real
    var end: real
    var onArrival: OnArrival
    var arrived: bool
    var modeTicks: nat
    var modeDuration: nat
    var igbt: Option<real>
    var brake: Option<real>
    var scenarioTick: nat
    var forward: bool

    function View(): Loco
      reads this
    {
      Loco(diesel, routeLength, mode, scenario, autoMode, speed, notch, distance, start, end, onArrival, arrived,
           modeTicks, modeDuration, igbt, brake, scenarioTick, forward)
    }

    /** On its route, with a legal speed and notch. */
    ghost predicate Valid()
      reads this
    {
      Bounded(View())
    }

    constructor (id: LocoId, s: Loco, durationRoll: nat)
      ensures View() == Initialised(s, durationRoll) && this.id == id
      ensures s.routeLength >= 0.0 && s.speed >= 0.0 && 0 <= s.notch <= 8 ==> Valid() && InSegment(View())
    {
      this.id := id;
      diesel, routeLength, mode, scenario := s.diesel, s.routeLength, s.mode, s.scenario;
      autoMode, speed, notch := s.autoMode, s.speed, s.notch;
      onArrival, arrived, modeTicks := s.onArrival, s.arrived, s.modeTicks;
      igbt, brake, scenarioTick, forward := s.igbt, s.brake, s.scenarioTick, s.forward;
      modeDuration := if s.modeDuration == 0 then DrawDuration(s.mode, durationRoll) else s.modeDuration;
      var end0 := if s.end <= 0.0 then s.routeLength else s.end;
      var first := Max(0.0, Min(s.start, s.routeLength));
      var last := Max(first, Min(end0, s.routeLength));
      start, end, distance := first, last, Max(first, Min(s.distance, last));
      new;
      if s.routeLength >= 0.0 && s.speed >= 0.0 && 0 <= s.notch <= 8 {
        CreationIsBounded(s, durationRoll);
      }
    }

    /** `_enter_mode`. */
    method EnterMode(newMode: Mode, d: Draws)
      modifies this
      ensures View() == Entered(old(View()), newMode, d)
    {
      mode := newMode;
      modeTicks := 0;
      modeDuration := DrawDuration(newMode, d.durationRoll);
    }

    method EnterWhenDue(newMode: Mode, d: Draws)
      modifies this
      ensures View() == EnteredWhenDue(old(View()), newMode, d)
    {
      if modeTicks >= modeDuration {
        EnterMode(newMode, d);
      }
    }

    method Depart(d: Draws)
      modifies this
      ensures View() == Departed(old(View()), d)
    {
      if diesel {
        var target := MinInt(8, notch + 1);
        notch := if modeTicks % 20 == 0 && notch < target then target else notch;
      }
      speed := Min(100.0, speed + 0.5);
      EnterWhenDue(Cruising, d);
    }

    method Cruise(d: Draws)
      modifies this
      ensures View() == Cruised(old(View()), d)
    {
      if diesel {
        notch := 5 + d.notchRoll % 3;
      }
      speed := Max(50.0, Min(110.0, speed + d.drift));
      EnterWhenDue(Arrival, d);
    }

    method Arrive(d: Draws)
      modifies this
      ensures View() == Arrived(old(View()), d)
    {
      if diesel {
        notch := if notch - 1 >= 0 then notch - 1 else 0;
      }
      speed := Max(0.0, speed - 0.8);
      if modeTicks >= modeDuration {
        speed, notch, forward := 0.0, 0, !forward;
        EnterMode(Depot, d);
      }
    }

    method Sleep(d: Draws)
      modifies this
      ensures View() == Slept(old(View()), d)
    {
      speed, notch := 0.0, 0;
      EnterWhenDue(Departure, d);
    }

    method Brake(d: Draws)
      modifies this
      ensures View() == Braked(old(View()), d)
    {
      speed := Max(0.0, speed - 2.0);
      EnterWhenDue(Recovery, d);
    }

    method Recover(d: Draws)
      modifies this
      ensures View() == Recovered(old(View()), d)
    {
      speed := Min(60.0, speed + 0.3);
      if diesel {
        notch := MinInt(4, notch + (if modeTicks % 30 == 0 then 1 else 0));
      }
      EnterWhenDue(Cruising, d);
    }

    /** `_transition`: the automatic state machine, off in manual mode. */
    method Transition(d: Draws)
      modifies this
      ensures View() == Transitioned(old(View()), d)
    {
      if !autoMode {
        return;
      }
      modeTicks := modeTicks + 1;
      match mode {
        case Depot => EnterWhenDue(Departure, d);
        case Departure => Depart(d);
        case Cruising => Cruise(d);
        case Arrival => Arrive(d);
        case AessSleep => Sleep(d);
        case Emergency => Brake(d);
        case Recovery => Recover(d);
      }
    }

    /** `_apply_scenario`. */
    method ApplyScenario()
      modifies this
      ensures View() == WithScenario(old(View()))
    {
      scenarioTick := scenarioTick + 1;
      match scenario {
        case Normal =>
          igbt, brake := None, None;
        case Degradation =>
          var progress := Min(1.0, scenarioTick as real / 1200.0);
          igbt, brake := Some(57.0 + (87.0 - 57.0) * progress), None;
        case Fault =>
          if scenarioTick <= 10 {
            brake := Some(5.1 + (1.8 - 5.1) * (scenarioTick as real / 10.0));
          } else {
            brake := Some(1.8);
          }
          mode := Emergency;
          speed := Max(0.0, speed - 2.0);
          igbt := None;
      }
    }

    /** `_on_segment_bound_hit`. */
    method OnSegmentBoundHit(atEnd: bool)
      modifies this
      ensures View() == BoundHit(old(View()), atEnd)
    {
      if onArrival == Loop {
        forward := !forward;
        return;
      }
      if atEnd {
        if onArrival == Stop {
          speed, mode, autoMode, arrived := 0.0, Depot, false, true;
        } else {
          speed, arrived := 0.0, true;
        }
      } else {
        speed, forward := 0.0, true;
      }
    }

    /** `_update_gps`, without the cached pose. */
    method UpdateGps(dt: real)
      modifies this
      ensures View() == Moved(old(View()), dt)
    {
      if speed > 0.0 {
        var delta := speed * 1000.0 / 3600.0 * dt;
        if forward {
          distance := distance + delta;
          if distance >= end {
            distance := end;
            OnSegmentBoundHit(true);
          }
        } else {
          distance := distance - delta;
          if distance <= start {
            distance := start;
            OnSegmentBoundHit(false);
          }
        }
      }
    }

    method Tick(d: Draws, dt: real)
      modifies this
      ensures View() == Ticked(old(View()), d, dt)
      ensures old(Valid()) && dt >= 0.0 ==> Valid()
      ensures old(Valid()) && old(InSegment(View())) && dt >= 0.0 ==> InSegment(View())
    {
      ghost var was := View();
      Transition(d);
      ApplyScenario();
      UpdateGps(dt);
      if Bounded(was) && dt >= 0.0 {
        TickKeepsBounds(was, d, dt);
      }
    }

    method Reroute(e: Edit)
      modifies this
      ensures View() == Rerouted(old(View()), e)
    {
      if e.route.Some? {
        routeLength, start, end, distance := e.route.value, 0.0, e.route.value, 0.0;
      }
    }

    method Resegment(e: Edit)
      modifies this
      ensures View() == Resegmented(old(View()), e)
    {
      if e.startKm.Some? {
        start := Max(0.0, Min(e.startKm.value * 1000.0, routeLength));
      }
      if e.endKm.Some? {
        end := Max(start, Min(e.endKm.value * 1000.0, routeLength));
      }
      distance := Max(start, Min(distance, end));
    }

    method Reschedule(e: Edit)
      modifies this
      ensures View() == Rescheduled(old(View()), e)
    {
      if e.scenario.Some? && e.scenario.value != scenario {
        scenario, scenarioTick := e.scenario.value, 0;
        if e.scenario.value == Normal {
          igbt, brake := None, None;
        }
      }
    }

    method Remode(e: Edit)
      modifies this
      ensures View() == Remoded(old(View()), e)
    {
      if e.mode.Some? {
        mode, modeTicks := e.mode.value, 0;
      }
      onArrival := if e.onArrival.Some? then e.onArrival.value else onArrival;
      autoMode := if e.autoMode.Some? then e.autoMode.value else autoMode;
      speed := if e.speed.Some? then Max(0.0, e.speed.value) else speed;
    }

    /** The body of `update_locomotive` once the locomotive and its new route are found. */
    method Update(e: Edit)
      modifies this
      ensures View() == Edited(old(View()), e)
      ensures old(Valid()) && RouteOk(EditBy(e)) ==> Valid()
      ensures old(Valid()) && old(InSegment(View())) && RouteOk(EditBy(e)) ==>
                (InSegment(View()) <==> !InvertsSegment(old(View()), e))
    {
      ghost var was := View();
      Reroute(e);
      Resegment(e);
      Reschedule(e);
      Remode(e);
      if Bounded(was) && RouteOk(EditBy(e)) {
        EditKeepsSegmentIff(was, e);
      }
    }
  }
}
