/** Whole-run guarantees of one locomotive. */
module LocomotiveRuns {
  import opened Numbers
  import opened Optional
  import opened Locomotive

  datatype Event = TickBy(draws: Draws) | EditBy(edit: Edit)

  function Stepped(s: Loco, e: Event, dt: real): Loco {
    match e
    case TickBy(d) => Ticked(s, d, dt)
    case EditBy(edit) => Edited(s, edit)
  }

  /** The state after a sequence of ticks and operator edits. */
  function Run(s: Loco, events: seq<Event>, dt: real): Loco
    decreases |events|
  {
    if events == [] then s
    else Stepped(Run(s, events[..|events| - 1], dt), events[|events| - 1], dt)
  }

  predicate RouteOk(e: Event) { e.EditBy? && e.edit.route.Some? ==> e.edit.route.value >= 0.0 }

  // ----- Bounds

  /** On the route, never backwards, and a notch the controller has. */
  ghost predicate Bounded(s: Loco) {
    && 0.0 <= s.start <= s.routeLength && 0.0 <= s.end <= s.routeLength
    && 0.0 <= s.distance <= s.routeLength
    && 0.0 <= s.speed && 0 <= s.notch <= 8
  }

  ghost predicate InSegment(s: Loco) { s.start <= s.distance <= s.end }

  lemma CreationIsBounded(s: Loco, durationRoll: nat)
    requires s.routeLength >= 0.0 && s.speed >= 0.0 && 0 <= s.notch <= 8
    ensures Bounded(Initialised(s, durationRoll)) && InSegment(Initialised(s, durationRoll))
  {
    var t := Initialised(s, durationRoll);
    assert 0.0 <= t.start <= t.end <= t.routeLength;
  }

  /** A transition touches only mode, speed, notch and direction, and keeps speed and notch in range. */
  ghost predicate TransitionOk(s: Loco, t: Loco) {
    && t == s.(mode := t.mode, speed := t.speed, notch := t.notch, forward := t.forward,
               modeTicks := t.modeTicks, modeDuration := t.modeDuration)
    && (Bounded(s) ==> 0.0 <= t.speed <= Max(s.speed, 110.0) && 0 <= t.notch <= 8)
  }

  lemma EnteringIsOk(s: Loco, mode: Mode, d: Draws)
    ensures EnteredWhenDue(s, mode, d).speed == s.speed && EnteredWhenDue(s, mode, d).notch == s.notch
    ensures TransitionOk(s, EnteredWhenDue(s, mode, d))
  {
  }

  lemma DepartureIsOk(s: Loco, d: Draws)
    ensures TransitionOk(s, Departed(s, d)) && TransitionOk(s, Cruised(s, d))
  {
  }

  lemma ArrivalIsOk(s: Loco, d: Draws)
    ensures TransitionOk(s, Arrived(s, d)) && TransitionOk(s, Recovered(s, d))
  {
  }

  lemma BrakingIsOk(s: Loco, d: Draws)
    ensures TransitionOk(s, Slept(s, d)) && TransitionOk(s, Braked(s, d))
  {
  }

  lemma CountingATickIsOk(s: Loco, t: Loco)
    requires TransitionOk(s.(modeTicks := s.modeTicks + 1), t)
    ensures TransitionOk(s, t)
  {
  }

  lemma {:induction false} DispatchIsOk(s: Loco, d: Draws)
    ensures TransitionOk(s, Dispatched(s, d))
  {
    match s.mode
    case Depot => EnteringIsOk(s, Departure, d);
    case Departure => DepartureIsOk(s, d);
    case Cruising => DepartureIsOk(s, d);
    case Arrival => ArrivalIsOk(s, d);
    case AessSleep => BrakingIsOk(s, d);
    case Emergency => BrakingIsOk(s, d);
    case Recovery => ArrivalIsOk(s, d);
  }

  lemma {:induction false} DispatchedIsOk(s: Loco, d: Draws, t: Loco)
    requires t == Dispatched(s.(modeTicks := s.modeTicks + 1), d)
    ensures TransitionOk(s, t)
  {
    DispatchIsOk(s.(modeTicks := s.modeTicks + 1), d);
    CountingATickIsOk(s, t);
  }

  lemma {:induction false} TransitionIsOk(s: Loco, d: Draws)
    ensures TransitionOk(s, Transitioned(s, d))
  {
    if s.autoMode {
      DispatchedIsOk(s, d, Transitioned(s, d));
    }
  }

  /** A scenario touches sensors, and under a fault mode and speed. */
  lemma ScenarioIsOk(s: Loco)
    ensures var t := WithScenario(s);
            && t == s.(scenarioTick := t.scenarioTick, igbt := t.igbt, brake := t.brake, mode := t.mode,
                       speed := t.speed)
            && (s.scenario != Fault ==> t.speed == s.speed && t.mode == s.mode)
            && (s.scenario == Fault ==> t.speed == Max(0.0, s.speed - 2.0) && t.mode == Emergency)
  {
  }

  lemma StrideIsPositive(s: Loco, dt: real)
    requires s.speed > 0.0
    ensures dt >= 0.0 ==> Stride(s, dt) >= 0.0
    ensures dt > 0.0 ==> Stride(s, dt) > 0.0
  {
    var perSecond := s.speed * 1000.0 / 3600.0;
    assert perSecond > 0.0;
    assert dt > 0.0 ==> perSecond * dt > 0.0;
  }

  lemma MovingKeepsBounds(s: Loco, dt: real)
    requires Bounded(s) && dt >= 0.0
    ensures Bounded(Moved(s, dt)) && (InSegment(s) ==> InSegment(Moved(s, dt)))
    ensures Moved(s, dt).speed <= s.speed
  {
    if s.speed > 0.0 {
      StrideIsPositive(s, dt);
    }
  }

  lemma TickKeepsBounds(s: Loco, d: Draws, dt: real)
    requires Bounded(s) && dt >= 0.0
    ensures Bounded(Ticked(s, d, dt))
    ensures InSegment(s) ==> InSegment(Ticked(s, d, dt))
    ensures Ticked(s, d, dt).speed <= Max(s.speed, 110.0)
  {
    TransitionIsOk(s, d);
    ScenarioIsOk(Transitioned(s, d));
    MovingKeepsBounds(WithScenario(Transitioned(s, d)), dt);
  }

  /** When an edit may pull the start past the end: a new start, on the same route, without a new end. */
  predicate InvertsSegment(s: Loco, e: Edit) {
    e.startKm.Some? && e.endKm == None && e.route == None &&
    Max(0.0, Min(e.startKm.value * 1000.0, s.routeLength)) > s.end
  }

  lemma ResegmentingKeepsBounds(s: Loco, e: Edit)
    requires Bounded(s)
    ensures Bounded(Resegmented(s, e))
    ensures s.start <= s.end ==>
              (InSegment(Resegmented(s, e)) <==>
               !(e.startKm.Some? && e.endKm == None && Max(0.0, Min(e.startKm.value * 1000.0, s.routeLength)) > s.end))
  {
  }

  lemma OtherEditsAreOk(s: Loco, e: Edit)
    ensures var t := Remoded(Rescheduled(s, e), e);
            && t.start == s.start && t.end == s.end && t.distance == s.distance && t.routeLength == s.routeLength
            && t.notch == s.notch && (s.speed >= 0.0 ==> t.speed >= 0.0)
            && (e.speed == None ==> t.speed == s.speed)
  {
  }

  /** An edit never leaves the route; it keeps the train inside its segment exactly when it does not pull
      the start past the old end. */
  lemma EditKeepsSegmentIff(s: Loco, e: Edit)
    requires Bounded(s) && RouteOk(EditBy(e))
    ensures Bounded(Edited(s, e))
    ensures InSegment(s) ==> (InSegment(Edited(s, e)) <==> !InvertsSegment(s, e))
    ensures e.speed == None ==> Edited(s, e).speed == s.speed
  {
    ResegmentingKeepsBounds(Rerouted(s, e), e);
    OtherEditsAreOk(Resegmented(Rerouted(s, e), e), e);
  }

  /** No edit in the run pulls the start past the end it finds. */
  ghost predicate NeverInverts(s: Loco, events: seq<Event>, dt: real) {
    forall n :: 0 <= n < |events| && events[n].EditBy? ==> !InvertsSegment(Run(s, events[..n], dt), events[n].edit)
  }

  lemma {:induction false} StepKeepsBounds(s: Loco, e: Event, dt: real)
    requires Bounded(s) && dt >= 0.0 && RouteOk(e)
    ensures Bounded(Stepped(s, e, dt))
    ensures InSegment(s) && (e.EditBy? ==> !InvertsSegment(s, e.edit)) ==> InSegment(Stepped(s, e, dt))
    ensures (e.EditBy? ==> e.edit.speed == None) ==> Stepped(s, e, dt).speed <= Max(s.speed, 110.0)
  {
    match e
    case TickBy(d) => TickKeepsBounds(s, d, dt);
    case EditBy(edit) => EditKeepsSegmentIff(s, edit);
  }

  lemma NeverInvertsPrefix(s: Loco, events: seq<Event>, dt: real)
    requires events != [] && NeverInverts(s, events, dt)
    ensures NeverInverts(s, events[..|events| - 1], dt)
  {
    var before := events[..|events| - 1];
    assert forall k :: 0 <= k <= |before| ==> before[..k] == events[..k];
  }

  /** Over every run of ticks and edits the train stays on its route; if no edit inverts the segment, it
      also stays in its segment; without a speed edit it never exceeds 110 km/h or its initial speed. */
  lemma {:induction false} RunStaysInBounds(s: Loco, events: seq<Event>, dt: real)
    requires Bounded(s) && dt >= 0.0 && forall e :: e in events ==> RouteOk(e)
    ensures Bounded(Run(s, events, dt))
    ensures InSegment(s) && NeverInverts(s, events, dt) ==> InSegment(Run(s, events, dt))
    ensures (forall e :: e in events && e.EditBy? ==> e.edit.speed == None) ==>
              Run(s, events, dt).speed <= Max(s.speed, 110.0)
    decreases |events|
  {
    if events != [] {
      var n := |events| - 1;
      var before := events[..n];
      assert forall e :: e in before ==> e in events;
      RunStaysInBounds(s, before, dt);
      if NeverInverts(s, events, dt) {
        NeverInvertsPrefix(s, events, dt);
      }
      assert events[n] in events;
      StepKeepsBounds(Run(s, before, dt), events[n], dt);
    }
  }

  // ----- Ticks without edits

  function Ticks(s: Loco, draws: seq<Draws>, dt: real): Loco
    decreases |draws|
  {
    if draws == [] then s
    else Ticked(Ticks(s, draws[..|draws| - 1], dt), draws[|draws| - 1], dt)
  }

  lemma {:induction false} TicksConcat(s: Loco, a: seq<Draws>, b: seq<Draws>, dt: real)
    ensures Ticks(s, a + b, dt) == Ticks(Ticks(s, a, dt), b, dt)
    decreases |b|
  {
    if b == [] {
      assert a + b == a;
    } else {
      assert (a + b)[..|a + b| - 1] == a + b[..|b| - 1];
      TicksConcat(s, a, b[..|b| - 1], dt);
    }
  }

  /** A looping train in manual mode whose start lies past its end, standing at one of the two. */
  ghost predicate Inverted(s: Loco) {
    && s.start > s.end && s.distance == (if s.forward then s.start else s.end)
    && !s.autoMode && s.scenario != Fault && s.onArrival == Loop && s.speed > 0.0
  }

  lemma {:induction false} InvertedTick(s: Loco, d: Draws, dt: real)
    requires Inverted(s) && dt > 0.0
    ensures var t := Ticked(s, d, dt);
            Inverted(t) && t.forward == !s.forward && t.start == s.start && t.end == s.end
  {
    StrideIsPositive(s, dt);
  }

  /** An inverted train after some ticks of a run that started in `s`. */
  ghost predicate JumpedFrom(s: Loco, t: Loco, turned: bool) {
    Inverted(t) && t.forward == (s.forward != turned) && t.start == s.start && t.end == s.end
  }

  lemma {:induction false} JumpsAgain(s: Loco, t: Loco, turned: bool, d: Draws, dt: real)
    requires JumpedFrom(s, t, turned) && dt > 0.0
    ensures JumpedFrom(s, Ticked(t, d, dt), !turned)
  {
    InvertedTick(t, d, dt);
  }

  predicate Odd(n: nat) { n > 0 && !Odd(n - 1) }

  lemma {:induction false} OddIsOdd(n: nat)
    ensures Odd(n) <==> n % 2 == 1
    decreases n
  {
    if n > 0 {
      OddIsOdd(n - 1);
    }
  }

  lemma {:induction false} JumpsEveryTick(s: Loco, draws: seq<Draws>, dt: real, n: nat)
    requires Inverted(s) && dt > 0.0 && n == |draws|
    ensures JumpedFrom(s, Ticks(s, draws, dt), Odd(n))
    decreases n
  {
    if n > 0 {
      JumpsEveryTick(s, draws[..n - 1], dt, n - 1);
      JumpsAgain(s, Ticks(s, draws[..n - 1], dt), Odd(n - 1), draws[n - 1], dt);
    }
  }

  /** What an inverted segment does: the train jumps from one bound to the other at every tick. */
  lemma {:induction false} InvertedSegmentTeleports(s: Loco, draws: seq<Draws>, dt: real)
    requires Inverted(s) && dt > 0.0
    ensures JumpedFrom(s, Ticks(s, draws, dt), |draws| % 2 == 1)
  {
    JumpsEveryTick(s, draws, dt, |draws|);
    OddIsOdd(|draws|);
  }

  /** A train that stopped at its destination. */
  ghost predicate Halted(s: Loco) { s.arrived && s.speed == 0.0 && !s.autoMode }

  /** A halted train is frozen for as long as nobody edits it, whatever its scenario. */
  lemma {:induction false} HaltedStaysFrozen(s: Loco, draws: seq<Draws>, dt: real)
    requires Halted(s)
    ensures var t := Ticks(s, draws, dt);
            Halted(t) && t.distance == s.distance && t.forward == s.forward && t.start == s.start && t.end == s.end
    decreases |draws|
  {
    if draws != [] {
      HaltedStaysFrozen(s, draws[..|draws| - 1], dt);
    }
  }

  /** Reaching the end under STOP is final: the train stands at the end through all later ticks. */
  lemma StopArrivalIsFinal(s: Loco, draws: seq<Draws>, dt: real)
    requires s.onArrival == Stop && s.forward && s.speed > 0.0 && s.distance + Stride(s, dt) >= s.end
    ensures var t := Ticks(Moved(s, dt), draws, dt);
            Halted(t) && t.distance == s.end
  {
    HaltedStaysFrozen(Moved(s, dt), draws, dt);
  }

  // ----- Emergency braking

  /** What every emergency tick leaves behind: the emergency mode, or a train halted by STOP. */
  ghost predicate Braking(s: Loco) {
    s.scenario == Fault && s.speed >= 0.0 && (s.mode == Emergency || (s.speed == 0.0 && !s.autoMode))
  }

  lemma MoveEffects(s: Loco, dt: real)
    ensures var t := Moved(s, dt);
            && t == s.(speed := t.speed, mode := t.mode, autoMode := t.autoMode, arrived := t.arrived,
                       forward := t.forward, distance := t.distance)
            && (t.speed == s.speed || t.speed == 0.0)
            && (t.mode == s.mode || (t.speed == 0.0 && !t.autoMode)) && (t.autoMode ==> s.autoMode)
            && (s.speed <= 0.0 ==> t == s)
  {
  }

  lemma BrakingTransition(s: Loco, d: Draws)
    requires Braking(s)
    ensures Transitioned(s, d).speed == if s.autoMode then Max(0.0, s.speed - 2.0) else s.speed
  {
  }

  lemma TransitionSpeed(s: Loco, d: Draws)
    ensures Transitioned(s, d).speed <= Max(s.speed, 110.0)
  {
  }

  lemma {:induction false} EmergencyTick(s: Loco, d: Draws, dt: real)
    requires s.scenario == Fault
    ensures var t := Ticked(s, d, dt);
            && Braking(t)
            && t.speed <= Max(0.0, Max(s.speed, 110.0) - 2.0)
            && (!s.autoMode ==> !t.autoMode && t.speed <= Max(0.0, s.speed - 2.0))
            && (Braking(s) && s.autoMode ==> t.speed <= Max(0.0, s.speed - 4.0))
            && (Braking(s) && s.speed == 0.0 ==> t.speed == 0.0 && t.distance == s.distance)
  {
    TransitionIsOk(s, d);
    TransitionSpeed(s, d);
    if Braking(s) {
      BrakingTransition(s, d);
    }
    ScenarioIsOk(Transitioned(s, d));
    MoveEffects(WithScenario(Transitioned(s, d)), dt);
  }

  /** `t` has braked for k ticks since `s`. */
  ghost predicate Slowed(s: Loco, t: Loco, k: real) {
    && Braking(t)
    && t.speed <= Max(0.0, Max(s.speed, 110.0) - 2.0 * k)
    && (!s.autoMode ==> !t.autoMode && t.speed <= Max(0.0, s.speed - 2.0 * k))
    && (s.autoMode && t.autoMode ==> t.speed <= Max(0.0, Max(s.speed, 110.0) + 2.0 - 4.0 * k))
  }

  lemma {:induction false} SlowedAgain(s: Loco, t: Loco, k: real, d: Draws, dt: real)
    requires Slowed(s, t, k) && k >= 1.0
    ensures Slowed(s, Ticked(t, d, dt), k + 1.0)
  {
    EmergencyTick(t, d, dt);
    TickNeverTurnsAutoOn(t, d, dt);
    SpeedsCompose(s, t, Ticked(t, d, dt), k);
  }

  /** The arithmetic of one tick more. */
  lemma {:induction false} SpeedsCompose(s: Loco, t: Loco, u: Loco, k: real)
    requires Slowed(s, t, k) && k >= 1.0 && Braking(u) && (u.autoMode ==> t.autoMode)
    requires !t.autoMode ==> u.speed <= Max(0.0, t.speed - 2.0)
    requires t.autoMode ==> u.speed <= Max(0.0, t.speed - 4.0)
    ensures Slowed(s, u, k + 1.0)
  {
  }

  /** Stopping bound: with the fault held for k ticks the speed is at most max(v0, 110) - 2k, or zero. In
      automatic mode every tick after the first takes 4 km/h, since the state machine brakes as well. */
  lemma {:induction false} EmergencyStops(s: Loco, draws: seq<Draws>, dt: real)
    requires s.scenario == Fault && draws != []
    ensures Slowed(s, Ticks(s, draws, dt), |draws| as real)
    decreases |draws|
  {
    var n := |draws| - 1;
    if n > 0 {
      EmergencyStops(s, draws[..n], dt);
      SlowedAgain(s, Ticks(s, draws[..n], dt), n as real, draws[n], dt);
    } else {
      assert Ticks(s, draws[..n], dt) == s;
      EmergencyTick(s, draws[n], dt);
    }
  }

  lemma TickNeverTurnsAutoOn(s: Loco, d: Draws, dt: real)
    ensures Ticked(s, d, dt).autoMode ==> s.autoMode
  {
  }

  /** Once braked to a standstill the train never moves again while the fault lasts. */
  lemma {:induction false} StoppedStaysStopped(s: Loco, draws: seq<Draws>, dt: real)
    requires Braking(s) && s.speed == 0.0
    ensures var t := Ticks(s, draws, dt);
            Braking(t) && t.speed == 0.0 && t.distance == s.distance
    decreases |draws|
  {
    if draws != [] {
      var n := |draws| - 1;
      StoppedStaysStopped(s, draws[..n], dt);
      EmergencyTick(Ticks(s, draws[..n], dt), draws[n], dt);
    }
  }

  /** From any state the train stands still for good after k ticks of fault, 2k >= max(v0, 110). */
  lemma EmergencyBringsToRest(s: Loco, first: seq<Draws>, later: seq<Draws>, dt: real)
    requires s.scenario == Fault && first != [] && 2.0 * |first| as real >= Max(s.speed, 110.0)
    ensures Ticks(s, first + later, dt).speed == 0.0
    ensures Ticks(s, first + later, dt).distance == Ticks(s, first, dt).distance
  {
    EmergencyStops(s, first, dt);
    StoppedStaysStopped(Ticks(s, first, dt), later, dt);
    TicksConcat(s, first, later, dt);
  }
}

/** A point shuttling between two bounds, a fixed stride at a time. */
module ShuttleModel {

  datatype Shuttle = Shuttle(position: real, forward: bool, start: real, end: real, stride: real)

  ghost predicate Valid(k: Shuttle) { k.stride > 0.0 && k.start < k.end && k.start <= k.position <= k.end }

  function Step(k: Shuttle): Shuttle {
    if k.forward then
      if k.position + k.stride >= k.end then k.(position := k.end, forward := false)
      else k.(position := k.position + k.stride)
    else
      if k.position - k.stride <= k.start then k.(position := k.start, forward := true)
      else k.(position := k.position - k.stride)
  }

  function After(k: Shuttle, n: nat): Shuttle { if n == 0 then k else Step(After(k, n - 1)) }

  lemma {:induction false} AfterSum(k: Shuttle, m: nat, n: nat)
    ensures After(k, m + n) == After(After(k, m), n)
    decreases n
  {
    if n > 0 {
      AfterSum(k, m, n - 1);
    }
  }

  /** The distance of j strides. */
  function Travelled(stride: real, j: nat): real {
    if j == 0 then 0.0 else Travelled(stride, j - 1) + stride
  }

  lemma {:induction false} TravelledIsProduct(stride: real, j: nat)
    ensures Travelled(stride, j) == j as real * stride
    decreases j
  {
    if j > 0 {
      TravelledIsProduct(stride, j - 1);
      assert j as real * stride == (j - 1) as real * stride + stride;
    }
  }

  lemma {:induction false} TravelledGrows(stride: real, i: nat, j: nat)
    requires stride > 0.0 && i < j
    ensures 0.0 <= Travelled(stride, i) < Travelled(stride, j)
    decreases j
  {
    if j > 1 {
      TravelledGrows(stride, if i < j - 1 then i else i - 1, j - 1);
    }
  }

  /** `n` is ceil(gap / stride): n strides cover the gap, n - 1 fall short. */
  ghost predicate IsCeiling(gap: real, stride: real, n: nat) {
    n >= 1 && Travelled(stride, n - 1) < gap <= Travelled(stride, n)
  }

  lemma ScaleMonotone(a: real, b: real, k: real)
    requires k > 0.0
    ensures a <= b ==> a * k <= b * k
    ensures a < b ==> a * k < b * k
  {
  }

  lemma QuotientIsPositive(gap: real, stride: real)
    requires gap > 0.0 && stride > 0.0
    ensures gap / stride > 0.0 && (gap / stride) * stride == gap
  {
  }

  lemma CeilingIsUnique(gap: real, stride: real, m: nat, n: nat)
    requires stride > 0.0 && IsCeiling(gap, stride, m) && IsCeiling(gap, stride, n)
    ensures m == n
  {
    if m < n - 1 {
      TravelledGrows(stride, m, n - 1);
    }
    if n < m - 1 {
      TravelledGrows(stride, n, m - 1);
    }
  }

  /** Every positive gap has such a count, the quotient rounded up. */
  lemma CeilingExists(gap: real, stride: real) returns (n: nat)
    requires gap > 0.0 && stride > 0.0
    ensures IsCeiling(gap, stride, n)
    ensures (n - 1) as real < gap / stride <= n as real
  {
    QuotientIsPositive(gap, stride);
    var q := gap / stride;
    n := if q.Floor as real == q then q.Floor else q.Floor + 1;
    RoundedUpIsCeiling(gap, stride, q, n);
  }

  lemma RoundedUpIsCeiling(gap: real, stride: real, q: real, n: nat)
    requires stride > 0.0 && q * stride == gap && n >= 1 && (n - 1) as real < q <= n as real
    ensures IsCeiling(gap, stride, n)
  {
    ScaleMonotone((n - 1) as real, q, stride);
    ScaleMonotone(q, n as real, stride);
    TravelledIsProduct(stride, n - 1);
    TravelledIsProduct(stride, n);
  }

  function Gap(k: Shuttle): real { if k.forward then k.end - k.position else k.position - k.start }

  /** `travelled` metres further on in the current direction. */
  function Onward(k: Shuttle, travelled: real): Shuttle {
    k.(position := if k.forward then k.position + travelled else k.position - travelled)
  }

  function Turned(k: Shuttle): Shuttle {
    k.(position := if k.forward then k.end else k.start, forward := !k.forward)
  }

  lemma {:induction false} OnTheWay(k: Shuttle, j: nat)
    requires Valid(k) && Gap(k) > 0.0 && Travelled(k.stride, j) < Gap(k)
    ensures After(k, j) == Onward(k, Travelled(k.stride, j))
    decreases j
  {
    if j > 0 {
      OnTheWay(k, j - 1);
    }
  }

  lemma ShortOfGap(gap: real, stride: real, n: nat, j: nat)
    requires stride > 0.0 && IsCeiling(gap, stride, n) && 0 < j < n
    ensures 0.0 < Travelled(stride, j) < gap
  {
    TravelledGrows(stride, 0, j);
    if j < n - 1 {
      TravelledGrows(stride, j, n - 1);
    }
  }

  /** A bound is reached after exactly ceil(gap / stride) steps, and turns the shuttle round. */
  lemma ReachesBound(k: Shuttle, n: nat)
    requires Valid(k) && Gap(k) > 0.0 && IsCeiling(Gap(k), k.stride, n)
    ensures After(k, n) == Turned(k)
  {
    OnTheWay(k, n - 1);
  }

  ghost predicate AtBound(k: Shuttle) { Valid(k) && k.position == if k.forward then k.start else k.end }

  lemma FullPeriod(k: Shuttle, n: nat)
    requires AtBound(k) && IsCeiling(k.end - k.start, k.stride, n)
    ensures After(k, 2 * n) == k
  {
    ReachesBound(k, n);
    ReachesBound(Turned(k), n);
    AfterSum(k, n, n);
  }

  lemma NoSmallerPeriod(k: Shuttle, n: nat, j: nat)
    requires AtBound(k) && IsCeiling(k.end - k.start, k.stride, n) && 0 < j < 2 * n
    ensures After(k, j).position != k.position || After(k, j).forward != k.forward
  {
    ReachesBound(k, n);
    if j < n {
      ShortOfGap(Gap(k), k.stride, n, j);
      OnTheWay(k, j);
    } else if n < j {
      AfterSum(k, n, j - n);
      ShortOfGap(Gap(k), k.stride, n, j - n);
      OnTheWay(Turned(k), j - n);
    }
  }

  lemma AlwaysPeriodic(k: Shuttle, n: nat, m: nat)
    requires AtBound(k) && IsCeiling(k.end - k.start, k.stride, n)
    ensures After(k, m + 2 * n) == After(k, m)
  {
    FullPeriod(k, n);
    AfterSum(k, 2 * n, m);
  }
}

/** A train shuttling at constant speed is exactly periodic. */
module LocomotivePeriod {
  import opened Optional
  import opened Locomotive
  import opened LocomotiveRuns
  import opened ShuttleModel

  /** Manual mode, LOOP, no fault, moving, on a segment of positive span. */
  ghost predicate Shuttling(s: Loco, dt: real) {
    && !s.autoMode && s.scenario != Fault && s.onArrival == Loop
    && s.speed > 0.0 && dt > 0.0 && s.start < s.end && s.start <= s.distance <= s.end
  }

  function ShuttleOf(s: Loco, dt: real): Shuttle {
    Shuttle(s.distance, s.forward, s.start, s.end, Stride(s, dt))
  }

  /** The state without the sensor side of its scenario, which runs on its own counter. */
  function Drive(s: Loco): Loco { s.(scenarioTick := 0, igbt := None, brake := None) }

  lemma ShuttleTick(s: Loco, d: Draws, dt: real)
    requires Shuttling(s, dt)
    ensures Stride(s, dt) > 0.0
    ensures var t, k := Ticked(s, d, dt), Step(ShuttleOf(s, dt));
            Drive(t) == Drive(s).(distance := k.position, forward := k.forward)
  {
    StrideIsPositive(s, dt);
    ScenarioIsOk(s);
  }

  /** Tick for tick the train is the shuttle; its drive changes in position and direction only, and neither
      the random draws nor the scenario's sensor ramp play a part. */
  lemma {:induction false} TicksFollowShuttle(s: Loco, draws: seq<Draws>, dt: real)
    requires Shuttling(s, dt)
    ensures Valid(ShuttleOf(s, dt))
    ensures var t, k := Ticks(s, draws, dt), After(ShuttleOf(s, dt), |draws|);
            && Shuttling(t, dt) && ShuttleOf(t, dt) == k
            && Drive(t) == Drive(s).(distance := k.position, forward := k.forward)
    decreases |draws|
  {
    StrideIsPositive(s, dt);
    if draws != [] {
      var n := |draws| - 1;
      TicksFollowShuttle(s, draws[..n], dt);
      var u := Ticks(s, draws[..n], dt);
      ShuttleTick(u, draws[n], dt);
      DriveKeepsShuttling(u, Ticked(u, draws[n], dt), dt);
    }
  }

  lemma DriveKeepsShuttling(u: Loco, t: Loco, dt: real)
    requires Shuttling(u, dt) && Stride(u, dt) > 0.0
    requires var k := Step(ShuttleOf(u, dt)); Drive(t) == Drive(u).(distance := k.position, forward := k.forward)
    ensures Shuttling(t, dt) && ShuttleOf(t, dt) == Step(ShuttleOf(u, dt))
  {
    assert t.speed == Drive(t).speed && t.start == Drive(t).start && t.end == Drive(t).end;
    assert t.autoMode == Drive(t).autoMode && t.scenario == Drive(t).scenario && t.onArrival == Drive(t).onArrival;
    assert t.distance == Drive(t).distance && t.forward == Drive(t).forward;
  }

  /** From one bound to the other takes exactly ceil(span / stride) ticks, and turns the train round. */
  lemma BoundToBound(s: Loco, draws: seq<Draws>, dt: real)
    requires Shuttling(s, dt) && AtBound(ShuttleOf(s, dt))
    requires IsCeiling(s.end - s.start, Stride(s, dt), |draws|)
    ensures Ticks(s, draws, dt).distance == (if s.forward then s.end else s.start)
    ensures Ticks(s, draws, dt).forward == !s.forward
  {
    TicksFollowShuttle(s, draws, dt);
    ReachesBound(ShuttleOf(s, dt), |draws|);
  }

  lemma SameShuttleSameDrive(s: Loco, a: seq<Draws>, b: seq<Draws>, dt: real)
    requires Shuttling(s, dt) && After(ShuttleOf(s, dt), |a|) == After(ShuttleOf(s, dt), |b|)
    ensures Drive(Ticks(s, a, dt)) == Drive(Ticks(s, b, dt))
  {
    TicksFollowShuttle(s, a, dt);
    TicksFollowShuttle(s, b, dt);
  }

  /** Exactly periodic: from a bound, numbers of ticks that differ by 2 * ceil(span / stride) end in the same
      position, direction, speed and mode, whatever was drawn. */
  lemma {:induction false} ShuttleIsPeriodic(s: Loco, n: nat, a: seq<Draws>, b: seq<Draws>, dt: real)
    requires Shuttling(s, dt) && AtBound(ShuttleOf(s, dt))
    requires IsCeiling(s.end - s.start, Stride(s, dt), n) && |b| == |a| + 2 * n
    ensures Drive(Ticks(s, a, dt)) == Drive(Ticks(s, b, dt))
  {
    AlwaysPeriodic(ShuttleOf(s, dt), n, |a|);
    SameShuttleSameDrive(s, a, b, dt);
  }

  /** And no smaller number of ticks leads back. */
  lemma {:induction false} PeriodIsMinimal(s: Loco, n: nat, draws: seq<Draws>, dt: real)
    requires Shuttling(s, dt) && AtBound(ShuttleOf(s, dt))
    requires IsCeiling(s.end - s.start, Stride(s, dt), n) && 0 < |draws| < 2 * n
    ensures Ticks(s, draws, dt).distance != s.distance || Ticks(s, draws, dt).forward != s.forward
  {
    TicksFollowShuttle(s, draws, dt);
    NoSmallerPeriod(ShuttleOf(s, dt), n, |draws|);
  }

  /** From anywhere inside its segment the train is at a bound after ceil(remaining / stride) ticks. */
  lemma ReachesBoundFromInside(s: Loco, draws: seq<Draws>, dt: real)
    requires Shuttling(s, dt) && Gap(ShuttleOf(s, dt)) > 0.0
    requires IsCeiling(Gap(ShuttleOf(s, dt)), Stride(s, dt), |draws|)
    ensures AtBound(ShuttleOf(Ticks(s, draws, dt), dt))
    ensures Ticks(s, draws, dt).forward == !s.forward
  {
    TicksFollowShuttle(s, draws, dt);
    ReachesBound(ShuttleOf(s, dt), |draws|);
  }
}
