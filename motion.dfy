/** The motion model of the boat controller: the state record, the tuning
    options and the per-frame tick (the `animate` updater of
    app/hooks/useBoatController.ts). Numbers are modelled as `real`. */
module Motion {

  datatype Option<T> = None | Some(value: T)

  /** The hook's options; every field has a default (DefaultConfig). */
  datatype Config = Config(
    initialPosition: real,
    friction: real,      // how quickly velocity decays, expected in (0, 1)
    acceleration: real,  // velocity gained per frame unit while seeking
    maxVelocity: real,   // velocity cap while seeking
    snapDistance: real)  // distance under which an island counts as near

  const DefaultConfig: Config := Config(5.0, 0.97, 0.08, 0.8, 8.0)

  /** The ranges the options are meant to lie in; the hook itself never checks them. */
  predicate ValidConfig(c: Config) {
    0.0 < c.friction < 1.0 && c.acceleration > 0.0 && c.maxVelocity > 0.0 && c.snapDistance > 0.0
  }

  const TrackMin: real := 0.0
  const TrackMax: real := 100.0
  /** Distance to the target under which the boat snaps onto it. */
  const ArrivalThreshold: real := 0.5
  /** Speed under which a coasting boat is stopped. */
  const StopThreshold: real := 0.01
  /** Milliseconds in one nominal frame, and the cap on the frame delta. */
  const FrameMs: real := 16.0
  const MaxFrameDelta: real := 3.0

  /** The single state record the hook keeps (`BoatState`). */
  datatype BoatState = BoatState(
    boatX: real,             // position, percentage of the voyage
    velocity: real,
    isDragging: bool,
    targetX: Option<real>,   // target while sailing to a clicked position
    isSailing: bool)

  predicate OnTrack(x: real) {
    TrackMin <= x <= TrackMax
  }

  /** What every operation keeps: the boat and its target lie on the track. */
  predicate Valid(s: BoatState) {
    OnTrack(s.boatX) && (s.targetX.Some? ==> OnTrack(s.targetX.value))
  }

  /** The four situations the boat can be in. */
  datatype Mode = Idle | Seeking | Dragging | Coasting

  function ModeOf(s: BoatState): Mode {
    if s.isDragging then Dragging
    else if s.targetX.Some? then Seeking
    else if s.velocity == 0.0 && !s.isSailing then Idle
    else Coasting
  }

  function Abs(x: real): real {
    if x < 0.0 then -x else x
  }

  /** `Math.sign`: the unit in the direction of `x`, zero for zero. */
  function Sign(x: real): (r: real)
    ensures r == 1.0 <==> x > 0.0
    ensures r == -1.0 <==> x < 0.0
    ensures r == 0.0 <==> x == 0.0
  {
    if x > 0.0 then 1.0 else if x < 0.0 then -1.0 else 0.0
  }

  /** `Math.max(lo, Math.min(hi, x))`. */
  function Clamp(x: real, lo: real, hi: real): (r: real)
    ensures lo <= r
    ensures lo <= hi ==> r <= hi
    ensures lo <= x <= hi ==> r == x
    ensures x < lo ==> r == lo
    ensures lo <= hi && hi < x ==> r == hi
  {
    if hi < x then (if lo < hi then hi else lo)
    else if lo < x then x
    else lo
  }

  /** The frame delta: elapsed milliseconds in frame units, capped at 3 so that
      a stalled frame cannot make the boat jump. */
  function FrameDelta(elapsedMs: real): (r: real)
    ensures r <= MaxFrameDelta
    ensures 0.0 <= elapsedMs ==> 0.0 <= r
    ensures elapsedMs <= FrameMs * MaxFrameDelta ==> r * FrameMs == elapsedMs
    ensures elapsedMs >= FrameMs * MaxFrameDelta ==> r == MaxFrameDelta
  {
    if elapsedMs / FrameMs < MaxFrameDelta then elapsedMs / FrameMs else MaxFrameDelta
  }

  /** Seeking phase of the tick: accelerate toward the target and cap the
      velocity, or snap onto the target when close enough. */
  function Seek(c: Config, s: BoatState, delta: real): BoatState
    requires s.targetX.Some?
  {
    var diff := s.targetX.value - s.boatX;
    var v := Clamp(s.velocity + Sign(diff) * c.acceleration * delta, -c.maxVelocity, c.maxVelocity);
    if Abs(diff) < ArrivalThreshold then
      s.(boatX := s.targetX.value, velocity := 0.0, targetX := None, isSailing := false)
    else
      s.(velocity := v)
  }

  /** Friction phase of the tick, applied only when there is no target. */
  function Coast(c: Config, s: BoatState): BoatState {
    var v := s.velocity * c.friction;
    if Abs(v) < StopThreshold then s.(velocity := 0.0, isSailing := false)
    else s.(velocity := v)
  }

  /** The rest of the tick after seeking: integrate the velocity, apply
      friction when there is no target, clamp the position. */
  function Settle(c: Config, s: BoatState, delta: real): BoatState {
    var moved := s.(boatX := s.boatX + s.velocity * delta);
    var coasted := if moved.targetX.None? then Coast(c, moved) else moved;
    coasted.(boatX := Clamp(coasted.boatX, TrackMin, TrackMax))
  }

  /** A tick of a boat that is sailing to a target. */
  function SeekingStep(c: Config, s: BoatState, delta: real): (r: BoatState)
    requires s.targetX.Some?
    // arrival: the boat lands exactly on its target and stops
    ensures Abs(s.targetX.value - s.boatX) < ArrivalThreshold ==>
      r == s.(boatX := Clamp(s.targetX.value, TrackMin, TrackMax), velocity := 0.0, targetX := None, isSailing := false)
    // on the way: velocity moves toward the target and is capped, the target is kept
    ensures Abs(s.targetX.value - s.boatX) >= ArrivalThreshold ==>
      && r.velocity == Clamp(s.velocity + Sign(s.targetX.value - s.boatX) * c.acceleration * delta, -c.maxVelocity, c.maxVelocity)
      && r.boatX == Clamp(s.boatX + r.velocity * delta, TrackMin, TrackMax)
      && r.targetX == s.targetX && r.isSailing == s.isSailing && r.isDragging == s.isDragging
  {
    var sought := Seek(c, s, delta);
    if Abs(s.targetX.value - s.boatX) < ArrivalThreshold then
      assert sought.velocity == 0.0 && sought.targetX.None?;
      Settle(c, sought, delta)
    else
      assert sought.targetX == s.targetX;
      Settle(c, sought, delta)
  }

  /** A tick of a boat with no target: the old velocity moves the boat, then
      friction decays the velocity or stops the boat. */
  function CoastingStep(c: Config, s: BoatState, delta: real): (r: BoatState)
    requires s.targetX.None?
    ensures r.targetX.None? && r.isDragging == s.isDragging
    ensures r.boatX == Clamp(s.boatX + s.velocity * delta, TrackMin, TrackMax)
    ensures Abs(s.velocity * c.friction) < StopThreshold ==> r.velocity == 0.0 && !r.isSailing
    ensures Abs(s.velocity * c.friction) >= StopThreshold ==>
      r.velocity == s.velocity * c.friction && r.isSailing == s.isSailing
  {
    Settle(c, s, delta)
  }

  /** One animation frame: nothing while dragging, otherwise seek or coast.
      A state in which nothing changed is returned as it was. */
  function Step(c: Config, s: BoatState, delta: real): (r: BoatState)
    ensures r.isDragging == s.isDragging
    ensures s.isDragging ==> r == s
    ensures !s.isDragging ==> OnTrack(r.boatX)
    ensures Valid(s) ==> Valid(r)
  {
    if s.isDragging then s
    else if s.targetX.Some? then SeekingStep(c, s, delta)
    else CoastingStep(c, s, delta)
  }

  /** The tick read as the stages of the imperative frame: seek when there
      is a target, move by the velocity, coast when there is no target, clamp. */
  lemma StepInStages(c: Config, s: BoatState, delta: real, sought: BoatState, coasted: BoatState)
    requires !s.isDragging
    requires sought == if s.targetX.Some? then Seek(c, s, delta) else s
    requires coasted == (var moved := sought.(boatX := sought.boatX + sought.velocity * delta);
      if moved.targetX.None? then Coast(c, moved) else moved)
    ensures Step(c, s, delta) == coasted.(boatX := Clamp(coasted.boatX, TrackMin, TrackMax))
  {
    if s.targetX.Some? {
      assert Step(c, s, delta) == SeekingStep(c, s, delta);
      assert SeekingStep(c, s, delta) == Settle(c, Seek(c, s, delta), delta);
    } else {
      assert Step(c, s, delta) == CoastingStep(c, s, delta);
      assert CoastingStep(c, s, delta) == Settle(c, s, delta);
    }
  }

  /** No drag and no target: the tick only coasts. */
  predicate Adrift(s: BoatState) {
    !s.isDragging && s.targetX.None?
  }

  lemma ScaledSpeed(v: real, f: real)
    requires 0.0 <= f <= 1.0
    ensures Abs(v * f) == Abs(v) * f
    ensures Abs(v * f) <= Abs(v)
  {
    if v < 0.0 {
      assert v * f <= 0.0;
    } else {
      assert v * f >= 0.0;
    }
  }

  lemma ScaleMonotone(a: real, b: real, k: real)
    requires b <= a && 0.0 <= k
    ensures b * k <= a * k
  {
  }

  /** With no target, a tick keeps coasting and never increases the speed; a
      boat that is still moving afterwards has lost at least CoastLoss of
      its speed, and one whose velocity is zero is no longer sailing. */
  lemma CoastingNeverSpeedsUp(c: Config, s: BoatState, delta: real)
    requires ValidConfig(c) && Adrift(s)
    ensures var r := Step(c, s, delta);
      && Adrift(r)
      && Abs(r.velocity) <= Abs(s.velocity)
      && (r.velocity == 0.0 ==> !r.isSailing)
      && (r.velocity != 0.0 ==> Abs(r.velocity) <= Abs(s.velocity) - CoastLoss(c))
  {
    var f := c.friction;
    var w := s.velocity * f;
    var r := Step(c, s, delta);
    assert r == CoastingStep(c, s, delta);
    ScaledSpeed(s.velocity, f);
    if Abs(w) < StopThreshold {
      assert r.velocity == 0.0 && !r.isSailing;
    } else {
      assert r.velocity == w;
      LossBound(Abs(s.velocity), Abs(w), f);
    }
  }

  /** A speed that friction leaves at or above StopThreshold has lost at
      least CoastLoss. */
  lemma LossBound(speed: real, after: real, f: real)
    requires 0.0 < f < 1.0 && 0.0 <= speed && after == speed * f && after >= StopThreshold
    ensures after <= speed - StopThreshold * (1.0 - f)
  {
    var loss := 1.0 - f;
    assert speed - after == speed * loss;
    assert after <= speed by { ScaleMonotone(speed, 0.0, loss); }
    ScaleMonotone(speed, StopThreshold, loss);
  }

  /** A boat at rest with no target and no drag is a fixed point of the tick,
      so the tick hands back the very same state. */
  lemma IdleIsQuiescent(c: Config, s: BoatState, delta: real)
    requires OnTrack(s.boatX)
    requires !s.isDragging && s.targetX.None? && s.velocity == 0.0 && !s.isSailing
    ensures Step(c, s, delta) == s
  {
  }

  /** A run of frames, one delta per frame. */
  function Ticks(c: Config, s: BoatState, deltas: seq<real>): (r: BoatState)
    ensures r.isDragging == s.isDragging
    ensures s.isDragging ==> r == s
    ensures Valid(s) ==> Valid(r)
    ensures !s.isDragging && s.targetX.None? ==> r.targetX.None?
    decreases |deltas|
  {
    if deltas == [] then s else Ticks(c, Step(c, s, deltas[0]), deltas[1..])
  }

  /** The least speed a coasting boat loses on a frame after which it still moves. */
  function CoastLoss(c: Config): (r: real)
    ensures ValidConfig(c) ==> 0.0 < r
  {
    StopThreshold * (1.0 - c.friction)
  }

  /** The least speed lost over n coasting frames that leave the boat moving.
      A proof device equal to `n as real * CoastLoss(c)` (`CoastLostIsLinear`),
      built by recursion so that the induction over frames stays cheap. */
  function CoastLost(c: Config, n: nat): (r: real)
    ensures ValidConfig(c) ==> 0.0 <= r
  {
    if n == 0 then 0.0 else CoastLost(c, n - 1) + CoastLoss(c)
  }

  lemma {:induction false} CoastLostIsLinear(c: Config, n: nat)
    ensures CoastLost(c, n) == n as real * CoastLoss(c)
  {
    if n > 0 {
      CoastLostIsLinear(c, n - 1);
      assert n as real * CoastLoss(c) == (n - 1) as real * CoastLoss(c) + CoastLoss(c);
    }
  }

  lemma {:induction false} CoastLostGrows(c: Config, m: nat, n: nat)
    requires ValidConfig(c) && m <= n
    ensures CoastLost(c, m) <= CoastLost(c, n)
    decreases n
  {
    if m < n {
      CoastLostGrows(c, m, n - 1);
    }
  }

  /** Number of frames after which a coasting boat is at rest: one more than
      its speed divided by the least loss per moving frame. */
  function CoastBound(c: Config, v: real): (n: nat)
    requires ValidConfig(c)
    ensures n >= 1 && CoastLost(c, n) > Abs(v)
  {
    FramesOutlast(Abs(v), CoastLoss(c));
    var n := (Abs(v) / CoastLoss(c)).Floor + 1;
    CoastLostIsLinear(c, n);
    n
  }

  lemma FramesOutlast(speed: real, loss: real)
    requires 0.0 <= speed && 0.0 < loss
    ensures 0 <= (speed / loss).Floor
    ensures ((speed / loss).Floor + 1) as real * loss > speed
  {
    var q := speed / loss;
    DivideThenScale(speed, loss);
    FloorBelow(q);
    ScaleStrictly((q.Floor + 1) as real, q, loss);
  }

  lemma DivideThenScale(a: real, k: real)
    requires 0.0 <= a && 0.0 < k
    ensures 0.0 <= a / k && (a / k) * k == a
  {
  }

  lemma FloorBelow(q: real)
    requires 0.0 <= q
    ensures 0 <= q.Floor && q < (q.Floor + 1) as real
  {
  }

  lemma ScaleStrictly(a: real, b: real, k: real)
    requires b < a && 0.0 < k
    ensures b * k < a * k
  {
  }

  /** After n coasting frames the boat has stopped, or it has lost at least
      CoastLost(n) of its speed; once at least one frame has run, a zero
      velocity means the boat is no longer sailing. */
  lemma {:induction false} CoastingLosesSpeed(c: Config, s: BoatState, deltas: seq<real>)
    requires ValidConfig(c) && Adrift(s)
    ensures var r := Ticks(c, s, deltas);
      && (|deltas| >= 1 && r.velocity == 0.0 ==> !r.isSailing)
      && (r.velocity == 0.0 || Abs(r.velocity) + CoastLost(c, |deltas|) <= Abs(s.velocity))
    decreases |deltas|
  {
    if deltas != [] {
      var s1 := Step(c, s, deltas[0]);
      assert Ticks(c, s, deltas) == Ticks(c, s1, deltas[1..]);
      CoastingNeverSpeedsUp(c, s, deltas[0]);
      CoastingLosesSpeed(c, s1, deltas[1..]);
    }
  }

  /** A coasting boat comes to rest, and stops sailing, once it has run more
      frames than its speed divided by CoastLoss (CoastBound gives such a
      number), whatever the frame deltas. */
  lemma CoastingComesToRest(c: Config, s: BoatState, deltas: seq<real>)
    requires ValidConfig(c) && Adrift(s)
    requires CoastLost(c, |deltas|) > Abs(s.velocity)
    ensures Ticks(c, s, deltas).velocity == 0.0 && !Ticks(c, s, deltas).isSailing
  {
    CoastingLosesSpeed(c, s, deltas);
  }

  /** In particular a coasting boat is at rest after CoastBound frames. */
  lemma CoastingRestsWithinBound(c: Config, s: BoatState, deltas: seq<real>)
    requires ValidConfig(c) && Adrift(s)
    requires |deltas| >= CoastBound(c, s.velocity)
    ensures Ticks(c, s, deltas).velocity == 0.0 && !Ticks(c, s, deltas).isSailing
  {
    CoastLostGrows(c, CoastBound(c, s.velocity), |deltas|);
    CoastingComesToRest(c, s, deltas);
  }

  /** Seeking never pushes the velocity away from the target beyond the cap:
      its component toward the target grows by acceleration * delta or
      reaches maxVelocity. */
  lemma SeekingAcceleratesTowardTarget(c: Config, s: BoatState, delta: real)
    requires ValidConfig(c) && 0.0 <= delta
    requires !s.isDragging && s.targetX.Some? && Abs(s.targetX.value - s.boatX) >= ArrivalThreshold
    requires Abs(s.velocity) <= c.maxVelocity
    ensures var dir := Sign(s.targetX.value - s.boatX);
      var r := Step(c, s, delta);
      dir * r.velocity == c.maxVelocity || dir * r.velocity == dir * s.velocity + c.acceleration * delta
  {
    var dir := Sign(s.targetX.value - s.boatX);
    var a := c.acceleration * delta;
    assert dir == 1.0 || dir == -1.0;
    assert dir * (dir * a) == a;
  }

  /** A seeking boat whose frame step is shorter than the arrival window
      (maxVelocity * delta < 1) cannot jump over its target: after the tick
      it is inside the window or still on the side it started from. */
  lemma SeekingCannotSkipTarget(c: Config, s: BoatState, delta: real)
    requires ValidConfig(c) && 0.0 <= delta && c.maxVelocity * delta < 2.0 * ArrivalThreshold
    requires !s.isDragging && s.targetX.Some? && OnTrack(s.targetX.value)
    requires Abs(s.targetX.value - s.boatX) >= ArrivalThreshold
    ensures var t := s.targetX.value;
      var r := Step(c, s, delta);
      && r.targetX == s.targetX
      && (Abs(t - r.boatX) < ArrivalThreshold || (s.boatX < t <==> r.boatX < t))
  {
    assert Step(c, s, delta) == SeekingStep(c, s, delta);
    SeekingStepMoves(c, s, delta);
  }

  lemma SeekingStepMoves(c: Config, s: BoatState, delta: real)
    requires 0.0 < c.maxVelocity && 0.0 <= delta && c.maxVelocity * delta < 2.0 * ArrivalThreshold
    requires s.targetX.Some? && OnTrack(s.targetX.value) && Abs(s.targetX.value - s.boatX) >= ArrivalThreshold
    ensures var t := s.targetX.value;
      var r := SeekingStep(c, s, delta);
      && r.targetX == s.targetX
      && (Abs(t - r.boatX) < ArrivalThreshold || (s.boatX < t <==> r.boatX < t))
  {
    var step, reach := SeekingStepShape(c, s, delta);
    StepLandsNear(s.boatX, s.targetX.value, step, reach, SeekingStep(c, s, delta).boatX);
  }

  /** The distance a seeking frame moves the boat, before clamping, is
      within maxVelocity * delta either way. */
  lemma SeekingStepShape(c: Config, s: BoatState, delta: real) returns (step: real, reach: real)
    requires 0.0 < c.maxVelocity && 0.0 <= delta
    requires s.targetX.Some? && Abs(s.targetX.value - s.boatX) >= ArrivalThreshold
    ensures reach == c.maxVelocity * delta && -reach <= step <= reach
    ensures SeekingStep(c, s, delta).boatX == Clamp(s.boatX + step, TrackMin, TrackMax)
  {
    var r := SeekingStep(c, s, delta);
    step, reach := StepWithinReach(r.velocity, c.maxVelocity, delta);
  }

  lemma StepLandsNear(x: real, t: real, step: real, reach: real, landed: real)
    requires Abs(t - x) >= ArrivalThreshold && OnTrack(t)
    requires -reach <= step <= reach && reach < 2.0 * ArrivalThreshold
    requires landed == Clamp(x + step, TrackMin, TrackMax)
    ensures Abs(t - landed) < ArrivalThreshold || (x < t <==> landed < t)
  {
  }

  lemma StepWithinReach(v: real, maxV: real, delta: real) returns (step: real, reach: real)
    requires -maxV <= v <= maxV && 0.0 <= delta
    ensures step == v * delta && reach == maxV * delta
    ensures -reach <= step <= reach
  {
    step, reach := v * delta, maxV * delta;
    ScaleMonotone(maxV, v, delta);
    ScaleMonotone(v, -maxV, delta);
  }

  /** On a slow frame (delta 3) the default boat, moving at full speed one
      unit short of its target, lands 1.4 past it: the step is longer than
      the arrival window, so arrival is not guaranteed at that frame rate. */
  lemma SlowFrameOvershoots()
    ensures var s := BoatState(49.0, 0.8, false, Some(50.0), true);
      var r := Step(DefaultConfig, s, MaxFrameDelta);
      && r.targetX == Some(50.0)
      && r.boatX == 51.4
      && Abs(50.0 - r.boatX) >= ArrivalThreshold
  {
  }

  /** The tick as a state machine: a held boat and an idle boat are left as
      they are; a seeking boat keeps seeking or arrives and is idle; a
      coasting boat keeps coasting or comes to rest. */
  lemma StepModes(c: Config, s: BoatState, delta: real)
    ensures ModeOf(s) == Dragging ==> Step(c, s, delta) == s
    ensures ModeOf(s) == Idle && OnTrack(s.boatX) ==> Step(c, s, delta) == s
    ensures ModeOf(s) == Seeking ==> ModeOf(Step(c, s, delta)) in {Seeking, Idle}
    ensures ModeOf(s) == Coasting ==> ModeOf(Step(c, s, delta)) in {Coasting, Idle}
  {
    if ModeOf(s) == Idle && OnTrack(s.boatX) {
      IdleIsQuiescent(c, s, delta);
    }
  }
}
