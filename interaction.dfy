/** The input side of the boat controller: the commands and gesture handlers
    of app/hooks/useBoatController.ts as updates of the state record, and
    what any sequence of inputs and frames keeps. */
module Interaction {
  import opened Motion

  /** Velocity a drag gives the boat per percentage point of displacement. */
  const DragVelocityFactor: real := 0.1
  /** Velocity one key press adds or removes. */
  const NudgeImpulse: real := 0.5
  /** Percentages are of the viewport width. */
  const Percent: real := 100.0

  /** The two refs written when a drag begins: the pointer's x coordinate
      and the boat's position at that moment. */
  datatype DragOrigin = DragOrigin(pointerX: real, boatX: real)

  /** The keys the handler reacts to: ArrowLeft, a or A, and ArrowRight, d or D. */
  datatype Direction = Left | Right

  /** `sailTo` (also reached as `setBoatPosition`): head for x, clamped to the track. */
  function SailTo(s: BoatState, x: real): (r: BoatState)
    ensures r.targetX == Some(Clamp(x, TrackMin, TrackMax)) && OnTrack(r.targetX.value)
    ensures r.isSailing
    ensures r.boatX == s.boatX && r.velocity == s.velocity && r.isDragging == s.isDragging
    ensures Valid(s) ==> Valid(r)
  {
    s.(targetX := Some(Clamp(x, TrackMin, TrackMax)), isSailing := true)
  }

  /** The state update when a press lands on the boat: hold it still and
      forget any target. */
  function BeginDrag(s: BoatState): (r: BoatState)
    ensures r.isDragging && r.targetX.None? && r.velocity == 0.0
    ensures r.boatX == s.boatX && r.isSailing == s.isSailing
    ensures Valid(s) ==> Valid(r)
  {
    s.(isDragging := true, targetX := None, velocity := 0.0)
  }

  /** Horizontal pointer displacement since the drag began, in percent of
      the viewport width. */
  function DragPercent(origin: DragOrigin, pointerX: real, viewportWidth: real): (r: real)
    requires viewportWidth > 0.0
    ensures r > 0.0 <==> pointerX > origin.pointerX
    ensures r < 0.0 <==> pointerX < origin.pointerX
    ensures r * viewportWidth == (pointerX - origin.pointerX) * Percent
  {
    (pointerX - origin.pointerX) / viewportWidth * Percent
  }

  /** The move handler: the boat follows the pointer from where it was when
      the drag began, clamped to the track, and takes a velocity from the
      displacement so that it keeps moving once released. */
  function MoveDrag(s: BoatState, origin: DragOrigin, pointerX: real, viewportWidth: real): (r: BoatState)
    requires viewportWidth > 0.0
    ensures var d := DragPercent(origin, pointerX, viewportWidth);
      && r.boatX == Clamp(origin.boatX + d, TrackMin, TrackMax)
      && r.velocity == d * DragVelocityFactor
    ensures OnTrack(r.boatX)
    ensures r.isDragging == s.isDragging && r.targetX == s.targetX && r.isSailing == s.isSailing
    ensures Valid(s) ==> Valid(r)
  {
    var d := DragPercent(origin, pointerX, viewportWidth);
    s.(boatX := Clamp(origin.boatX + d, TrackMin, TrackMax), velocity := d * DragVelocityFactor)
  }

  /** The release handler: let go of the boat and mark it sailing so that
      friction takes its velocity down. */
  function EndDrag(s: BoatState): (r: BoatState)
    ensures !r.isDragging && r.isSailing
    ensures r.boatX == s.boatX && r.velocity == s.velocity && r.targetX == s.targetX
    ensures Valid(s) ==> Valid(r)
  {
    s.(isDragging := false, isSailing := true)
  }

  /** The velocity change of one key press: left subtracts, right adds. */
  function Impulse(dir: Direction): (r: real)
    ensures dir.Left? ==> r == -NudgeImpulse
    ensures dir.Right? ==> r == NudgeImpulse
    ensures Abs(r) == NudgeImpulse
  {
    match dir
    case Left => -NudgeImpulse
    case Right => NudgeImpulse
  }

  /** The key handler: add half a unit of velocity in the key's direction,
      with no cap, and drop any target. */
  function Nudge(s: BoatState, dir: Direction): (r: BoatState)
    ensures r.velocity == s.velocity + Impulse(dir)
    ensures r.targetX.None? && r.isSailing
    ensures r.boatX == s.boatX && r.isDragging == s.isDragging
    ensures Valid(s) ==> Valid(r)
  {
    s.(velocity := s.velocity + Impulse(dir), isSailing := true, targetX := None)
  }

  /** The controller's whole state: the state record and the drag refs. */
  datatype ControllerState = ControllerState(state: BoatState, origin: DragOrigin)

  /** What can happen to the controller: a frame with its delta, a request to
      sail somewhere, a press (on the boat or on the ocean, with the pointer's
      x and that x in percent of the ocean's width), a pointer move with the
      viewport width, a release, a key press. */
  datatype Event =
    | Frame(delta: real)
    | Navigate(x: real)
    | PointerDown(onBoat: bool, pointerX: real, clickPercent: real)
    | PointerMove(pointerX: real, viewportWidth: real)
    | PointerUp
    | Key(dir: Direction)

  predicate WellFormed(e: Event) {
    e.PointerMove? ==> e.viewportWidth > 0.0
  }

  /** `handleMouseDown` / `handleTouchStart`: a press off the boat sails to
      the pressed position; a press on the boat records the drag origin and
      begins the drag. */
  function PointerDownOn(ctl: ControllerState, onBoat: bool, pointerX: real, clickPercent: real): (r: ControllerState)
    // off the boat: sail to the pressed position, drag refs untouched
    ensures !onBoat ==>
      && r.origin == ctl.origin
      && r.state.targetX == Some(Clamp(clickPercent, TrackMin, TrackMax)) && r.state.isSailing
      && r.state.boatX == ctl.state.boatX && r.state.velocity == ctl.state.velocity
      && r.state.isDragging == ctl.state.isDragging
    // on the boat: hold it still where it is and record where the drag began
    ensures onBoat ==>
      && r.origin == DragOrigin(pointerX, ctl.state.boatX)
      && r.state.isDragging && r.state.targetX.None? && r.state.velocity == 0.0
      && r.state.boatX == ctl.state.boatX && r.state.isSailing == ctl.state.isSailing
  {
    if !onBoat then ctl.(state := SailTo(ctl.state, clickPercent))
    else ControllerState(BeginDrag(ctl.state), DragOrigin(pointerX, ctl.state.boatX))
  }

  /** One event. The move and release listeners exist only between a press
      on the boat and the next release, so outside a drag those events
      change nothing. */
  function Apply(cfg: Config, ctl: ControllerState, e: Event): (r: ControllerState)
    requires WellFormed(e)
    ensures !ctl.state.isDragging && (e.PointerMove? || e.PointerUp?) ==> r == ctl
    ensures !(e.PointerDown? && e.onBoat) ==> r.origin == ctl.origin
    ensures Valid(ctl.state) ==> Valid(r.state)
  {
    match e
    case Frame(delta) => ctl.(state := Step(cfg, ctl.state, delta))
    case Navigate(x) => ctl.(state := SailTo(ctl.state, x))
    case PointerDown(onBoat, px, click) => PointerDownOn(ctl, onBoat, px, click)
    case PointerMove(px, w) =>
      if ctl.state.isDragging then ctl.(state := MoveDrag(ctl.state, ctl.origin, px, w)) else ctl
    case PointerUp => if ctl.state.isDragging then ctl.(state := EndDrag(ctl.state)) else ctl
    case Key(dir) => ctl.(state := Nudge(ctl.state, dir))
  }

  /** A sequence of events, applied in order. */
  function Run(cfg: Config, ctl: ControllerState, events: seq<Event>): (r: ControllerState)
    requires forall i :: 0 <= i < |events| ==> WellFormed(events[i])
    ensures (forall i :: 0 <= i < |events| ==> !(events[i].PointerDown? && events[i].onBoat)) ==> r.origin == ctl.origin
    decreases |events|
  {
    if events == [] then ctl else Run(cfg, Apply(cfg, ctl, events[0]), events[1..])
  }

  /** Boundedness: whatever the inputs and frames, the boat and its target
      stay on the track. */
  lemma {:induction false} RunStaysOnTrack(cfg: Config, ctl: ControllerState, events: seq<Event>)
    requires forall i :: 0 <= i < |events| ==> WellFormed(events[i])
    requires Valid(ctl.state)
    ensures Valid(Run(cfg, ctl, events).state)
    decreases |events|
  {
    if events != [] {
      var next := Apply(cfg, ctl, events[0]);
      assert Valid(next.state);
      RunStaysOnTrack(cfg, next, events[1..]);
    }
  }

  /** Drag exclusivity: while the boat is held, frames, navigation requests,
      presses off the boat and key presses leave its position alone and keep
      it held. */
  lemma {:induction false} HeldBoatStays(cfg: Config, ctl: ControllerState, events: seq<Event>)
    requires forall i :: 0 <= i < |events| ==>
      events[i].Frame? || events[i].Navigate? || events[i].Key? || (events[i].PointerDown? && !events[i].onBoat)
    requires ctl.state.isDragging
    ensures Run(cfg, ctl, events).state.boatX == ctl.state.boatX
    ensures Run(cfg, ctl, events).state.isDragging
    ensures Run(cfg, ctl, events).origin == ctl.origin
    decreases |events|
  {
    if events != [] {
      HeldBoatStays(cfg, Apply(cfg, ctl, events[0]), events[1..]);
    }
  }

  /** Of two navigation requests the second wins. */
  lemma NavigateLastWins(s: BoatState, x: real, y: real)
    ensures SailTo(SailTo(s, x), y) == SailTo(s, y)
  {
  }

  /** A destination within the arrival distance is reached on the next
      frame: the boat stands exactly on it, at rest. */
  lemma NavigateNearbyArrives(c: Config, s: BoatState, x: real, delta: real)
    requires !s.isDragging
    requires Abs(Clamp(x, TrackMin, TrackMax) - s.boatX) < ArrivalThreshold
    ensures var r := Step(c, SailTo(s, x), delta);
      && r == s.(boatX := Clamp(x, TrackMin, TrackMax), velocity := 0.0, targetX := None, isSailing := false)
      && ModeOf(r) == Idle
  {
  }

  /** A key press one way and one the other way give back the velocity. */
  lemma OppositeNudgesCancel(s: BoatState)
    ensures Nudge(Nudge(s, Left), Right) == s.(targetX := None, isSailing := true)
    ensures Nudge(Nudge(s, Right), Left) == s.(targetX := None, isSailing := true)
  {
  }

  /** Moving the pointer back to where the drag began puts the boat back
      where it was, with no velocity. */
  lemma DragBackToStart(s: BoatState, pointerX: real, viewportWidth: real)
    requires OnTrack(s.boatX) && viewportWidth > 0.0
    ensures MoveDrag(BeginDrag(s), DragOrigin(pointerX, s.boatX), pointerX, viewportWidth) == BeginDrag(s)
  {
  }

  /** Pressing the boat and releasing it without moving leaves it at rest
      where it was after the next frame. */
  lemma PressAndReleaseRests(c: Config, s: BoatState, delta: real)
    requires OnTrack(s.boatX)
    ensures Step(c, EndDrag(BeginDrag(s)), delta) == s.(velocity := 0.0, isDragging := false, targetX := None, isSailing := false)
  {
  }

  /** A key tap from rest: after one frame the boat has moved by the
      impulse times the delta and friction has taken its share of the
      velocity, or, when that share leaves less than the stop speed, the
      boat is at rest again. */
  lemma NudgeThenCoast(c: Config, s: BoatState, dir: Direction, delta: real)
    requires !s.isDragging && s.velocity == 0.0
    ensures var r := Step(c, Nudge(s, dir), delta);
      && r.boatX == Clamp(s.boatX + Impulse(dir) * delta, TrackMin, TrackMax)
      && r.targetX.None?
      && (Abs(Impulse(dir) * c.friction) >= StopThreshold ==> r.velocity == Impulse(dir) * c.friction && r.isSailing)
      && (Abs(Impulse(dir) * c.friction) < StopThreshold ==> r.velocity == 0.0 && !r.isSailing)
  {
  }

  /** A press on the boat, a move back to where the press was and a release
      leave the boat where it was; the next frame finds it at rest. */
  lemma PressMoveBackRelease(c: Config, ctl: ControllerState, pointerX: real, viewportWidth: real, delta: real)
    requires OnTrack(ctl.state.boatX) && viewportWidth > 0.0
    ensures var pressed := Apply(c, ctl, PointerDown(true, pointerX, 0.0));
      var r := Run(c, pressed, [PointerMove(pointerX, viewportWidth), PointerUp, Frame(delta)]);
      && r.state == ctl.state.(velocity := 0.0, isDragging := false, targetX := None, isSailing := false)
      && r.origin == DragOrigin(pointerX, ctl.state.boatX)
  {
    var pressed := Apply(c, ctl, PointerDown(true, pointerX, 0.0));
    var moved := Apply(c, pressed, PointerMove(pointerX, viewportWidth));
    DragBackToStart(ctl.state, pointerX, viewportWidth);
    assert moved.state == BeginDrag(ctl.state);
    var released := Apply(c, moved, PointerUp);
    assert released.state == EndDrag(BeginDrag(ctl.state));
    var framed := Apply(c, released, Frame(delta));
    PressAndReleaseRests(c, ctl.state, delta);
    var events := [PointerMove(pointerX, viewportWidth), PointerUp, Frame(delta)];
    assert events[1..] == [PointerUp, Frame(delta)];
    assert events[1..][1..] == [Frame(delta)];
    assert events[1..][1..][1..] == [];
    calc {
      Run(c, pressed, events);
      Run(c, moved, events[1..]);
      Run(c, released, events[1..][1..]);
      Run(c, framed, events[1..][1..][1..]);
      framed;
    }
  }

  lemma PositiveProduct(a: real, b: real)
    requires 0.0 < a && 0.0 < b
    ensures 0.0 < a * b
  {
  }

  /** Momentum after release: a boat dragged to the right and let go keeps
      moving right on the next frame, unless it is already at the end of
      the track. */
  lemma ReleaseKeepsMoving(c: Config, s: BoatState, origin: DragOrigin, pointerX: real, viewportWidth: real, delta: real)
    requires viewportWidth > 0.0 && 0.0 < delta
    requires s.targetX.None? && pointerX > origin.pointerX
    ensures var held := MoveDrag(s, origin, pointerX, viewportWidth);
      var after := Step(c, EndDrag(held), delta);
      && held.boatX <= after.boatX
      && (held.boatX < TrackMax ==> held.boatX < after.boatX)
  {
    var held := MoveDrag(s, origin, pointerX, viewportWidth);
    var d := DragPercent(origin, pointerX, viewportWidth);
    PositiveProduct(d, DragVelocityFactor);
    PositiveProduct(held.velocity, delta);
  }

  /** The inputs as transitions of the state machine: a press on the boat
      holds it, navigation makes a free boat seek, a key press makes it
      coast, a release lets the boat coast, or seek when a destination was
      requested during the drag. */
  lemma InputModes(s: BoatState, x: real, dir: Direction)
    ensures ModeOf(BeginDrag(s)) == Dragging
    ensures !s.isDragging ==> ModeOf(SailTo(s, x)) == Seeking
    ensures !s.isDragging ==> ModeOf(Nudge(s, dir)) == Coasting
    ensures ModeOf(EndDrag(s)) == if s.targetX.Some? then Seeking else Coasting
  {
  }
}
