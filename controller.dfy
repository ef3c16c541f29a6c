/** The hook itself as an object: the state record and the two drag refs
    are fields, the animation frame and the handlers are methods that update
    them in place (app/hooks/useBoatController.ts). */
module Controller {
  import opened Motion
  import opened Interaction
  import opened Proximity

  class BoatController {
    const islands: seq<Island>
    const config: Config

    // the state record
    var boatX: real
    var velocity: real
    var isDragging: bool
    var targetX: Option<real>
    var isSailing: bool

    // the drag refs
    var dragStartX: real
    var dragStartBoatX: real

    function State(): BoatState
      reads this
    {
      BoatState(boatX, velocity, isDragging, targetX, isSailing)
    }

    ghost function Origin(): DragOrigin
      reads this
    {
      DragOrigin(dragStartX, dragStartBoatX)
    }

    ghost predicate Valid()
      reads this
    {
      Motion.Valid(State())
    }

    /** The hook's first render: the boat at the initial position, at rest. */
    constructor (islands: seq<Island>, config: Config)
      ensures OnTrack(config.initialPosition) ==> Valid()
      ensures this.islands == islands && this.config == config
      ensures State() == BoatState(config.initialPosition, 0.0, false, None, false)
      ensures Origin() == DragOrigin(0.0, 0.0)
    {
      this.islands := islands;
      this.config := config;
      boatX := config.initialPosition;
      velocity := 0.0;
      isDragging := false;
      targetX := None;
      isSailing := false;
      dragStartX := 0.0;
      dragStartBoatX := 0.0;
    }

    /** `nearestIsland`, derived from the current position. */
    function Nearest(): Option<string>
      reads this
    {
      NearestIsland(islands, boatX, config.snapDistance)
    }

    /** One animation frame with the given delta. `committed` is false when
        the frame leaves every field as it was, which is when the hook hands
        back the previous state record itself. */
    method Tick(delta: real) returns (committed: bool)
      modifies this
      ensures old(Valid()) ==> Valid()
      ensures State() == Step(config, old(State()), delta)
      ensures committed <==> State() != old(State())
      ensures !committed ==> unchanged(this)
      ensures Origin() == old(Origin())
    {
      if isDragging {
        return false;
      }
      var x, v, t, sailing := Advance(delta);
      if x == boatX && v == velocity && t == targetX && sailing == isSailing {
        return false;
      }
      boatX, velocity, targetX, isSailing := x, v, t, sailing;
      committed := true;
    }

    /** The body of the frame updater for a free boat, on local copies of
        the fields: seek, move, coast, clamp. */
    method Advance(delta: real) returns (x: real, v: real, t: Option<real>, sailing: bool)
      requires !isDragging
      ensures BoatState(x, v, false, t, sailing) == Step(config, State(), delta)
    {
      x, v, t, sailing := boatX, velocity, targetX, isSailing;
      if t.Some? {
        x, v, t, sailing := SeekPhase(State(), delta);
      }
      ghost var sought := BoatState(x, v, false, t, sailing);
      x := x + v * delta;
      if t.None? {
        v, sailing := CoastPhase(v, sailing);
      }
      StepInStages(config, State(), delta, sought, BoatState(x, v, false, t, sailing));
      x := Clamp(x, TrackMin, TrackMax);
    }

    /** The seeking block of the frame: accelerate toward the target, cap
        the speed, and snap onto the target once within the arrival distance. */
    method SeekPhase(s: BoatState, delta: real) returns (x: real, v: real, t: Option<real>, sailing: bool)
      requires s.targetX.Some?
      ensures BoatState(x, v, s.isDragging, t, sailing) == Seek(config, s, delta)
    {
      x, t, sailing := s.boatX, s.targetX, s.isSailing;
      var diff := t.value - x;
      var direction := Sign(diff);
      v := s.velocity + direction * config.acceleration * delta;
      v := Clamp(v, -config.maxVelocity, config.maxVelocity);
      if Abs(diff) < ArrivalThreshold {
        x := t.value;
        v := 0.0;
        t := None;
        sailing := false;
      }
    }

    /** The friction block of the frame, run when there is no target. */
    method CoastPhase(velocity: real, sailing: bool) returns (v: real, stillSailing: bool)
      ensures forall s: BoatState {:trigger Coast(config, s)} :: s.velocity == velocity && s.isSailing == sailing ==>
        Coast(config, s) == s.(velocity := v, isSailing := stillSailing)
    {
      v, stillSailing := velocity * config.friction, sailing;
      if Abs(v) < StopThreshold {
        v := 0.0;
        stillSailing := false;
      }
    }

    /** `sailTo`. */
    method SailTo(x: real)
      modifies this
      ensures old(Valid()) ==> Valid()
      ensures State() == Interaction.SailTo(old(State()), x)
      ensures Origin() == old(Origin())
    {
      targetX := Some(Clamp(x, TrackMin, TrackMax));
      isSailing := true;
    }

    /** `setBoatPosition`: the same as `sailTo`. */
    method SetBoatPosition(x: real)
      modifies this
      ensures old(Valid()) ==> Valid()
      ensures State() == Interaction.SailTo(old(State()), x)
      ensures Origin() == old(Origin())
    {
      SailTo(x);
    }

    /** A press on the boat: record where the pointer and the boat are, then
        hold the boat still. */
    method BeginDrag(pointerX: real)
      modifies this
      ensures old(Valid()) ==> Valid()
      ensures State() == Interaction.BeginDrag(old(State()))
      ensures Origin() == DragOrigin(pointerX, old(boatX))
    {
      dragStartX := pointerX;
      dragStartBoatX := boatX;
      isDragging := true;
      targetX := None;
      velocity := 0.0;
    }

    /** `handleMouseDown` / `handleTouchStart`: a press off the boat sails to
        the pressed position, a press on it begins a drag. */
    method PointerDown(onBoat: bool, pointerX: real, clickPercent: real)
      modifies this
      ensures old(Valid()) ==> Valid()
      ensures ControllerState(State(), Origin()) == PointerDownOn(old(ControllerState(State(), Origin())), onBoat, pointerX, clickPercent)
    {
      if !onBoat {
        SailTo(clickPercent);
        return;
      }
      BeginDrag(pointerX);
    }

    /** The move handler of a drag. */
    method MoveDrag(pointerX: real, viewportWidth: real)
      requires viewportWidth > 0.0
      modifies this
      ensures old(Valid()) ==> Valid()
      ensures State() == Interaction.MoveDrag(old(State()), Origin(), pointerX, viewportWidth)
      ensures Origin() == old(Origin())
    {
      var deltaPercent := (pointerX - dragStartX) / viewportWidth * Percent;
      boatX := Clamp(dragStartBoatX + deltaPercent, TrackMin, TrackMax);
      velocity := deltaPercent * DragVelocityFactor;
    }

    /** The release handler of a drag. */
    method EndDrag()
      modifies this
      ensures old(Valid()) ==> Valid()
      ensures State() == Interaction.EndDrag(old(State()))
      ensures Origin() == old(Origin())
    {
      isDragging := false;
      isSailing := true;
    }

    /** The key handler for the left and right keys. */
    method Nudge(dir: Direction)
      modifies this
      ensures old(Valid()) ==> Valid()
      ensures State() == Interaction.Nudge(old(State()), dir)
      ensures Origin() == old(Origin())
    {
      velocity := velocity + Impulse(dir);
      isSailing := true;
      targetX := None;
    }
  }

  /** A caller's view: sail to an island within the arrival distance, run a
      frame, and the boat stands on the island with that island nearest. */
  method SailToNearbyIsland(islands: seq<Island>, config: Config, i: nat) returns (nearest: Option<string>)
    requires ValidConfig(config) && i < |islands| && OnTrack(islands[i].position)
    requires Abs(islands[i].position - config.initialPosition) < ArrivalThreshold
    requires forall j :: 0 <= j < i ==> !Near(islands[j], islands[i].position, config.snapDistance)
    ensures nearest == Some(islands[i].id)
  {
    var b := new BoatController(islands, config);
    b.SailTo(islands[i].position);
    var _ := b.Tick(1.0);
    assert b.boatX == islands[i].position;
    FirstNearIsAt(islands, b.boatX, config.snapDistance, i);
    nearest := b.Nearest();
  }

  lemma FirstNearIsAt(islands: seq<Island>, boatX: real, snapDistance: real, i: nat)
    requires i < |islands| && Near(islands[i], boatX, snapDistance)
    requires forall j :: 0 <= j < i ==> !Near(islands[j], boatX, snapDistance)
    ensures NearestIsland(islands, boatX, snapDistance) == Some(islands[i].id)
  {
    var k := FirstNear(islands, boatX, snapDistance);
    assert k.Some? && k.value == i;
  }
}
