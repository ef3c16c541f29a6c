# Boat motion controller, modelled in Dafny

The portfolio site moves a boat along a one-dimensional voyage track.
Positions are percentages, from 0 to 100. All of this lives in the
`useBoatController` hook, in `app/hooks/useBoatController.ts`. The hook keeps
one state record: position, velocity, a drag flag, an optional target and a
sailing flag. It also keeps two drag refs: the pointer's x and the boat's
position when a drag began.

The hook does three kinds of work:

- Once per animation frame it advances the record. A boat with a target
  accelerates toward it, is capped at `maxVelocity` and snaps onto the target
  when closer than 0.5. A boat without a target coasts under friction and is
  stopped below a speed of 0.01. The position is then clamped to the track.
- The handlers set intent:
  - `sailTo` and `setBoatPosition` set a target.
  - A mouse or touch press on the boat starts a drag. A press elsewhere sails
    to the pressed position.
  - A drag move places the boat relative to where the drag began.
  - Releasing lets the boat coast, or seek when a destination was requested
    during the drag.
  - The left and right keys add or remove half a unit of velocity.
- It reports `nearestIsland`: the first island, in list order, that lies
  closer to the boat than `snapDistance`.

The model has four modules:

- `Motion` (`motion.dfy`): the state record, the options and the per-frame
  update. `Step` is one frame and `Ticks` is a run of frames. The lemmas
  cover coasting to rest, seeking, the modes and quiescence.
- `Interaction` (`interaction.dfy`): the handlers as updates of the state
  record. An `Event` datatype covers frames, navigation, press, move, release
  and keys, and `Run` replays a sequence of events. The lemmas show what any
  event sequence keeps.
- `Proximity` (`proximity.dfy`): the nearest-island lookup.
- `Controller` (`controller.dfy`): the hook as an object. `BoatController`
  holds the state record and the drag refs as fields. Its methods update
  those fields in place, and each method is proved against the matching
  `Motion` or `Interaction` function.

Numbers are `real`. Delta, elapsed time, the pointer's x and the viewport
width are parameters.

Some behaviours of the code that are easy to miss:

- A key press adds ±0.5 to the velocity with no cap.
- A drag move sets the velocity from the whole displacement since the drag
  began (`deltaPercent * 0.1`), not from the displacement since the last
  move.
- `sailTo` does not clear the drag flag.
- Release always sets `isSailing`, even when the velocity is zero. So a boat
  released at rest with no destination pending counts as Coasting until the
  next frame stops it.
- The hook never checks the options (for example that `friction` lies in
  (0, 1)) or that `initialPosition` is on the track. Lemmas that need these
  facts take them as preconditions.

## Model

| member | source | states |
|---|---|---|
| Motion.Sign | app/hooks/useBoatController.ts:82 | `Math.sign`: 1 exactly for positive, -1 exactly for negative, 0 exactly for zero |
| Motion.Clamp | app/hooks/useBoatController.ts:114 | `Math.max(lo, Math.min(hi, x))` is at least `lo`, at most `hi` when `lo <= hi`, is `x` inside the range and the nearer bound outside it |
| Motion.FrameDelta | app/hooks/useBoatController.ts:66-67 | the frame delta is elapsed/16 up to 48 ms and exactly 3 from there on, never above 3, and non-negative for non-negative elapsed time |
| Motion.SeekingStep | app/hooks/useBoatController.ts:80-114 | with a target: inside the 0.5 window the boat lands on the target, at rest, target cleared, not sailing; otherwise the velocity is the capped `v + sign(diff)*acceleration*delta`, the boat moves by it and is clamped, and the target is kept |
| Motion.CoastingStep | app/hooks/useBoatController.ts:99-114 | with no target: the old velocity moves the boat (clamped); friction scales the velocity, or below 0.01 stops it and clears `isSailing` |
| Motion.Step | app/hooks/useBoatController.ts:70-127 | one frame never changes the drag flag; while dragging it returns the state unchanged; otherwise the boat ends on the track, and a state on the track stays on it |
| Motion.StepInStages | app/hooks/useBoatController.ts:79-114 | the frame equals its stages run in order: seek if targeted, move by the velocity, coast if untargeted, clamp last |
| Motion.Ticks | app/hooks/useBoatController.ts:63-132 | any run of frames keeps the drag flag, changes nothing while dragging, keeps the boat on the track, and never creates a target |
| Motion.CoastingNeverSpeedsUp | app/hooks/useBoatController.ts:102-111 | a coasting frame keeps the boat coasting and never raises the speed; a boat still moving afterwards has lost at least `0.01*(1-friction)`; a stopped one is not sailing |
| Motion.CoastBound | app/hooks/useBoatController.ts:102-111 | a frame count, at least one, whose guaranteed loss exceeds the current speed |
| Motion.CoastingLosesSpeed | app/hooks/useBoatController.ts:102-111 | after n coasting frames the boat is stopped (and not sailing), or its speed has dropped by at least the n-frame loss |
| Motion.CoastingComesToRest | app/hooks/useBoatController.ts:106-110 | coasting for more frames than speed / loss leaves the boat at rest and not sailing, whatever the deltas |
| Motion.CoastingRestsWithinBound | app/hooks/useBoatController.ts:106-110 | after `CoastBound` frames a coasting boat is at rest and not sailing |
| Motion.IdleIsQuiescent | app/hooks/useBoatController.ts:116-124 | a resting, untargeted, undragged boat on the track is a fixed point of the frame |
| Motion.SeekingAcceleratesTowardTarget | app/hooks/useBoatController.ts:84-88 | for a boat not held, outside the 0.5 arrival window and with a velocity within the cap, the velocity component toward the target grows by `acceleration*delta` or is at the cap |
| Motion.SeekingCannotSkipTarget | app/hooks/useBoatController.ts:90-100 | when `maxVelocity*delta < 1`, a seeking frame lands inside the 0.5 window or on the side of the target it started from |
| Motion.SeekingStepShape | app/hooks/useBoatController.ts:88-100 | the unclamped step of a seeking frame is within `maxVelocity*delta` either way |
| Motion.SlowFrameOvershoots | app/hooks/useBoatController.ts:67-100 | with the defaults and delta 3, a boat one unit short at full speed lands 1.4 past its target, target kept |
| Motion.StepModes | app/hooks/useBoatController.ts:70-127 | as a state machine, Dragging and Idle (on the track) are left as they are, Seeking goes to Seeking or Idle, and Coasting goes to Coasting or Idle |
| Interaction.SailTo | app/hooks/useBoatController.ts:142-148 | the target becomes x clamped to the track, sailing is set, and position, velocity and drag flag are kept |
| Interaction.BeginDrag | app/hooks/useBoatController.ts:171 | a press on the boat holds it, clears the target and zeroes the velocity, and keeps the position |
| Interaction.DragPercent | app/hooks/useBoatController.ts:174-176 | displacement in percent of the viewport has the sign of the pointer movement and scales back to it |
| Interaction.MoveDrag | app/hooks/useBoatController.ts:173-184 | the boat sits at the drag-start position plus the displacement, clamped, with velocity `0.1 * displacement`; flags and target kept |
| Interaction.EndDrag | app/hooks/useBoatController.ts:186-187 | release clears the drag flag and sets sailing, keeping position, velocity and target |
| Interaction.Impulse | app/hooks/useBoatController.ts:244-251 | the left key subtracts 0.5 from the velocity and the right key adds 0.5 |
| Interaction.Nudge | app/hooks/useBoatController.ts:240-255 | a key press adds its impulse to the velocity, clears the target, sets sailing, and keeps the position |
| Interaction.PointerDownOn | app/hooks/useBoatController.ts:156-171 | a press off the boat targets the pressed percentage clamped to the track and sets sailing, keeping position, velocity, drag flag and drag refs; a press on the boat holds it at rest where it is with no target and records the pointer and the boat's position as the drag refs |
| Interaction.Apply | app/hooks/useBoatController.ts:186-193 | move and release outside a drag change nothing, because their listeners exist only from a press on the boat to the next release; only a press on the boat writes the drag refs; every event keeps the boat on the track |
| Interaction.Run | app/hooks/useBoatController.ts:156-171 | events are delivered one after another, in order; the drag refs are written only by a press on the boat (:168-169, and :209-210 for touch), so a sequence with no such press leaves them as they were |
| Interaction.RunStaysOnTrack | app/hooks/useBoatController.ts:113-184 | any sequence of frames, navigation, presses, moves, releases and keys keeps the boat and its target on the track |
| Interaction.HeldBoatStays | app/hooks/useBoatController.ts:74-77 | while the boat is held, frames, navigation, presses off the boat and keys keep its position, the drag and the drag origin |
| Interaction.NavigateLastWins | app/hooks/useBoatController.ts:142-148 | of two navigation requests the later one wins |
| Interaction.NavigateNearbyArrives | app/hooks/useBoatController.ts:90-96 | for a boat not held, a destination within 0.5 is reached on the next frame: exactly on it, at rest, Idle |
| Interaction.OppositeNudgesCancel | app/hooks/useBoatController.ts:240-255 | a left and a right key press restore the velocity |
| Interaction.DragBackToStart | app/hooks/useBoatController.ts:173-183 | moving the pointer back to the drag start puts the boat back with no velocity |
| Interaction.PressAndReleaseRests | app/hooks/useBoatController.ts:171-187 | press and release without moving, then one frame, leaves the boat where it was, at rest and not sailing |
| Interaction.PressMoveBackRelease | app/hooks/useBoatController.ts:167-190 | a press on the boat, a move back to the press point, a release and a frame leave the boat where it was, at rest, with the drag refs recording the press |
| Interaction.NudgeThenCoast | app/hooks/useBoatController.ts:240-255 | for a boat not held and at rest, a key press and one frame move the boat by `impulse*delta` and leave velocity `impulse*friction`, or stop it |
| Interaction.ReleaseKeepsMoving | app/hooks/useBoatController.ts:179-187 | with no destination pending, a boat dragged right and released moves further right on the next frame unless it is at the end of the track |
| Interaction.InputModes | app/hooks/useBoatController.ts:142-255 | a press holds the boat, navigation makes a free boat seek, a key makes it coast, and release makes it seek or coast |
| Proximity.FirstNear | app/hooks/useBoatController.ts:59-61 | the index found is near the boat with no earlier island near; none is found exactly when no island is near |
| Proximity.NearestIsland | app/hooks/useBoatController.ts:58-61 | no id exactly when no island is within `snapDistance`; otherwise the id of the first island within it (`BoatController.Nearest` reports this for the current position, as the hook returns `nearestIsland`) |
| Proximity.FirstMatchWins | app/hooks/useBoatController.ts:59-61 | of several near islands, none later than the first is chosen |
| Proximity.TwoIslandsExample | app/hooks/useBoatController.ts:59-61 | islands at 10 and 50 with snap 8: 12 gives the first, 30 gives none, 50 gives the second |
| Controller.BoatController.constructor | app/hooks/useBoatController.ts:45-54 | the first state: at `initialPosition`, at rest, not dragging, no target, not sailing, drag refs zero |
| Controller.BoatController.Tick | app/hooks/useBoatController.ts:70-127 | the fields become `Step` of the old record; `committed` is false exactly when nothing changed, and then no field was written; drag refs kept |
| Controller.BoatController.Advance | app/hooks/useBoatController.ts:71-114 | the imperative frame on local copies computes `Step` of the current record |
| Controller.BoatController.SeekPhase | app/hooks/useBoatController.ts:80-97 | the seeking block on local copies computes `Motion.Seek`: accelerate toward the target, cap at `maxVelocity`, or snap onto the target inside the 0.5 window |
| Controller.BoatController.CoastPhase | app/hooks/useBoatController.ts:103-111 | the friction block on local copies computes `Motion.Coast`: scale the velocity by `friction`, or stop it below 0.01 and clear `isSailing` |
| Controller.BoatController.SailTo | app/hooks/useBoatController.ts:142-148 | the fields become `Interaction.SailTo` of the old record |
| Controller.BoatController.SetBoatPosition | app/hooks/useBoatController.ts:151-153 | the same update as `SailTo` |
| Controller.BoatController.BeginDrag | app/hooks/useBoatController.ts:167-171 | the refs record the pointer and the old position, and the record becomes `Interaction.BeginDrag` of the old one |
| Controller.BoatController.PointerDown | app/hooks/useBoatController.ts:156-171 | record and refs become `PointerDownOn` of the old ones |
| Controller.BoatController.MoveDrag | app/hooks/useBoatController.ts:173-184 | the record becomes `Interaction.MoveDrag` from the recorded refs, with the refs kept |
| Controller.BoatController.EndDrag | app/hooks/useBoatController.ts:186-187 | the record becomes `Interaction.EndDrag` of the old one |
| Controller.BoatController.Nudge | app/hooks/useBoatController.ts:240-255 | the record becomes `Interaction.Nudge` of the old one |
| Controller.SailToNearbyIsland | app/hooks/useBoatController.ts:58-61 | when no earlier island in the list is within `snapDistance` of it, sailing to an island on the track within 0.5 of the start and running one frame makes that island the nearest one |

## Left out

- Frame scheduling is not modelled: `requestAnimationFrame`, its cancellation, `Date.now` and the `lastTime` ref. A frame takes its delta as a parameter, and `FrameDelta` models how the delta is computed from the elapsed milliseconds.
- DOM hit testing (`closest('[data-boat]')`) is reduced to a boolean, and the ocean rectangle to the clicked percentage.
- `window.innerWidth` is a parameter, and `preventDefault` is not modelled.
- Adding and removing listeners is modelled as moves and releases having no effect outside a drag.
- The mouse and touch handlers do the same thing, so the model has one press, one move and one release. Only the first touch point is read, as in the source.
- Key names are reduced to the two directions. Other keys change nothing and are not events.
- React's render cycle is not modelled: state updates apply at once and in order. At a press the hook reads `state.boatX` from the last render. The model reads the current position. The two differ only when a frame's update has not yet been rendered at the press, and then by that frame's motion.
- Floating point, NaN and infinities are not modelled, because numbers are mathematical reals. So is the reference equality of the state record, which `Tick` reports through `committed`.
- Controller.BoatController.MoveDrag: requires a positive viewport width. The source divides by it unchecked.
- Seeking convergence is not proved. With `maxVelocity*delta < 1` a frame cannot jump over the arrival window (`SeekingCannotSkipTarget`). No bound is proved on how many frames the boat takes to reach the window. `SlowFrameOvershoots` shows that at the capped delta of 3 a frame can overshoot.
- The islands are taken as given, and an island's position is not checked to be on the track.
- Rendering, the components, colour interpolation and the wake effects are not part of this model.
