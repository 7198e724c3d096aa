# Skill orbs: layout, joystick, throttle and rotation integrator

This project models the logic behind the 3D "skill orbs" of the portfolio's Skills section (`src/components/home/skills/skills.jsx`). It covers:

- **DeviceTier**:
  - the resize handler's classification of the window width into five device tiers;
  - the view each tier renders;
  - the per-tier ring radius, vertical spread, orb scale and camera distance;
  - the assignment of orbs to concentric layers.
- **Joystick**: the mobile on-screen joystick.
  - A drag offset is clamped to a circle of radius 28. Its horizontal share becomes a rotation speed.
  - On release, a self-rescheduling `decelerate` loop shrinks the speed by 0.98 and the knob by 0.92 per frame, until the knob is centred and the speed spent.
  - The component's state is a class (`JoystickControl`). Its handlers are proved against pure transition functions (`Press`, `Move`, `Release`, `Decay`).
- **Throttle**: `EnhancedMobile.handleRotate`. A value handed to `onRotate` becomes the manual rotation only when more than 8 ms have passed since the last accepted one.
- **OrbSpin**: the `MobileSkillOrbs` frame callback. Each frame runs one of three modes: manual drive, momentum coast, or idle auto-rotation.
- **Session**: the chain joystick → throttle → frame integrator. It holds the two findings below.
- **Geometric**: the per-frame geometric decay shared by the release loop and the momentum coast. It includes the proof that such a decay always settles below any positive threshold.

Numbers are exact `real`s. `Math.sqrt` is not computed: the distance is a parameter `d` with `d >= 0 && d*d == dx*dx + dy*dy`. The clock (`performance.now()`), the joystick's bounding box, and the frame time `delta` are parameters.

## Model

| member | source | states |
|---|---|---|
| DeviceTier.Classify | src/components/home/skills/skills.jsx:612-622 | the chosen tier's band contains the width: it is at or above the breakpoint before it and below the one after it |
| DeviceTier.ClassifyUnique | src/components/home/skills/skills.jsx:612-622 | a width lies in the band of a tier exactly when that tier is the one chosen, so the bands partition the integers |
| DeviceTier.ClassifyBands | src/components/home/skills/skills.jsx:612-622 | mobile iff width < 640; tablet iff 640–1023; laptop iff 1024–1199; small-desktop iff 1200–1439; desktop iff width ≥ 1440 |
| DeviceTier.ClassifyCountsBreakpoints | src/components/home/skills/skills.jsx:612-622 | the tier's rank is the number of breakpoints 640, 1024, 1200, 1440 the width has reached |
| DeviceTier.ClassifyMonotone | src/components/home/skills/skills.jsx:612-622 | a wider window never gets a lower tier |
| DeviceTier.PassedMonotone | src/components/home/skills/skills.jsx:612-622 | the number of breakpoints reached never drops as the width grows |
| DeviceTier.ViewFor | src/components/home/skills/skills.jsx:666-670 | the joystick orbs exactly for mobile; the grid exactly for tablet; the orb canvas, sized for the tier, exactly for laptop, small-desktop and desktop |
| DeviceTier.LayoutFor | src/components/home/skills/skills.jsx:191-200 | laptop gives radius 6, spread 2.5, scale 0.8; small-desktop gives 7, 3, 0.9; every other tier falls through to 8, 4, 1.0 |
| DeviceTier.MobileLayoutAmongTiers | src/components/home/skills/skills.jsx:85-125 | the mobile orbs use radius 6 (line 85), spread 3 (line 88) and scale 0.85 (line 125): the laptop radius, the small-desktop spread, and a scale between laptop's and small-desktop's |
| DeviceTier.CameraDistance | src/components/home/skills/skills.jsx:487-493 | laptop gives camera z 18, small-desktop 16, every other tier 14 |
| DeviceTier.LayoutGrowsWithTier | src/components/home/skills/skills.jsx:191-200 | across the canvas tiers, a wider tier never has a smaller radius, spread or scale, nor a camera further away; the camera is always outside the ring |
| DeviceTier.Layer | src/components/home/skills/skills.jsx:205 | the layer of an orb is the integer quotient of its index by 8: 8·layer ≤ index < 8·layer + 8 |
| DeviceTier.LayerRadii | src/components/home/skills/skills.jsx:205-206 | one ring radius per orb, each the layout radius less 2 per layer |
| DeviceTier.LayerRadiiShrink | src/components/home/skills/skills.jsx:84-85 | later orbs never sit on a larger ring; the first eight sit on the full radius |
| DeviceTier.SkillRings | src/components/home/skills/skills.jsx:14-29 | for the 14 skills, in the mobile layout and every tier's layout, orbs 0–7 are on the full radius, orbs 8–13 on the radius less 2, and every ring radius is positive |
| Geometric.DecayedShift | src/components/home/skills/skills.jsx:305 | decaying the first frame's result k more times equals decaying the start k + 1 times |
| Geometric.DecayedKeepsSign | src/components/home/skills/skills.jsx:305 | a positive per-frame factor never changes the sign of the decayed value and scales its magnitude the same way |
| Geometric.FramesToSettle | src/components/home/skills/skills.jsx:305-312 | for any start and any 0 < p < 1 and eps > 0, there is a frame count from which on the decayed value stays within eps |
| Joystick.Clamp | src/components/home/skills/skills.jsx:284-289 | the knob stays in the circle; an offset within radius 28 is kept; one beyond it is moved to squared length 28² on the same ray (same ratio, same signs) |
| Joystick.RotationSpeed | src/components/home/skills/skills.jsx:294-295 | the speed has the sign of the knob's x; inside the circle its magnitude is at most 0.008, and exactly 0.008 at the rim |
| Joystick.MountedIsBounded | src/components/home/skills/skills.jsx:252-256 | the freshly mounted state (centred knob, speed 0) is within the bounds |
| Joystick.Press | src/components/home/skills/skills.jsx:261-269 | dragging starts, the speed is exactly 0, no decay frame is pending, the knob stays put |
| Joystick.Move | src/components/home/skills/skills.jsx:271-298 | when not dragging nothing changes and nothing is sent; when dragging the knob is the clamped offset, the speed is the knob's rotation speed, and that speed is sent |
| Joystick.Release | src/components/home/skills/skills.jsx:300-323 | dragging stops and a decay frame is scheduled; knob and speed are kept |
| Joystick.Decay | src/components/home/skills/skills.jsx:304-320 | the knob shrinks by 0.92; it continues exactly while a knob coordinate exceeds 0.3 or the shrunk speed exceeds 0.0005; it then sends the 0.98-shrunk speed, and otherwise sets the speed to 0 and sends nothing; the speed never flips sign or grows, and shrinks strictly when non-zero |
| Joystick.TransitionsKeepBounds | src/components/home/skills/skills.jsx:261-320 | press, move, release and decay frames all keep the knob in the circle and the speed within 0.008 |
| Joystick.PressCancelsCoast | src/components/home/skills/skills.jsx:264-268 | after a press no decay frame runs however many follow: the state the press left is kept, with speed 0, and nothing is sent |
| Joystick.FullRightDrag | src/components/home/skills/skills.jsx:284-295 | an offset (40, 0) is pinned to (28, 0) and gives the full speed 0.008 |
| Joystick.VerticalDragHasNoSpeed | src/components/home/skills/skills.jsx:284-297 | a purely vertical drag sends speed 0, and beyond the rim puts the knob at ±28 on the y axis |
| Joystick.MoveSpeedFollowsDrag | src/components/home/skills/skills.jsx:291-297 | while dragging, a move always sends a speed with the sign of the horizontal drag and magnitude at most 0.008 |
| Joystick.CoastIsGeometric | src/components/home/skills/skills.jsx:304-318 | while the loop is still running after k frames, the speed is the release speed times 0.98 k times and the knob the release knob times 0.92 k times |
| Joystick.CoastEndsAtRest | src/components/home/skills/skills.jsx:312-317 | when the loop has stopped, the speed is exactly 0 and both knob coordinates are within 0.3 |
| Joystick.DecayLoopStops | src/components/home/skills/skills.jsx:304-323 | from every pending state the loop stops after finitely many frames, with speed 0 and the knob within 0.3 of the centre |
| Joystick.SentIsGeometric | src/components/home/skills/skills.jsx:305-314 | the i-th value sent during a coast is the release speed decayed i + 1 times; at most one value per frame |
| Joystick.SentNeverZero | src/components/home/skills/skills.jsx:312-317 | from a non-zero release speed every value sent is non-zero and has that speed's sign |
| Joystick.JoystickControl.constructor | src/components/home/skills/skills.jsx:252-256 | the component starts not dragging, knob centred, speed 0, nothing scheduled |
| Joystick.JoystickControl.HandleStart | src/components/home/skills/skills.jsx:261-269 | the fields become `Press` of the old state; the bounds are kept |
| Joystick.JoystickControl.HandleMove | src/components/home/skills/skills.jsx:271-298 | the fields and the value sent are `Move` of the old state; the bounds are kept |
| Joystick.JoystickControl.HandleEnd | src/components/home/skills/skills.jsx:300-324 | the fields become `Release` of the old state; the bounds are kept |
| Joystick.JoystickControl.Decelerate | src/components/home/skills/skills.jsx:304-320 | the fields and the value sent are `Decay` of the old state; the bounds are kept |
| Throttle.Rotate | src/components/home/skills/skills.jsx:417-423 | a value is accepted iff more than 8 ms passed since the last update; an accepted call sets the manual rotation to its value and the last update to its time; a rejected call leaves the state unchanged |
| Throttle.FeedFollowsLastAccepted | src/components/home/skills/skills.jsx:417-423 | after a run of calls the manual rotation and last-update time are those of the last accepted call, or unchanged if none got through |
| Throttle.AcceptedAreSpaced | src/components/home/skills/skills.jsx:417-423 | accepted calls are among those made and come more than 8 ms after each other (and after the previous update), whatever order the clock readings have |
| Throttle.AcceptedSpread | src/components/home/skills/skills.jsx:419 | the i-th of a run of calls spaced more than 8 ms apart is more than 8·i ms after the first |
| Throttle.AcceptedRate | src/components/home/skills/skills.jsx:419 | within a window of clock readings [lo, hi], (accepted − 1)·8 ≤ hi − lo |
| Throttle.SpacedAllAccepted | src/components/home/skills/skills.jsx:417-423 | conversely, calls each more than 8 ms after the one before all get through, and the last one sets the state |
| Throttle.BurstIsDropped | src/components/home/skills/skills.jsx:419 | calls all within 8 ms of the last update are all dropped and change nothing |
| Throttle.EnhancedMobile.constructor | src/components/home/skills/skills.jsx:413-414 | manual rotation 0 and last update at time 0 |
| Throttle.EnhancedMobile.HandleRotate | src/components/home/skills/skills.jsx:417-423 | reports acceptance iff more than 8 ms passed, and the fields become `Rotate` of the old state |
| OrbSpin.Frame | src/components/home/skills/skills.jsx:93-115 | the group's shown rotation equals the rotation ref after every frame; manual drive sets the speed to 8 × manual and leaves the auto-rotation angle alone; outside manual drive the speed is multiplied by 0.96 and the auto-rotation angle equals the rotation; manual and coasting frames add the new speed to the rotation |
| OrbSpin.FrameModes | src/components/home/skills/skills.jsx:95-110 | manual frames move the ring by 8 × manual in its direction; coasting frames move it by 0.96 × the old speed, in that speed's direction, with a shrinking speed still ≥ 0.001; idle frames set it to the auto angle plus 0.1·delta |
| OrbSpin.SyncedIdleAdvances | src/components/home/skills/skills.jsx:104-106 | from a synced state an idle frame with delta ≥ 0 advances the rotation by exactly 0.1·delta, never backwards |
| OrbSpin.SpeedStaysBounded | src/components/home/skills/skills.jsx:95-101 | with \|manual\| ≤ b and \|speed\| ≤ 8b, the next speed is still within 8b |
| OrbSpin.UndrivenSpeed | src/components/home/skills/skills.jsx:101 | without manual drive the speed after k frames is the starting speed times 0.96 k times |
| OrbSpin.CoastEnds | src/components/home/skills/skills.jsx:101-110 | without manual drive, from some frame count on the speed is below 0.001 however the frames are timed |
| OrbSpin.IdleRun | src/components/home/skills/skills.jsx:101-106 | once idle the ring stays idle, synced, with the auto angle advanced by 0.1 × the total frame time |
| OrbSpin.DrivenRun | src/components/home/skills/skills.jsx:95-98 | a manual rotation above 0.0001 drives every frame: the speed is 8 × manual, the auto angle never moves, and the ring advances by at least 0.0008 per frame in the manual direction |
| OrbSpin.ManualHandOffJumpsBack | src/components/home/skills/skills.jsx:95-106 | as written: two manual frames at 0.00013 and then an idle frame move the ring from 0.00208 back to 0.0016 |
| OrbSpin.FrameSynced | src/components/home/skills/skills.jsx:95-98 | corrected frame: same rotation and speed as the source, auto angle always equal to the rotation, identical to the source outside manual drive |
| OrbSpin.SyncedHandOffAdvances | src/components/home/skills/skills.jsx:104-106 | with the correction, any idle frame with delta ≥ 0 advances the rotation by exactly 0.1·delta, whatever came before |
| OrbSpin.MobileSkillOrbs.constructor | src/components/home/skills/skills.jsx:77-79 | the rotation, speed and auto-rotation refs start at 0 |
| OrbSpin.MobileSkillOrbs.Tick | src/components/home/skills/skills.jsx:93-115 | the fields become `Frame` of the old state for the manual rotation and delta given |
| Session.CoastLeavesLastSent | src/components/home/skills/skills.jsx:312-317 | as written: when a coast's values reach the throttle more than 8 ms apart, the manual rotation ends at the last value sent, non-zero and with the release speed's sign |
| Session.SlowDragLeavesRotation | src/components/home/skills/skills.jsx:304-320 | as written: after a half-pixel drag the loop stops on frame 7 and the manual rotation stays at 0.000126548911552 > 0.0001 |
| Session.SlowDragKeepsDriving | src/components/home/skills/skills.jsx:95-98 | as written: after that release every later frame is manual drive and the auto-rotation angle never moves |
| Session.DecayWithStop | src/components/home/skills/skills.jsx:312-317 | corrected decay frame: the same next state as the source, and always a value sent, 0 on the stopping frame |
| Session.SentWithStopEndsInZero | src/components/home/skills/skills.jsx:312-317 | with the correction a finished coast sends the source's values followed by exactly one 0 |
| Session.CorrectedCoastReturnsToIdle | src/components/home/skills/skills.jsx:93-115 | with the correction, a finished coast whose values reach the throttle more than 8 ms apart leaves manual rotation 0, and the ring's speed drops below the idle threshold after finitely many frames |
| Session.SlowDragSettlesWithStop | src/components/home/skills/skills.jsx:304-320 | the half-pixel drag with the correction sends seven values, the last 0, and the manual rotation returns to 0 |

## Left out

- Rendering: the JSX, CSS, three.js and `@react-three/fiber` objects, framer-motion animation and dynamic loading are UI and library calls.
- Orb positions: the x, y and z positions use `Math.cos`/`Math.sin`, which is floating-point trigonometry. Only the integer layer and layer-radius part is modelled.
- Desktop auto-rotation: `clock.getElapsedTime() * 0.08` is a single product with nothing to state.
- Scheduling: `requestAnimationFrame`, `cancelAnimationFrame`, the resize debounce timer, the staggered reveal timer and the unmount cleanup are host timers.
  - The release loop is modelled as explicit `Decelerate` calls on the class. A `pending` flag says that an uncancelled decay frame is scheduled. `animationRef` itself is never reset to null, so it is not a field of the model.
  - A `mouseleave` while not dragging re-arms the loop without cancelling an earlier one; the model collapses any such overlapping loops into the one flag.
- React state timing: `setKnobPosition` updater functions and React's batching are taken as applied immediately and in order.
- Null guards: the `groupRef.current` and `joystickRef.current` guards are left out. The model assumes the refs are attached (mounted).
- Event source: `e.touches` versus mouse coordinates, and `preventDefault`, are event plumbing. Coordinates arrive as parameters.
- Image preloading is browser I/O.
- Numeric fidelity: arithmetic is over exact reals, not IEEE doubles, and nothing is claimed about rounding.
  - `Math.floor(index / 8)` is integer division, which agrees for the non-negative indices used.
- Joystick.JoystickControl: the handler preconditions include the class invariant `Valid()`. The constructor establishes it and every handler keeps it, so this restricts no reachable call.
- Joystick.JoystickControl.Decelerate: requires a pending frame. The source only runs `decelerate` from a scheduled animation frame.
- The other files of the site (contact information, layout, pages) are static composition and are not part of this model.

## Findings

| source | as written | input that shows it | evidently intended | confidence | as-written member | corrected member |
|---|---|---|---|---|---|---|
| src/components/home/skills/skills.jsx:312-317 | the frame that stops the release loop zeroes `velocityRef` but calls `onRotate` with nothing, so `manualRotation` keeps the last non-zero value sent | drag 0.5 px right of the centre, release, frames 16 ms apart: six values are sent, the last 0.000126548911552 > 0.0001, so the orbs stay in manual drive for good and never return to idle auto-rotation | the loop ends by handing 0 to `onRotate`, since the frame callback's comments at lines 100 and 103 say that momentum carries on once the joystick is released and that auto-rotation starts once the ring is idle; both branches run only once `manualRotation` is at most 0.0001 | medium, not executed | Session.SlowDragLeavesRotation | Session.CorrectedCoastReturnsToIdle |
| src/components/home/skills/skills.jsx:95-98 | the manual-drive branch never moves `autoRotationRef`, so the first idle frame jumps to a stale auto-rotation angle | from mount, hold the joystick 0.455 px right of the centre (speed 0.00013) for two frames, then move it straight above the centre (speed 0): the rotation goes from 0.00208 back to 0.0016 | the hand-off to idle continues from the current rotation, as the coast branch's syncing of `autoRotationRef` shows | medium, not executed | OrbSpin.ManualHandOffJumpsBack | OrbSpin.SyncedHandOffAdvances |

The classes (`JoystickControl`, `MobileSkillOrbs`) model the code as written. The corrected definitions (`Session.DecayWithStop` and `OrbSpin.FrameSynced`) sit beside them, and the end-to-end results about the corrected behaviour (`Session.CorrectedCoastReturnsToIdle`, `OrbSpin.SyncedHandOffAdvances`) are stated over those.
