# Roadwork traffic scene: traffic stepper and camera director

This project models the logic inside `app.js`, a Three.js scene of a road
whose right-hand lane (lane 0, the work lane) is closed by a work site. The
file mostly builds meshes. Two pieces of logic run in it every frame, and
those two are modelled and proved here:

- **The traffic stepper** (`updateTraffic`). Cars are grouped by their
  current lane and each group is sorted rear to front. Every car is then
  changed in place:
  - its speed is shaped: 0.45 on the rubber mat of the work lane, and 0.10
    or 0.55 when the car ahead in its group is under 3 or under 6 units away;
  - a work-lane car past `X_TAPIS + 2.5` is forced to target lane 1;
  - it steers 6 % of the way toward its target lane's centre, and its lane
    snaps once the error is under 0.02;
  - it advances by `speed * dt * 60` and is recycled far behind the start
    once past `xEnd + 40`.

  A work-lane car that drives onto the mat's start line asks for a
  cinematic. The frame reports an alert flag and the highest risk score of
  the work-lane cars. The stepper also covers car spawning (`createCar`)
  and the traffic-density slider that adds or drops cars.
- **The camera director**. This is the three-shot cinematic a crossing
  starts: a guarded start, a five-segment eased time line, a return to the
  default pose and a 4.5 s cooldown. It also covers camera reset, the
  follow and top views stepping toward their goal poses, the follower's
  choice of the most advanced work-lane car, the camera-mode label and the
  risk gauge.

Modules, following the program's structure:

- `Scene` (scene.dfy): road and hazard constants, `laneCenter`, vectors and
  camera poses, the vector lerp, and the per-frame 0.94 contraction shared
  by steering and camera chasing.
- `Easing` (easing.dfy): `easeInOutCubic` and `mixCameraFrames` as
  functions, with range, symmetry, monotonicity and no-overshoot lemmas.
- `Cars` (cars.dfy): the car record and every per-car rule of the stepper
  as a function, with lemmas.
- `Lanes` (lanes.dfy): lane grouping and the stable sort. It identifies the
  car ahead of every car, and gives the specification of a whole frame
  (`Stepped`, `FrameCrossings`, `FrameRisk`, `FrameAlert`).
- `Traffic` (traffic.dfy): class `TrafficSim`. Its `cars` field is the
  live car list, and its methods update it in place with the source's
  loops, each proved against the `Lanes` specification.
- `Hud` (hud.dfy): `setRisk` and the camera label of `refreshTopStatus`.
- `Director` (director.dfy): the director state as a value with pure
  transitions and their lemmas. Class `CameraDirector` holds the source's
  module-level variables as fields, and each method is proved to perform
  one transition.
- `Animation` (animation.dfy): one frame of `animate`, proved against its
  whole-frame specification, with lemmas about frames.

Cars are records in a sequence. The source's lane groups hold the same car
objects as the car list, and this aliasing is modelled by listing car
indices in the groups. A car's new state depends only on its own state at
the start of the frame and the start-of-frame position of the car ahead of
it. Cars are visited rear to front, so that car has not moved yet when it is
read. `UpdateTraffic` is proved equal to the parallel map `Stepped`.

What `app.js` does not have, and this model therefore does not have either:

- no merge lock, no safe-gap check for a lane change, no queue-hold or
  hard-stop line, and no faster steering fraction during a forced merge;
  the only merge rule is the forced target past `X_TAPIS + 2.5`;
- no visibility metrics;
- a cinematic's end does not clear the follow or top flags (nothing in
  `app.js` ever sets them).

## Model

| member | source | states |
|---|---|---|
| Scene.LaneCenter | app.js:67 | a lane's centre lies strictly inside that lane's strip of the road |
| Scene.Lerp | app.js:779-783 | the vector lerp leaves `1 - alpha` of the offset to the goal in every coordinate; it is the start at 0 and the goal at 1 |
| Scene.ContractedIsPow | app.js:707-708 | `n` contractions by 0.94 leave 0.94^n of an offset |
| Scene.ContractedShrinks | app.js:707-708 | repeated contraction never grows an offset and never flips its sign (monotone convergence) |
| Easing.EaseInOutCubic | app.js:770-772 | the curve maps 0 to 0, 1/2 to 1/2 and 1 to 1 |
| Easing.EaseInUnitRange | app.js:770-772 | on [0, 1] the curve stays in [0, 1] |
| Easing.EaseSymmetric | app.js:770-772 | the curve is point-symmetric: ease(1 - t) = 1 - ease(t) |
| Easing.EaseMonotone | app.js:770-772 | the curve never goes backwards on [0, 1] |
| Easing.MixFrames | app.js:779-783 | progress at or past 1 gives exactly the destination pose; at or below 0, exactly the source pose |
| Easing.MixStaysBetween | app.js:779-783 | for any progress, every coordinate of the blended position and look target lies between the two poses |
| Easing.LerpVecBetween | app.js:781-782 | a lerp with a fraction in [0, 1] lies between its two ends in every coordinate |
| Cars.Spawn | app.js:613-617 | a spawned car has a lane on the road, a base speed in [0.22, 0.30), is centred in its lane with no yaw, and lies in (xStart - 6i - 2, xStart - 6i] |
| Cars.Speed | app.js:679-695 | the shaped speed is never negative, never above the base speed, and positive when the base speed is |
| Cars.MatFactorIff | app.js:683-686 | the 0.45 mat factor applies exactly when the car is in the work lane with X_TAPIS <= x <= X_TAPIS + TAPIS_LEN |
| Cars.LaneTargetOf | app.js:697-702 | the target is the lane or the next one, and it is the next one exactly for a work-lane car past X_TAPIS + 2.5 |
| Cars.Steer | app.js:704-713 | steering keeps x; the error to the target's centre becomes 0.94 of what it was; the lane snaps to the target with zero yaw exactly when the error was under 0.02, and otherwise the yaw is -0.08 times the error |
| Cars.SteerConverges | app.js:704-713 | repeated steering keeps x and the target lane, and after n steps the lateral error has been contracted n times by 0.94 |
| Cars.SteerSnaps | app.js:710-713 | once the remaining error is under 0.02, the next step puts the car in its target lane with zero yaw |
| Cars.Recycle | app.js:722-725 | a position past xEnd + 40 becomes exactly xStart - 40, and any other position is kept |
| Cars.StepCarOk | app.js:697-713 | a frame keeps a car on the road, targeting its lane or (in the work lane) the next one, with its base speed |
| Cars.StepCarForward | app.js:716-725 | with non-negative dt a car never moves backwards, except when it is recycled to exactly xStart - 40 |
| Cars.Score | app.js:727-734 | a car's risk is in [0, 100], is zero outside the window -10 < dx < 18 around X_ZONE - 2, and is 100 exactly when 7 abs(dx) < 1 |
| Lanes.Group | app.js:668-669 | the lane group lists exactly the lane's cars, in list order |
| Lanes.Insert | app.js:670 | one insertion step adds exactly the one car to the group (as a multiset) |
| Lanes.SortByX | app.js:670 | the sort permutes its group |
| Lanes.InsertSorted | app.js:670 | inserting into a sorted group keeps it sorted |
| Lanes.SortByXSorted | app.js:670 | the sort leaves the group sorted by x |
| Lanes.SortByXDistinct | app.js:670 | the sort neither duplicates nor drops a car |
| Lanes.InsertStable | app.js:670 | inserting a car listed after every car of the group places it after every car not strictly ahead, keeping position order with ties in list order |
| Lanes.SortByXStable | app.js:670 | the sort is stable: a group in list order comes out sorted by x with cars at equal x still in list order |
| Lanes.LaneOrderStable | app.js:668-670 | cars of a lane at equal positions are visited in their list order |
| Lanes.LaneOrderIsSortedPermutation | app.js:668-670 | each lane's visiting order lists exactly that lane's cars, once each, as a permutation of its group, sorted by x |
| Lanes.IndexOf | app.js:689-691 | the position found holds the car looked for, or is the length when the car is absent |
| Lanes.FrontInOrder | app.js:689-691 | the car ahead of the i-th car of a lane is the (i+1)-th, or none for the last one |
| Lanes.OrderFronts | app.js:689-691 | along a lane's visiting order, every car's front is the next car's position |
| Lanes.FrontIsAhead | app.js:689-691 | the car ahead is another car of the same lane and is not behind |
| Lanes.FrontNoFurtherThan | app.js:689-695 | a car of the same lane strictly ahead means there is a front car, no further than it |
| Lanes.FollowerSlowed | app.js:689-695 | a car under 3 behind a car of its lane gets the 0.10 factor; one under 6 behind gets at most 0.55 |
| Lanes.SteppedKeepsCarsOk | app.js:667-749 | a whole frame keeps every car on the road and its target within the allowed lanes |
| Lanes.Crossings | app.js:716-720 | every reported crossing is the advanced position of a visited car that drove from before the mat's start line onto it, so it is at or past that line (which one comes first: `Lanes.FirstCrossing`) |
| Lanes.CrossingsEmpty | app.js:718-720 | a frame reports no crossing exactly when no visited car drove from before the mat's start line onto it |
| Lanes.FirstCrossing | app.js:716-720 | the first reported crossing is that of the first car, in visiting order (rear to front), that drives onto the mat's start line this frame |
| Lanes.MaxWorkScore | app.js:727-734 | the frame risk is in [0, 100], is at least every work-lane car's score, and is 0 or attained by one of them |
| Lanes.MaxWorkScoreUnique | app.js:727-734 | an attained upper bound of the work-lane scores is the frame risk |
| Traffic.MostAdvanced | app.js:896-901 | there is no best car exactly when no car is in the work lane; otherwise the best is a work-lane car no other is ahead of, and the first such in list order |
| Traffic.CarSpeed | app.js:679-695 | the loop's speed shaping computes the shaped speed and reports exactly whether the mat slowed the car |
| Traffic.CarRisk | app.js:727-734 | the loop's scoring computes the car's risk score |
| Traffic.TrafficSim.constructor | app.js:622 | the scene starts with 14 valid cars, the i-th spawned as the i-th car |
| Traffic.TrafficSim.CreateCar | app.js:600-620 | creating a car appends one spawned car to the list |
| Traffic.TrafficSim.SetCarCount | app.js:865-873 | the slider leaves exactly `desired` cars: the old ones up to that count, then new ones spawned at their indices |
| Traffic.TrafficSim.MostAdvancedWorkCar | app.js:896-901 | the follower's scan returns the most advanced work-lane car, or none when the work lane is empty |
| Traffic.TrafficSim.LaneGroups | app.js:668-670 | the grouping and sorting pass yields every lane's visiting order |
| Traffic.TrafficSim.MoveCar | app.js:677-735 | one car is replaced by its stepped state, and the move reports the mat slowdown, the crossing position and the new score |
| Traffic.TrafficSim.StepLane | app.js:675-737 | a lane pass moves exactly that lane's cars and tallies its alert, risk and crossings |
| Traffic.TrafficSim.StepLanes | app.js:675-737 | all lane passes move every car; the alert, risk and crossings are those of the whole frame |
| Traffic.TrafficSim.UpdateTraffic | app.js:667-749 | the in-place frame equals the parallel specification `Stepped`; the alert is raised iff some car was on the mat; the risk and the crossings are the frame's |
| Hud.SetRisk | app.js:650-664 | the gauge floors and clamps into [0, 100], and bands below 35 as ok, below 70 as warn, otherwise bad, each iff |
| Hud.SetRiskWhole | app.js:650-651 | a whole percentage in range is shown unchanged |
| Hud.BandMonotone | app.js:650-664 | a higher risk never shows a lower percentage or a milder band |
| Hud.CameraLabelOf | app.js:642-644 | the label is the shot number (segment + 1, clamped to 1..3) exactly while a cinematic runs, else Top, Follow or Free in that priority |
| Director.SegmentOf | app.js:823-843 | the segment is in 0..2; it is 0 iff t < 1 and 2 iff t >= 2 |
| Director.Plan1 | app.js:790-795 | shot 1 stands behind the triggering car on the outer side of the work lane and looks at the work lane's centre ahead of the car, 5 ahead of and 2 across from where it stands |
| Director.TryStart | app.js:785-814 | a blocked request changes nothing; otherwise the cinematic starts at time 0 in segment 0, takes the camera from the controls, plans the three shots (car or mat middle) and remembers the start pose |
| Director.TryStartIgnoredIff | app.js:787 | a request leaves the director unchanged iff it is blocked (running, cooling down, top or follow view) |
| Director.Advance | app.js:816-849 | the clock advances by dt; before 4.9 s the camera is on the time line in the clock's segment; at 4.9 s or later the cinematic stops, hands the camera back at the default pose and starts the 4.5 s cooldown |
| Director.CinematicContinuous | app.js:825-846 | the time line starts at the start pose, each segment starts where the previous one ended, and it ends exactly at the default pose |
| Director.CinematicStaysBetween | app.js:825-846 | in every eased segment (start to shot 1, shot 1 to 2, shot 2 to 3, shot 3 back to the default pose) each coordinate stays between the two poses eased between; during the hold the camera stays on shot 3 |
| Director.SegmentMonotone | app.js:823-843 | the segment only moves forward in time |
| Director.Reset | app.js:851-861 | reset returns to free orbit at the default pose with controls enabled, and keeps the cooldown and the plans |
| Director.Toward | app.js:903-911 | a view step leaves 0.94 of every coordinate's offset to the goal and changes only the camera |
| Director.ChaseConverges | app.js:903-911 | n view steps toward a fixed goal contract each coordinate's offset n times by 0.94, changing only the camera |
| Director.DirectorFrame | app.js:888-912 | a running cinematic that does not end this frame owns the camera; with no cinematic and no view chosen the frame changes nothing; the view flags never change |
| Director.InitialConsistent | app.js:636-637 | the page-load director is consistent and shows free orbit |
| Director.TransitionsKeepConsistent | app.js:785-861 | start, advance, reset, view steps and whole frames keep controls enabled exactly when no cinematic runs, and a running cinematic inside its time line in the right segment |
| Director.LabelShowsShot | app.js:642-644 | while a cinematic runs the label shows its current segment plus one |
| Director.ResetLabel | app.js:851-861 | after a reset the label reads free orbit |
| Director.CinematicEnds | app.js:816-849 | once frames of non-negative length whose times add up to what is left of the 4.9 s time line are over, a running cinematic has ended and the camera is back at the default pose |
| Director.RunInactive | app.js:817 | frames run while no cinematic is active leave the director unchanged |
| Director.CooldownGate | app.js:787-844 | after a cinematic ends at `now0`, a request starts another exactly when `now >= now0 + 4.5` |
| Director.OnlyFirstTriggerCounts | app.js:718-720 | of several requests in one frame only the first can have an effect |
| Director.StartAllBlocked | app.js:787 | while blocked, any number of requests changes nothing |
| Director.CameraDirector.constructor | app.js:752-761 | the fields start as the page-load director |
| Director.CameraDirector.TryStartCinematic | app.js:785-814 | the in-place start performs `TryStart` and keeps the director consistent |
| Director.CameraDirector.MixCameraFrames | app.js:779-783 | the in-place blend places the camera at `MixFrames` and changes nothing else |
| Director.CameraDirector.UpdateCinematic | app.js:816-849 | the in-place update performs `Advance` and keeps the director consistent |
| Director.CameraDirector.ResetCamera | app.js:851-861 | the in-place reset performs `Reset` |
| Director.CameraDirector.LerpToward | app.js:903-904 | the in-place lerp performs `Toward` |
| Director.CameraDirector.FollowToward | app.js:902-905 | the follow view steps toward the pose behind the chosen car |
| Director.CameraDirector.TopToward | app.js:908-912 | the top view steps toward the top pose |
| Director.CameraDirector.CameraStatus | app.js:642-644 | the label the status bar shows for the current fields |
| Animation.BestPos | app.js:896-901 | there is no follow target iff the work lane is empty; otherwise it is the position (x and y) of a work-lane car that is ahead of or level with every work-lane car and strictly ahead of every earlier one in the list |
| Animation.ReplayRequests | app.js:718-720 | the frame's requests, replayed in order, perform `StartAll` |
| Animation.CameraStep | app.js:890-912 | the camera part of a frame performs `DirectorFrame` with the most advanced work-lane car |
| Animation.TrafficStep | app.js:888 | an unpaused frame's traffic part steps the cars, makes its cinematic requests and reports the frame's alert, gauge and label |
| Animation.AnimateFrame | app.js:885-913 | one frame: cars stepped unless paused, the director advanced by the whole-frame specification, and a report exactly when not paused |
| Animation.GaugeShowsRisk | app.js:748 | the gauge shows the frame's risk itself and is red exactly when it is 70 or more |
| Animation.FirstCrossingStarts | app.js:716-720 | a frame's crossings start a cinematic as the first one alone would, and that first one is the rearmost work-lane car that drove onto the mat |
| Animation.RunningIgnoresCrossings | app.js:787 | while a cinematic runs, the requests a frame's crossings make leave the director unchanged |
| Animation.CinematicOwnsCamera | app.js:890-912 | while a cinematic runs and does not end, the camera is on its time line whatever the traffic or the views do |
| Animation.FreeOrbitKeepsCamera | app.js:888-912 | with no view chosen, no cinematic, and no crossing that can start one, a frame leaves the director unchanged |

## Left out

- Scene construction (meshes, materials, lights, renderer, bloom): rendering only. Only the numeric constants it defines are kept.
- Visual effects (`updateFlrSignal`, the gyro blink, the alert icon's scale): sine-driven animation with no promised behaviour.
- DOM writes and event wiring: the risk text and pill, the traffic, car-count, pause and signal labels, `onclick`, `requestAnimationFrame`. The gauge, the alert flag and the camera label are returned as values instead.
- Orbit controls: `controls.update()` and its damping are library code. Only `controls.enabled` is modelled, as a flag.
- `performance.now`, `THREE.Clock` and `Math.random` are parameters. The random draws come as `SpawnDraw` values in [0, 1), and `SetCarCount` needs a draw for every car it adds.
- The clock is read once per frame. The source reads `performance.now()` separately in `tryStartCinematic` and at the end of `updateCinematic`.
- Floating point: every quantity is an exact real, so IEEE rounding is not modelled.
- Cinematic requests are collected during the traffic loop and replayed after it. `tryStartCinematic` reads and writes only director state, which the loop does not touch, so the result is the same. The label it refreshes is overwritten at the end of the frame.
- The label is modelled where a frame's traffic step refreshes it. The refreshes by the slider, the pause button and the start and end of a cinematic are not modelled.
- The shot plans are `null` before the first cinematic. They are modelled as the default pose, and they are never read while no cinematic runs.
- `laneTarget` is undefined at spawn. It is modelled as the car's lane, and every step writes it before reading it.
- `Array.prototype.sort` is modelled as a stable insertion sort (`Lanes.SortByXStable`): cars at equal positions keep their list order, as the engine's stable sort does.
- The slider value is a natural number (`desired: nat`). `parseInt` of a non-numeric value is not modelled.
- The workers' helmet: `workers[0].helmetTarget` is always the helmet of the first worker, at (X_WORK + 6, yWork - 0.95, 1.07). That equals the fallback, so the fallback branch is not modelled separately.
- Cars.SteerConverges: it is stated for steering a car that does not advance. Along a real run the car also moves forward and may be recycled, which can change its target back.
- Lanes.FollowerSlowed: it states the gap factor, not the full speed. The speed is `speedBase * MatSlowdown * GapSlowdown` by `Speed`'s definition.
