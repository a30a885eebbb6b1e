# Race-car control and lap timing, modelled in Dafny

This project models the logic of a SceneKit racing playground that sits between key events, the
physics vehicle and the heads-up display (HUD):

- **Controls** (`RaceCarControls`): the list of held keys. A press appends a key only if it is
  absent. A release removes the first occurrence. The raw key codes are W=13, A=0, S=1, D=2,
  space=49 and C=8. The `*KeyActive` predicates are membership tests on the list.
- **Race car** (`RaceCarModel`): the drivetrain decision table (410 forward, 5 braking, −50
  reverse) and the steering animator. The animator is a three-state machine (idle, left, right)
  with a frame counter. It captures the start angle on frame 0 and computes a sign from the
  transition. It takes six interpolation steps, and each step is clamped to ±0.6. The physics
  vehicle is a record of the last engine force, braking force and steering angle sent to each
  wheel 0..3, plus the speed the engine reports.
- **Lap clock** (`LapInfo`): current and best lap time in whole milliseconds. It tracks the best
  lap against the 9999999-second sentinel and announces a strictly faster lap to the delegate.
  It also formats lap times as `m:ss.mmm`.
- **Lap counter** (`LapCounter`) and **speedometer** (`Speedometer`): the lap number and its
  `LAP n` label. The speedometer shows the converted speed text, the speed ratio, where the arc
  starts and the arc colour.
- **Game view** (`Game`): turns key codes into held keys and swaps the camera. It runs the
  start/finish detector (a strict box test plus a 5-second cooldown) and the per-tick order:
  controls, then speedometer, then lap check.

Each class keeps the source's fields, and its methods state every field they may change. Pure
specification functions carry the behaviour (`Pressed`, `Released`, `DriveForces`, `Reset`,
`Step`, `StartNewLap`, `LapTimeString`, `LapTriggered`). The lemmas prove the properties the
program relies on:
- release removes exactly the first occurrence;
- the held-key list never gains duplicates;
- steering converges in six frames from rest, and an interrupted transition overshoots;
- the best lap is the fastest lap;
- lap times round-trip through their text;
- counted laps are more than five seconds apart.

The `*KeyActive` predicates of `Controls` are membership tests by definition. What a press or a
release does to them is stated by `PressKeepsNoDuplicates` and `ReleaseKeepsNoDuplicates`.

The source's own names are kept, including the spelling of `didRecieve` (`DidRecieve`).

## Model

| member | source | states |
|---|---|---|
| RaceCarControls.KeyFrom | CDeWatersWWDC18.playground/Sources/RaceCar/RaceCarControls.swift:22-32 | a code gives a key exactly when some key is declared with it (13, 0, 1, 2, 49, 8), and that key's raw value is the code; every other code gives none |
| RaceCarControls.Pressed | CDeWatersWWDC18.playground/Sources/RaceCar/RaceCarControls.swift:61-66 | the held keys after a press: the list as it was when the key is already held, else the key appended at the end (its properties are `PressIdempotent` and `PressKeepsNoDuplicates`) |
| RaceCarControls.Released | CDeWatersWWDC18.playground/Sources/RaceCar/RaceCarControls.swift:69-77 | the held keys after a release: the list with its first occurrence of the key removed, unchanged when the key is absent (its properties are `ReleaseAbsent`, `ReleasePresent` and `ReleaseKeepsNoDuplicates`) |
| RaceCarControls.PressIdempotent | CDeWatersWWDC18.playground/Sources/RaceCar/RaceCarControls.swift:61-66 | pressing a held key leaves the list unchanged; pressing a new key appends it after the unchanged earlier entries; pressing twice equals pressing once |
| RaceCarControls.ReleaseAbsent | CDeWatersWWDC18.playground/Sources/RaceCar/RaceCarControls.swift:69-77 | releasing a key that is not held leaves the list unchanged |
| RaceCarControls.ReleasePresent | CDeWatersWWDC18.playground/Sources/RaceCar/RaceCarControls.swift:71-75 | releasing a held key removes exactly its first occurrence: the list is one shorter and the keys before and after keep their order |
| RaceCarControls.PressKeepsNoDuplicates | CDeWatersWWDC18.playground/Sources/RaceCar/RaceCarControls.swift:61-66 | a duplicate-free list stays duplicate-free after a press, and the held keys are the old ones plus the pressed key |
| RaceCarControls.ReleaseKeepsNoDuplicates | CDeWatersWWDC18.playground/Sources/RaceCar/RaceCarControls.swift:69-77 | a duplicate-free list stays duplicate-free after a release; the released key is then not held, and every other key is held exactly as before |
| RaceCarControls.Controls.constructor | CDeWatersWWDC18.playground/Sources/RaceCar/RaceCarControls.swift:36 | no key is held at first |
| RaceCarControls.Controls.AccelerateKeyActive | CDeWatersWWDC18.playground/Sources/RaceCar/RaceCarControls.swift:39-41 | whether the accelerate key is in the held list |
| RaceCarControls.Controls.RightKeyActive | CDeWatersWWDC18.playground/Sources/RaceCar/RaceCarControls.swift:43-45 | whether the right key is in the held list |
| RaceCarControls.Controls.LeftKeyActive | CDeWatersWWDC18.playground/Sources/RaceCar/RaceCarControls.swift:47-49 | whether the left key is in the held list |
| RaceCarControls.Controls.BrakeReverseKeyActive | CDeWatersWWDC18.playground/Sources/RaceCar/RaceCarControls.swift:51-53 | whether the brake/reverse key is in the held list |
| RaceCarControls.Controls.ChangeCameraKeyActive | CDeWatersWWDC18.playground/Sources/RaceCar/RaceCarControls.swift:55-57 | whether the change-camera key is in the held list |
| RaceCarControls.Controls.DidRecieve | CDeWatersWWDC18.playground/Sources/RaceCar/RaceCarControls.swift:61-66 | the held keys become `Pressed(old, key)`, and absence of duplicates is preserved |
| RaceCarControls.Controls.DidEnd | CDeWatersWWDC18.playground/Sources/RaceCar/RaceCarControls.swift:69-77 | the search loop leaves the held keys as `Released(old, key)`; without duplicates the key is then not held |
| RaceCarControls.Controls.CameraDidChange | CDeWatersWWDC18.playground/Sources/RaceCar/RaceCarControls.swift:80-82 | it is a release of the camera key; without duplicates the camera key is no longer active and every other key is untouched |
| RaceCarModel.ClampSteering | CDeWatersWWDC18.playground/Sources/RaceCar/RaceCar.swift:176-185 | the applied angle is within [−0.6, 0.6] and equals the requested angle exactly when that is within the bounds |
| RaceCarModel.ClampIsNearest | CDeWatersWWDC18.playground/Sources/RaceCar/RaceCar.swift:176-185 | no angle within the bounds is closer to the requested angle than the clamped one |
| RaceCarModel.DriveForces | CDeWatersWWDC18.playground/Sources/RaceCar/RaceCar.swift:212-238 | the engine force for the rear wheels and the braking force for all four, from the accelerate and brake keys and the signed speed; braking while rolling forward overrides the throttle (its rows are `DrivetrainTable`) |
| RaceCarModel.DrivetrainTable | CDeWatersWWDC18.playground/Sources/RaceCar/RaceCar.swift:212-238 | neither key gives (0, 0) and accelerate alone gives (410, 0); brake while rolling forward gives (0, 5) with or without accelerate; otherwise brake alone gives (−50, 0) and both keys give (360, 0) |
| RaceCarModel.GeneratedState | CDeWatersWWDC18.playground/Sources/RaceCar/RaceCar.swift:245-260 | right only gives right, left only gives left, both or neither gives idle |
| RaceCarModel.Reset | CDeWatersWWDC18.playground/Sources/RaceCar/RaceCar.swift:268-275 | the steering fields after `resetSteeringAnimationIfNeeded`: a new state restarts the frame count and remembers the old state (stated by `ResetTable`) |
| RaceCarModel.Step | CDeWatersWWDC18.playground/Sources/RaceCar/RaceCar.swift:278-299 | the steering fields after one frame of `updateSteeringAnimation`: start angle captured on frame 0, the clamped step of a sixth of the way while fewer than six frames have run, and the count advanced (stated by `StepTable`, `StepsFromSettled`, `HoldingConverges`) |
| RaceCarModel.TickKeepsInvariant | CDeWatersWWDC18.playground/Sources/RaceCar/RaceCar.swift:268-298 | reset and frame step keep the angle within ±0.6 and the previous state different from the current one (except the initial idle/idle) |
| RaceCarModel.ResetTable | CDeWatersWWDC18.playground/Sources/RaceCar/RaceCar.swift:268-275 | a new state sets the frame count to 0 and the previous state to the old state; the same state changes nothing |
| RaceCarModel.StepTable | CDeWatersWWDC18.playground/Sources/RaceCar/RaceCar.swift:278-299 | a frame always adds 1 to the count; it captures the start angle only on frame 0 and leaves the angle alone from frame 6 on |
| RaceCarModel.MultiplierMatchesTransition | CDeWatersWWDC18.playground/Sources/RaceCar/RaceCar.swift:288-291 | for every transition, the sign times the sum of absolute angles is the signed distance from the old destination to the new |
| RaceCarModel.ProgressStep | CDeWatersWWDC18.playground/Sources/RaceCar/RaceCar.swift:288-296 | from a settled start, each frame moves one sixth of the way, and every intermediate angle is within the 0.35 lock |
| RaceCarModel.StepsFromSettled | CDeWatersWWDC18.playground/Sources/RaceCar/RaceCar.swift:283-298 | k ≤ 6 frames from the previous destination reach exactly k sixths of the way to the new destination |
| RaceCarModel.StaysAfterSixFrames | CDeWatersWWDC18.playground/Sources/RaceCar/RaceCar.swift:294-298 | after six frames, further ticks in the same state change only the frame count |
| RaceCarModel.HoldingConverges | CDeWatersWWDC18.playground/Sources/RaceCar/RaceCar.swift:245-298 | from rest, holding any key combination for at least six ticks ends exactly at its destination (0, −0.35 or +0.35), at rest |
| RaceCarModel.InterruptedTransitionOvershoots | CDeWatersWWDC18.playground/Sources/RaceCar/RaceCar.swift:290-295 | left for 3 frames, idle for 1, then left for 6 ends at the 0.6 clamp, not at the 0.35 lock: the absolute-value delta overshoots |
| RaceCarModel.PhysicsVehicle.ApplyEngineForce | CDeWatersWWDC18.playground/Sources/RaceCar/RaceCar.swift:200-202 | only the given wheel's engine force changes |
| RaceCarModel.PhysicsVehicle.ApplyBrakingForce | CDeWatersWWDC18.playground/Sources/RaceCar/RaceCar.swift:195 | only the given wheel's braking force changes |
| RaceCarModel.PhysicsVehicle.SetSteeringAngle | CDeWatersWWDC18.playground/Sources/RaceCar/RaceCar.swift:205-207 | only the given wheel's steering angle changes |
| RaceCarModel.InteractionCommands | CDeWatersWWDC18.playground/Sources/RaceCar/RaceCar.swift:209-266 | the wheel commands one `applyUserInteraction(withControls:)` leaves: drivetrain engine force on wheels 2 and 3, drivetrain braking force on all four, the animated angle on wheels 0 and 1 while the animation runs, and nothing for a car that is not user controlled |
| RaceCarModel.RaceCar.constructor | CDeWatersWWDC18.playground/Sources/RaceCar/RaceCar.swift:26-49 | a car starts idle, at angle 0, with frame count 0 |
| RaceCarModel.RaceCar.CurrentSpeedInKPH | CDeWatersWWDC18.playground/Sources/RaceCar/RaceCar.swift:57-59 | the speed the physics vehicle reports, or 0 when the car has no vehicle |
| RaceCarModel.RaceCar.Accelerate | CDeWatersWWDC18.playground/Sources/RaceCar/RaceCar.swift:169-172 | the force goes to rear wheels 2 and 3 only; braking, steering and speed are unchanged |
| RaceCarModel.RaceCar.Steer | CDeWatersWWDC18.playground/Sources/RaceCar/RaceCar.swift:175-190 | the clamped angle goes to front wheels 0 and 1 only and becomes the current steering angle |
| RaceCarModel.RaceCar.Brake | CDeWatersWWDC18.playground/Sources/RaceCar/RaceCar.swift:193-197 | the loop puts the same braking force on all four wheels and nothing else changes |
| RaceCarModel.RaceCar.DriveForcesFor | CDeWatersWWDC18.playground/Sources/RaceCar/RaceCar.swift:211-238 | the accumulated engine and braking forces equal the decision table for the held keys and the reported speed (0 without a vehicle) |
| RaceCarModel.RaceCar.ResetSteeringAnimationIfNeeded | CDeWatersWWDC18.playground/Sources/RaceCar/RaceCar.swift:268-275 | the steering fields become `Reset(old, newState)` and the invariant holds |
| RaceCarModel.RaceCar.UpdateSteeringAnimation | CDeWatersWWDC18.playground/Sources/RaceCar/RaceCar.swift:278-299 | the steering fields become `Step(old)`; the front wheels get the new angle only while the old frame count is below 6 |
| RaceCarModel.RaceCar.ApplyUserInteraction | CDeWatersWWDC18.playground/Sources/RaceCar/RaceCar.swift:209-265 | a car that is not user controlled changes nothing; otherwise it drives the rear wheels and brakes all four per the table, and steering advances one tick toward the generated state; the three wheel arrays together are `InteractionCommands` of the old ones |
| LapInfo.LapTimeString | CDeWatersWWDC18.playground/Sources/HUD/HUDLapInfo.swift:153-161 | the `m:ss.mmm` text of a lap time: whole minutes, then seconds padded to two digits and milliseconds padded to three (it reads back by `LapTimeRoundTrip`) |
| LapInfo.StartNewLap | CDeWatersWWDC18.playground/Sources/HUD/HUDLapInfo.swift:114-134 | the current and best lap times after `startNewLapTime()`: a strictly faster lap, the absent current time counting as 0 and the absent best as 9999999 s, becomes the best, and the current lap restarts at 0 (stated by `FirstLapStartsClock`, `LapOutcome`, `BestNeverIncreases`) |
| LapInfo.LapTimeFieldsFromSeconds | CDeWatersWWDC18.playground/Sources/HUD/HUDLapInfo.swift:154-156 | the minutes, seconds and milliseconds are the floors the source takes of t/60, t mod 60 and frac(t)·1000, with t in seconds; seconds < 60 and milliseconds < 1000 |
| LapInfo.FieldsRecombine | CDeWatersWWDC18.playground/Sources/HUD/HUDLapInfo.swift:154-156 | minutes·60000 + seconds·1000 + milliseconds is the time |
| LapInfo.ParseLapTimePieces | CDeWatersWWDC18.playground/Sources/HUD/HUDLapInfo.swift:158-160 | a text made of minutes, ':', two digits, '.' and three digits reads back as its fields' total |
| LapInfo.FieldsReadBack | CDeWatersWWDC18.playground/Sources/HUD/HUDLapInfo.swift:158-160 | a text built from minutes, two-digit seconds below 60 and three-digit milliseconds reads back as minutes·60000 + seconds·1000 + milliseconds |
| LapInfo.LapTimeRoundTrip | CDeWatersWWDC18.playground/Sources/HUD/HUDLapInfo.swift:153-161 | every lap-time text reads back as the time it was made from |
| LapInfo.LapTimeStringExample | CDeWatersWWDC18.playground/Sources/HUD/HUDLapInfo.swift:158-160 | 65432 ms is "1:05.432" |
| LapInfo.LapTimeStringZero | CDeWatersWWDC18.playground/Sources/HUD/HUDLapInfo.swift:158-160 | 0 ms is "0:00.000" |
| LapInfo.Announcement | CDeWatersWWDC18.playground/Sources/HUD/HUDLapInfo.swift:120-125 | the text `startNewLapTime()` announces and shows as best: the `m:ss.mmm` text of a strictly faster lap that has a time, else none (stated by `FirstLapStartsClock` and `LapOutcome`) |
| LapInfo.FirstLapStartsClock | CDeWatersWWDC18.playground/Sources/HUD/HUDLapInfo.swift:120-134 | the first call sets the best to the 9999999 s sentinel, announces nothing and starts the current lap at 0 |
| LapInfo.LapOutcome | CDeWatersWWDC18.playground/Sources/HUD/HUDLapInfo.swift:120-134 | a strictly faster lap becomes the best and is announced with its text; a lap that is not faster leaves the best and announces nothing; the current time restarts at 0 |
| LapInfo.TicksAdd | CDeWatersWWDC18.playground/Sources/HUD/HUDLapInfo.swift:137-139 | n timer ticks add exactly n milliseconds and leave the best alone |
| LapInfo.BestNeverIncreases | CDeWatersWWDC18.playground/Sources/HUD/HUDLapInfo.swift:120-121 | once a lap is timing, ending it never raises the best |
| LapInfo.CompleteLapsBest | CDeWatersWWDC18.playground/Sources/HUD/HUDLapInfo.swift:114-146 | after laps from a started clock, the best is the minimum of the old best and the lap times |
| LapInfo.BestIsFastestLap | CDeWatersWWDC18.playground/Sources/HUD/HUDLapInfo.swift:120-121 | after the first start and laps t1..tn under the sentinel, the best is min(t1..tn) |
| LapInfo.HUDLapInfo.constructor | CDeWatersWWDC18.playground/Sources/HUD/HUDLapInfo.swift:75-88 | both times start absent and both labels read "-:--.---" |
| LapInfo.HUDLapInfo.StartNewLapTime | CDeWatersWWDC18.playground/Sources/HUD/HUDLapInfo.swift:114-147 | the times become `StartNewLap(old)`; an announcement goes to the delegate exactly once and sets the best label to the same text, otherwise neither changes |
| LapInfo.HUDLapInfo.TimerFired | CDeWatersWWDC18.playground/Sources/HUD/HUDLapInfo.swift:137-145 | the current time gains one millisecond and the current label shows its text |
| LapCounter.LapLabel | CDeWatersWWDC18.playground/Sources/HUD/HUDLapCounter.swift:56 | the counter label `LAP n` (it reads back by `LapLabelReadsBack`) |
| LapCounter.LapLabelReadsBack | CDeWatersWWDC18.playground/Sources/HUD/HUDLapCounter.swift:56 | the label is "LAP " followed by digits that read back as the lap number |
| LapCounter.HUDLapCounter.constructor | CDeWatersWWDC18.playground/Sources/HUD/HUDLapCounter.swift:18-25 | the count starts at 0 and the label at "LAP 0" |
| LapCounter.HUDLapCounter.IncrementLapCounter | CDeWatersWWDC18.playground/Sources/HUD/HUDLapCounter.swift:53-58 | the count grows by exactly 1 and the label shows it |
| Speedometer.Mph | CDeWatersWWDC18.playground/Sources/HUD/HUDSpeedometer.swift:97-99 | the displayed speed in mph: kph divided by 1.621371, times 2 (its inverse is `MphRoundTrip`) |
| Speedometer.SpeedText | CDeWatersWWDC18.playground/Sources/HUD/HUDSpeedometer.swift:90-95 | the speed label: the mph speed truncated toward zero, a space and `MPH` (it reads back by `SpeedTextReadsBack`) |
| Speedometer.SpeedRatio | CDeWatersWWDC18.playground/Sources/HUD/HUDSpeedometer.swift:109 | the speed as a fraction of half the top speed (values in `GaugeReadings`) |
| Speedometer.StrokeStart | CDeWatersWWDC18.playground/Sources/HUD/HUDSpeedometer.swift:110 | where the gauge arc starts: 0.9 less 0.8 times the ratio, so it falls as the speed rises (`GaugeReadings`) |
| Speedometer.StrokeColor | CDeWatersWWDC18.playground/Sources/HUD/HUDSpeedometer.swift:112 | the arc colour: red is the ratio, green its complement, blue 0, alpha 1 (`GaugeReadings`) |
| Speedometer.MphRoundTrip | CDeWatersWWDC18.playground/Sources/HUD/HUDSpeedometer.swift:97-99 | the conversion (kph / 1.621371)·2 is inverted exactly by (mph / 2)·1.621371 |
| Speedometer.MphIncreasing | CDeWatersWWDC18.playground/Sources/HUD/HUDSpeedometer.swift:97-99 | 0 kph converts to 0, and the conversion is strictly increasing |
| Speedometer.TruncateTowardZero | CDeWatersWWDC18.playground/Sources/HUD/HUDSpeedometer.swift:91 | `Int(x)` is the integer between 0 and x less than 1 away from x |
| Speedometer.SpeedTextReadsBack | CDeWatersWWDC18.playground/Sources/HUD/HUDSpeedometer.swift:90-95 | the text ends in " MPH" and the number before it reads back as the truncated converted speed |
| Speedometer.InitialSpeedText | CDeWatersWWDC18.playground/Sources/HUD/HUDSpeedometer.swift:46 | 0 kph reads "0 MPH" |
| Speedometer.GaugeReadings | CDeWatersWWDC18.playground/Sources/HUD/HUDSpeedometer.swift:109-112 | at standstill the ratio is 0 and the arc is empty (start 0.9 = end); at half top speed the ratio is 1 and the start is 0.1; the start falls as speed rises; red is the ratio, green 1 − ratio, blue 0, alpha 1 |
| Speedometer.HUDSpeedometer.constructor | CDeWatersWWDC18.playground/Sources/HUD/HUDSpeedometer.swift:46-80 | the view starts with "0 MPH", an empty arc at 0.9 and a green stroke |
| Speedometer.HUDSpeedometer.Update | CDeWatersWWDC18.playground/Sources/HUD/HUDSpeedometer.swift:102-113 | the label, arc start and colour become those of the given speed |
| Game.XDistance | CDeWatersWWDC18.playground/Sources/GameView.swift:137-139 | how far the second point lies from the first along x (stated by `DistancesFromOrigin`) |
| Game.ZDistance | CDeWatersWWDC18.playground/Sources/GameView.swift:142-144 | how far the second point lies from the first along z (stated by `DistancesFromOrigin`) |
| Game.DistancesFromOrigin | CDeWatersWWDC18.playground/Sources/GameView.swift:137-144 | measured from the line's centre the distances are the nose's x and z; swapping the points flips their sign; height is ignored |
| Game.LapTriggered | CDeWatersWWDC18.playground/Sources/GameView.swift:107-112 | whether the lap check counts a lap: nose strictly inside the straight, strictly within 5 of the line, and more than 5 s since the last count (0 when none); its conditions are `LapConditions` |
| Game.LapConditions | CDeWatersWWDC18.playground/Sources/GameView.swift:102-112 | a lap counts exactly when −48 < x < 75, abs(z) < 5 and more than 5 s have passed since the last count (absent reads 0), so never at time ≤ 5 |
| Game.LapTimesSpaced | CDeWatersWWDC18.playground/Sources/GameView.swift:112-119 | over any run of ticks, every counted lap is more than 5 s after the previous count, and any two are more than 5 s apart |
| Game.SwappedPointOfView | CDeWatersWWDC18.playground/Sources/GameView.swift:61 | the camera after a swap: the second from the first, the first from any other (stated by `SwapPointOfView`) |
| Game.SwapPointOfView | CDeWatersWWDC18.playground/Sources/GameView.swift:58-63 | a swap always changes the camera; two swaps from the first camera return to it |
| Game.GameView.constructor | CDeWatersWWDC18.playground/Sources/GameView.swift:26-49 | the game starts with no lap time recorded, the first camera, and a HUD showing `LAP 0`, both lap-time labels at `-:--.---` with nothing announced and a clock not yet started, and a speedometer at `0 MPH` with an empty arc at 0.9 and a green stroke |
| Game.GameView.KeyDown | CDeWatersWWDC18.playground/Sources/GameView.swift:66-70 | a known code presses its key, an unknown code changes nothing, and no key ends up held twice |
| Game.GameView.KeyUp | CDeWatersWWDC18.playground/Sources/GameView.swift:72-76 | a known code releases its key, an unknown code changes nothing, and no key ends up held twice |
| Game.GameView.SwapPOV | CDeWatersWWDC18.playground/Sources/GameView.swift:58-63 | the camera index becomes the swapped one |
| Game.GameView.ApplyControls | CDeWatersWWDC18.playground/Sources/GameView.swift:90-99 | the car ticks with the held keys and its wheels get `InteractionCommands`; a held camera key swaps the camera once and is released, so afterwards it is inactive; without it camera and held keys are unchanged |
| Game.GameView.CheckForLapFinish | CDeWatersWWDC18.playground/Sources/GameView.swift:102-122 | on a trigger the counter grows by one and shows it, the clock starts a new lap once (announcing and showing a strictly faster lap, and only then, and leaving the current label), and the time is recorded; otherwise counter, clock and time are unchanged |
| Game.GameView.RendererDidSimulatePhysics | CDeWatersWWDC18.playground/Sources/GameView.swift:79-87 | one tick gives the whole new state: the car and wheels as `ApplyControls` leaves them, the camera and held keys, the speedometer's label, arc start and colour for the car's speed, and the lap counter, clock, announcements, labels and count time as `CheckForLapFinish` leaves them on the old count time |

## Left out

- Scene and asset set-up (`RaceCar.setup`, `setupAudio`, `add(toScene:)`, the camera lookup in `init`) and `nosePosition` are scene-graph calls. The nose position is a parameter of the lap check, and the car's construction takes an existing physics vehicle (or none).
- The physics solver and `speedInKilometersPerHour`: the vehicle is modelled only by what the car sends to each wheel, plus a speed field that the host sets.
- `Timer.scheduledTimer`, `invalidate` and every `DispatchQueue.main.async`/`asyncAfter` are scheduling. `startNewLapTime`, the timer block and `incrementLapCounter` are atomic steps; `TimerFired` is the block's body, run whenever the host fires it.
- Layout, layers and animation (`alignLabels`, `centerLabel`, `setupLabels`, layer set-up, `SCNTransaction`, `NSAnimationContext`) are UI. The point of view is a camera index: 0 for the chase camera, 1 for the second camera (`tCam`).
- HUD.swift, HUDBestLapIndicator.swift, HUDMap.swift and Contents.swift are view composition, audio, an empty view and bootstrapping. The game view holds the speedometer, lap clock and lap counter directly, and the delegate is a log of announced texts (`announcements`).
- `SCNVector3.distance` uses floating-point `pow`/`sqrt` and nothing calls it.
- Floating point: angles, speeds, ratios and forces are exact reals. Lap times are whole milliseconds, so the drift from adding 0.001 to a Double is not modelled.
- `NSEvent` and the `Controls.shared` singleton: the game view holds one explicit `Controls` instance and passes it to the car, and key codes are integers.
- `Int(x)` in the speed text traps on values beyond the 64-bit range in Swift; the model's integers are unbounded. The lap and frame counters are also unbounded, where Swift's `Int` would overflow.
- The arc colour components are passed on as computed. Above half the top speed or in reverse they leave [0, 1], and what the colour system does with such values is not modelled.
- `GameView` force-unwraps the user car and its nose position. The model requires both to exist: the car is a non-null field and the nose is a parameter.
