/** The game view: key events into the controls, the per-tick order of control, speedometer and
 *  lap check, the start/finish detector with its cooldown, and the camera swap (GameView.swift). */
module Game {
  import opened Wrappers
  import opened RaceCarControls
  import opened RaceCarModel
  import opened LapInfo
  import opened LapCounter
  import opened Speedometer

  /** `SCNVector3`. */
  datatype Vector3 = Vector3(x: real, y: real, z: real)

  /** `SCNVector3Zero`: the centre of the start/finish line. */
  const Origin := Vector3(0.0, 0.0, 0.0)

  /** `xDistance(from:)`: how far `b` lies from `a` along x. */
  function XDistance(a: Vector3, b: Vector3): real {
    b.x - a.x
  }

  /** `zDistance(from:)`: how far `b` lies from `a` along z. */
  function ZDistance(a: Vector3, b: Vector3): real {
    b.z - a.z
  }

  /** Measured from the line's centre the distances are the nose's own coordinates; measured the
   *  other way round they change sign; they ignore height. */
  lemma DistancesFromOrigin(a: Vector3, b: Vector3)
    ensures XDistance(Origin, b) == b.x && ZDistance(Origin, b) == b.z
    ensures XDistance(b, a) == -XDistance(a, b) && ZDistance(b, a) == -ZDistance(a, b)
    ensures XDistance(a, b.(y := 0.0)) == XDistance(a, b) && ZDistance(a, b.(y := 0.0)) == ZDistance(a, b)
  {
  }

  /** The main straight runs strictly between these x values. */
  const StraightStart: real := -48.0
  const StraightEnd: real := 75.0
  /** The nose must be strictly closer than this to the line along z. */
  const LineTolerance: real := 5.0
  /** Seconds that must strictly pass between two counted laps. */
  const LapCooldown: real := 5.0

  /** Whether the nose is on the start/finish line of the main straight. */
  predicate AtFinishLine(nose: Vector3) {
    var x := XDistance(Origin, nose);
    StraightStart < x < StraightEnd && Abs(ZDistance(Origin, nose)) < LineTolerance
  }

  /** Whether `checkForLapFinish(atTime:)` counts a lap, an absent last-count time reading as 0. */
  predicate LapTriggered(nose: Vector3, time: real, lastCount: Option<real>) {
    AtFinishLine(nose) && time - lastCount.GetOr(0.0) > LapCooldown
  }

  /** The three conditions of a lap, each strict, and that none can count in the first five
   *  seconds of the game. */
  lemma LapConditions(nose: Vector3, time: real, lastCount: Option<real>)
    ensures LapTriggered(nose, time, lastCount) <==>
      -48.0 < nose.x < 75.0 && -5.0 < nose.z < 5.0 && time - lastCount.GetOr(0.0) > 5.0
    ensures lastCount == None && time <= 5.0 ==> !LapTriggered(nose, time, lastCount)
  {
  }

  /** One physics tick as the lap check sees it: the time and the nose position. */
  datatype Sample = Sample(time: real, nose: Vector3)

  /** The times at which laps are counted over a run of ticks. */
  function LapTimes(samples: seq<Sample>, lastCount: Option<real>): seq<real>
    decreases |samples|
  {
    if samples == [] then []
    else if LapTriggered(samples[0].nose, samples[0].time, lastCount)
    then [samples[0].time] + LapTimes(samples[1..], Some(samples[0].time))
    else LapTimes(samples[1..], lastCount)
  }

  /** Over any run of ticks, every counted lap comes more than five seconds after the previous
   *  count (or after time 0), so any two counted laps are more than five seconds apart. */
  lemma {:induction false} LapTimesSpaced(samples: seq<Sample>, lastCount: Option<real>)
    ensures forall i :: 0 <= i < |LapTimes(samples, lastCount)| ==>
      lastCount.GetOr(0.0) + LapCooldown < LapTimes(samples, lastCount)[i]
    ensures forall i, j :: 0 <= i < j < |LapTimes(samples, lastCount)| ==>
      LapTimes(samples, lastCount)[i] + LapCooldown < LapTimes(samples, lastCount)[j]
    decreases |samples|
  {
    if samples != [] {
      var s := samples[0];
      if LapTriggered(s.nose, s.time, lastCount) {
        LapTimesSpaced(samples[1..], Some(s.time));
      } else {
        LapTimesSpaced(samples[1..], lastCount);
      }
    }
  }

  /** The car has two cameras: 0 is the chase camera, 1 the second camera (`tCam`). */
  const CameraCount: nat := 2

  /** `swapPOV()`: from the first camera to the second, from anything else to the first. */
  function SwappedPointOfView(pointOfView: nat): nat {
    if pointOfView == 0 then 1 else 0
  }

  /** Swapping always lands on one of the two cameras and always changes it; two swaps from the
   *  first camera come back to it. */
  lemma SwapPointOfView(pointOfView: nat)
    requires pointOfView < CameraCount
    ensures SwappedPointOfView(pointOfView) < CameraCount
    ensures SwappedPointOfView(pointOfView) != pointOfView
    ensures SwappedPointOfView(SwappedPointOfView(pointOfView)) == pointOfView
  {
  }

  /** The held keys after a key event with a raw code; unknown codes are ignored. */
  function AfterKeyDown(keys: seq<Key>, code: KeyCode): seq<Key> {
    match KeyFrom(code)
    case Some(k) => Pressed(keys, k)
    case None => keys
  }

  function AfterKeyUp(keys: seq<Key>, code: KeyCode): seq<Key> {
    match KeyFrom(code)
    case Some(k) => Released(keys, k)
    case None => keys
  }

  /** `GameView`: the user's car, the controls that drive it, the HUD parts the game updates,
   *  the time the lap count last changed and the current camera. */
  class GameView {
    var userCar: RaceCar
    var controls: Controls
    var speedometer: HUDSpeedometer
    var lapInfo: HUDLapInfo
    var lapCounter: HUDLapCounter
    var lapCountUpdateTime: Option<real>
    var pointOfView: nat

    /** The car is well formed, no key is held twice, and the camera is one of the two. */
    ghost predicate Valid()
      reads this, userCar, userCar.physicsVehicle, controls
    {
      userCar.Valid() && NoDuplicates(controls.activeKeys) && pointOfView < CameraCount
    }

    constructor (car: RaceCar, carControls: Controls)
      requires car.Valid() && NoDuplicates(carControls.activeKeys)
      ensures Valid() && userCar == car && controls == carControls
      ensures fresh(speedometer) && fresh(lapInfo) && fresh(lapCounter)
      ensures lapCountUpdateTime == None && pointOfView == 0
      ensures lapCounter.lap == 0 && lapCounter.labelText == "LAP 0"
      ensures lapInfo.Record() == InitialRecord && lapInfo.announcements == []
      ensures lapInfo.currentLapTimeLabel == NoTimeText && lapInfo.bestLapTimeLabel == NoTimeText
      ensures speedometer.labelText == "0 MPH" && speedometer.strokeStart == StrokeEnd
      ensures speedometer.strokeColor == Color(0.0, 1.0, 0.0, 1.0)
    {
      userCar := car;
      controls := carControls;
      speedometer := new HUDSpeedometer();
      lapInfo := new HUDLapInfo();
      lapCounter := new HUDLapCounter();
      lapCountUpdateTime := None;
      pointOfView := 0;
    }

    /** `keyDown(with:)`. */
    method KeyDown(code: KeyCode)
      requires Valid()
      modifies controls
      ensures Valid()
      ensures controls.activeKeys == AfterKeyDown(old(controls.activeKeys), code)
    {
      var key := KeyFrom(code);
      if key.Some? {
        controls.DidRecieve(key.value);
      }
    }

    /** `keyUp(with:)`. */
    method KeyUp(code: KeyCode)
      requires Valid()
      modifies controls
      ensures Valid()
      ensures controls.activeKeys == AfterKeyUp(old(controls.activeKeys), code)
    {
      var key := KeyFrom(code);
      if key.Some? {
        controls.DidEnd(key.value);
      }
    }

    /** `swapPOV()`. */
    method SwapPOV()
      requires Valid()
      modifies this`pointOfView
      ensures Valid() && pointOfView == SwappedPointOfView(old(pointOfView))
    {
      pointOfView := if pointOfView == 0 then 1 else 0;
    }

    /** `applyControls()`: the car takes the held keys, then a held camera key swaps the camera once
     *  and is dropped from the held keys. */
    method ApplyControls()
      requires Valid()
      modifies userCar, userCar.physicsVehicle, controls, this`pointOfView
      ensures Valid()
      ensures userCar.isUserControlled == old(userCar.isUserControlled) && userCar.physicsVehicle == old(userCar.physicsVehicle)
      ensures userCar.Animation() ==
        if old(userCar.isUserControlled)
        then RaceCarModel.Tick(old(userCar.Animation()),
                               GeneratedState(old(controls.LeftKeyActive()), old(controls.RightKeyActive())))
        else old(userCar.Animation())
      ensures userCar.CurrentSpeedInKPH() == old(userCar.CurrentSpeedInKPH())
      ensures old(userCar.physicsVehicle) != null ==>
        userCar.physicsVehicle.Commands() ==
          InteractionCommands(old(userCar.physicsVehicle.Commands()), old(userCar.isUserControlled),
                              old(userCar.Animation()),
                              old(controls.AccelerateKeyActive()), old(controls.BrakeReverseKeyActive()),
                              old(controls.LeftKeyActive()), old(controls.RightKeyActive()),
                              old(userCar.CurrentSpeedInKPH()))
      ensures old(controls.ChangeCameraKeyActive()) ==>
        pointOfView == SwappedPointOfView(old(pointOfView)) &&
        controls.activeKeys == Released(old(controls.activeKeys), ChangeCameraKey)
      ensures !old(controls.ChangeCameraKeyActive()) ==>
        pointOfView == old(pointOfView) && controls.activeKeys == old(controls.activeKeys)
      ensures !controls.ChangeCameraKeyActive()
    {
      userCar.ApplyUserInteraction(controls);
      if controls.ChangeCameraKeyActive() {
        SwapPOV();
        controls.CameraDidChange();
      }
    }

    /** `checkForLapFinish(atTime:)`, with the car's nose position supplied by the scene. A counted
     *  lap bumps the counter, ends the running lap on the clock (announcing it if it is the
     *  fastest) and records the time; anything else changes nothing. */
    method CheckForLapFinish(time: real, nose: Vector3)
      modifies this`lapCountUpdateTime, lapCounter, lapInfo
      ensures LapTriggered(nose, time, old(lapCountUpdateTime)) ==>
        lapCounter.lap == old(lapCounter.lap) + 1 && lapCounter.labelText == LapLabel(lapCounter.lap) &&
        lapInfo.Record() == StartNewLap(old(lapInfo.Record())) &&
        lapInfo.currentLapTimeLabel == old(lapInfo.currentLapTimeLabel) &&
        lapCountUpdateTime == Some(time)
      ensures LapTriggered(nose, time, old(lapCountUpdateTime)) && Announcement(old(lapInfo.Record())).Some? ==>
        lapInfo.announcements == old(lapInfo.announcements) + [Announcement(old(lapInfo.Record())).value] &&
        lapInfo.bestLapTimeLabel == Announcement(old(lapInfo.Record())).value
      ensures LapTriggered(nose, time, old(lapCountUpdateTime)) && Announcement(old(lapInfo.Record())).None? ==>
        lapInfo.announcements == old(lapInfo.announcements) &&
        lapInfo.bestLapTimeLabel == old(lapInfo.bestLapTimeLabel)
      ensures !LapTriggered(nose, time, old(lapCountUpdateTime)) ==>
        unchanged(lapCounter) && unchanged(lapInfo) && lapCountUpdateTime == old(lapCountUpdateTime)
    {
      var chassisXDistance := XDistance(Origin, nose);
      if chassisXDistance > -48.0 && chassisXDistance < 75.0 {
        var distanceFromLine := Abs(ZDistance(Origin, nose));
        if distanceFromLine < 5.0 && time - lapCountUpdateTime.GetOr(0.0) > 5.0 {
          lapCounter.IncrementLapCounter();
          lapInfo.StartNewLapTime();
          lapCountUpdateTime := Some(time);
        }
      }
    }

    /** `renderer(_:didSimulatePhysicsAtTime:)`: controls first, then the speedometer with the
     *  car's speed, then the lap check. Every part of the game's state after the tick is given. */
    method RendererDidSimulatePhysics(time: real, nose: Vector3)
      requires Valid()
      modifies userCar, userCar.physicsVehicle, controls, this`pointOfView
      modifies speedometer, this`lapCountUpdateTime, lapCounter, lapInfo
      ensures Valid()
      // the controls applied to the car
      ensures userCar.isUserControlled == old(userCar.isUserControlled) && userCar.physicsVehicle == old(userCar.physicsVehicle)
      ensures userCar.Animation() ==
        if old(userCar.isUserControlled)
        then RaceCarModel.Tick(old(userCar.Animation()),
                               GeneratedState(old(controls.LeftKeyActive()), old(controls.RightKeyActive())))
        else old(userCar.Animation())
      ensures userCar.CurrentSpeedInKPH() == old(userCar.CurrentSpeedInKPH())
      ensures old(userCar.physicsVehicle) != null ==>
        userCar.physicsVehicle.Commands() ==
          InteractionCommands(old(userCar.physicsVehicle.Commands()), old(userCar.isUserControlled),
                              old(userCar.Animation()),
                              old(controls.AccelerateKeyActive()), old(controls.BrakeReverseKeyActive()),
                              old(controls.LeftKeyActive()), old(controls.RightKeyActive()),
                              old(userCar.CurrentSpeedInKPH()))
      // the camera key
      ensures old(controls.ChangeCameraKeyActive()) ==>
        pointOfView == SwappedPointOfView(old(pointOfView)) &&
        controls.activeKeys == Released(old(controls.activeKeys), ChangeCameraKey)
      ensures !old(controls.ChangeCameraKeyActive()) ==>
        pointOfView == old(pointOfView) && controls.activeKeys == old(controls.activeKeys)
      ensures !controls.ChangeCameraKeyActive()
      // the speedometer
      ensures speedometer.labelText == SpeedText(old(userCar.CurrentSpeedInKPH()))
      ensures speedometer.strokeStart == StrokeStart(SpeedRatio(old(userCar.CurrentSpeedInKPH())))
      ensures speedometer.strokeColor == StrokeColor(SpeedRatio(old(userCar.CurrentSpeedInKPH())))
      // the lap check
      ensures LapTriggered(nose, time, old(lapCountUpdateTime)) ==>
        lapCounter.lap == old(lapCounter.lap) + 1 && lapCounter.labelText == LapLabel(lapCounter.lap) &&
        lapInfo.Record() == StartNewLap(old(lapInfo.Record())) &&
        lapInfo.currentLapTimeLabel == old(lapInfo.currentLapTimeLabel) &&
        lapCountUpdateTime == Some(time)
      ensures LapTriggered(nose, time, old(lapCountUpdateTime)) && Announcement(old(lapInfo.Record())).Some? ==>
        lapInfo.announcements == old(lapInfo.announcements) + [Announcement(old(lapInfo.Record())).value] &&
        lapInfo.bestLapTimeLabel == Announcement(old(lapInfo.Record())).value
      ensures LapTriggered(nose, time, old(lapCountUpdateTime)) && Announcement(old(lapInfo.Record())).None? ==>
        lapInfo.announcements == old(lapInfo.announcements) &&
        lapInfo.bestLapTimeLabel == old(lapInfo.bestLapTimeLabel)
      ensures !LapTriggered(nose, time, old(lapCountUpdateTime)) ==>
        unchanged(lapCounter) && unchanged(lapInfo) && lapCountUpdateTime == old(lapCountUpdateTime)
    {
      ApplyControls();
      speedometer.Update(userCar.CurrentSpeedInKPH());
      CheckForLapFinish(time, nose);
    }
  }
}
