/** The race car's drivetrain, steering animation and the per-wheel commands it sends to the
 *  physics vehicle (RaceCar/RaceCar.swift). */
module RaceCarModel {
  import opened RaceCarControls

  /** `RaceCar.maxSpeedInKilometersPerHour`. */
  const MaxSpeedInKilometersPerHour: real := 389.346862792969
  /** `RaceCar.maxSteeringLock`: the wheel angle a held steering key animates towards. */
  const MaxSteeringLock: real := 0.35
  /** The bound `steer(toAngle:)` clamps every requested angle to. */
  const SteeringClamp: real := 0.6
  /** The steering animation runs over this many frames. */
  const MaxFrameCount: nat := 6
  /** Engine force added while the accelerate key is held. */
  const AccelerateEngineForce: real := 410.0
  /** Braking force added while the brake key is held and the car rolls forward. */
  const ForwardBrakingForce: real := 5.0
  /** Engine force subtracted while the brake key is held and the car is not rolling forward. */
  const ReverseEngineForce: real := 50.0

  /** The physics vehicle has four wheels: front left, front right, rear left, rear right. */
  const WheelCount: nat := 4

  function Abs(x: real): real {
    if x < 0.0 then -x else x
  }

  /** The angle `steer(toAngle:)` applies: `angle` limited to [-0.6, 0.6]. */
  function ClampSteering(angle: real): (r: real)
    ensures -SteeringClamp <= r <= SteeringClamp
    ensures r == angle <==> -SteeringClamp <= angle <= SteeringClamp
  {
    if angle > SteeringClamp then SteeringClamp
    else if angle < -SteeringClamp then -SteeringClamp
    else angle
  }

  /** No angle in range lies closer to the requested one than the clamped angle. */
  lemma ClampIsNearest(angle: real, y: real)
    requires -SteeringClamp <= y <= SteeringClamp
    ensures Abs(ClampSteering(angle) - angle) <= Abs(y - angle)
  {
  }

  // ---------------------------------------------------------------------------------------
  // Drivetrain

  datatype Forces = Forces(engine: real, braking: real)

  /** The drivetrain decision table: engine force for the rear wheels and braking force for all
   *  four, from the accelerate and brake keys and the signed speed. Braking while rolling
   *  forward overrides the throttle; otherwise the brake key drives in reverse. */
  function DriveForces(accelerating: bool, braking: bool, speed: real): Forces {
    if braking && speed > 0.0 then Forces(0.0, ForwardBrakingForce)
    else if braking then Forces((if accelerating then AccelerateEngineForce else 0.0) - ReverseEngineForce, 0.0)
    else if accelerating then Forces(AccelerateEngineForce, 0.0)
    else Forces(0.0, 0.0)
  }

  /** The rows of the table as the car's behaviour is described: idle, throttle, brakes win while
   *  rolling forward, reverse when stopped or rolling backwards. */
  lemma DrivetrainTable(speed: real)
    ensures DriveForces(false, false, speed) == Forces(0.0, 0.0)
    ensures DriveForces(true, false, speed) == Forces(410.0, 0.0)
    ensures speed > 0.0 ==> DriveForces(true, true, speed) == Forces(0.0, 5.0)
    ensures speed > 0.0 ==> DriveForces(false, true, speed) == Forces(0.0, 5.0)
    ensures speed <= 0.0 ==> DriveForces(false, true, speed) == Forces(-50.0, 0.0)
    ensures speed <= 0.0 ==> DriveForces(true, true, speed) == Forces(360.0, 0.0)
  {
  }

  // ---------------------------------------------------------------------------------------
  // Steering animation

  /** `RaceCar.SteeringState`. */
  datatype SteeringState = Right | Left | Idle

  /** The steering state the held keys ask for: both or neither steering key means idle. */
  function GeneratedState(leftActive: bool, rightActive: bool): (s: SteeringState)
    ensures s == Right <==> rightActive && !leftActive
    ensures s == Left <==> leftActive && !rightActive
    ensures s == Idle <==> leftActive == rightActive
  {
    if rightActive && leftActive then Idle
    else if rightActive then Right
    else if leftActive then Left
    else Idle
  }

  /** The angle each steering state animates towards; steering right is a negative angle. */
  function Destination(s: SteeringState): real {
    match s
    case Idle => 0.0
    case Right => -MaxSteeringLock
    case Left => MaxSteeringLock
  }

  /** The sign of the animation, chosen from the transition: positive from right or idle into
   *  idle or left, negative otherwise. */
  function Multiplier(previous: SteeringState, state: SteeringState): real {
    if (previous == Right || previous == Idle) && (state == Idle || state == Left) then 1.0 else -1.0
  }

  /** The steering fields of a car: state, previous state, current angle, frames animated so far,
   *  and the angle the current animation started at. */
  datatype SteeringAnimation = SteeringAnimation(
    state: SteeringState, previous: SteeringState, angle: real, frameCount: nat, startAngle: real)

  const InitialAnimation := SteeringAnimation(Idle, Idle, 0.0, 0, 0.0)

  /** What every car's steering fields satisfy: the angle is within the clamp, and the previous
   *  state differs from the current one except in the initial idle state. */
  predicate SteeringInvariant(a: SteeringAnimation) {
    -SteeringClamp <= a.angle <= SteeringClamp && (a.previous == a.state ==> a.state == Idle)
  }

  /** `resetSteeringAnimationIfNeeded`: a new state restarts the animation. */
  function Reset(a: SteeringAnimation, newState: SteeringState): SteeringAnimation {
    if newState != a.state then a.(frameCount := 0, previous := a.state, state := newState) else a
  }

  /** The per-frame change of angle of the animation that started at `start`. */
  function FrameDelta(previous: SteeringState, state: SteeringState, start: real): real {
    Multiplier(previous, state) * (Abs(start) + Abs(Destination(state))) / (MaxFrameCount as real)
  }

  /** `updateSteeringAnimation`: one frame of the steering animation. */
  function Step(a: SteeringAnimation): SteeringAnimation {
    var start := if a.frameCount == 0 then a.angle else a.startAngle;
    var angle := if a.frameCount < MaxFrameCount
                 then ClampSteering(a.angle + FrameDelta(a.previous, a.state, start)) else a.angle;
    a.(startAngle := start, angle := angle, frameCount := a.frameCount + 1)
  }

  /** One physics tick of steering with the given keys' state. */
  function Tick(a: SteeringAnimation, generated: SteeringState): SteeringAnimation {
    Step(Reset(a, generated))
  }

  /** `n` ticks with the same steering keys held. */
  function Ticks(a: SteeringAnimation, generated: SteeringState, n: nat): SteeringAnimation {
    if n == 0 then a else Tick(Ticks(a, generated, n - 1), generated)
  }

  /** Reset and Step keep the steering invariant. */
  lemma TickKeepsInvariant(a: SteeringAnimation, generated: SteeringState)
    requires SteeringInvariant(a)
    ensures SteeringInvariant(Reset(a, generated))
    ensures SteeringInvariant(Step(Reset(a, generated)))
  {
  }

  /** A change of state restarts the animation from frame 0 and remembers the old state; keeping
   *  the state changes none of the three fields. */
  lemma ResetTable(a: SteeringAnimation, newState: SteeringState)
    ensures newState != a.state ==>
      Reset(a, newState).frameCount == 0 && Reset(a, newState).previous == a.state &&
      Reset(a, newState).state == newState
    ensures newState == a.state ==> Reset(a, newState) == a
    ensures Reset(a, newState).angle == a.angle && Reset(a, newState).startAngle == a.startAngle
  {
  }

  /** A frame always advances the count; it captures the start angle only on frame 0 and moves the
   *  angle only during the first six frames. */
  lemma StepTable(a: SteeringAnimation)
    ensures Step(a).frameCount == a.frameCount + 1
    ensures Step(a).state == a.state && Step(a).previous == a.previous
    ensures Step(a).startAngle == if a.frameCount == 0 then a.angle else a.startAngle
    ensures a.frameCount >= MaxFrameCount ==> Step(a).angle == a.angle
  {
  }

  /** For every transition the animation can make, the signed total change of angle is the
   *  distance from the old destination to the new one. */
  lemma MultiplierMatchesTransition(previous: SteeringState, state: SteeringState)
    requires previous != state || state == Idle
    ensures Multiplier(previous, state) * (Abs(Destination(previous)) + Abs(Destination(state)))
            == Destination(state) - Destination(previous)
  {
  }

  /** The angle `k` frames into the animation from the destination of `previous` to that of
   *  `state`, when every frame covers a sixth of the way. */
  function Progress(previous: SteeringState, state: SteeringState, k: nat): real {
    Destination(previous) + (k as real) * (Destination(state) - Destination(previous)) / 6.0
  }

  /** One frame of a transition that started at the previous destination moves one sixth further,
   *  and never leaves the steering lock while the animation runs. */
  lemma ProgressStep(previous: SteeringState, state: SteeringState, k: nat)
    requires previous != state || state == Idle
    requires 1 <= k <= MaxFrameCount
    ensures Progress(previous, state, k - 1) + FrameDelta(previous, state, Destination(previous))
            == Progress(previous, state, k)
    ensures -MaxSteeringLock <= Progress(previous, state, k) <= MaxSteeringLock
  {
    match previous
    case Idle =>
    case Right =>
    case Left =>
  }

  /** Steps of an animation that started from the previous state's destination move by equal
   *  sixths of the way to the new destination. */
  lemma {:induction false} StepsFromSettled(a: SteeringAnimation, k: nat)
    requires a.previous != a.state || a.state == Idle
    requires a.frameCount == 0 && a.angle == Destination(a.previous)
    requires k <= MaxFrameCount
    ensures Ticks(a, a.state, k) ==
      a.(angle := Progress(a.previous, a.state, k), frameCount := k,
         startAngle := if k == 0 then a.startAngle else a.angle)
  {
    if k > 0 {
      StepsFromSettled(a, k - 1);
      var b := Ticks(a, a.state, k - 1);
      assert Reset(b, a.state) == b;
      ProgressStep(a.previous, a.state, k);
    }
  }

  /** Once the animation has run its six frames, further ticks in the same state change nothing
   *  but the frame count. */
  lemma {:induction false} StaysAfterSixFrames(a: SteeringAnimation, n: nat)
    requires a.frameCount >= MaxFrameCount
    ensures Ticks(a, a.state, n) == a.(frameCount := a.frameCount + n)
  {
    if n > 0 {
      StaysAfterSixFrames(a, n - 1);
    }
  }

  /** An animation at rest: at its state's destination, with its frames used up, or the initial
   *  idle animation that has not yet run a frame. */
  predicate Settled(a: SteeringAnimation) {
    SteeringInvariant(a) && a.angle == Destination(a.state) &&
    (a.frameCount >= MaxFrameCount || (a.frameCount == 0 && a.previous == a.state))
  }

  /** Convergence: from rest, holding the same steering keys for six ticks or more brings the
   *  angle to exactly the destination of the state they ask for, and it stays there. */
  lemma {:induction false} HoldingConverges(a: SteeringAnimation, generated: SteeringState, n: nat)
    requires Settled(a) && n >= MaxFrameCount
    ensures Ticks(a, generated, n).angle == Destination(generated)
    ensures Ticks(a, generated, n).state == generated && Settled(Ticks(a, generated, n))
  {
    if generated == a.state && a.frameCount >= MaxFrameCount {
      StaysAfterSixFrames(a, n);
    } else {
      // The first tick resets (or, in the initial state, already starts) the animation.
      var r := Reset(a, generated);
      assert r.frameCount == 0 && r.angle == Destination(r.previous) && r.state == generated;
      assert Ticks(r, generated, 0) == r;
      TicksShift(a, generated, n);
      StepsFromSettled(r, MaxFrameCount);
      var six := Ticks(r, generated, MaxFrameCount);
      StaysAfterSixFrames(six, n - MaxFrameCount);
      TicksSplit(r, generated, MaxFrameCount, n - MaxFrameCount);
    }
  }

  /** Ticks from `a` are ticks from its reset: resetting twice to the same state is resetting once. */
  lemma {:induction false} TicksShift(a: SteeringAnimation, generated: SteeringState, n: nat)
    requires n >= 1
    ensures Ticks(a, generated, n) == Ticks(Reset(a, generated), generated, n)
  {
    if n == 1 {
      assert Reset(Reset(a, generated), generated) == Reset(a, generated);
    } else {
      TicksShift(a, generated, n - 1);
    }
  }

  lemma {:induction false} TicksSplit(a: SteeringAnimation, generated: SteeringState, m: nat, n: nat)
    ensures Ticks(a, generated, m + n) == Ticks(Ticks(a, generated, m), generated, n)
  {
    if n > 0 {
      TicksSplit(a, generated, m, n - 1);
    }
  }

  /** The known quirk of the animator: interrupting a left turn after three frames, letting go for
   *  one frame and turning left again animates by the absolute values of start and destination,
   *  overshooting the steering lock of 0.35 until the 0.6 clamp stops it. */
  lemma InterruptedTransitionOvershoots()
    ensures Ticks(InitialAnimation, Left, 3).angle == 0.175
    ensures Ticks(Ticks(InitialAnimation, Left, 3), Idle, 1).angle == 7.0 / 48.0
    ensures Ticks(Ticks(Ticks(InitialAnimation, Left, 3), Idle, 1), Left, 5).angle == 805.0 / 1440.0
    ensures Ticks(Ticks(Ticks(InitialAnimation, Left, 3), Idle, 1), Left, 6).angle == SteeringClamp
    ensures SteeringClamp != Destination(Left)
  {
    var a0 := InitialAnimation;
    var r := Reset(a0, Left);
    assert r == SteeringAnimation(Left, Idle, 0.0, 0, 0.0);
    TicksShift(a0, Left, 3);
    StepsFromSettled(r, 3);
    var a3 := Ticks(a0, Left, 3);
    assert a3 == SteeringAnimation(Left, Idle, 0.175, 3, 0.0);
    var a4 := Ticks(a3, Idle, 1);
    assert a4 == Step(SteeringAnimation(Idle, Left, 0.175, 0, 0.0));
    assert a4 == SteeringAnimation(Idle, Left, 7.0 / 48.0, 1, 0.175);
    var b := Reset(a4, Left);
    assert b == SteeringAnimation(Left, Idle, 7.0 / 48.0, 0, 0.175);
    TicksShift(a4, Left, 6);
    var d := 119.0 / 1440.0;
    assert Ticks(b, Left, 1) == SteeringAnimation(Left, Idle, 7.0 / 48.0 + d, 1, 7.0 / 48.0);
    assert Ticks(b, Left, 2) == SteeringAnimation(Left, Idle, 7.0 / 48.0 + 2.0 * d, 2, 7.0 / 48.0);
    assert Ticks(b, Left, 3) == SteeringAnimation(Left, Idle, 7.0 / 48.0 + 3.0 * d, 3, 7.0 / 48.0);
    assert Ticks(b, Left, 4) == SteeringAnimation(Left, Idle, 7.0 / 48.0 + 4.0 * d, 4, 7.0 / 48.0);
    assert Ticks(b, Left, 5) == SteeringAnimation(Left, Idle, 7.0 / 48.0 + 5.0 * d, 5, 7.0 / 48.0);
    TicksShift(a4, Left, 5);
  }

  // ---------------------------------------------------------------------------------------
  // The physics vehicle, as far as the car drives it

  /** The physics engine's vehicle, seen through what the car commands: the last engine force,
   *  braking force and steering angle applied to each wheel (0 front left, 1 front right,
   *  2 rear left, 3 rear right), and the speed the engine reports. */
  class PhysicsVehicle {
    var engineForces: seq<real>
    var brakingForces: seq<real>
    var steeringAngles: seq<real>
    var speedInKilometersPerHour: real

    ghost predicate Valid()
      reads this
    {
      |engineForces| == WheelCount && |brakingForces| == WheelCount && |steeringAngles| == WheelCount
    }

    /** The three per-wheel arrays together. */
    function Commands(): WheelCommands
      reads this
    {
      WheelCommands(engineForces, brakingForces, steeringAngles)
    }

    constructor ()
      ensures Valid() && speedInKilometersPerHour == 0.0
      ensures engineForces == brakingForces == steeringAngles == seq(WheelCount, _ => 0.0)
    {
      engineForces := seq(WheelCount, _ => 0.0);
      brakingForces := seq(WheelCount, _ => 0.0);
      steeringAngles := seq(WheelCount, _ => 0.0);
      speedInKilometersPerHour := 0.0;
    }

    method ApplyEngineForce(force: real, wheel: nat)
      requires Valid() && wheel < WheelCount
      modifies this`engineForces
      ensures Valid() && engineForces == old(engineForces)[wheel := force]
    {
      engineForces := engineForces[wheel := force];
    }

    method ApplyBrakingForce(force: real, wheel: nat)
      requires Valid() && wheel < WheelCount
      modifies this`brakingForces
      ensures Valid() && brakingForces == old(brakingForces)[wheel := force]
    {
      brakingForces := brakingForces[wheel := force];
    }

    method SetSteeringAngle(angle: real, wheel: nat)
      requires Valid() && wheel < WheelCount
      modifies this`steeringAngles
      ensures Valid() && steeringAngles == old(steeringAngles)[wheel := angle]
    {
      steeringAngles := steeringAngles[wheel := angle];
    }
  }

  /** The rear-wheel engine forces after `accelerate(withEngineForce:)`. */
  function RearWheelsDriven(forces: seq<real>, force: real): seq<real>
    requires |forces| == WheelCount
  {
    forces[2 := force][3 := force]
  }

  /** The front-wheel steering angles after the two `steer(toAngle:forWheelAt:)` calls. */
  function FrontWheelsSteered(angles: seq<real>, angle: real): seq<real>
    requires |angles| == WheelCount
  {
    angles[0 := angle][1 := angle]
  }

  /** What a physics vehicle was last told, wheel by wheel: engine force, braking force and
   *  steering angle. */
  datatype WheelCommands = WheelCommands(engine: seq<real>, braking: seq<real>, steering: seq<real>)

  /** The wheel commands after one `applyUserInteraction(withControls:)` from the given keys,
   *  speed and steering fields: the drivetrain forces on the rear wheels and on all four brakes,
   *  and the animated angle on the front wheels while the animation runs. A car that is not user
   *  controlled sends nothing. */
  function InteractionCommands(w: WheelCommands, userControlled: bool, a: SteeringAnimation,
                               accelerating: bool, braking: bool, left: bool, right: bool,
                               speed: real): WheelCommands
    requires |w.engine| == WheelCount && |w.steering| == WheelCount
  {
    if !userControlled then w
    else
      var f := DriveForces(accelerating, braking, speed);
      var generated := GeneratedState(left, right);
      WheelCommands(RearWheelsDriven(w.engine, f.engine), seq(WheelCount, _ => f.braking),
                    if Reset(a, generated).frameCount < MaxFrameCount
                    then FrontWheelsSteered(w.steering, Tick(a, generated).angle) else w.steering)
  }

  // ---------------------------------------------------------------------------------------
  // The car

  /** `RaceCar`: a car whose physics vehicle may be missing, in which case every command to it is
   *  dropped and its speed reads as 0. */
  class RaceCar {
    var physicsVehicle: PhysicsVehicle?
    var isUserControlled: bool
    var currentSteeringAngle: real
    var steeringState: SteeringState
    var previousSteeringState: SteeringState
    var steeringAnimationFrameCount: nat
    var steeringAnimationStartAngle: real

    ghost predicate Valid()
      reads this, physicsVehicle
    {
      (physicsVehicle != null ==> physicsVehicle.Valid()) && SteeringInvariant(Animation())
    }

    /** The steering fields as one value. */
    function Animation(): SteeringAnimation
      reads this
    {
      SteeringAnimation(steeringState, previousSteeringState, currentSteeringAngle,
                        steeringAnimationFrameCount, steeringAnimationStartAngle)
    }

    constructor (vehicle: PhysicsVehicle?, userControlled: bool)
      requires vehicle != null ==> vehicle.Valid()
      ensures Valid() && physicsVehicle == vehicle && isUserControlled == userControlled
      ensures Animation() == InitialAnimation
    {
      physicsVehicle := vehicle;
      isUserControlled := userControlled;
      currentSteeringAngle := 0.0;
      steeringState := Idle;
      previousSteeringState := Idle;
      steeringAnimationFrameCount := 0;
      steeringAnimationStartAngle := 0.0;
    }

    /** `currentSpeedInKPH`: the engine's speed, or 0 without a physics vehicle. */
    function CurrentSpeedInKPH(): real
      reads this, physicsVehicle
    {
      if physicsVehicle != null then physicsVehicle.speedInKilometersPerHour else 0.0
    }

    /** `accelerate(withEngineForce:)`: rear-wheel drive. */
    method Accelerate(force: real)
      requires Valid()
      modifies physicsVehicle
      ensures Valid()
      ensures physicsVehicle != null ==>
        physicsVehicle.engineForces == RearWheelsDriven(old(physicsVehicle.engineForces), force) &&
        physicsVehicle.brakingForces == old(physicsVehicle.brakingForces) &&
        physicsVehicle.steeringAngles == old(physicsVehicle.steeringAngles) &&
        physicsVehicle.speedInKilometersPerHour == old(physicsVehicle.speedInKilometersPerHour)
    {
      if physicsVehicle != null {
        physicsVehicle.ApplyEngineForce(force, 2);
        physicsVehicle.ApplyEngineForce(force, 3);
      }
    }

    /** `steer(toAngle:)`: both front wheels, clamped to [-0.6, 0.6]. */
    method Steer(angle: real)
      requires Valid()
      modifies this`currentSteeringAngle, physicsVehicle
      ensures Valid()
      ensures currentSteeringAngle == ClampSteering(angle)
      ensures physicsVehicle != null ==>
        physicsVehicle.steeringAngles == FrontWheelsSteered(old(physicsVehicle.steeringAngles), ClampSteering(angle)) &&
        physicsVehicle.engineForces == old(physicsVehicle.engineForces) &&
        physicsVehicle.brakingForces == old(physicsVehicle.brakingForces) &&
        physicsVehicle.speedInKilometersPerHour == old(physicsVehicle.speedInKilometersPerHour)
    {
      var newAngle := 0.0;
      if angle > 0.6 {
        newAngle := 0.6;
      } else if angle < -0.6 {
        newAngle := -0.6;
      } else {
        newAngle := angle;
      }
      if physicsVehicle != null {
        physicsVehicle.SetSteeringAngle(newAngle, 0);
        physicsVehicle.SetSteeringAngle(newAngle, 1);
      }
      currentSteeringAngle := newAngle;
    }

    /** `brake(withForce:)`: the same braking force on all four wheels. */
    method Brake(force: real)
      requires Valid()
      modifies physicsVehicle
      ensures Valid()
      ensures physicsVehicle != null ==>
        physicsVehicle.brakingForces == seq(WheelCount, _ => force) &&
        physicsVehicle.engineForces == old(physicsVehicle.engineForces) &&
        physicsVehicle.steeringAngles == old(physicsVehicle.steeringAngles) &&
        physicsVehicle.speedInKilometersPerHour == old(physicsVehicle.speedInKilometersPerHour)
    {
      for i := 0 to WheelCount
        invariant Valid()
        invariant physicsVehicle != null ==>
          physicsVehicle.engineForces == old(physicsVehicle.engineForces) &&
          physicsVehicle.steeringAngles == old(physicsVehicle.steeringAngles) &&
          physicsVehicle.speedInKilometersPerHour == old(physicsVehicle.speedInKilometersPerHour)
        invariant physicsVehicle != null ==>
          forall j :: 0 <= j < WheelCount ==>
            physicsVehicle.brakingForces[j] == if j < i then force else old(physicsVehicle.brakingForces[j])
      {
        if physicsVehicle != null {
          physicsVehicle.ApplyBrakingForce(force, i);
        }
      }
    }

    /** The engine and braking forces `applyUserInteraction` computes, accumulated in the order the
     *  keys are checked: the accelerate key first, then the brake key, which can override it. */
    method DriveForcesFor(controls: Controls) returns (engineForce: real, brakingForce: real)
      ensures Forces(engineForce, brakingForce)
              == DriveForces(controls.AccelerateKeyActive(), controls.BrakeReverseKeyActive(), CurrentSpeedInKPH())
    {
      engineForce := 0.0;
      brakingForce := 0.0;
      if !controls.AccelerateKeyActive() && !controls.BrakeReverseKeyActive() {
        engineForce := 0.0;
        brakingForce := 0.0;
      }
      if controls.AccelerateKeyActive() {
        engineForce := engineForce + 410.0;
        brakingForce := brakingForce + 0.0;
      }
      if controls.BrakeReverseKeyActive() {
        if CurrentSpeedInKPH() > 0.0 {
          engineForce := 0.0;
          brakingForce := brakingForce + 5.0;
        } else {
          engineForce := engineForce - 50.0;
          brakingForce := brakingForce + 0.0;
        }
      }
    }

    /** `resetSteeringAnimationIfNeeded(withGeneratedSteeringState:)`. */
    method ResetSteeringAnimationIfNeeded(newState: SteeringState)
      requires Valid()
      modifies this`steeringAnimationFrameCount, this`previousSteeringState, this`steeringState
      ensures Valid()
      ensures Animation() == Reset(old(Animation()), newState)
    {
      if newState != steeringState {
        steeringAnimationFrameCount := 0;
        previousSteeringState := steeringState;
        steeringState := newState;
      }
    }

    /** `updateSteeringAnimation()`: one frame of the animation, sent to the front wheels while it
     *  runs. */
    method UpdateSteeringAnimation()
      requires Valid()
      modifies this`steeringAnimationStartAngle, this`currentSteeringAngle, this`steeringAnimationFrameCount
      modifies physicsVehicle
      ensures Valid()
      ensures Animation() == Step(old(Animation()))
      ensures physicsVehicle != null ==>
        physicsVehicle.engineForces == old(physicsVehicle.engineForces) &&
        physicsVehicle.brakingForces == old(physicsVehicle.brakingForces) &&
        physicsVehicle.speedInKilometersPerHour == old(physicsVehicle.speedInKilometersPerHour) &&
        physicsVehicle.steeringAngles ==
          (if old(steeringAnimationFrameCount) < MaxFrameCount
           then FrontWheelsSteered(old(physicsVehicle.steeringAngles), Step(old(Animation())).angle)
           else old(physicsVehicle.steeringAngles))
    {
      var maxFrameCount := 6;
      if steeringAnimationFrameCount == 0 {
        steeringAnimationStartAngle := currentSteeringAngle;
      }
      var destinationAngle := if steeringState == Idle then 0.0
                              else if steeringState == Right then -MaxSteeringLock else MaxSteeringLock;
      var multiplier := if (previousSteeringState == Right || previousSteeringState == Idle) &&
                           (steeringState == Idle || steeringState == Left) then 1.0 else -1.0;
      var totalDelta := multiplier * (Abs(steeringAnimationStartAngle) + Abs(destinationAngle));
      var frameDelta := totalDelta / (maxFrameCount as real);
      if steeringAnimationFrameCount < maxFrameCount {
        Steer(currentSteeringAngle + frameDelta);
      }
      steeringAnimationFrameCount := steeringAnimationFrameCount + 1;
    }

    /** `applyUserInteraction(withControls:)`: forces from the drivetrain table to the wheels, then
     *  one tick of the steering animation. A car that is not user controlled is left alone. */
    method ApplyUserInteraction(controls: Controls)
      requires Valid()
      modifies this`steeringAnimationStartAngle, this`currentSteeringAngle, this`steeringAnimationFrameCount
      modifies this`previousSteeringState, this`steeringState
      modifies physicsVehicle
      ensures Valid()
      ensures physicsVehicle != null ==>
        physicsVehicle.speedInKilometersPerHour == old(physicsVehicle.speedInKilometersPerHour)
      ensures !isUserControlled ==> Animation() == old(Animation())
      ensures !isUserControlled && physicsVehicle != null ==>
        physicsVehicle.engineForces == old(physicsVehicle.engineForces) &&
        physicsVehicle.brakingForces == old(physicsVehicle.brakingForces) &&
        physicsVehicle.steeringAngles == old(physicsVehicle.steeringAngles)
      ensures isUserControlled ==>
        Animation() == Tick(old(Animation()), GeneratedState(controls.LeftKeyActive(), controls.RightKeyActive()))
      ensures isUserControlled && physicsVehicle != null ==>
        var f := DriveForces(controls.AccelerateKeyActive(), controls.BrakeReverseKeyActive(), CurrentSpeedInKPH());
        var reset := Reset(old(Animation()), GeneratedState(controls.LeftKeyActive(), controls.RightKeyActive()));
        physicsVehicle.engineForces == RearWheelsDriven(old(physicsVehicle.engineForces), f.engine) &&
        physicsVehicle.brakingForces == seq(WheelCount, _ => f.braking) &&
        physicsVehicle.steeringAngles ==
          (if reset.frameCount < MaxFrameCount
           then FrontWheelsSteered(old(physicsVehicle.steeringAngles), Animation().angle)
           else old(physicsVehicle.steeringAngles))
      ensures physicsVehicle != null ==>
        physicsVehicle.Commands() ==
          InteractionCommands(old(physicsVehicle.Commands()), isUserControlled, old(Animation()),
                              controls.AccelerateKeyActive(), controls.BrakeReverseKeyActive(),
                              controls.LeftKeyActive(), controls.RightKeyActive(), CurrentSpeedInKPH())
    {
      if isUserControlled {
        var engineForce, brakingForce := DriveForcesFor(controls);
        Accelerate(engineForce);
        Brake(brakingForce);
        if controls.RightKeyActive() && controls.LeftKeyActive() {
          ResetSteeringAnimationIfNeeded(Idle);
        } else if controls.RightKeyActive() {
          ResetSteeringAnimationIfNeeded(Right);
        } else if controls.LeftKeyActive() {
          ResetSteeringAnimationIfNeeded(Left);
        } else {
          ResetSteeringAnimationIfNeeded(Idle);
        }
        UpdateSteeringAnimation();
      }
    }
  }
}
