/**
 The truck controller's command path as a state machine over callbacks and periodic ticks,
 and what holds of every run: every robotic control frame is enabled, fresh, paced and
 carries the clamped values of the most recent accepted command.
 */
module TruckApplication {
  import opened Options
  import opened Bytes
  import opened TruckFrames

  /** Nanoseconds. */
  const PACE: int := 20_000_000
  const TIMEOUT: int := 300_000_000
  const MAX_SPEED: real := 31.25
  const MAX_ACCEL: real := 3.5

  datatype CommandMode = DisableAccSystem | RoboticWrench | RoboticSpeed | NoMode

  datatype Control = Control(wrench: real, speed: real, accel: real, mode: CommandMode)

  datatype App = App(
    enabled: bool, control: Control, recvTime: int, lastSent: int,
    counter: nat, wrenchActive: bool, speedActive: bool)

  datatype Event =
    | Enable(on: bool)
    | WrenchCommand(now: int, effort: real)
    | SpeedCommand(now: int, speed: real, accel: real)
    | Tick(now: int)

  /** What a control frame says, before packing. */
  datatype Sent = Sent(mode: Mode, wrench: real, speed: real, accel: real, counter: nat)

  function FrameBytes(f: Sent): (d: seq<byte>)
    requires f.counter < 16
    ensures |d| == 8
  {
    Packed(Raw(WrenchRaw(f.wrench), RateRaw(f.speed), RateRaw(f.accel)), 0xFF, f.mode, f.counter)
  }

  function Start(now: int, enabled: bool): App {
    App(enabled, Control(0.0, 0.0, 0.0, NoMode), 0, now, 0, false, false)
  }

  function Clamp(v: real, lo: real, hi: real): real {
    if v < lo then lo else if v > hi then hi else v
  }

  predicate Accepted(e: Event) {
    match e
    case WrenchCommand(_, _) => true
    case SpeedCommand(_, speed, accel) => speed >= 0.0 && accel >= 0.0
    case _ => false
  }

  // ----- the periodic cycle -------------------------------------------------------------------------

  predicate Due(a: App, now: int) {
    now - a.lastSent > PACE
  }

  predicate TimedOut(a: App, now: int) {
    now - a.recvTime > TIMEOUT && a.control.mode != DisableAccSystem
  }

  /** The control frame of a cycle at `now`, if one is due. */
  function Emitted(a: App, now: int): (r: Option<Sent>) {
    if !Due(a, now) then None
    else
      var c := NextCounter(a.counter);
      if a.enabled && !TimedOut(a, now) && a.control.mode == RoboticWrench then
        Some(Sent(WrenchEffort, Clamp(a.control.wrench, -100.0, 100.0), 0.0, 0.0, c))
      else if a.enabled && !TimedOut(a, now) && a.control.mode == RoboticSpeed then
        Some(Sent(SpeedControl, 0.0, a.control.speed, a.control.accel, c))
      else
        Some(Sent(DisableAcc, 0.0, 0.0, 0.0, c))
  }

  function Ticked(a: App, now: int): App {
    if !Due(a, now) then a
    else
      var control :=
        if !a.enabled then Control(0.0, 0.0, 0.0, DisableAccSystem)
        else if TimedOut(a, now) then a.control.(mode := DisableAccSystem)
        else a.control;
      a.(control := control, lastSent := now, counter := NextCounter(a.counter),
         wrenchActive := control.mode == RoboticWrench, speedActive := control.mode == RoboticSpeed)
  }

  function Step(a: App, e: Event): App {
    match e
    case Enable(on) => a.(enabled := on)
    case WrenchCommand(now, effort) => a.(recvTime := now, control := a.control.(wrench := effort, mode := RoboticWrench))
    case SpeedCommand(now, speed, accel) =>
      if Accepted(e) then
        a.(recvTime := now,
           control := a.control.(speed := if speed > MAX_SPEED then MAX_SPEED else speed,
                                 accel := if accel > MAX_ACCEL then MAX_ACCEL else accel,
                                 mode := RoboticSpeed))
      else a
    case Tick(now) => Ticked(a, now)
  }

  function Output(a: App, e: Event): (r: Option<Sent>) {
    match e
    case Tick(now) => Emitted(a, now)
    case _ => None
  }

  // ----- the object ---------------------------------------------------------------------------------------

  class Application {
    var roboticEnabled: bool
    var setControl: Control
    var recvTime: int
    var lastSent: int
    var wrenchActive: bool
    var speedActive: bool
    var disablePrinted: bool
    const message: CommandMessage

    ghost function Model(): App
      reads this, message
    {
      App(roboticEnabled, setControl, recvTime, lastSent, message.curCount, wrenchActive, speedActive)
    }

    ghost predicate Valid()
      reads this, message
    {
      message.reserved == 0xFF && message.curCount < 16
    }

    constructor (now: int, enabledAtStart: bool)
      ensures Valid() && fresh(message) && Model() == Start(now, enabledAtStart)
    {
      roboticEnabled, setControl := enabledAtStart, Control(0.0, 0.0, 0.0, NoMode);
      recvTime, lastSent := 0, now;
      wrenchActive, speedActive, disablePrinted := false, false, false;
      message := new CommandMessage();
    }

    method EnableRobotic(on: bool)
      requires Valid()
      modifies this`roboticEnabled
      ensures Valid() && Model() == Step(old(Model()), Enable(on))
    {
      roboticEnabled := on;
    }

    method OnWrenchEffort(now: int, effort: real)
      requires Valid()
      modifies this`recvTime, this`setControl
      ensures Valid() && Model() == Step(old(Model()), WrenchCommand(now, effort))
    {
      recvTime := now;
      setControl := setControl.(wrench := effort, mode := RoboticWrench);
    }

    method OnSpeedAccel(now: int, speed: real, accel: real)
      requires Valid()
      modifies this`recvTime, this`setControl
      ensures Valid() && Model() == Step(old(Model()), SpeedCommand(now, speed, accel))
    {
      if speed >= 0.0 && accel >= 0.0 {
        var recvSpeed, recvAccel := speed, accel;
        if recvSpeed > MAX_SPEED {
          recvSpeed := MAX_SPEED;
        }
        if recvAccel > MAX_ACCEL {
          recvAccel := MAX_ACCEL;
        }
        setControl := setControl.(speed := recvSpeed, accel := recvAccel, mode := RoboticSpeed);
        recvTime := now;
      }
    }

    method SendWrenchEffort(effort: real) returns (frame: seq<byte>)
      requires Valid()
      modifies message
      ensures Valid() && message.curCount == NextCounter(old(message.curCount))
      ensures frame == FrameBytes(Sent(WrenchEffort, Clamp(effort, -100.0, 100.0), 0.0, 0.0, message.curCount))
    {
      var clamped := effort;
      if clamped < -100.0 {
        clamped := -100.0;
      } else if clamped > 100.0 {
        clamped := 100.0;
      }
      message.wrenchEffort, message.speedControl, message.maxAccel := clamped, 0.0, 0.0;
      message.mode := WrenchEffort;
      frame := message.PackData();
    }

    method SendSpeedAccel(speed: real, accel: real) returns (frame: seq<byte>)
      requires Valid()
      modifies message
      ensures Valid() && message.curCount == NextCounter(old(message.curCount))
      ensures frame == FrameBytes(Sent(SpeedControl, 0.0, speed, accel, message.curCount))
    {
      message.wrenchEffort, message.speedControl, message.maxAccel := 0.0, speed, accel;
      message.mode := SpeedControl;
      frame := message.PackData();
    }

    method SendDisable() returns (frame: seq<byte>)
      requires Valid()
      modifies message
      ensures Valid() && message.curCount == NextCounter(old(message.curCount))
      ensures frame == FrameBytes(Sent(DisableAcc, 0.0, 0.0, 0.0, message.curCount))
    {
      message.wrenchEffort, message.speedControl, message.maxAccel := 0.0, 0.0, 0.0;
      message.mode := DisableAcc;
      frame := message.PackData();
    }

    /** The control part of `sendCommands`: the frames written to the device, at most one. */
    method SendCommands(now: int) returns (written: seq<seq<byte>>)
      requires Valid()
      modifies this, message
      ensures Valid() && Model() == Step(old(Model()), Tick(now))
      ensures written == match Output(old(Model()), Tick(now))
                         case None => []
                         case Some(f) => [FrameBytes(f)]
    {
      written := [];
      if now - lastSent > PACE {
        var frame;
        wrenchActive, speedActive := false, false;
        if !roboticEnabled {
          setControl := Control(0.0, 0.0, 0.0, DisableAccSystem);
          frame := SendDisable();
          disablePrinted := false;
        } else if now - recvTime > TIMEOUT && setControl.mode != DisableAccSystem {
          setControl := setControl.(mode := DisableAccSystem);
          frame := SendDisable();
          disablePrinted := false;
        } else if setControl.mode == RoboticWrench {
          frame := SendWrenchEffort(setControl.wrench);
          disablePrinted, wrenchActive := false, true;
        } else if setControl.mode == RoboticSpeed {
          frame := SendSpeedAccel(setControl.speed, setControl.accel);
          disablePrinted, speedActive := false, true;
        } else {
          disablePrinted := true;
          frame := SendDisable();
        }
        written := [frame];
        lastSent := now;
      }
    }
  }
}
