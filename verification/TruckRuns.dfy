/**
 Safety of the truck's command path over every run.
 */
module TruckRuns {
  import opened Options
  import opened Bytes
  import opened Crc8
  import opened TruckFrames
  import opened TruckApplication
  import LossyChannel

  function After(a: App, es: seq<Event>): App {
    if es == [] then a else Step(After(a, es[..|es| - 1]), es[|es| - 1])
  }

  /** The control frame written at event `i`, if any. */
  function SentAt(a: App, es: seq<Event>, i: nat): (r: Option<Sent>)
    requires i < |es|
  {
    Output(After(a, es[..i]), es[i])
  }

  predicate Robotic(f: Sent) {
    f.mode == WrenchEffort || f.mode == SpeedControl
  }

  /** Event `i` runs a cycle that writes a disabling frame. */
  predicate DisablesAt(a: App, es: seq<Event>, i: nat)
    requires i < |es|
  {
    SentAt(a, es, i).Some? && SentAt(a, es, i).value.mode == DisableAcc
  }

  // ----- what the state remembers ----------------------------------------------------------------------

  /** The last `Enable` decides, or the start-up setting if there was none. */
  function EnabledAfter(start: bool, es: seq<Event>): bool {
    if es == [] then start
    else if es[|es| - 1].Enable? then es[|es| - 1].on
    else EnabledAfter(start, es[..|es| - 1])
  }

  lemma {:induction false} EnabledIsLast(a: App, es: seq<Event>)
    ensures After(a, es).enabled == EnabledAfter(a.enabled, es)
  {
    if es != [] {
      EnabledIsLast(a, es[..|es| - 1]);
    }
  }

  /** `j` is the most recent accepted command, and no disabling cycle has run since. */
  ghost predicate Current(a: App, es: seq<Event>, j: nat) {
    && j < |es| && Accepted(es[j])
    && forall k :: j < k < |es| ==> !Accepted(es[k]) && !DisablesAt(a, es, k)
  }

  /** The command stored in `b` is the one of event `e`. */
  predicate Holds(b: App, e: Event) {
    match e
    case WrenchCommand(now, effort) =>
      b.control.mode == RoboticWrench && b.control.wrench == effort && b.recvTime == now
    case SpeedCommand(now, speed, accel) =>
      && b.control.mode == RoboticSpeed && b.recvTime == now
      && b.control.speed == Clamp(speed, 0.0, 31.25) && b.control.accel == Clamp(accel, 0.0, 3.5)
    case _ => false
  }

  lemma PrefixSentAt(a: App, es: seq<Event>, e: Event, i: nat)
    requires i < |es|
    ensures SentAt(a, es + [e], i) == SentAt(a, es, i)
  {
    assert (es + [e])[..i] == es[..i];
  }

  lemma CurrentSnoc(a: App, es: seq<Event>, e: Event, j: nat)
    requires Current(a, es, j) && !Accepted(e) && !DisablesAt(a, es + [e], |es|)
    ensures Current(a, es + [e], j)
  {
    forall k | j < k < |es + [e]|
      ensures !Accepted((es + [e])[k]) && !DisablesAt(a, es + [e], k)
    {
      if k < |es| {
        PrefixSentAt(a, es, e, k);
      }
    }
  }

  lemma StepKeepsHeld(b: App, e: Event, c: Event)
    requires Holds(b, c) && !Accepted(e)
    ensures (Output(b, e).Some? && Output(b, e).value.mode == DisableAcc) || Holds(Step(b, e), c)
  {
  }

  lemma AcceptedHeld(b: App, e: Event)
    requires Accepted(e)
    ensures Holds(Step(b, e), e)
  {
  }

  lemma DisabledMode(b: App, e: Event)
    requires Output(b, e).Some? && Output(b, e).value.mode == DisableAcc
    ensures Step(b, e).control.mode == DisableAccSystem || Step(b, e).control.mode == NoMode
  {
  }

  lemma IdleMode(b: App, e: Event)
    requires !Accepted(e) && (b.control.mode == DisableAccSystem || b.control.mode == NoMode)
    ensures Step(b, e).control.mode == DisableAccSystem || Step(b, e).control.mode == NoMode
  {
  }

  /** A robotic mode is always that of the most recent accepted command, held unchanged
      through every cycle since. */
  lemma {:induction false} ModeHasCause(now: int, enabled: bool, es: seq<Event>) returns (j: nat)
    requires After(Start(now, enabled), es).control.mode in {RoboticWrench, RoboticSpeed}
    ensures Current(Start(now, enabled), es, j) && Holds(After(Start(now, enabled), es), es[j])
  {
    var a := Start(now, enabled);
    assert es != [];
    var n := |es| - 1;
    var before, e := es[..n], es[n];
    var b := After(a, before);
    assert es == before + [e];
    if Accepted(e) {
      j := n;
      AcceptedHeld(b, e);
    } else {
      if b.control.mode == DisableAccSystem || b.control.mode == NoMode {
        IdleMode(b, e);
      }
      if DisablesAt(a, es, n) {
        DisabledMode(b, e);
      }
      j := ModeHasCause(now, enabled, before);
      StepKeepsHeld(b, e, before[j]);
      CurrentSnoc(a, before, e, j);
    }
  }

  // ----- every robotic frame ------------------------------------------------------------------------------

  /** `f` carries the clamped values of command `e`. */
  predicate Carries(f: Sent, e: Event) {
    match e
    case WrenchCommand(_, effort) =>
      f.mode == WrenchEffort && f.wrench == Clamp(effort, -100.0, 100.0) && f.speed == f.accel == 0.0
    case SpeedCommand(_, speed, accel) =>
      f.mode == SpeedControl && f.wrench == 0.0
      && f.speed == Clamp(speed, 0.0, 31.25) && f.accel == Clamp(accel, 0.0, 3.5)
    case _ => false
  }

  function When(e: Event): int {
    match e
    case Enable(_) => 0
    case WrenchCommand(now, _) => now
    case SpeedCommand(now, _, _) => now
    case Tick(now) => now
  }

  lemma RoboticOutput(b: App, e: Event)
    requires Output(b, e).Some? && Robotic(Output(b, e).value)
    ensures b.enabled && b.control.mode in {RoboticWrench, RoboticSpeed} && When(e) - b.recvTime <= 300_000_000
  {
  }

  lemma HeldIsSent(b: App, e: Event, c: Event)
    requires Output(b, e).Some? && Robotic(Output(b, e).value) && Holds(b, c)
    ensures Carries(Output(b, e).value, c) && When(e) - When(c) <= 300_000_000
  {
  }

  /** In every run, every control frame in wrench or speed mode is written while robotic is
      enabled, and carries the clamped values of the most recent accepted command, received at
      most 0.3 s earlier and with no disabling cycle since; so a command received before a
      disabled or timed-out cycle is never sent after it. */
  lemma RoboticFrameHasCause(now: int, enabled: bool, es: seq<Event>, i: nat) returns (j: nat)
    requires i < |es| && SentAt(Start(now, enabled), es, i).Some?
    requires Robotic(SentAt(Start(now, enabled), es, i).value)
    ensures EnabledAfter(enabled, es[..i])
    ensures j < i && Accepted(es[j]) && Carries(SentAt(Start(now, enabled), es, i).value, es[j])
    ensures When(es[i]) - When(es[j]) <= 300_000_000
    ensures forall k :: j < k < i ==> !Accepted(es[k]) && !DisablesAt(Start(now, enabled), es, k)
  {
    var a := Start(now, enabled);
    var b := After(a, es[..i]);
    EnabledIsLast(a, es[..i]);
    RoboticOutput(b, es[i]);
    j := ModeHasCause(now, enabled, es[..i]);
    HeldIsSent(b, es[i], es[..i][j]);
    forall k | j < k < i
      ensures !Accepted(es[k]) && !DisablesAt(a, es, k)
    {
      assert es[..i][..k] == es[..k] && es[..i][k] == es[k];
      assert !DisablesAt(a, es[..i], k);
    }
  }

  /** The most recent accepted command is held as long as no disabling cycle has run. */
  lemma {:induction false} CurrentIsHeld(a: App, es: seq<Event>, j: nat)
    requires Current(a, es, j)
    ensures Holds(After(a, es), es[j])
    decreases |es|
  {
    var n := |es| - 1;
    var b := After(a, es[..n]);
    if j == n {
      AcceptedHeld(b, es[n]);
    } else {
      assert !Accepted(es[n]) && !DisablesAt(a, es, n);
      forall k | j < k < n
        ensures !Accepted(es[..n][k]) && !DisablesAt(a, es[..n], k)
      {
        assert es[..n][..k] == es[..k] && !DisablesAt(a, es, k) && !Accepted(es[k]);
      }
      CurrentIsHeld(a, es[..n], j);
      StepKeepsHeld(b, es[n], es[j]);
    }
  }

  lemma HeldGoesOut(b: App, now: int, c: Event)
    requires Holds(b, c) && Due(b, now) && b.enabled && now - When(c) <= 300_000_000
    ensures Emitted(b, now).Some? && Carries(Emitted(b, now).value, c)
  {
  }

  /** Conversely, whenever a control frame is due and robotic is enabled, the most recent
      accepted command goes out if it is at most 0.3 s old and no disabling cycle has run
      since it came. */
  lemma FreshCommandIsSent(a: App, es: seq<Event>, i: nat, j: nat)
    requires i < |es| && es[i].Tick? && When(es[i]) - LastFrameTime(a, es[..i]) > 20_000_000
    requires EnabledAfter(a.enabled, es[..i]) && Current(a, es[..i], j)
    requires When(es[i]) - When(es[j]) <= 300_000_000
    ensures SentAt(a, es, i).Some? && Carries(SentAt(a, es, i).value, es[j])
  {
    LastSentIsLast(a, es[..i]);
    EnabledIsLast(a, es[..i]);
    CurrentIsHeld(a, es[..i], j);
    HeldGoesOut(After(a, es[..i]), When(es[i]), es[j]);
  }

  /** The raw fields of every frame stay in range, so packing never wraps. */
  lemma RawInRange(now: int, enabled: bool, es: seq<Event>, i: nat)
    requires i < |es| && SentAt(Start(now, enabled), es, i).Some?
    ensures var f := SentAt(Start(now, enabled), es, i).value;
            && 0 <= WrenchRaw(f.wrench) <= 8000
            && 0 <= RateRaw(f.speed) <= 3600
            && 0 <= RateRaw(f.accel) <= 403
  {
    hide WrenchRaw, RateRaw;
    var f := SentAt(Start(now, enabled), es, i).value;
    if Robotic(f) {
      var j := RoboticFrameHasCause(now, enabled, es, i);
    }
    WrenchRange(f.wrench);
    RateRange(f.speed);
    RateRange(f.accel);
  }

  // ----- pacing ------------------------------------------------------------------------------------------------

  /** The time of the last control frame, or of start-up if there is none. */
  function LastFrameTime(a: App, es: seq<Event>): int {
    if es == [] then a.lastSent
    else if SentAt(a, es, |es| - 1).Some? then When(es[|es| - 1])
    else LastFrameTime(a, es[..|es| - 1])
  }

  lemma {:induction false} LastSentIsLast(a: App, es: seq<Event>)
    ensures After(a, es).lastSent == LastFrameTime(a, es)
  {
    if es != [] {
      LastSentIsLast(a, es[..|es| - 1]);
    }
  }

  /** A tick writes a control frame exactly when it comes more than 20 ms after the frame before
      (or after start-up), and nothing else does. */
  lemma FramesPaced(a: App, es: seq<Event>, i: nat)
    requires i < |es|
    ensures SentAt(a, es, i).Some? <==> es[i].Tick? && When(es[i]) - LastFrameTime(a, es[..i]) > 20_000_000
  {
    LastSentIsLast(a, es[..i]);
  }

  // ----- the published status ------------------------------------------------------------------------------------

  /** The last control frame written. */
  function LastFrame(a: App, es: seq<Event>): (r: Option<Sent>) {
    if es == [] then None
    else if SentAt(a, es, |es| - 1).Some? then SentAt(a, es, |es| - 1)
    else LastFrame(a, es[..|es| - 1])
  }

  /** The robot is reported active exactly when the last control frame was a robotic one. */
  lemma {:induction false} ActiveIffRobotic(now: int, enabled: bool, es: seq<Event>)
    ensures var b := After(Start(now, enabled), es);
            var f := LastFrame(Start(now, enabled), es);
            && b.wrenchActive == (f.Some? && f.value.mode == WrenchEffort)
            && b.speedActive == (f.Some? && f.value.mode == SpeedControl)
  {
    if es != [] {
      ActiveIffRobotic(now, enabled, es[..|es| - 1]);
    }
  }

  // ----- the frames as the peer sees them --------------------------------------------------------------------------

  /** All control frames of a run, in order. */
  function Frames(a: App, es: seq<Event>): (r: seq<Sent>) {
    if es == [] then []
    else
      var r := Frames(a, es[..|es| - 1]);
      if SentAt(a, es, |es| - 1).Some? then r + [SentAt(a, es, |es| - 1).value] else r
  }

  lemma {:induction false} FramesNumbered(now: int, enabled: bool, es: seq<Event>, k: nat)
    requires k < |Frames(Start(now, enabled), es)|
    ensures Frames(Start(now, enabled), es)[k].counter == LossyChannel.SentCounter(0, k)
  {
    var a := Start(now, enabled);
    var n := |es| - 1;
    if k < |Frames(a, es[..n])| {
      FramesNumbered(now, enabled, es[..n], k);
    } else {
      CounterCounts(now, enabled, es[..n]);
    }
  }

  lemma {:induction false} CounterCounts(now: int, enabled: bool, es: seq<Event>)
    ensures var k := |Frames(Start(now, enabled), es)|;
            After(Start(now, enabled), es).counter == if k == 0 then 0 else LossyChannel.SentCounter(0, k - 1)
  {
    if es != [] {
      CounterCounts(now, enabled, es[..|es| - 1]);
    }
  }

  lemma {:induction false} FramesInRange(now: int, enabled: bool, es: seq<Event>, k: nat)
    requires k < |Frames(Start(now, enabled), es)|
    ensures var f := Frames(Start(now, enabled), es)[k];
            && 0 <= WrenchRaw(f.wrench) <= 8000 && 0 <= RateRaw(f.speed) <= 3600 && 0 <= RateRaw(f.accel) <= 403
  {
    var a := Start(now, enabled);
    var n := |es| - 1;
    if k < |Frames(a, es[..n])| {
      FramesInRange(now, enabled, es[..n], k);
    } else {
      RawInRange(now, enabled, es, n);
    }
  }

  /** The bytes written in a run. */
  function Written(now: int, enabled: bool, es: seq<Event>): (r: seq<LossyChannel.FrameData>)
    ensures |r| == |Frames(Start(now, enabled), es)|
    ensures forall k :: 0 <= k < |r| ==>
              Frames(Start(now, enabled), es)[k].counter < 16 && r[k] == FrameBytes(Frames(Start(now, enabled), es)[k])
  {
    var fs := Frames(Start(now, enabled), es);
    assert forall k :: 0 <= k < |fs| ==> fs[k].counter < 16 by {
      forall k | 0 <= k < |fs|
        ensures fs[k].counter < 16
      {
        FramesNumbered(now, enabled, es, k);
      }
    }
    seq(|fs|, k requires 0 <= k < |fs| => FrameBytes(fs[k]))
  }

  /** What a receiver reads back from the `k`-th frame of a run. */
  lemma WrittenReadsBack(now: int, enabled: bool, es: seq<Event>, k: nat)
    requires k < |Written(now, enabled, es)|
    ensures var f, d := Frames(Start(now, enabled), es)[k], Written(now, enabled, es)[k];
            && CrcOk(d) && CounterOf(d[6]) == LossyChannel.SentCounter(0, k) && ModeOf(d[6]) == f.mode
            && RawOf(d) == Raw(WrenchRaw(f.wrench), RateRaw(f.speed), RateRaw(f.accel))
  {
    hide WrenchRaw, RateRaw, CrcOk, ModeOf, CounterOf, RawOf, Packed;
    var f := Frames(Start(now, enabled), es)[k];
    FramesInRange(now, enabled, es, k);
    FramesNumbered(now, enabled, es, k);
    PackedRoundTrip(Raw(WrenchRaw(f.wrench), RateRaw(f.speed), RateRaw(f.accel)), 0xFF, f.mode, f.counter);
  }

  /** The bytes of a control frame: three little-endian fields, the control byte and the check byte. */
  predicate WireMeans(d: LossyChannel.FrameData, f: Sent, counter: nat) {
    && WrenchMeans(d[0] as int + 256 * d[1] as int, f.wrench)
    && RateMeans(d[2] as int + 256 * d[3] as int, f.speed)
    && RateMeans(d[4] as int + 256 * d[5] as int, f.accel)
    && ControlMeans(d[6], 3, f.mode, counter)
    && CrcOk(d)
  }

  /** The `k`-th frame of every run on the wire: the fields scaled as the truck reads them, the mode bits
      0, 1 or 2 for a disabling, wrench or speed frame, the counter one more than `k` modulo 16. */
  lemma WrittenOnWire(now: int, enabled: bool, es: seq<Event>, k: nat)
    requires k < |Written(now, enabled, es)|
    ensures var f := Frames(Start(now, enabled), es)[k];
            f.mode != ReservedMode && WireMeans(Written(now, enabled, es)[k], f, (k + 1) % 16)
  {
    hide WrenchRaw, RateRaw, CrcOk, Packed, ControlMeans, WrenchMeans, RateMeans, RawOf;
    var f, d := Frames(Start(now, enabled), es)[k], Written(now, enabled, es)[k];
    WrittenReadsBack(now, enabled, es, k);
    FramesNumbered(now, enabled, es, k);
    LossyChannel.SentCounterAt(0, k);
    FrameModes(now, enabled, es, k);
    FieldBytes(d);
    FrameControl(f);
    WrenchRawMeans(f.wrench);
    RateRawMeans(f.speed);
    RateRawMeans(f.accel);
  }

  lemma FieldBytes(d: LossyChannel.FrameData)
    ensures var r := RawOf(d);
            && r.wrench == d[0] as int + 256 * d[1] as int
            && r.speed == d[2] as int + 256 * d[3] as int
            && r.accel == d[4] as int + 256 * d[5] as int
  {
  }

  lemma FrameControl(f: Sent)
    requires f.counter < 16
    ensures ControlMeans(FrameBytes(f)[6], 3, f.mode, f.counter)
  {
    hide ControlByte, ModeBits, Checksum;
    ControlByteMeans(0xFF, f.mode, f.counter);
    SameReserved(0xFF, 3, f.mode, f.counter);
  }

  lemma SameReserved(a: byte, b: byte, mode: Mode, counter: nat)
    requires a % 4 == b % 4 && counter < 16
    ensures forall x: byte :: ControlMeans(x, a, mode, counter) <==> ControlMeans(x, b, mode, counter)
  {
  }

  lemma {:induction false} FrameModes(now: int, enabled: bool, es: seq<Event>, k: nat)
    requires k < |Frames(Start(now, enabled), es)|
    ensures var f := Frames(Start(now, enabled), es)[k];
            f.mode != ReservedMode && f.speed >= 0.0 && f.accel >= 0.0
  {
    var a, n := Start(now, enabled), |es| - 1;
    if k < |Frames(a, es[..n])| {
      FrameModes(now, enabled, es[..n], k);
    } else if Robotic(SentAt(a, es, n).value) {
      var j := RoboticFrameHasCause(now, enabled, es, n);
    }
  }

  /** End to end: whatever the run, if never more than six consecutive control frames are lost,
      a receiver with PropB_12's checks accepts every frame that arrives (the first one if it
      starts in step, the later ones from whatever counter it held) and reads back that
      frame's raw fields and mode. */
  lemma EndToEnd(now: int, enabled: bool, es: seq<Event>, start: nat, arrive: seq<nat>, i: nat)
    requires start < 16 && LossyChannel.Arrivals(arrive, |Written(now, enabled, es)|) && i < |arrive|
    requires if i == 0 then start == 0 && arrive[0] <= 6 else arrive[i] - arrive[i - 1] - 1 <= 6
    ensures LossyChannel.AcceptedAt(start, Written(now, enabled, es), arrive, i)
    ensures var f, d := Frames(Start(now, enabled), es)[arrive[i]], Written(now, enabled, es)[arrive[i]];
            ModeOf(d[6]) == f.mode && RawOf(d) == Raw(WrenchRaw(f.wrench), RateRaw(f.speed), RateRaw(f.accel))
  {
    hide WrenchRaw, RateRaw, CrcOk, ModeOf, CounterOf, RawOf, Packed;
    var frames := Written(now, enabled, es);
    forall k | 0 <= k < |frames|
      ensures CrcOk(frames[k]) && CounterOf(frames[k][6]) == LossyChannel.SentCounter(0, k)
    {
      WrittenReadsBack(now, enabled, es, k);
    }
    LossyChannel.NoneRefused(start, frames, 0, arrive, i);
    WrittenReadsBack(now, enabled, es, arrive[i]);
  }
}
