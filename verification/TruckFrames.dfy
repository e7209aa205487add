/**
 The truck's control frame (PropB_10), its echo (PropB_12, same layout) and the rolling
 counter and CRC both sides keep.
 */
module TruckFrames {
  import opened Bytes
  import opened Crc8

  // ----- bytes -----------------------------------------------------------------------------------

  function LowByte(v: int): byte {
    v % 256
  }

  function HighByte(v: int): byte {
    v / 256 % 256
  }

  lemma WordSplit(v: int)
    ensures Word(HighByte(v), LowByte(v)) == v % 65536
  {
    var q, r := v / 65536, v % 65536;
    assert v == 65536 * q + r;
    assert v / 256 == 256 * q + r / 256;
    assert v % 256 == r % 256;
  }

  // ----- the rolling counter ---------------------------------------------------------------------------

  function NextCounter(c: nat): (r: nat)
    ensures r < 16
  {
    if c >= 15 then 0 else c + 1
  }

  /** `checkMessageCounter` on the counter found in the message. */
  predicate CounterAccepted(msg: nat, cur: nat) {
    if cur + 8 > 15 then
      (msg > cur && msg <= 15) || (msg < cur && msg < cur - 7)
    else
      msg > cur && msg < cur + 8
  }

  /** How many steps `msg` is ahead of `cur`. */
  function Ahead(msg: nat, cur: nat): nat
    requires msg < 16 && cur < 16
  {
    (msg - cur) % 16
  }

  /** A counter is accepted exactly when it is one to seven steps ahead, or eight steps ahead
      of a counter in the upper half. */
  lemma AcceptedExactly(msg: nat, cur: nat)
    requires msg < 16 && cur < 16
    ensures CounterAccepted(msg, cur) <==> 1 <= Ahead(msg, cur) <= 7 || (Ahead(msg, cur) == 8 && cur >= 8)
  {
  }

  /** Of two different counters exactly one direction is accepted; of equal ones, none. */
  lemma OneDirection(a: nat, b: nat)
    requires a < 16 && b < 16
    ensures a != b ==> (CounterAccepted(a, b) <==> !CounterAccepted(b, a))
    ensures !CounterAccepted(a, a)
  {
  }

  // ----- packing ------------------------------------------------------------------------------------------

  datatype Mode = DisableAcc | WrenchEffort | SpeedControl | ReservedMode

  function ModeBits(m: Mode): (r: nat)
    ensures r < 4
  {
    match m case DisableAcc => 0 case WrenchEffort => 1 case SpeedControl => 2 case ReservedMode => 3
  }

  function ModeOf(b: byte): Mode {
    match b / 4 % 4 case 0 => DisableAcc case 1 => WrenchEffort case 2 => SpeedControl case _ => ReservedMode
  }

  /** Two reserved bits, two mode bits, four counter bits, from the lowest up. */
  function ControlByte(reserved: byte, mode: nat, counter: nat): byte {
    reserved % 4 + 4 * (mode % 4) + 16 * (counter % 16)
  }

  function CounterOf(b: byte): (c: nat)
    ensures c < 16
  {
    b / 16
  }

  /** The control byte on the wire: the low two bits reserved, the next two 0 for a disabling, 1 for a
      wrench and 2 for a speed frame, the high four the counter. */
  predicate ControlMeans(b: byte, reserved: byte, mode: Mode, counter: nat) {
    b as int == reserved as int % 4 + 16 * counter + (match mode
      case DisableAcc => 0
      case WrenchEffort => 4
      case SpeedControl => 8
      case ReservedMode => 12)
  }

  lemma ControlByteMeans(reserved: byte, mode: Mode, counter: nat)
    requires counter < 16
    ensures ControlMeans(ControlByte(reserved, ModeBits(mode), counter), reserved, mode, counter)
  {
  }

  lemma ControlByteFields(reserved: byte, mode: Mode, counter: nat)
    requires counter < 16
    ensures var b := ControlByte(reserved, ModeBits(mode), counter);
            ModeOf(b) == mode && CounterOf(b) == counter && b % 4 == reserved % 4
  {
    NibbleFields(reserved % 4, ModeBits(mode), counter);
  }

  lemma NibbleFields(r: nat, m: nat, c: nat)
    requires r < 4 && m < 4 && c < 16
    ensures var b := r + 4 * m + 16 * c; b / 16 == c && b / 4 % 4 == m && b % 4 == r
  {
    var b := r + 4 * m + 16 * c;
    assert b / 4 == m + 4 * c;
  }

  /** The raw 16-bit fields of a control frame. */
  datatype Raw = Raw(wrench: int, speed: int, accel: int)

  predicate Fits(r: Raw) {
    0 <= r.wrench < 65536 && 0 <= r.speed < 65536 && 0 <= r.accel < 65536
  }

  function Body(raw: Raw, reserved: byte, mode: Mode, counter: nat): (r: seq<byte>)
    requires counter < 16
    ensures |r| == 7
  {
    [LowByte(raw.wrench), HighByte(raw.wrench), LowByte(raw.speed), HighByte(raw.speed),
     LowByte(raw.accel), HighByte(raw.accel), ControlByte(reserved, ModeBits(mode), counter)]
  }

  function Packed(raw: Raw, reserved: byte, mode: Mode, counter: nat): (r: seq<byte>)
    requires counter < 16
    ensures |r| == 8
  {
    var body := Body(raw, reserved, mode, counter);
    body + [Checksum(body)]
  }

  function RawOf(data: seq<byte>): Raw
    requires |data| == 8
  {
    Raw(Word(data[1], data[0]), Word(data[3], data[2]), Word(data[5], data[4]))
  }

  /** Every packed frame passes the CRC check and gives back its raw fields, its mode and its
      counter. */
  lemma PackedRoundTrip(raw: Raw, reserved: byte, mode: Mode, counter: nat)
    requires counter < 16 && Fits(raw)
    ensures var d := Packed(raw, reserved, mode, counter);
            CrcOk(d) && RawOf(d) == raw && ModeOf(d[6]) == mode && CounterOf(d[6]) == counter
  {
    hide Checksum, ControlByte, LowByte, HighByte, Word, ModeOf, CounterOf;
    var d := Packed(raw, reserved, mode, counter);
    assert d[..7] == Body(raw, reserved, mode, counter);
    WordSplit(raw.wrench);
    WordSplit(raw.speed);
    WordSplit(raw.accel);
    ControlByteFields(reserved, mode, counter);
  }

  // ----- scaling -------------------------------------------------------------------------------------------

  /** Conversion to an integer type truncates toward zero. */
  function Trunc(x: real): int {
    if x >= 0.0 then x.Floor else -((-x).Floor)
  }

  function WrenchRaw(effort: real): int {
    Trunc(effort / 0.025) + 4000
  }

  function RateRaw(v: real): int {
    Trunc(v * 3.6 / 0.03125)
  }

  lemma TruncError(x: real)
    ensures x >= 0.0 ==> 0.0 <= x - Trunc(x) as real < 1.0 && Trunc(x) >= 0
    ensures x <= 0.0 ==> -1.0 < x - Trunc(x) as real <= 0.0 && Trunc(x) <= 0
  {
  }

  lemma WrenchRange(effort: real)
    requires -100.0 <= effort <= 100.0
    ensures 0 <= WrenchRaw(effort) <= 8000
  {
    TruncError(effort / 0.025);
  }

  /** An effort on the wire: 40 steps per percent, rounded toward zero, 4000 for none. */
  predicate WrenchMeans(raw: int, effort: real) {
    var steps := (raw - 4000) as real;
    if effort >= 0.0 then steps <= 40.0 * effort < steps + 1.0 else steps - 1.0 < 40.0 * effort <= steps
  }

  lemma WrenchRawMeans(effort: real)
    ensures WrenchMeans(WrenchRaw(effort), effort)
  {
    TruncError(effort / 0.025);
  }

  /** A speed or acceleration on the wire: 115.2 steps per metre per second, rounded down. */
  predicate RateMeans(raw: int, v: real) {
    raw as real <= 115.2 * v < raw as real + 1.0
  }

  lemma RateRawMeans(v: real)
    requires v >= 0.0
    ensures RateMeans(RateRaw(v), v)
  {
    TruncError(v * 3.6 / 0.03125);
  }

  lemma RateRange(v: real)
    requires v >= 0.0
    ensures RateRaw(v) >= 0
    ensures v <= 31.25 ==> RateRaw(v) <= 3600
    ensures v <= 3.5 ==> RateRaw(v) <= 403
  {
    TruncError(v * 3.6 / 0.03125);
  }

  function RateEcho(raw: int): real {
    raw as real * 0.03125
  }

  /** The echoed rate, in km/h, is the commanded one rounded down to the next 1/32. */
  lemma RateEchoError(v: real)
    requires v >= 0.0
    ensures 0.0 <= v * 3.6 - RateEcho(RateRaw(v)) < 0.03125
  {
    TruncError(v * 3.6 / 0.03125);
  }

  function WrenchEcho(raw: int): real {
    raw as real * 0.025 - 4000.0
  }

  /** The echoed wrench effort is not the commanded one: the offset is taken off after scaling,
      so it is 3900 too low, up to the rounding of one step. */
  lemma WrenchEchoOffset(effort: real)
    ensures -0.025 < effort - (WrenchEcho(WrenchRaw(effort)) + 3900.0) < 0.025
    ensures WrenchEcho(WrenchRaw(effort)) != effort
  {
    TruncError(effort / 0.025);
  }

  // ----- the messages ----------------------------------------------------------------------------------------

  /** PropB_10, the command the controller sends. */
  class CommandMessage {
    var wrenchEffort: real
    var speedControl: real
    var maxAccel: real
    var reserved: byte
    var mode: Mode
    var curCount: nat

    constructor ()
      ensures wrenchEffort == speedControl == maxAccel == 0.0
      ensures reserved == 0xFF && mode == DisableAcc && curCount == 0
    {
      wrenchEffort, speedControl, maxAccel := 0.0, 0.0, 0.0;
      reserved, mode, curCount := 0xFF, DisableAcc, 0;
    }

    ghost function RawFields(): Raw
      reads this
    {
      Raw(WrenchRaw(wrenchEffort), RateRaw(speedControl), RateRaw(maxAccel))
    }

    method PackData() returns (frame: seq<byte>)
      modifies this`curCount
      ensures curCount == NextCounter(old(curCount))
      ensures frame == Packed(RawFields(), reserved, mode, curCount)
      ensures ControlMeans(frame[6], reserved, mode, curCount)
    {
      var w, s, a := WrenchRaw(wrenchEffort), RateRaw(speedControl), RateRaw(maxAccel);
      var data := [LowByte(w), HighByte(w), LowByte(s), HighByte(s), LowByte(a), HighByte(a)];
      curCount := NextCounter(curCount);
      data := data + [ControlByte(reserved, ModeBits(mode), curCount)];
      ControlByteMeans(reserved, mode, curCount);
      assert data == Body(RawFields(), reserved, mode, curCount);
      frame := data + [Checksum(data)];
    }
  }

  /** PropB_12, the echo the controller receives. */
  class EchoMessage {
    var wrenchEcho: real
    var speedEcho: real
    var accelEcho: real
    var reserved: byte
    var mode: Mode
    var rollingCounter: nat
    var checkValue: byte
    var isValid: bool

    constructor ()
      ensures rollingCounter == 0 && mode == DisableAcc
    {
      wrenchEcho, speedEcho, accelEcho, reserved := 0.0, 0.0, 0.0, 0xFF;
      mode, rollingCounter, checkValue, isValid := DisableAcc, 0, 0xFF, false;
    }

    /** The counter is taken over from every frame, the fields only from accepted ones. */
    method SetData(data: seq<byte>)
      requires |data| == 8
      modifies this
      ensures isValid == Accepts(old(rollingCounter), data)
      ensures rollingCounter == CounterOf(data[6]) && checkValue == data[7]
      ensures isValid ==>
                && wrenchEcho == WrenchEcho(RawOf(data).wrench)
                && speedEcho == RateEcho(RawOf(data).speed)
                && accelEcho == RateEcho(RawOf(data).accel)
                && mode == ModeOf(data[6]) && reserved == data[6] % 4
      ensures !isValid ==>
                && wrenchEcho == old(wrenchEcho) && speedEcho == old(speedEcho) && accelEcho == old(accelEcho)
                && mode == old(mode) && reserved == old(reserved)
    {
      var crc := CheckMessageCrc(data, 8);
      assert data[..8] == data;
      isValid := crc && CounterAccepted(CounterOf(data[6]), rollingCounter);
      if isValid {
        wrenchEcho := Word(data[1], data[0]) as real * 0.025 - 4000.0;
        speedEcho := Word(data[3], data[2]) as real * 0.03125;
        accelEcho := Word(data[5], data[4]) as real * 0.03125;
        reserved := data[6] % 4;
        mode := ModeOf(data[6]);
      }
      rollingCounter := CounterOf(data[6]);
      checkValue := data[7];
    }
  }

  predicate Accepts(counter: nat, data: seq<byte>)
    requires |data| == 8
  {
    CrcOk(data) && CounterAccepted(CounterOf(data[6]), counter)
  }

  /** The echo frame of the repository's parsing test: accepted by a fresh receiver, with the
      values the test expects. */
  lemma KnownEcho()
    ensures var d := [0x0A, 0x00, 0x64, 0x00, 0x10, 0x00, 0x17, 0x56];
            && Accepts(0, d) && CounterOf(d[6]) == 1
            && WrenchEcho(RawOf(d).wrench) == 0.25 - 4000.0
            && RateEcho(RawOf(d).speed) == 3.125 && RateEcho(RawOf(d).accel) == 0.5
            && ModeOf(d[6]) == WrenchEffort && d[6] % 4 == 3
  {
    hide CrcOk;
    EchoFramePasses();
  }
}
