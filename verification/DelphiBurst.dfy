/**
 The Delphi radar client's burst synchroniser: `isExpectedID` and `process` as one step on
 the static flags and the shared burst data.  Decoding is left to the payload: what is
 stored is the payload of the frame a field was taken from, and for motion/power its
 position inside the 0x540 frame.
 */
module DelphiBurst {
  import opened Options

  /** A CAN frame; `group` is the group number the decoder reads from a 0x540 payload. */
  datatype Frame<P> = Frame(id: nat, isError: bool, stamp: int, data: P, group: nat)

  /** Motion and power of a track: entry `index` of a 0x540 payload. */
  datatype Motion<P> = Motion(data: P, index: nat)

  datatype Burst<P> = Burst(stamp: int, status: seq<P>, tracks: seq<P>, motion: seq<Motion<P>>)

  datatype Sync<P> = Sync(lastId: nat, inSync: bool, invalid: bool, burst: Burst<P>)

  const TRACKS: nat := 64
  /** Tracks per 0x540 frame. */
  const STRIDE: nat := 7

  predicate Sized<P>(b: Burst<P>) {
    |b.status| == 9 && |b.tracks| == TRACKS && |b.motion| == TRACKS
  }

  // ----- identifiers -------------------------------------------------------------------------

  predicate IsStatus(id: nat) {
    0x4E0 <= id <= 0x4E3 || 0x5E4 <= id <= 0x5E8
  }

  function StatusIndex(id: nat): (k: nat)
    requires IsStatus(id)
    ensures k < 9
  {
    if id <= 0x4E3 then id - 0x4E0 else id - 0x5E4 + 4
  }

  predicate IsTrack(id: nat) {
    0x500 <= id <= 0x53F
  }

  /** The identifiers that have a case of their own in `process`. */
  predicate Handled(id: nat) {
    IsStatus(id) || IsTrack(id) || id == 0x540
  }

  /** The new `in_sync` of `isExpectedID`. */
  function Expected(lastId: nat, inSync: bool, id: nat): bool {
    if 0x4E0 <= id <= 0x5E8 && !(0x5B0 <= id <= 0x5BE) then
      if id == 0x4E0 then true
      else if id == 0x500 then inSync && lastId == 0x4E3
      else if id == 0x540 then inSync && (lastId == 0x53F || lastId == 0x540)
      else if id == 0x5D0 then inSync && lastId == 0x540
      else if id == 0x5E4 then inSync && (lastId == 0x540 || lastId == 0x5D1)
      else inSync && lastId == id - 1
    else inSync
  }

  // ----- one frame ------------------------------------------------------------------------------

  function WithMotion<P>(m: seq<Motion<P>>, group: nat, data: P): (r: seq<Motion<P>>)
    ensures |r| == |m|
    ensures forall t :: 0 <= t < |m| ==> r[t] == if t / STRIDE == group then Motion(data, t % STRIDE) else m[t]
  {
    seq(|m|, t requires 0 <= t < |m| => if t / STRIDE == group then Motion(data, t % STRIDE) else m[t])
  }

  /** What a handled frame writes into the burst data, in sequence or not. */
  function Store<P>(b: Burst<P>, f: Frame<P>): (r: Burst<P>)
    requires Sized(b)
    ensures Sized(r)
  {
    if IsStatus(f.id) then
      b.(stamp := if f.id == 0x4E0 then f.stamp else b.stamp,
         status := b.status[StatusIndex(f.id) := f.data])
    else if IsTrack(f.id) then b.(tracks := b.tracks[f.id - 0x500 := f.data])
    else if f.id == 0x540 then b.(motion := WithMotion(b.motion, f.group, f.data))
    else b
  }

  predicate Relevant<P>(f: Frame<P>) {
    !f.isError && Handled(f.id)
  }

  predicate IsStart<P>(f: Frame<P>) {
    Relevant(f) && f.id == 0x4E0
  }

  function Step<P>(s: Sync<P>, f: Frame<P>): (r: Sync<P>)
    requires Sized(s.burst)
    ensures Sized(r.burst)
  {
    if f.isError || (s.invalid && f.id != 0x4E0) || !Handled(f.id) then s
    else
      var ok := Expected(s.lastId, s.inSync, f.id);
      Sync(f.id, ok, !ok, Store(s.burst, f))
  }

  /** The burst signalled by `f`, if any. */
  function Signalled<P>(s: Sync<P>, f: Frame<P>): (r: Option<Burst<P>>)
    requires Sized(s.burst)
  {
    if Relevant(f) && !s.invalid && f.id == 0x5E8 && !Step(s, f).invalid then Some(Step(s, f).burst) else None
  }

  /** The client object; the static locals of the source are fields here. */
  class Client<P> {
    var lastId: nat
    var inSync: bool
    var invalidData: bool
    var stamp: int
    var status: seq<P>
    var tracks: seq<P>
    var motion: seq<Motion<P>>

    ghost function Model(): Sync<P>
      reads this
    {
      Sync(lastId, inSync, invalidData, Burst(stamp, status, tracks, motion))
    }

    ghost predicate Valid()
      reads this
    {
      |status| == 9 && |tracks| == TRACKS && |motion| == TRACKS
    }

    constructor (blank: P)
      ensures Valid() && Model() == Initial(blank)
    {
      lastId, inSync, invalidData, stamp := 0, true, false, 0;
      status, tracks, motion := seq(9, _ => blank), seq(TRACKS, _ => blank), seq(TRACKS, _ => Motion(blank, 0));
    }

    method IsExpectedId(id: nat) returns (ok: bool)
      modifies this`lastId, this`inSync
      ensures lastId == id && inSync == ok == Expected(old(lastId), old(inSync), id)
    {
      if 0x4E0 <= id && 0x5E8 >= id && !(0x5B0 <= id && 0x5BE >= id) {
        if id == 0x4E0 {
          inSync := true;
        } else if id == 0x500 {
          if lastId != 0x4E3 { inSync := false; }
        } else if id == 0x540 {
          if lastId != 0x53F && lastId != 0x540 { inSync := false; }
        } else if id == 0x5D0 {
          if lastId != 0x540 { inSync := false; }
        } else if id == 0x5E4 {
          if lastId != 0x540 && lastId != 0x5D1 { inSync := false; }
        } else {
          if lastId != id - 1 { inSync := false; }
        }
      }
      lastId := id;
      return inSync;
    }

    /** Writes the seven entries of a 0x540 frame, as far as there are slots for them. */
    method SetMovePower(group: nat, data: P)
      requires Valid()
      modifies this`motion
      ensures motion == WithMotion(old(motion), group, data)
    {
      ghost var before := motion;
      for i := 0 to STRIDE
        invariant |motion| == TRACKS == |before|
        invariant forall t :: 0 <= t < TRACKS ==>
                    motion[t] == if t / STRIDE == group && t % STRIDE < i then Motion(data, t % STRIDE) else before[t]
      {
        if group * STRIDE + i < |motion| {
          motion := motion[group * STRIDE + i := Motion(data, i)];
        }
      }
    }

    method Process(f: Frame<P>) returns (delivered: Option<Burst<P>>)
      requires Valid()
      modifies this
      ensures Valid() && Model() == Step(old(Model()), f)
      ensures delivered == Signalled(old(Model()), f)
    {
      delivered := None;
      if f.isError {
        return;
      }
      if invalidData && f.id != 0x4E0 {
        return;
      }
      if IsStatus(f.id) {
        if f.id == 0x4E0 {
          stamp := f.stamp;
        }
        var ok := IsExpectedId(f.id);
        invalidData := !ok;
        status := status[StatusIndex(f.id) := f.data];
        if f.id == 0x5E8 && !invalidData {
          delivered := Some(Burst(stamp, status, tracks, motion));
        }
      } else if IsTrack(f.id) {
        var ok := IsExpectedId(f.id);
        invalidData := !ok;
        var idx := f.id - 0x500;
        if idx < |tracks| {
          tracks := tracks[idx := f.data];
        }
      } else if f.id == 0x540 {
        var ok := IsExpectedId(f.id);
        invalidData := !ok;
        SetMovePower(f.group, f.data);
      }
    }
  }

  function Initial<P>(blank: P): (s: Sync<P>)
    ensures Sized(s.burst)
  {
    Sync(0, true, false,
         Burst(0, seq(9, _ => blank), seq(TRACKS, _ => blank), seq(TRACKS, _ => Motion(blank, 0))))
  }

  // ----- streams -----------------------------------------------------------------------------------

  function After<P>(s: Sync<P>, fs: seq<Frame<P>>): (r: Sync<P>)
    requires Sized(s.burst)
    ensures Sized(r.burst)
  {
    if fs == [] then s else Step(After(s, fs[..|fs| - 1]), fs[|fs| - 1])
  }

  /** What the `i`-th frame of the stream signals. */
  function SignalledAt<P>(s: Sync<P>, fs: seq<Frame<P>>, i: nat): (r: Option<Burst<P>>)
    requires Sized(s.burst) && i < |fs|
  {
    Signalled(After(s, fs[..i]), fs[i])
  }

  function RelevantOf<P>(fs: seq<Frame<P>>): (r: seq<Frame<P>>)
    ensures forall k :: 0 <= k < |r| ==> Relevant(r[k])
  {
    if fs == [] then []
    else
      var r := RelevantOf(fs[..|fs| - 1]);
      if Relevant(fs[|fs| - 1]) then r + [fs[|fs| - 1]] else r
  }

  function Ids<P>(fs: seq<Frame<P>>): (r: seq<nat>)
    ensures |r| == |fs| && forall k :: 0 <= k < |fs| ==> r[k] == fs[k].id
  {
    seq(|fs|, k requires 0 <= k < |fs| => fs[k].id)
  }

  /** `p` is the last 0x4E0 of the stream. */
  predicate LastStart<P>(fs: seq<Frame<P>>, p: nat) {
    p < |fs| && IsStart(fs[p]) && forall k :: p < k < |fs| ==> !IsStart(fs[k])
  }
}
