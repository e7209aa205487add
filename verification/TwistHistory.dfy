/**
 `TwistHistoryBuffer`: one history buffer of stamped velocities per frame, and the
 interpolation used for lookups.  Its factor is a whole number of seconds and is not divided
 by the gap between the samples, so an interpolated value is in general not between them;
 the lemmas say exactly when it is.
 */
module TwistHistory {
  import opened HistoryBuffer

  datatype Velocity = Velocity(x: real, y: real, z: real)

  datatype Twist = Twist(frame: string, stamp: int, linear: Velocity, angular: Velocity)

  const SECOND: int := 1_000_000

  function Blend(a: real, b: real, k: int): real {
    a + (b - a) * k as real
  }

  function BlendAll(a: Velocity, b: Velocity, k: int): Velocity {
    Velocity(Blend(a.x, b.x, k), Blend(a.y, b.y, k), Blend(a.z, b.z, k))
  }

  /** The source divides a signed microsecond count by an unsigned one; lookups only pass
      non-negative times, for which that is the whole seconds. */
  function Lerp(t0: Twist, t1: Twist, dt: int): Twist {
    var k := dt / SECOND;
    Twist(t0.frame, t0.stamp + dt, BlendAll(t0.linear, t1.linear, k), BlendAll(t0.angular, t1.angular, k))
  }

  // ----- what the interpolation gives -----------------------------------------------------------------

  predicate Between(v: real, a: real, b: real) {
    if a <= b then a <= v <= b else b <= v <= a
  }

  /** A component is between the two samples exactly when less than two whole seconds have
      passed since the earlier one, or the samples agree. */
  lemma BlendBetweenIff(a: real, b: real, k: nat)
    ensures Between(Blend(a, b, k), a, b) <==> k <= 1 || a == b
  {
    if a == b {
      BlendSame(a, k);
    } else if k >= 2 {
      BlendBeyond(a, b, k);
    } else {
      BlendEnds(a, b);
    }
  }

  lemma BlendEnds(a: real, b: real)
    ensures Blend(a, b, 0) == a && Blend(a, b, 1) == b
  {
  }

  lemma BlendBeyond(a: real, b: real, k: nat)
    requires k >= 2 && a != b
    ensures a < b ==> Blend(a, b, k) > b
    ensures a > b ==> Blend(a, b, k) < b
  {
    StretchBeyond(b - a, k);
  }

  lemma BlendSame(a: real, k: int)
    ensures Blend(a, a, k) == a
  {
  }

  lemma StretchBeyond(d: real, k: nat)
    requires k >= 2 && d != 0.0
    ensures d > 0.0 ==> d * k as real > d
    ensures d < 0.0 ==> d * k as real < d
  {
    if d > 0.0 {
      Grows(d, k as real);
    } else {
      Grows(-d, k as real);
      assert (-d) * k as real == -(d * k as real);
    }
  }

  lemma Grows(d: real, f: real)
    requires d > 0.0 && f > 1.0
    ensures d * f > d
  {
    assert d * (f - 1.0) > 0.0;
  }

  /** A lookup exactly at the stamp of a later sample returns that sample's component exactly
      when it is one whole second after the earlier sample, or the samples agree. */
  lemma BlendHitsIff(a: real, b: real, k: nat)
    ensures Blend(a, b, k) == b <==> k == 1 || a == b
  {
    if a == b {
      BlendSame(a, k);
    } else if k >= 2 {
      BlendBeyond(a, b, k);
    } else {
      BlendEnds(a, b);
    }
  }

  lemma SameBlend(a: Velocity, b: Velocity)
    ensures BlendAll(a, b, 0) == a
  {
  }

  /** Under one second past the earlier sample the velocity returned is that sample's, even at
      the later sample's own stamp. */
  lemma WithinASecond(t0: Twist, t1: Twist, dt: int)
    requires 0 <= dt < 1_000_000
    ensures Lerp(t0, t1, dt) == t0.(stamp := t0.stamp + dt)
  {
    SameBlend(t0.linear, t1.linear);
    SameBlend(t0.angular, t1.angular);
  }

  /** From one second on, and before two, it is the later sample's. */
  lemma WithinTheNextSecond(t0: Twist, t1: Twist, dt: int)
    requires 1_000_000 <= dt < 2_000_000
    ensures Lerp(t0, t1, dt) == t1.(frame := t0.frame, stamp := t0.stamp + dt)
  {
    assert dt / 1_000_000 == 1;
    assert BlendAll(t0.linear, t1.linear, 1) == t1.linear;
    assert BlendAll(t0.angular, t1.angular, 1) == t1.angular;
  }

  /** So a lookup at the stamp of a stored sample can return another sample's velocity. */
  lemma HitMissesSample()
    ensures var t0 := Twist("base_link", 0, Velocity(0.0, 0.0, 0.0), Velocity(0.0, 0.0, 0.0));
            var t1 := Twist("base_link", 500_000, Velocity(1.0, 0.0, 0.0), Velocity(0.0, 0.0, 0.0));
            Lerp(t0, t1, t1.stamp - t0.stamp).linear != t1.linear
  {
    var t0 := Twist("base_link", 0, Velocity(0.0, 0.0, 0.0), Velocity(0.0, 0.0, 0.0));
    var t1 := Twist("base_link", 500_000, Velocity(1.0, 0.0, 0.0), Velocity(0.0, 0.0, 0.0));
    WithinASecond(t0, t1, 500_000);
  }

  // ----- the buffer of buffers ---------------------------------------------------------------------------

  /** Every entry is filed under its own stamp and frame. */
  predicate Filed(s: seq<Entry<Twist>>, frame: string) {
    forall i :: 0 <= i < |s| ==> s[i].value.stamp == s[i].stamp && s[i].value.frame == frame
  }

  lemma {:induction false} DropKeepsFiled(s: seq<Entry<Twist>>, lo: int, frame: string)
    requires Filed(s, frame)
    ensures Filed(DropOld(s, lo), frame)
  {
    if s != [] && s[0].stamp < lo {
      DropKeepsFiled(s[1..], lo, frame);
    }
  }

  lemma AddKeepsFiled(s: seq<Entry<Twist>>, t: Twist, period: int)
    requires Filed(s, t.frame)
    ensures Filed(Added(s, Entry(t.stamp, t), period), t.frame)
  {
    hide DropOld;
    var kept := if s != [] && t.stamp < s[|s| - 1].stamp then [] else s;
    DropKeepsFiled(kept + [Entry(t.stamp, t)], t.stamp - period, t.frame);
  }

  /** Every answer found in a filed buffer is stamped with the time asked for. */
  lemma AnswerIsStamped(s: seq<Entry<Twist>>, frame: string, t: int, r: Lookup<Twist>)
    requires Filed(s, frame) && Answers(s, Lerp, t, r) && r.Found?
    ensures r.value.stamp == t && r.value.frame == frame
  {
    if t != s[0].stamp {
      var i :| 1 <= i < |s| && Brackets(s, t, i) && r.value == Lerp(s[i - 1].value, s[i].value, t - s[i - 1].stamp);
    }
  }

  // ----- lookups in a buffer ---------------------------------------------------------------------------

  predicate SameMotion(t: Twist, u: Twist) {
    t.linear == u.linear && t.angular == u.angular
  }

  predicate VelocityBetween(v: Velocity, a: Velocity, b: Velocity) {
    Between(v.x, a.x, b.x) && Between(v.y, a.y, b.y) && Between(v.z, a.z, b.z)
  }

  predicate MotionBetween(v: Twist, t: Twist, u: Twist) {
    VelocityBetween(v.linear, t.linear, u.linear) && VelocityBetween(v.angular, t.angular, u.angular)
  }

  lemma BlendAllHitsIff(a: Velocity, b: Velocity, k: nat)
    ensures BlendAll(a, b, k) == b <==> k == 1 || a == b
  {
    hide Blend;
    BlendHitsIff(a.x, b.x, k);
    BlendHitsIff(a.y, b.y, k);
    BlendHitsIff(a.z, b.z, k);
  }

  lemma BlendAllBetweenIff(a: Velocity, b: Velocity, k: nat)
    ensures VelocityBetween(BlendAll(a, b, k), a, b) <==> k <= 1 || a == b
  {
    hide Blend, Between;
    BlendBetweenIff(a.x, b.x, k);
    BlendBetweenIff(a.y, b.y, k);
    BlendBetweenIff(a.z, b.z, k);
  }

  /** Entry `i` is the first of the buffer with the stamp `t`. */
  predicate FirstAt(s: seq<Entry<Twist>>, t: int, i: nat) {
    i < |s| && s[i].stamp == t && (i > 0 ==> s[i - 1].stamp < t)
  }

  /** The entry is the oldest one, or a whole second but not two after its predecessor, or
      moves as its predecessor does. */
  predicate ExactAt(s: seq<Entry<Twist>>, i: nat)
    requires i < |s|
  {
    i == 0 || 1_000_000 <= s[i].stamp - s[i - 1].stamp < 2_000_000 || SameMotion(s[i - 1].value, s[i].value)
  }

  lemma InsideSpan(s: seq<Entry<Twist>>, t: int, i: nat)
    requires Sorted(s) && 1 <= i < |s| && Brackets(s, t, i)
    ensures s[0].stamp < t <= s[|s| - 1].stamp
  {
    assert s[0].stamp <= s[i - 1].stamp && s[i].stamp <= s[|s| - 1].stamp;
  }

  lemma AnswerBetween(s: seq<Entry<Twist>>, t: int, i: nat, r: Lookup<Twist>)
    requires Sorted(s) && 1 <= i < |s| && Brackets(s, t, i) && Answers(s, Lerp, t, r)
    ensures r.Found? && r.value == Lerp(s[i - 1].value, s[i].value, t - s[i - 1].stamp)
  {
    hide Lerp, Sorted;
    InsideSpan(s, t, i);
    var j :| 1 <= j < |s| && Brackets(s, t, j) && r.value == Lerp(s[j - 1].value, s[j].value, t - s[j - 1].stamp);
    BracketUnique(s, t, i, j);
  }

  /** Each component is the earlier one plus `k` times the difference. */
  predicate Stretched(a: Velocity, b: Velocity, k: nat, v: Velocity) {
    && v.x - a.x == k as real * (b.x - a.x)
    && v.y - a.y == k as real * (b.y - a.y)
    && v.z - a.z == k as real * (b.z - a.z)
  }

  lemma BlendStretches(a: Velocity, b: Velocity, k: nat)
    ensures Stretched(a, b, k, BlendAll(a, b, k))
  {
  }

  /** What a lookup between two entries returns, for any number `k` of whole seconds after the earlier
      one: its velocities plus `k` times the difference to the later one's. */
  lemma AnswerValue(s: seq<Entry<Twist>>, t: int, i: nat, k: nat, r: Lookup<Twist>)
    requires Sorted(s) && 1 <= i < |s| && Brackets(s, t, i) && Answers(s, Lerp, t, r)
    requires 1_000_000 * k <= t - s[i - 1].stamp < 1_000_000 * (k + 1)
    ensures r.Found?
    ensures Stretched(s[i - 1].value.linear, s[i].value.linear, k, r.value.linear)
    ensures Stretched(s[i - 1].value.angular, s[i].value.angular, k, r.value.angular)
  {
    hide BlendAll, Sorted, Stretched;
    AnswerBetween(s, t, i, r);
    assert (t - s[i - 1].stamp) / 1_000_000 == k;
    BlendStretches(s[i - 1].value.linear, s[i].value.linear, k);
    BlendStretches(s[i - 1].value.angular, s[i].value.angular, k);
  }

  /** A lookup at a stored stamp returns the stored velocities if and only if the entry is the
      oldest, is at least one and less than two seconds after its predecessor, or moves as it does. */
  lemma HitIff(s: seq<Entry<Twist>>, t: int, i: nat, r: Lookup<Twist>)
    requires Sorted(s) && FirstAt(s, t, i) && Answers(s, Lerp, t, r)
    ensures r.Found? && (SameMotion(r.value, s[i].value) <==> ExactAt(s, i))
  {
    hide BlendAll, Sorted;
    if i == 0 {
      LastNotOlder(s);
    } else {
      AnswerBetween(s, t, i, r);
      var k := (t - s[i - 1].stamp) / 1_000_000;
      assert k == 1 <==> 1_000_000 <= t - s[i - 1].stamp < 2_000_000;
      BlendAllHitsIff(s[i - 1].value.linear, s[i].value.linear, k);
      BlendAllHitsIff(s[i - 1].value.angular, s[i].value.angular, k);
    }
  }

  lemma LastNotOlder(s: seq<Entry<Twist>>)
    requires Sorted(s) && s != []
    ensures s[0].stamp <= s[|s| - 1].stamp
  {
  }

  /** A lookup between two entries returns velocities between theirs if and only if the time is
      less than two seconds after the earlier one, or the two move alike. */
  lemma BetweenIff(s: seq<Entry<Twist>>, t: int, i: nat, r: Lookup<Twist>)
    requires Sorted(s) && 1 <= i < |s| && Brackets(s, t, i) && Answers(s, Lerp, t, r)
    ensures r.Found?
    ensures MotionBetween(r.value, s[i - 1].value, s[i].value) <==>
            t - s[i - 1].stamp < 2_000_000 || SameMotion(s[i - 1].value, s[i].value)
  {
    hide BlendAll, Sorted, VelocityBetween;
    AnswerBetween(s, t, i, r);
    var k := (t - s[i - 1].stamp) / 1_000_000;
    assert k <= 1 <==> t - s[i - 1].stamp < 2_000_000;
    BlendAllBetweenIff(s[i - 1].value.linear, s[i].value.linear, k);
    BlendAllBetweenIff(s[i - 1].value.angular, s[i].value.angular, k);
  }

  class TwistHistoryBuffer {
    var q: map<string, Buffer<Twist>>
    const length: int

    ghost predicate Valid()
      reads this, q.Values
    {
      && length >= 0
      && (forall f :: f in q ==> q[f].Valid() && q[f].period == length && Filed(q[f].history, f))
      && (forall f, g :: f in q && g in q && f != g ==> q[f] != q[g])
    }

    /** The entries held for a frame. */
    ghost function Held(f: string): seq<Entry<Twist>>
      reads this, q.Values
    {
      if f in q then q[f].history else []
    }

    constructor (duration: int)
      requires duration >= 0
      ensures Valid() && length == duration && q == map[]
    {
      q, length := map[], duration;
    }

    method AddTwist(t: Twist)
      requires Valid()
      modifies this, q.Values
      ensures Valid()
      ensures Held(t.frame) == Added(old(Held(t.frame)), Entry(t.stamp, t), length)
      ensures forall f :: f != t.frame ==> Held(f) == old(Held(f))
    {
      AddKeepsFiled(Held(t.frame), t, length);
      if t.frame !in q {
        var b := new Buffer<Twist>(length);
        q := q[t.frame := b];
      }
      q[t.frame].AddEntry(t, t.stamp);
    }

    /** Empty also when the frame was never seen. */
    method GetTwist(frame: string, time: int) returns (r: Lookup<Twist>)
      requires Valid()
      ensures Answers(Held(frame), Lerp, time, r)
      ensures r.Found? ==> r.value.stamp == time && r.value.frame == frame
      ensures forall i: nat :: FirstAt(Held(frame), time, i) ==>
                r.Found? && (SameMotion(r.value, Held(frame)[i].value) <==> ExactAt(Held(frame), i))
    {
      hide SameMotion, ExactAt;
      if frame !in q {
        return Empty;
      }
      r := q[frame].GetLerp(Lerp, time);
      if r.Found? {
        AnswerIsStamped(q[frame].history, frame, time, r);
      }
      forall i: nat | FirstAt(Held(frame), time, i)
        ensures r.Found? && (SameMotion(r.value, Held(frame)[i].value) <==> ExactAt(Held(frame), i))
      {
        HitIff(q[frame].history, time, i, r);
      }
    }
  }
}
