/**
 The tracker's objects and the per-object steps: predict forward in time, correct by a
 measurement, decay when unmatched.  Orientation, angular velocity and the raw source
 bytes an object carries are not part of the model.
 */
module TrackedObjects {
  import opened Vectors

  datatype Object = Object(
    id: nat, src: nat,
    pos: Vec, vel: Vec, dims: Vec,
    hasVel: bool, hasDims: bool,
    life: real, conf: real, score: real)

  /** One sensor's list of objects at one instant: a batch of measurements or a track list. */
  datatype Sensor = Sensor(src: nat, stamp: int, objects: seq<Object>)

  datatype Parameters = Parameters(
    decay: real, divider: real, threshold: real,
    rangeDist: real, groupDist: real, scoreDist: real)

  /** The decay divider is divided by, so a configuration has a non-zero one. */
  type Config = c: Parameters | c.divider != 0.0
    witness Parameters(10.0, 2.0, 0.1, 5.0, 2.0, 0.35)

  /** The time from `earlier` to `later` (microsecond stamps) in seconds. */
  function Seconds(later: int, earlier: int): real {
    (later - earlier) as real / 1000000.0
  }

  function Predicted(cfg: Config, o: Object, dt: real): Object {
    var conf := o.conf - cfg.decay * dt;
    o.(pos := Add(o.pos, Scale(dt, o.vel)),
       life := o.life - cfg.decay * dt,
       conf := if conf < 0.0 then 0.0 else conf)
  }

  /** The two gains of the filter; `s` is the tracked score. */
  function Alpha(s: real): real {
    1.0 - s * s
  }

  function Beta(s: real): real {
    (1.0 - s) * (1.0 - s)
  }

  function Corrected(t: Object, m: Object, dt: real): Object {
    var err := Sub(m.pos, t.pos);
    t.(pos := Add(t.pos, Scale(Alpha(t.score), err)),
       vel := if m.hasVel then m.vel else Add(t.vel, Over(Scale(Beta(t.score), err), dt)),
       dims := if m.hasDims then m.dims else t.dims,
       life := 1.0,
       score := (t.score + t.conf + m.conf) / 3.0,
       conf := m.conf)
  }

  function Decayed(cfg: Config, t: Object): Object {
    t.(life := t.life / cfg.divider)
  }

  function Spawned(m: Object, id: nat): Object {
    m.(life := 1.0, score := 0.0, id := id)
  }

  function PredictAll(cfg: Config, s: seq<Object>, dt: real): (r: seq<Object>)
    ensures |r| == |s|
    ensures forall i :: 0 <= i < |s| ==> r[i] == Predicted(cfg, s[i], dt)
  {
    seq(|s|, i requires 0 <= i < |s| => Predicted(cfg, s[i], dt))
  }

  // ----- the steps as relations -------------------------------------------------------------------

  /** `p` is what `o` becomes over `us` microseconds: the position moves by the velocity times the
      elapsed seconds, life and confidence fall by the decay per second, the confidence not
      below zero, and everything else stays. */
  predicate MovedOn(cfg: Config, o: Object, us: int, p: Object) {
    && p == o.(pos := p.pos, life := p.life, conf := p.conf)
    && (p.pos.Vec? <==> o.pos.Vec? && o.vel.Vec?)
    && (p.pos.Vec? ==>
          forall c: Axis :: 1_000_000.0 * (Coord(p.pos, c) - Coord(o.pos, c)) == us as real * Coord(o.vel, c))
    && 1_000_000.0 * (o.life - p.life) == us as real * cfg.decay
    && (if 1_000_000.0 * o.conf >= us as real * cfg.decay
        then 1_000_000.0 * (o.conf - p.conf) == us as real * cfg.decay
        else p.conf == 0.0)
  }

  /** `r` is `t` corrected by `m` over `dt` seconds: the position takes out the fraction one minus
      the squared score of the error; a measured velocity is taken over, otherwise the velocity
      changes by the squared complement of the score times the error per elapsed time, which is
      not finite for a zero step; measured dimensions are taken over; life starts again at one;
      the score becomes the mean of score and both confidences. */
  predicate CorrectedBy(t: Object, m: Object, dt: real, r: Object)
    requires t.pos.Vec? && m.pos.Vec?
  {
    && r == t.(pos := r.pos, vel := r.vel, dims := r.dims, life := 1.0, score := r.score, conf := m.conf)
    && PositionAfter(t, m, r.pos) && VelocityAfter(t, m, dt, r.vel)
    && r.dims == (if m.hasDims then m.dims else t.dims)
    && 3.0 * r.score == t.score + t.conf + m.conf
  }

  predicate PositionAfter(t: Object, m: Object, p: Vec)
    requires t.pos.Vec? && m.pos.Vec?
  {
    p.Vec? && forall c: Axis :: PositionGain(t.score, Coord(t.pos, c), Coord(m.pos, c), Coord(p, c))
  }

  /** From `x` the coordinate goes to `r`, by that fraction of the way to `m`. */
  predicate PositionGain(s: real, x: real, m: real, r: real) {
    r - x == (1.0 - s * s) * (m - x)
  }

  predicate VelocityAfter(t: Object, m: Object, dt: real, v: Vec)
    requires t.pos.Vec? && m.pos.Vec?
  {
    if m.hasVel then v == m.vel
    else if t.vel.Vec? && dt != 0.0 then
      && v.Vec?
      && forall c: Axis ::
           VelocityGain(t.score, dt, Coord(m.pos, c) - Coord(t.pos, c), Coord(t.vel, c), Coord(v, c))
    else v == NonFinite
  }

  /** From `v` the velocity goes to `r` for a position error `e` over the time `dt`. */
  predicate VelocityGain(s: real, dt: real, e: real, v: real, r: real) {
    dt * (r - v) == (1.0 - s) * (1.0 - s) * e
  }

  /** `r` is `t` left without a measurement: its life is divided, nothing else changes. */
  predicate DecayedBy(cfg: Config, t: Object, r: Object) {
    r == t.(life := r.life) && cfg.divider * r.life == t.life
  }

  /** `r` is a track just started from `m` under `id`: full life, no score yet. */
  predicate StartedFrom(m: Object, id: nat, r: Object) {
    && r.id == id && r.life == 1.0 && r.score == 0.0
    && m == r.(id := m.id, life := m.life, score := m.score)
  }

  lemma SameVec(a: Vec, b: Vec)
    requires a.Vec? && b.Vec? && forall c: Axis :: Coord(a, c) == Coord(b, c)
    ensures a == b
  {
    assert Coord(a, X) == Coord(b, X) && Coord(a, Y) == Coord(b, Y) && Coord(a, Z) == Coord(b, Z);
  }

  lemma ScaledStep(x: real, v: real, us: int)
    ensures 1_000_000.0 * ((x + Times(us as real / 1_000_000.0, v)) - x) == us as real * v
  {
    var q := us as real / 1_000_000.0;
    assert q * 1_000_000.0 == us as real;
    assert (q * v) * 1_000_000.0 == (q * 1_000_000.0) * v;
  }

  lemma ScaledBy(us: int, k: real)
    ensures 1_000_000.0 * (k * (us as real / 1_000_000.0)) == us as real * k
  {
    var q := us as real / 1_000_000.0;
    assert q * 1_000_000.0 == us as real;
    assert (k * q) * 1_000_000.0 == k * (q * 1_000_000.0);
  }

  lemma CoordMoved(p: Vec, k: real, v: Vec, c: Axis)
    requires p.Vec? && v.Vec?
    ensures Add(p, Scale(k, v)).Vec? && Coord(Add(p, Scale(k, v)), c) == Coord(p, c) + Times(k, Coord(v, c))
  {
  }

  /** The prediction over the time between two stamps is that relation. */
  lemma PredictedMovesOn(cfg: Config, o: Object, later: int, earlier: int)
    ensures MovedOn(cfg, o, later - earlier, Predicted(cfg, o, Seconds(later, earlier)))
  {
    hide Times;
    var us, dt := later - earlier, Seconds(later, earlier);
    ScaledBy(us, cfg.decay);
    if o.pos.Vec? && o.vel.Vec? {
      CoordMoved(o.pos, dt, o.vel, X);
      forall c: Axis
        ensures var p := Predicted(cfg, o, dt).pos;
                p.Vec? && 1_000_000.0 * (Coord(p, c) - Coord(o.pos, c)) == us as real * Coord(o.vel, c)
      {
        CoordMoved(o.pos, dt, o.vel, c);
        ScaledStep(Coord(o.pos, c), Coord(o.vel, c), us);
      }
    }
  }

  lemma CoordSub(a: Vec, b: Vec, c: Axis)
    requires a.Vec? && b.Vec?
    ensures Sub(a, b).Vec? && Coord(Sub(a, b), c) == Coord(a, c) - Coord(b, c)
  {
  }

  lemma CoordOver(v: Vec, k: real, dt: real, e: Vec, c: Axis)
    requires v.Vec? && e.Vec? && dt != 0.0
    ensures var w := Add(v, Over(Scale(k, e), dt));
            w.Vec? && Times(dt, Coord(w, c) - Coord(v, c)) == Times(k, Coord(e, c))
  {
    hide Times;
    var w := Add(v, Over(Scale(k, e), dt));
    var n := Times(k, Coord(e, c));
    assert Coord(w, c) == Coord(v, c) + n / dt;
    Divided(Coord(v, c), n, dt);
  }

  lemma Divided(v: real, n: real, dt: real)
    requires dt != 0.0
    ensures Times(dt, (v + n / dt) - v) == n
  {
    assert dt * (n / dt) == n;
  }

  lemma AlphaGain(s: real, x: real, m: real, r: real)
    requires r == x + Times(Alpha(s), m - x)
    ensures PositionGain(s, x, m, r)
  {
  }

  lemma BetaGain(s: real, dt: real, e: real, v: real, r: real)
    requires Times(dt, r - v) == Times(Beta(s), e)
    ensures VelocityGain(s, dt, e, v, r)
  {
  }

  lemma PositionHolds(t: Object, m: Object, dt: real)
    requires t.pos.Vec? && m.pos.Vec?
    ensures PositionAfter(t, m, Corrected(t, m, dt).pos)
  {
    hide Times, Add, Scale, Over, Coord, Alpha, PositionGain;
    CoordSub(m.pos, t.pos, X);
    CoordMoved(t.pos, Alpha(t.score), Sub(m.pos, t.pos), X);
    forall c: Axis
      ensures PositionGain(t.score, Coord(t.pos, c), Coord(m.pos, c), Coord(Corrected(t, m, dt).pos, c))
    {
      CoordSub(m.pos, t.pos, c);
      CoordMoved(t.pos, Alpha(t.score), Sub(m.pos, t.pos), c);
      AlphaGain(t.score, Coord(t.pos, c), Coord(m.pos, c), Coord(Corrected(t, m, dt).pos, c));
    }
  }

  lemma VelocityHolds(t: Object, m: Object, dt: real)
    requires t.pos.Vec? && m.pos.Vec?
    ensures VelocityAfter(t, m, dt, Corrected(t, m, dt).vel)
  {
    if !m.hasVel && t.vel.Vec? && dt != 0.0 {
      hide Times, Add, Scale, Over, Coord, Beta, VelocityGain;
      var v := Corrected(t, m, dt).vel;
      CoordSub(m.pos, t.pos, X);
      CoordOver(t.vel, Beta(t.score), dt, Sub(m.pos, t.pos), X);
      forall c: Axis
        ensures VelocityGain(t.score, dt, Coord(m.pos, c) - Coord(t.pos, c), Coord(t.vel, c), Coord(v, c))
      {
        CoordSub(m.pos, t.pos, c);
        CoordOver(t.vel, Beta(t.score), dt, Sub(m.pos, t.pos), c);
        BetaGain(t.score, dt, Coord(m.pos, c) - Coord(t.pos, c), Coord(t.vel, c), Coord(v, c));
      }
    }
  }

  lemma CorrectedIsBy(t: Object, m: Object, dt: real)
    requires t.pos.Vec? && m.pos.Vec?
    ensures CorrectedBy(t, m, dt, Corrected(t, m, dt))
  {
    hide PositionAfter, VelocityAfter, Add, Sub, Scale, Over;
    PositionHolds(t, m, dt);
    VelocityHolds(t, m, dt);
  }

  lemma SamePosition(s: real, x: real, m: real, r: real, q: real)
    requires PositionGain(s, x, m, r) && PositionGain(s, x, m, q)
    ensures r == q
  {
  }

  lemma SameVelocity(s: real, dt: real, e: real, v: real, r: real, q: real)
    requires dt != 0.0 && VelocityGain(s, dt, e, v, r) && VelocityGain(s, dt, e, v, q)
    ensures r == q
  {
    Cancel(dt, r, q, v);
  }

  lemma Cancel(k: real, a: real, b: real, x: real)
    requires k != 0.0 && k * (a - x) == k * (b - x)
    ensures a == b
  {
    assert k * (a - b) == k * (a - x) - k * (b - x);
  }

  /** The relation has one solution, the correction. */
  lemma CorrectedIff(t: Object, m: Object, dt: real, r: Object)
    requires t.pos.Vec? && m.pos.Vec?
    ensures CorrectedBy(t, m, dt, r) <==> r == Corrected(t, m, dt)
  {
    hide Corrected, PositionGain, VelocityGain, Coord;
    var s := Corrected(t, m, dt);
    CorrectedIsBy(t, m, dt);
    if CorrectedBy(t, m, dt, r) {
      forall c: Axis
        ensures Coord(r.pos, c) == Coord(s.pos, c)
      {
        SamePosition(t.score, Coord(t.pos, c), Coord(m.pos, c), Coord(r.pos, c), Coord(s.pos, c));
      }
      SameVec(r.pos, s.pos);
      if !m.hasVel && t.vel.Vec? && dt != 0.0 {
        forall c: Axis
          ensures Coord(r.vel, c) == Coord(s.vel, c)
        {
          SameVelocity(t.score, dt, Coord(m.pos, c) - Coord(t.pos, c), Coord(t.vel, c), Coord(r.vel, c), Coord(s.vel, c));
        }
        SameVec(r.vel, s.vel);
      }
      assert r.vel == s.vel;
    }
  }

  lemma DecayedIff(cfg: Config, t: Object, r: Object)
    ensures DecayedBy(cfg, t, r) <==> r == Decayed(cfg, t)
  {
    var l := Decayed(cfg, t).life;
    assert cfg.divider * l == t.life;
    if DecayedBy(cfg, t, r) {
      Cancel(cfg.divider, r.life, l, 0.0);
    }
  }

  // ----- bounds kept by every step ------------------------------------------------

  /** A decay that does not add life and a divider that does not either. */
  predicate Damping(cfg: Config) {
    cfg.decay >= 0.0 && cfg.divider >= 1.0
  }

  predicate UnitConf(o: Object) {
    0.0 <= o.conf <= 1.0
  }

  /** Confidence and score in [0, 1], life at most 1. */
  predicate Bounded(o: Object) {
    UnitConf(o) && 0.0 <= o.score <= 1.0 && o.life <= 1.0
  }

  lemma ProductNonNegative(a: real, b: real)
    requires a >= 0.0 && b >= 0.0
    ensures a * b >= 0.0
  {
  }

  lemma TimesMonotone(k: real, a: real, b: real)
    requires k >= 0.0 && a <= b
    ensures Times(k, a) <= Times(k, b)
  {
    ProductNonNegative(k, b - a);
    assert k * (b - a) == k * b - k * a;
  }

  lemma PredictedBounded(cfg: Config, o: Object, dt: real)
    requires Damping(cfg) && Bounded(o) && dt >= 0.0
    ensures Bounded(Predicted(cfg, o, dt))
  {
    ProductNonNegative(cfg.decay, dt);
  }

  lemma CorrectedBounded(t: Object, m: Object, dt: real)
    requires Bounded(t) && UnitConf(m)
    ensures Bounded(Corrected(t, m, dt))
  {
  }

  lemma QuotientAtMostOne(a: real, b: real)
    requires a <= 1.0 && b >= 1.0
    ensures a / b <= 1.0
  {
    assert a == (a / b) * b;
  }

  lemma DecayedBounded(cfg: Config, t: Object)
    requires Damping(cfg) && Bounded(t)
    ensures Bounded(Decayed(cfg, t))
  {
    QuotientAtMostOne(t.life, cfg.divider);
  }

  /** A divider above one makes an unmatched live track shorter-lived. */
  lemma DecayedShrinks(cfg: Config, t: Object)
    requires cfg.divider > 1.0 && t.life > 0.0
    ensures 0.0 < Decayed(cfg, t).life < t.life
  {
    var l := t.life / cfg.divider;
    assert t.life == l * cfg.divider;
    if l <= 0.0 {
      ProductNonNegative(-l, cfg.divider);
    } else {
      ProductNonNegative(l, cfg.divider - 1.0);
      assert l * (cfg.divider - 1.0) == t.life - l;
      StrictProduct(l, cfg.divider - 1.0);
    }
  }

  lemma StrictProduct(a: real, b: real)
    requires a > 0.0 && b > 0.0
    ensures a * b > 0.0
  {
  }

  lemma SquareUnit(s: real)
    requires 0.0 <= s <= 1.0
    ensures 0.0 <= s * s <= 1.0
  {
    ProductNonNegative(s, s);
    ProductNonNegative(s, 1.0 - s);
    assert s * (1.0 - s) == s - s * s;
  }

  /** `r` lies on the segment from `t` to `m`, at the fraction the squared score leaves over. */
  predicate MovedTowards(t: Object, m: Object, r: Object) {
    OnSegment(r.pos, t.pos, m.pos, 1.0 - t.score * t.score)
  }

  /** A correction moves the position along the segment from prediction to measurement. */
  lemma CorrectionOnSegment(t: Object, m: Object, dt: real)
    requires Bounded(t)
    ensures MovedTowards(t, m, Corrected(t, m, dt))
  {
    SquareUnit(t.score);
  }

  /** With a zero score the whole position error is taken out. */
  lemma ZeroScoreLandsOnMeasurement(t: Object, m: Object, dt: real)
    requires t.score == 0.0 && t.pos.Vec? && m.pos.Vec?
    ensures Corrected(t, m, dt).pos == m.pos
  {
  }

  /** ... and, without a measured velocity, the velocity becomes the one that leads from the
      position before the prediction to the measurement in the time that passed. */
  lemma ZeroScoreVelocity(cfg: Config, o: Object, m: Object, dt: real)
    requires o.score == 0.0 && o.pos.Vec? && o.vel.Vec? && m.pos.Vec? && !m.hasVel && dt != 0.0
    ensures Add(o.pos, Scale(dt, Corrected(Predicted(cfg, o, dt), m, dt).vel)) == m.pos
  {
    var t := Predicted(cfg, o, dt);
    var v := Corrected(t, m, dt).vel;
    ReachesTarget(o.pos.x, o.vel.x, m.pos.x, dt);
    ReachesTarget(o.pos.y, o.vel.y, m.pos.y, dt);
    ReachesTarget(o.pos.z, o.vel.z, m.pos.z, dt);
    assert v == Add(o.vel, Over(Scale(1.0, Sub(m.pos, t.pos)), dt));
  }

  lemma ReachesTarget(x: real, v: real, m: real, dt: real)
    requires dt != 0.0
    ensures x + Times(dt, v + Times(1.0, m - (x + Times(dt, v))) / dt) == m
  {
    var e := m - (x + dt * v);
    assert dt * (e / dt) == e;
    assert dt * (v + e / dt) == dt * v + dt * (e / dt);
  }

  /** The new score lies between the smallest and the largest of the old score, the track's
      confidence and the measurement's. */
  lemma ScoreBetween(t: Object, m: Object, dt: real, lo: real, hi: real)
    requires lo <= t.score <= hi && lo <= t.conf <= hi && lo <= m.conf <= hi
    ensures lo <= Corrected(t, m, dt).score <= hi
  {
  }
}
