/**
 How long a track lives.  A match gives it full life; every batch without one takes the decay
 of the elapsed time off and divides the rest.  The exact life after any number of misses is
 stated in closed form, with it when a track expires, and from it that a track seen often
 enough is never purged.
 */
module TrackLife {
  import opened Vectors
  import opened TrackedObjects
  import opened Powers
  import opened Association
  import opened Batches
  import opened Successors
  import Purge

  // ----- one list through a sequence of batches -----------------------------------------------------

  /** The same tracks with possibly other scores, as `process` readies the fused list; the stamp of a
      list without tracks does not matter. */
  predicate Rescored(track: Sensor, base: Sensor) {
    && |base.objects| == |track.objects|
    && (track.objects != [] ==> base.stamp == track.stamp)
    && forall i :: 0 <= i < |track.objects| ==>
         base.objects[i] == track.objects[i].(score := base.objects[i].score)
  }

  /** `after` is the list `track`, its scores possibly reset, when it has taken in the batch. */
  ghost predicate TakesIn(cfg: Config, b: Sensor, track: Sensor, after: Sensor) {
    exists lastId: nat, base: Sensor :: Rescored(track, base) && Absorb(cfg, b, base, lastId).track == after
  }

  lemma {:induction false} SameLivesKept(cfg: Config, s: seq<Object>, t: seq<Object>, i: nat)
    requires |s| == |t| && i <= |s| && forall k :: 0 <= k < |s| ==> s[k].life == t[k].life
    ensures Purge.KeptFrom(cfg, s, i) == Purge.KeptFrom(cfg, t, i)
    decreases |s| - i
  {
    hide Purge.KeptFrom;
    Purge.KeptFromStep(cfg, s, i);
    Purge.KeptFromStep(cfg, t, i);
    if i < |s| {
      SameLivesKept(cfg, s, t, i + 1);
      if i + 1 < |s| {
        SameLivesKept(cfg, s, t, i + 2);
      }
    }
  }

  /** Scores matter neither for who survives a batch nor for who is hit. */
  lemma RescoredSame(cfg: Config, b: Sensor, track: Sensor, base: Sensor, i: nat, j: nat)
    requires Rescored(track, base) && i < |track.objects|
    ensures Stale(b, track) <==> Stale(b, base)
    ensures Successor(cfg, b, track, i, j) <==> Successor(cfg, b, base, i, j)
    ensures Hit(cfg, b, track, i) <==> Hit(cfg, b, base, i)
  {
    var dt := Seconds(b.stamp, track.stamp);
    SameLivesKept(cfg, PredictAll(cfg, track.objects, dt), PredictAll(cfg, base.objects, dt), 0);
    var t, u := Predicted(cfg, track.objects[i], dt), Predicted(cfg, base.objects[i], dt);
    assert t.pos == u.pos;
    assert forall k :: 0 <= k < |b.objects| ==> (InRange(cfg, t, b.objects[k]) <==> InRange(cfg, u, b.objects[k]));
  }

  /** The states of one track list, one more than the batches it takes in. */
  ghost predicate History(cfg: Config, hist: seq<Sensor>, bs: seq<Sensor>) {
    && |hist| == |bs| + 1
    && forall j :: 0 <= j < |bs| ==> TakesIn(cfg, bs[j], hist[j], hist[j + 1])
  }

  /** One track through the first states of a history, by its index in each. */
  predicate Path(cfg: Config, hist: seq<Sensor>, bs: seq<Sensor>, path: seq<nat>)
  {
    && |hist| == |bs| + 1 && 0 < |path| <= |hist|
    && (forall l :: 0 <= l < |path| ==> path[l] < |hist[l].objects|)
    && forall l :: 0 <= l < |path| - 1 ==> Successor(cfg, bs[l], hist[l], path[l], path[l + 1])
  }

  function LifeAt(cfg: Config, hist: seq<Sensor>, bs: seq<Sensor>, path: seq<nat>, l: nat): real
    requires Path(cfg, hist, bs, path) && l < |path|
  {
    hist[l].objects[path[l]].life
  }

  /** The batch has a measurement in range of the track moved on to its stamp. */
  ghost predicate Hit(cfg: Config, b: Sensor, track: Sensor, a: nat)
    requires a < |track.objects|
  {
    var t := Predicted(cfg, track.objects[a], Seconds(b.stamp, track.stamp));
    exists k :: 0 <= k < |b.objects| && InRange(cfg, t, b.objects[k])
  }

  /** Since its last match at stamp `since` (or the beginning), a track that had life `base` then
      was missed by so many batches; `time` adds up the gaps before the misses, each weighted by the
      divider to the power of the misses before it. */
  datatype Wear = Wear(base: real, misses: nat, time: real, since: int)

  ghost function WearAt(cfg: Config, hist: seq<Sensor>, bs: seq<Sensor>, path: seq<nat>, l: nat): Wear
    requires Path(cfg, hist, bs, path) && l < |path|
  {
    if l == 0 then Wear(LifeAt(cfg, hist, bs, path, 0), 0, 0.0, hist[0].stamp)
    else
      var w, b, track := WearAt(cfg, hist, bs, path, l - 1), bs[l - 1], hist[l - 1];
      if Stale(b, track) then w
      else if Hit(cfg, b, track, path[l - 1]) then Wear(1.0, 0, 0.0, b.stamp)
      else w.(misses := w.misses + 1, time := w.time + Weighted(cfg, w.misses, Seconds(b.stamp, track.stamp)))
  }

  function Weighted(cfg: Config, misses: nat, gap: real): real {
    Times(Power(cfg.divider, misses), gap)
  }

  // ----- the exact life -------------------------------------------------------------------------------

  /** The life law: the divider to the power of the misses, times the life, is the life at the last
      match less the decay over the weighted time. */
  predicate WornTo(cfg: Config, w: Wear, life: real) {
    Times(Power(cfg.divider, w.misses), life) == w.base - Times(cfg.decay, w.time)
  }

  /** The life of a track over a gap in seconds, before the purge and, if missed, after it. */
  function Aged(cfg: Config, life: real, gap: real): real {
    life - cfg.decay * gap
  }

  function Missed(cfg: Config, life: real, gap: real): real {
    Aged(cfg, life, gap) / cfg.divider
  }

  lemma WornAtStart(cfg: Config, base: real, since: int)
    ensures WornTo(cfg, Wear(base, 0, 0.0, since), base)
  {
  }

  lemma AgedBy(p: real, life: real, decay: real, gap: real, base: real, time: real)
    requires Times(p, life) == base - Times(decay, time)
    ensures Times(p, life - decay * gap) == base - Times(decay, time + Times(p, gap))
  {
    assert p * (life - decay * gap) == p * life - decay * (p * gap);
    assert decay * (time + p * gap) == decay * time + decay * (p * gap);
  }

  lemma DividedBy(d: real, p: real, dp: real, life: real)
    requires d != 0.0 && dp == d * p
    ensures Times(dp, life / d) == Times(p, life)
  {
    var q := life / d;
    assert q * d == life;
    assert (d * p) * q == p * (q * d);
  }

  lemma WornByTime(cfg: Config, w: Wear, life: real, gap: real)
    requires WornTo(cfg, w, life)
    ensures WornTo(cfg, w.(time := w.time + Weighted(cfg, w.misses, gap)), Aged(cfg, life, gap))
  {
    AgedBy(Power(cfg.divider, w.misses), life, cfg.decay, gap, w.base, w.time);
  }

  lemma WornByMiss(cfg: Config, w: Wear, life: real, gap: real)
    requires WornTo(cfg, w, life)
    ensures WornTo(cfg, w.(misses := w.misses + 1, time := w.time + Weighted(cfg, w.misses, gap)), Missed(cfg, life, gap))
  {
    WornByTime(cfg, w, life, gap);
    hide Times, Weighted, Aged;
    DividedBy(cfg.divider, Power(cfg.divider, w.misses), Power(cfg.divider, w.misses + 1), Aged(cfg, life, gap));
  }

  /** What taking in a batch does to one track that survives it. */
  lemma TakenIn(cfg: Config, b: Sensor, track: Sensor, after: Sensor, i: nat, j: nat)
    requires TakesIn(cfg, b, track, after) && i < |track.objects| && Successor(cfg, b, track, i, j)
    ensures j < |after.objects| && after.objects[j].id == track.objects[i].id
    ensures after.stamp == if Stale(b, track) then track.stamp else b.stamp
    ensures var life := track.objects[i].life;
            after.objects[j].life == if Stale(b, track) then life
                                     else if Hit(cfg, b, track, i) then 1.0
                                     else Missed(cfg, life, Seconds(b.stamp, track.stamp))
  {
    hide Absorb, Successor, Hit, Missed;
    var lastId: nat, base: Sensor :| Rescored(track, base) && Absorb(cfg, b, base, lastId).track == after;
    RescoredSame(cfg, b, track, base, i, j);
    SuccessorId(cfg, b, base, lastId, i, j);
    StampAfter(cfg, b, base, lastId);
    if Stale(b, track) {
      StaleKeeps(cfg, b, base, lastId, i, j);
    } else {
      LifeAfter(cfg, b, base, lastId, i, j);
    }
  }

  /** What a batch that is not stale does to the life of a track that survives it. */
  lemma LifeAfter(cfg: Config, b: Sensor, track: Sensor, lastId: nat, i: nat, j: nat)
    requires !Stale(b, track) && i < |track.objects| && Successor(cfg, b, track, i, j)
    ensures var r := Absorb(cfg, b, track, lastId).track.objects;
            var gap := Seconds(b.stamp, track.stamp);
            && j < |r|
            && r[j].life == if Hit(cfg, b, track, i) then 1.0
                            else Missed(cfg, track.objects[i].life, gap)
  {
    hide Absorb, Successor, Nearest;
    SuccessorAt(cfg, b, track, lastId, i, j);
    var t := Predicted(cfg, track.objects[i], Seconds(b.stamp, track.stamp));
    var n := Nearest(cfg, t, b.objects, |b.objects|);
    assert IsNearest(cfg, t, b.objects, |b.objects|, n);
    if n < |b.objects| {
      assert InRange(cfg, t, b.objects[n]);
    }
  }

  /** Through every history the life of every track is exactly what the life law says. */
  lemma {:induction false} LifeLaw(cfg: Config, hist: seq<Sensor>, bs: seq<Sensor>, path: seq<nat>, l: nat)
    requires History(cfg, hist, bs) && Path(cfg, hist, bs, path) && l < |path|
    ensures WornTo(cfg, WearAt(cfg, hist, bs, path, l), LifeAt(cfg, hist, bs, path, l))
  {
    hide TakesIn, Successor, Hit, WornTo, Weighted, Stale, Missed;
    if l == 0 {
      WornAtStart(cfg, LifeAt(cfg, hist, bs, path, 0), hist[0].stamp);
    } else {
      LifeLaw(cfg, hist, bs, path, l - 1);
      var b, track, w := bs[l - 1], hist[l - 1], WearAt(cfg, hist, bs, path, l - 1);
      assert TakesIn(cfg, b, track, hist[l]);
      assert Successor(cfg, b, track, path[l - 1], path[l]);
      TakenIn(cfg, b, track, hist[l], path[l - 1], path[l]);
      if !Stale(b, track) {
        WornAtStart(cfg, 1.0, b.stamp);
        WornByMiss(cfg, w, LifeAt(cfg, hist, bs, path, l - 1), Seconds(b.stamp, track.stamp));
      }
    }
  }

  lemma StaleKeeps(cfg: Config, b: Sensor, track: Sensor, lastId: nat, i: nat, j: nat)
    requires Stale(b, track) && Successor(cfg, b, track, i, j)
    ensures i == j && Absorb(cfg, b, track, lastId).track == track
  {
  }

  // ----- when a track expires ---------------------------------------------------------------------------

  /** The batch finds the track expired. */
  predicate ExpiredBy(cfg: Config, b: Sensor, track: Sensor, a: nat)
    requires a < |track.objects|
  {
    Purge.Expired(cfg, Predicted(cfg, track.objects[a], Seconds(b.stamp, track.stamp)))
  }

  lemma {:induction false} PowerPositive(d: real, n: nat)
    requires d > 0.0
    ensures Power(d, n) > 0.0
  {
    if n > 0 {
      PowerPositive(d, n - 1);
      StrictProduct(d, Power(d, n - 1));
    }
  }

  lemma OrderKept(p: real, a: real, b: real)
    requires p > 0.0
    ensures a <= b <==> Times(p, a) <= Times(p, b)
  {
    if a < b {
      StrictProduct(p, b - a);
    } else if b < a {
      StrictProduct(p, a - b);
    }
    assert p * (b - a) == p * b - p * a;
  }

  /** After another `gap` seconds, life at the last match less the decay over the weighted time is no
      more than the threshold times the divider to the power of the misses. */
  predicate WornOut(cfg: Config, w: Wear, gap: real) {
    w.base - Times(cfg.decay, w.time + Weighted(cfg, w.misses, gap)) <=
    Times(Power(cfg.divider, w.misses), cfg.threshold)
  }

  /** With a positive divider, the next batch finds a track expired if and only if it is worn out. */
  lemma ExpiresIff(cfg: Config, hist: seq<Sensor>, bs: seq<Sensor>, path: seq<nat>, l: nat)
    requires History(cfg, hist, bs) && Path(cfg, hist, bs, path) && l < |path| && l < |bs| && cfg.divider > 0.0
    ensures var w, gap := WearAt(cfg, hist, bs, path, l), Seconds(bs[l].stamp, hist[l].stamp);
            ExpiredBy(cfg, bs[l], hist[l], path[l]) <==> WornOut(cfg, w, gap)
  {
    hide WearAt, Successor, TakesIn, WornTo, WornOut, Aged, ExpiredBy;
    var w, gap := WearAt(cfg, hist, bs, path, l), Seconds(bs[l].stamp, hist[l].stamp);
    var life := LifeAt(cfg, hist, bs, path, l);
    LifeLaw(cfg, hist, bs, path, l);
    ExpiredAged(cfg, bs[l], hist[l], path[l]);
    AgedExpiresIff(cfg, w, life, gap);
  }

  lemma ExpiredAged(cfg: Config, b: Sensor, track: Sensor, a: nat)
    requires a < |track.objects|
    ensures ExpiredBy(cfg, b, track, a) <==>
            Aged(cfg, track.objects[a].life, Seconds(b.stamp, track.stamp)) <= cfg.threshold
  {
  }

  lemma AgedExpiresIff(cfg: Config, w: Wear, life: real, gap: real)
    requires WornTo(cfg, w, life) && cfg.divider > 0.0
    ensures Aged(cfg, life, gap) <= cfg.threshold <==> WornOut(cfg, w, gap)
  {
    WornByTime(cfg, w, life, gap);
    hide Times, Power, Weighted, Aged;
    PowerPositive(cfg.divider, w.misses);
    OrderKept(Power(cfg.divider, w.misses), Aged(cfg, life, gap), cfg.threshold);
  }

  // ----- a track seen often enough ------------------------------------------------------------------------

  lemma ScaleUp(d: real, p: real, t: real)
    requires d >= 1.0 && p >= 0.0 && t >= 0.0
    ensures Times(p, t) >= 0.0 && Times(d * p, t) >= Times(p, t)
  {
    ProductNonNegative(p, t);
    ProductNonNegative(d - 1.0, p * t);
    assert (d * p) * t == p * t + (d - 1.0) * (p * t);
  }

  lemma SumTimes(p: real, a: real, b: real)
    ensures Times(p, a + b) == Times(p, a) + Times(p, b)
  {
  }

  /** The weighted time is at most the time since the last match under the present weight. */
  predicate InTime(cfg: Config, w: Wear, now: int) {
    && w.since <= now && 0.0 <= w.time <= Weighted(cfg, w.misses, Seconds(now, w.since))
  }

  lemma NoTime(cfg: Config, base: real, since: int)
    ensures InTime(cfg, Wear(base, 0, 0.0, since), since)
  {
  }

  lemma MoreTime(cfg: Config, w: Wear, now: int, next: int)
    requires cfg.divider >= 1.0 && InTime(cfg, w, now) && now <= next
    ensures InTime(cfg, w.(time := w.time + Weighted(cfg, w.misses, Seconds(next, now))), next)
    ensures InTime(cfg, w.(misses := w.misses + 1, time := w.time + Weighted(cfg, w.misses, Seconds(next, now))), next)
  {
    hide Times;
    var p := Power(cfg.divider, w.misses);
    var e, g := Seconds(now, w.since), Seconds(next, now);
    PowerPositive(cfg.divider, w.misses);
    assert Seconds(next, w.since) == e + g;
    SumTimes(p, e, g);
    ScaleUp(cfg.divider, p, e + g);
    ScaleUp(cfg.divider, p, g);
    assert Power(cfg.divider, w.misses + 1) == cfg.divider * p;
    WeightGrows(cfg, w.misses, e + g);
  }

  lemma WeightGrows(cfg: Config, m: nat, t: real)
    requires cfg.divider >= 1.0 && t >= 0.0
    ensures Weighted(cfg, m, t) <= Weighted(cfg, m + 1, t)
  {
    PowerPositive(cfg.divider, m);
    ScaleUp(cfg.divider, Power(cfg.divider, m), t);
  }

  lemma {:induction false} WearInTime(cfg: Config, hist: seq<Sensor>, bs: seq<Sensor>, path: seq<nat>, l: nat)
    requires History(cfg, hist, bs) && Path(cfg, hist, bs, path) && l < |path| && cfg.divider >= 1.0
    ensures InTime(cfg, WearAt(cfg, hist, bs, path, l), hist[l].stamp)
    ensures LifeAt(cfg, hist, bs, path, 0) == 1.0 ==> WearAt(cfg, hist, bs, path, l).base == 1.0
  {
    hide TakesIn, Successor, Hit, InTime, Weighted;
    if l == 0 {
      NoTime(cfg, LifeAt(cfg, hist, bs, path, 0), hist[0].stamp);
    } else {
      WearInTime(cfg, hist, bs, path, l - 1);
      var b, track, w := bs[l - 1], hist[l - 1], WearAt(cfg, hist, bs, path, l - 1);
      assert TakesIn(cfg, b, track, hist[l]);
      assert Successor(cfg, b, track, path[l - 1], path[l]);
      TakenIn(cfg, b, track, hist[l], path[l - 1], path[l]);
      if !Stale(b, track) {
        NoTime(cfg, 1.0, b.stamp);
        MoreTime(cfg, w, track.stamp, b.stamp);
      }
    }
  }

  lemma StampAfter(cfg: Config, b: Sensor, track: Sensor, lastId: nat)
    ensures Absorb(cfg, b, track, lastId).track.stamp == if Stale(b, track) then track.stamp else b.stamp
  {
  }

  lemma {:induction false} PowerGrows(d: real, m: nat, n: nat)
    requires d >= 1.0 && m <= n
    ensures Power(d, m) <= Power(d, n)
    decreases n
  {
    if m < n {
      PowerGrows(d, m, n - 1);
      PowerPositive(d, n - 1);
      ProductNonNegative(d - 1.0, Power(d, n - 1));
      assert (d - 1.0) * Power(d, n - 1) == d * Power(d, n - 1) - Power(d, n - 1);
    }
  }

  /** Misses and time a track can take, whatever their order: the divider to the power of the misses,
      times the decay over the time plus the threshold, is below one. */
  predicate Bearable(cfg: Config, misses: nat, time: real) {
    Times(Power(cfg.divider, misses), cfg.decay * time + cfg.threshold) < 1.0
  }

  /** Without misses that leaves the time: the decay over it is less than one minus the threshold. */
  lemma BearableTime(cfg: Config, time: real)
    ensures Bearable(cfg, 0, time) <==> cfg.decay * time < 1.0 - cfg.threshold
  {
  }

  lemma ProductOrder(p: real, q: real, a: real, b: real)
    requires 0.0 < p <= q && a <= b && Times(q, b) < 1.0
    ensures Times(p, a) < 1.0
  {
    OrderKept(p, a, b);
    if b > 0.0 {
      OrderKept(b, p, q);
      assert b * p == p * b && b * q == q * b;
    } else {
      OrderKept(p, b, 0.0);
    }
  }

  lemma BearableLess(cfg: Config, m: nat, n: nat, t: real, u: real)
    requires cfg.divider >= 1.0 && cfg.decay >= 0.0 && m <= n && t <= u && Bearable(cfg, n, u)
    ensures Bearable(cfg, m, t)
  {
    PowerPositive(cfg.divider, m);
    PowerGrows(cfg.divider, m, n);
    ProductNonNegative(cfg.decay, u - t);
    assert cfg.decay * (u - t) == cfg.decay * u - cfg.decay * t;
    ProductOrder(Power(cfg.divider, m), Power(cfg.divider, n), cfg.decay * t + cfg.threshold, cfg.decay * u + cfg.threshold);
  }

  lemma Distributed(p: real, d: real, t: real, h: real)
    ensures Times(p, d * t + h) == Times(d, Times(p, t)) + Times(p, h)
  {
    assert p * (d * t + h) == d * (p * t) + p * h;
  }

  /** Within what it can bear, a track that was matched is not worn out. */
  lemma BearableNotWornOut(cfg: Config, w: Wear, now: int, next: int)
    requires cfg.divider >= 1.0 && cfg.decay >= 0.0 && w.base == 1.0 && InTime(cfg, w, now) && now <= next
    requires Bearable(cfg, w.misses, Seconds(next, w.since))
    ensures !WornOut(cfg, w, Seconds(next, now))
  {
    var p, t := Power(cfg.divider, w.misses), w.time + Weighted(cfg, w.misses, Seconds(next, now));
    MoreTime(cfg, w, now, next);
    hide Times, Power;
    TimesMonotone(cfg.decay, t, Times(p, Seconds(next, w.since)));
    Distributed(p, cfg.decay, Seconds(next, w.since), cfg.threshold);
  }

  /** Missed too often it is worn out, however short the time. */
  lemma MissedTooOften(cfg: Config, w: Wear, now: int, next: int)
    requires cfg.divider >= 1.0 && cfg.decay >= 0.0 && w.base == 1.0 && InTime(cfg, w, now) && now <= next
    requires Times(Power(cfg.divider, w.misses), cfg.threshold) >= 1.0
    ensures WornOut(cfg, w, Seconds(next, now))
  {
    MoreTime(cfg, w, now, next);
    ProductNonNegative(cfg.decay, w.time + Weighted(cfg, w.misses, Seconds(next, now)));
  }

  /** The next batch comes, unless stale, after at most so many misses and so much time since the
      last match. */
  ghost predicate Attended(cfg: Config, hist: seq<Sensor>, bs: seq<Sensor>, path: seq<nat>, misses: nat, time: real)
    requires Path(cfg, hist, bs, path) && |path| <= |bs|
  {
    var l := |path| - 1;
    var w := WearAt(cfg, hist, bs, path, l);
    Stale(bs[l], hist[l]) || (w.misses <= misses && Seconds(bs[l].stamp, w.since) <= time)
  }

  lemma AttendedGoesOn(cfg: Config, hist: seq<Sensor>, bs: seq<Sensor>, path: seq<nat>, misses: nat, time: real)
    returns (next: nat)
    requires History(cfg, hist, bs) && Path(cfg, hist, bs, path) && |path| <= |bs|
    requires cfg.divider >= 1.0 && cfg.decay >= 0.0 && Bearable(cfg, misses, time)
    requires LifeAt(cfg, hist, bs, path, 0) == 1.0 && Attended(cfg, hist, bs, path, misses, time)
    ensures Path(cfg, hist, bs, path + [next])
  {
    hide TakesIn, Successor, WearAt, InTime, WornOut, Bearable;
    var l := |path| - 1;
    var b, track := bs[l], hist[l];
    if !Stale(b, track) {
      var w := WearAt(cfg, hist, bs, path, l);
      WearInTime(cfg, hist, bs, path, l);
      BearableLess(cfg, w.misses, misses, Seconds(b.stamp, w.since), time);
      BearableNotWornOut(cfg, w, track.stamp, b.stamp);
      ExpiresIff(cfg, hist, bs, path, l);
    }
    NotExpiredStays(cfg, b, track, path[l]);
    SuccessorIff(cfg, b, track, path[l]);
    next :| Successor(cfg, b, track, path[l], next);
    assert TakesIn(cfg, b, track, hist[l + 1]);
    TakenIn(cfg, b, track, hist[l + 1], path[l], next);
  }

  lemma NotExpiredStays(cfg: Config, b: Sensor, track: Sensor, a: nat)
    requires a < |track.objects| && (Stale(b, track) || !ExpiredBy(cfg, b, track, a))
    ensures !PurgedBy(cfg, b, track, a)
  {
  }

  lemma PathStep(cfg: Config, hist: seq<Sensor>, bs: seq<Sensor>, path: seq<nat>, l: nat)
    requires History(cfg, hist, bs) && Path(cfg, hist, bs, path) && l + 1 < |path|
    ensures hist[l + 1].objects[path[l + 1]].id == hist[l].objects[path[l]].id
  {
    hide TakesIn, Successor, Hit, Missed;
    var b, track, after := bs[l], hist[l], hist[l + 1];
    assert TakesIn(cfg, b, track, after) && Successor(cfg, b, track, path[l], path[l + 1]);
    TakenIn(cfg, b, track, after, path[l], path[l + 1]);
  }

  lemma {:induction false} PathId(cfg: Config, hist: seq<Sensor>, bs: seq<Sensor>, path: seq<nat>, l: nat)
    requires History(cfg, hist, bs) && Path(cfg, hist, bs, path) && l < |path|
    ensures hist[l].objects[path[l]].id == hist[0].objects[path[0]].id
  {
    if l > 0 {
      hide *;
      PathId(cfg, hist, bs, path, l - 1);
      PathStep(cfg, hist, bs, path, l - 1);
    }
  }

  /** As long as track `a` lives, every batch attends to it. */
  ghost predicate AlwaysAttended(cfg: Config, hist: seq<Sensor>, bs: seq<Sensor>, a: nat, misses: nat, time: real) {
    forall path :: Path(cfg, hist, bs, path) && path[0] == a && |path| <= |bs| ==>
      Attended(cfg, hist, bs, path, misses, time)
  }

  /** A track with full life to which every batch attends within bearable misses and time is never
      purged, however long the history; it keeps its identifier. */
  lemma {:induction false} NeverPurged(cfg: Config, hist: seq<Sensor>, bs: seq<Sensor>, a: nat, misses: nat, time: real, n: nat)
    returns (path: seq<nat>)
    requires History(cfg, hist, bs) && a < |hist[0].objects| && hist[0].objects[a].life == 1.0 && n < |hist|
    requires cfg.divider >= 1.0 && cfg.decay >= 0.0 && Bearable(cfg, misses, time)
    requires AlwaysAttended(cfg, hist, bs, a, misses, time)
    ensures Path(cfg, hist, bs, path) && |path| == n + 1 && path[0] == a
    ensures hist[n].objects[path[n]].id == hist[0].objects[a].id
  {
    hide Attended, Bearable, Successor, TakesIn;
    if n == 0 {
      path := [a];
    } else {
      path := NeverPurged(cfg, hist, bs, a, misses, time, n - 1);
      var next := AttendedGoesOn(cfg, hist, bs, path, misses, time);
      path := path + [next];
      PathId(cfg, hist, bs, path, n);
    }
  }

  // ----- missed within an instant -----------------------------------------------------------------------

  /** The list after `n` empty batches with its own stamp. */
  function Quieted(cfg: Config, track: Sensor, n: nat): Sensor {
    if n == 0 then track
    else Absorb(cfg, Sensor(track.src, track.stamp, []), Quieted(cfg, track, n - 1), 0).track
  }

  predicate AloneWith(track: Sensor, src: nat, stamp: int, life: real) {
    && track.src == src && track.stamp == stamp
    && (track.objects != [] ==>
          |track.objects| == 1 && track.objects[0].life == life &&
          track.objects[0].pos.Vec? && track.objects[0].vel.Vec?)
  }

  lemma QuietStep(cfg: Config, track: Sensor, src: nat, stamp: int, life: real)
    requires AloneWith(track, src, stamp, life)
    ensures var r := Absorb(cfg, Sensor(src, stamp, []), track, 0).track;
            && AloneWith(r, src, stamp, life / cfg.divider)
            && (track.objects == [] || life <= cfg.threshold ==> r.objects == [])
  {
    var dt := Seconds(stamp, stamp);
    var p := PredictAll(cfg, track.objects, dt);
    assert dt == 0.0;
    if track.objects == [] {
      assert p == [] && Purge.Kept(cfg, p) == [];
    } else {
      assert |p| == 1 && p[0].life == life && p[0].pos.Vec? && p[0].vel.Vec?;
      assert Purge.KeptFrom(cfg, p, 1) == [];
      assert Purge.Kept(cfg, p) == if life <= cfg.threshold then [] else [0];
    }
  }

  function Shared(cfg: Config, life: real, n: nat): real {
    if n == 0 then life else Shared(cfg, life, n - 1) / cfg.divider
  }

  lemma {:induction false} SharedTimes(cfg: Config, life: real, n: nat)
    ensures Times(Power(cfg.divider, n), Shared(cfg, life, n)) == life
  {
    if n > 0 {
      SharedTimes(cfg, life, n - 1);
      hide Times;
      DividedBy(cfg.divider, Power(cfg.divider, n - 1), Power(cfg.divider, n), Shared(cfg, life, n - 1));
    }
  }

  lemma {:induction false} QuietedAlone(cfg: Config, track: Sensor, life: real, n: nat)
    requires AloneWith(track, track.src, track.stamp, life)
    ensures AloneWith(Quieted(cfg, track, n), track.src, track.stamp, Shared(cfg, life, n))
  {
    if n > 0 {
      hide Absorb, AloneWith;
      QuietedAlone(cfg, track, life, n - 1);
      QuietStep(cfg, Quieted(cfg, track, n - 1), track.src, track.stamp, Shared(cfg, life, n - 1));
    }
  }

  /** The time alone does not decide: with full life, and then missed by one batch more than it takes
      for the divider to the power of the misses times the threshold to reach one, a track is purged
      within an instant. */
  lemma PurgedInAnInstant(cfg: Config, track: Sensor, n: nat)
    requires cfg.divider > 0.0 && |track.objects| == 1 && track.objects[0].life == 1.0
    requires track.objects[0].pos.Vec? && track.objects[0].vel.Vec?
    requires Times(Power(cfg.divider, n), cfg.threshold) >= 1.0
    ensures Quieted(cfg, track, n + 1).objects == []
  {
    hide Absorb, Times, Power;
    QuietedAlone(cfg, track, 1.0, n);
    SharedTimes(cfg, 1.0, n);
    PowerPositive(cfg.divider, n);
    OrderKept(Power(cfg.divider, n), Shared(cfg, 1.0, n), cfg.threshold);
    QuietStep(cfg, Quieted(cfg, track, n), track.src, track.stamp, Shared(cfg, 1.0, n));
  }
}
