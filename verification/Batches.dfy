/**
 `processObjects`: one batch of measurements against one track list.  `Absorb` is the
 value it computes, the method is the code's loops, and `AbsorbOutcome` says what became of
 every track and every measurement.
 */
module Batches {
  import opened Vectors
  import opened TrackedObjects
  import opened Thinning
  import opened Association
  import Purge

  /** Track identifiers come from a 16-bit counter. */
  const ID_SPAN: nat := 65536

  /** The track list after prediction over `dt` and one purge. */
  function Survivors(cfg: Config, tracks: seq<Object>, dt: real): seq<Object> {
    Purge.Purged(cfg, PredictAll(cfg, tracks, dt))
  }

  function Matched(cfg: Config, t: Object, ms: seq<Object>, b: nat, dt: real): Object {
    if b < |ms| then Corrected(t, ms[b], dt) else Decayed(cfg, t)
  }

  function MatchAll(cfg: Config, tracks: seq<Object>, ms: seq<Object>, dt: real): (r: seq<Object>)
    ensures |r| == |tracks|
    ensures forall i :: 0 <= i < |tracks| ==>
              r[i] == Matched(cfg, tracks[i], ms, Nearest(cfg, tracks[i], ms, |ms|), dt)
  {
    seq(|tracks|, i requires 0 <= i < |tracks| =>
      Matched(cfg, tracks[i], ms, Nearest(cfg, tracks[i], ms, |ms|), dt))
  }

  /** The new tracks for the chosen measurements, numbered from `lastId`. */
  function SpawnAll(ms: seq<Object>, chosen: seq<nat>, lastId: nat): (r: seq<Object>)
    requires forall i :: 0 <= i < |chosen| ==> chosen[i] < |ms|
    ensures |r| == |chosen|
    ensures forall i :: 0 <= i < |r| ==> r[i] == Spawned(ms[chosen[i]], (lastId + i) % ID_SPAN)
  {
    seq(|chosen|, i requires 0 <= i < |chosen| => Spawned(ms[chosen[i]], (lastId + i) % ID_SPAN))
  }

  datatype Absorbed = Absorbed(track: Sensor, lastId: nat, spawned: nat)

  predicate Stale(m: Sensor, track: Sensor) {
    m.stamp < track.stamp
  }

  function Absorb(cfg: Config, m: Sensor, track: Sensor, lastId: nat): Absorbed {
    if Stale(m, track) then Absorbed(track, lastId, 0)
    else
      var dt := Seconds(m.stamp, track.stamp);
      var live := Survivors(cfg, track.objects, dt);
      var chosen := NewTracks(cfg, live, m.objects, |m.objects|);
      Absorbed(
        track.(stamp := m.stamp,
               objects := MatchAll(cfg, live, m.objects, dt) + SpawnAll(m.objects, chosen, lastId)),
        (lastId + |chosen|) % ID_SPAN,
        |chosen|)
  }

  // ----- the loops ------------------------------------------------------------------

  method UpdateAll(cfg: Config, s: seq<Object>, dt: real) returns (r: seq<Object>)
    ensures r == PredictAll(cfg, s, dt)
  {
    r := s;
    for i := 0 to |s|
      invariant |r| == |s|
      invariant forall k :: 0 <= k < i ==> r[k] == Predicted(cfg, s[k], dt)
      invariant forall k :: i <= k < |s| ==> r[k] == s[k]
    {
      r := r[i := Predicted(cfg, r[i], dt)];
    }
  }

  /** The inner loop over the tracks for one measurement: improves each track's best
      candidate and reports whether the measurement is in range of none. */
  method Offer(cfg: Config, tracks: seq<Object>, ms: seq<Object>, n: nat, best: seq<nat>, score: seq<Distance>)
    returns (best': seq<nat>, score': seq<Distance>, outOfRange: bool)
    requires n < |ms| && |best| == |score| == |tracks|
    requires forall i :: 0 <= i < |tracks| ==>
               best[i] == Nearest(cfg, tracks[i], ms, n) && score[i] == ScoreOf(tracks[i], ms, best[i])
    ensures |best'| == |score'| == |tracks|
    ensures forall i :: 0 <= i < |tracks| ==>
              best'[i] == Nearest(cfg, tracks[i], ms, n + 1) && score'[i] == ScoreOf(tracks[i], ms, best'[i])
    ensures outOfRange == OutOfRangeOfAll(cfg, tracks, ms[n])
  {
    best', score', outOfRange := best, score, true;
    for t := 0 to |tracks|
      invariant |best'| == |score'| == |tracks|
      invariant forall i :: 0 <= i < t ==>
                  best'[i] == Nearest(cfg, tracks[i], ms, n + 1) && score'[i] == ScoreOf(tracks[i], ms, best'[i])
      invariant forall i :: t <= i < |tracks| ==> best'[i] == best[i] && score'[i] == score[i]
      invariant outOfRange == forall i :: 0 <= i < t ==> !InRange(cfg, tracks[i], ms[n])
    {
      var dist := DistSq(ms[n].pos, tracks[t].pos);
      if Less(dist, Dist(cfg.rangeDist)) {
        outOfRange := false;
        if Less(dist, score'[t]) {
          score' := score'[t := dist];
          best' := best'[t := n];
        }
      }
    }
  }

  /** The inner loop over the new tracks for one out-of-range measurement. */
  method NearUnassociated(cfg: Config, ms: seq<Object>, n: nat, chosen: seq<nat>) returns (near: bool)
    requires n < |ms| && forall i :: 0 <= i < |chosen| ==> chosen[i] < |ms|
    ensures near == Covered(Neighbours(cfg, ms), chosen, n)
  {
    near := false;
    for u := 0 to |chosen|
      invariant near == exists i :: 0 <= i < u && Neighbours(cfg, ms)(n, chosen[i])
    {
      if Less(DistSq(ms[n].pos, ms[chosen[u]].pos), Dist(cfg.groupDist)) {
        near := true;
      }
    }
  }

  method Associate(cfg: Config, tracks: seq<Object>, ms: seq<Object>) returns (best: seq<nat>, chosen: seq<nat>)
    ensures |best| == |tracks|
    ensures forall i :: 0 <= i < |tracks| ==> best[i] == Nearest(cfg, tracks[i], ms, |ms|)
    ensures chosen == NewTracks(cfg, tracks, ms, |ms|)
  {
    best, chosen := seq(|tracks|, _ => |ms|), [];
    var score := seq(|tracks|, _ => Unbounded);
    for n := 0 to |ms|
      invariant |best| == |score| == |tracks|
      invariant forall i :: 0 <= i < |tracks| ==>
                  best[i] == Nearest(cfg, tracks[i], ms, n) && score[i] == ScoreOf(tracks[i], ms, best[i])
      invariant chosen == NewTracks(cfg, tracks, ms, n)
    {
      var outOfRange;
      best, score, outOfRange := Offer(cfg, tracks, ms, n, best, score);
      if outOfRange {
        var near := NearUnassociated(cfg, ms, n, chosen);
        if !near {
          chosen := chosen + [n];
        }
      }
    }
  }

  method CorrectOrDecay(cfg: Config, tracks: seq<Object>, ms: seq<Object>, best: seq<nat>, dt: real)
    returns (r: seq<Object>)
    requires |best| == |tracks|
    requires forall i :: 0 <= i < |tracks| ==> best[i] == Nearest(cfg, tracks[i], ms, |ms|)
    ensures r == MatchAll(cfg, tracks, ms, dt)
    ensures TracksMatched(cfg, tracks, ms, dt, r)
  {
    hide Corrected, Decayed;
    r := tracks;
    for t := 0 to |tracks|
      invariant |r| == |tracks|
      invariant forall i :: 0 <= i < t ==> r[i] == Matched(cfg, tracks[i], ms, best[i], dt)
      invariant forall i :: t <= i < |tracks| ==> r[i] == tracks[i]
    {
      if best[t] < |ms| {
        r := r[t := Corrected(r[t], ms[best[t]], dt)];
      } else {
        r := r[t := Decayed(cfg, r[t])];
      }
    }
    AllMatched(cfg, tracks, ms, dt);
  }

  method AddUnassociated(ms: seq<Object>, chosen: seq<nat>, tracks: seq<Object>, lastId: nat)
    returns (objs: seq<Object>, id: nat)
    requires forall i :: 0 <= i < |chosen| ==> chosen[i] < |ms|
    requires lastId < ID_SPAN
    ensures objs == tracks + SpawnAll(ms, chosen, lastId)
    ensures id == (lastId + |chosen|) % ID_SPAN
  {
    objs, id := tracks, lastId;
    for u := 0 to |chosen|
      invariant id == (lastId + u) % ID_SPAN
      invariant objs == tracks + SpawnAll(ms, chosen, lastId)[..u]
    {
      objs := objs + [ms[chosen[u]].(life := 1.0, score := 0.0, id := id)];
      id := if id + 1 == ID_SPAN then 0 else id + 1;
    }
  }

  /** The whole of `processObjects`; `lastId` is the tracker's running counter. */
  method ProcessObjects(cfg: Config, m: Sensor, track: Sensor, lastId: nat) returns (a: Absorbed)
    requires lastId < ID_SPAN
    ensures a == Absorb(cfg, m, track, lastId) && a.lastId < ID_SPAN
  {
    if m.stamp < track.stamp {
      return Absorbed(track, lastId, 0);
    }
    hide MatchAll, NewTracks, SpawnAll, Purge.Purged;
    var dt := Seconds(m.stamp, track.stamp);
    var objs := UpdateAll(cfg, track.objects, dt);
    objs := Purge.PurgeExpiredTracks(cfg, objs);
    var best, chosen := Associate(cfg, objs, m.objects);
    objs := CorrectOrDecay(cfg, objs, m.objects, best, dt);
    var id;
    objs, id := AddUnassociated(m.objects, chosen, objs, lastId);
    a := Absorbed(track.(objects := objs, stamp := m.stamp), id, |chosen|);
  }

  // ----- what became of every track and measurement ----------------------------------

  /** Every track of `live` became, at the same position of `objs`, its correction by its
      nearest in-range measurement (lowest index on ties), or decayed if there is none. */
  ghost predicate TracksMatched(cfg: Config, live: seq<Object>, ms: seq<Object>, dt: real, objs: seq<Object>) {
    && |live| <= |objs|
    && forall i :: 0 <= i < |live| ==> MatchedByNearest(cfg, live[i], ms, dt, objs[i])
  }

  ghost predicate MatchedByNearest(cfg: Config, t: Object, ms: seq<Object>, dt: real, r: Object) {
    exists b :: IsNearest(cfg, t, ms, |ms|, b) && BecomesBy(cfg, t, ms, b, dt, r)
  }

  /** What candidate `b`, or having none, makes of a track. */
  predicate BecomesBy(cfg: Config, t: Object, ms: seq<Object>, b: nat, dt: real, r: Object) {
    if b < |ms| then t.pos.Vec? && ms[b].pos.Vec? && CorrectedBy(t, ms[b], dt, r) else DecayedBy(cfg, t, r)
  }

  lemma BecomesMatched(cfg: Config, t: Object, ms: seq<Object>, b: nat, dt: real)
    requires IsNearest(cfg, t, ms, |ms|, b)
    ensures BecomesBy(cfg, t, ms, b, dt, Matched(cfg, t, ms, b, dt))
  {
    hide Corrected, Decayed, CorrectedBy, DecayedBy;
    if b < |ms| {
      assert InRange(cfg, t, ms[b]);
      CorrectedIff(t, ms[b], dt, Corrected(t, ms[b], dt));
    } else {
      DecayedIff(cfg, t, Decayed(cfg, t));
    }
  }

  lemma AllMatched(cfg: Config, live: seq<Object>, ms: seq<Object>, dt: real)
    ensures TracksMatched(cfg, live, ms, dt, MatchAll(cfg, live, ms, dt))
  {
    hide BecomesBy, Matched;
    var r := MatchAll(cfg, live, ms, dt);
    forall i | 0 <= i < |live|
      ensures MatchedByNearest(cfg, live[i], ms, dt, r[i])
    {
      var b := Nearest(cfg, live[i], ms, |ms|);
      BecomesMatched(cfg, live[i], ms, b, dt);
      assert IsNearest(cfg, live[i], ms, |ms|, b) && BecomesBy(cfg, live[i], ms, b, dt, r[i]);
    }
  }

  /** Every track of `s` moved on by `us` microseconds. */
  ghost predicate AllMovedOn(cfg: Config, s: seq<Object>, us: int, p: seq<Object>) {
    |p| == |s| && forall i :: 0 <= i < |s| ==> MovedOn(cfg, s[i], us, p[i])
  }

  lemma PredictAllMovesOn(cfg: Config, s: seq<Object>, later: int, earlier: int)
    ensures AllMovedOn(cfg, s, later - earlier, PredictAll(cfg, s, Seconds(later, earlier)))
  {
    hide MovedOn, Predicted;
    forall i | 0 <= i < |s|
      ensures MovedOn(cfg, s[i], later - earlier, Predicted(cfg, s[i], Seconds(later, earlier)))
    {
      PredictedMovesOn(cfg, s[i], later, earlier);
    }
  }

  /** `news` are exactly the measurements of `ms` chosen by the thinning of those out of
      range of every track, numbered consecutively from `lastId`. */
  ghost predicate MeasurementsSpawned(cfg: Config, live: seq<Object>, ms: seq<Object>, lastId: nat,
                                      chosen: seq<nat>, news: seq<Object>) {
    && IsThinning(Eligible(cfg, live, ms), Neighbours(cfg, ms), |ms|, chosen)
    && |news| == |chosen|
    && forall i :: 0 <= i < |chosen| ==>
         chosen[i] < |ms| && StartedFrom(ms[chosen[i]], (lastId + i) % 65536, news[i])
  }

  /** What a batch does to a track list: `p` is the list moved on to the batch's stamp, the purge
      leaves its tracks at `kept`, these are matched or decayed, new ones follow. */
  ghost predicate Outcome(cfg: Config, m: Sensor, track: Sensor, lastId: nat,
                          p: seq<Object>, kept: seq<nat>, chosen: seq<nat>, a: Absorbed) {
    && AllMovedOn(cfg, track.objects, m.stamp - track.stamp, p)
    && kept == Purge.Kept(cfg, p)
    && var live, n, dt := Purge.At(p, kept), |kept|, (m.stamp - track.stamp) as real / 1_000_000.0;
       && |a.track.objects| == n + |chosen|
       && TracksMatched(cfg, live, m.objects, dt, a.track.objects)
       && MeasurementsSpawned(cfg, live, m.objects, lastId, chosen, a.track.objects[n..])
       && a.track.stamp == m.stamp && a.track.src == track.src
       && a.spawned == |chosen| && a.lastId == (lastId + |chosen|) % 65536
  }

  /** For every batch that is not stale, what became of each track, of each surviving track and of
      each out-of-range measurement, without naming the steps that did it; the stamp moves to the
      batch's and nothing else changes. */
  lemma AbsorbOutcome(cfg: Config, m: Sensor, track: Sensor, lastId: nat)
    returns (p: seq<Object>, kept: seq<nat>, chosen: seq<nat>)
    requires !Stale(m, track)
    ensures Outcome(cfg, m, track, lastId, p, kept, chosen, Absorb(cfg, m, track, lastId))
  {
    hide AllMovedOn, TracksMatched, MeasurementsSpawned, PredictAll, MatchAll, SpawnAll, NewTracks, Purge.Kept;
    var dt := Seconds(m.stamp, track.stamp);
    p := PredictAll(cfg, track.objects, dt);
    kept := Purge.Kept(cfg, p);
    var live := Survivors(cfg, track.objects, dt);
    chosen := NewTracks(cfg, live, m.objects, |m.objects|);
    PredictAllMovesOn(cfg, track.objects, m.stamp, track.stamp);
    AllMatched(cfg, live, m.objects, dt);
    SpawnedOutcome(cfg, live, m.objects, lastId);
    var objs := Absorb(cfg, m, track, lastId).track.objects;
    assert objs[|kept|..] == SpawnAll(m.objects, chosen, lastId);
    MatchedPrefix(cfg, live, m.objects, dt, MatchAll(cfg, live, m.objects, dt), SpawnAll(m.objects, chosen, lastId));
  }

  lemma SpawnedOutcome(cfg: Config, live: seq<Object>, ms: seq<Object>, lastId: nat)
    ensures var chosen := NewTracks(cfg, live, ms, |ms|);
            MeasurementsSpawned(cfg, live, ms, lastId, chosen, SpawnAll(ms, chosen, lastId))
  {
    ChosenIsThinning(Eligible(cfg, live, ms), Neighbours(cfg, ms), |ms|);
  }

  /** Tracks appended later do not matter. */
  lemma MatchedPrefix(cfg: Config, live: seq<Object>, ms: seq<Object>, dt: real, a: seq<Object>, b: seq<Object>)
    requires TracksMatched(cfg, live, ms, dt, a)
    ensures TracksMatched(cfg, live, ms, dt, a + b)
  {
    hide MatchedByNearest;
  }
}
