/**
 Confidence, score and life bounds over every run, and where corrections put a track.
 */
module TrackerBounds {
  import opened Vectors
  import opened TrackedObjects
  import opened Association
  import opened Means
  import opened Merge
  import opened MergeLaws
  import opened Batches
  import opened TrackerModel
  import Purge
  import TrackerStamps

  predicate AllBounded(s: seq<Object>) {
    forall i :: 0 <= i < |s| ==> Bounded(s[i])
  }

  predicate AllUnitConf(s: seq<Object>) {
    forall i :: 0 <= i < |s| ==> UnitConf(s[i])
  }

  lemma SurvivorsBounded(cfg: Config, s: seq<Object>, dt: real)
    requires Damping(cfg) && AllBounded(s) && dt >= 0.0
    ensures AllBounded(Survivors(cfg, s, dt))
  {
    forall i | 0 <= i < |s|
      ensures Bounded(PredictAll(cfg, s, dt)[i])
    {
      PredictedBounded(cfg, s[i], dt);
    }
  }

  lemma AbsorbBounded(cfg: Config, m: Sensor, track: Sensor, lastId: nat)
    requires Damping(cfg) && AllBounded(track.objects) && AllUnitConf(m.objects)
    ensures AllBounded(Absorb(cfg, m, track, lastId).track.objects)
  {
    if !Stale(m, track) {
      var dt := Seconds(m.stamp, track.stamp);
      SurvivorsBounded(cfg, track.objects, dt);
      var live := Survivors(cfg, track.objects, dt);
      var r := MatchAll(cfg, live, m.objects, dt);
      forall i | 0 <= i < |live|
        ensures Bounded(r[i])
      {
        var b := Nearest(cfg, live[i], m.objects, |m.objects|);
        if b < |m.objects| {
          CorrectedBounded(live[i], m.objects[b], dt);
        } else {
          DecayedBounded(cfg, live[i]);
        }
      }
    }
  }

  // ----- per-source lists and merged list ---------------------------------------------------

  ghost predicate TracksBounded(t: Tracks) {
    forall k :: k in t ==> AllBounded(t[k].objects)
  }

  ghost predicate BatchesUnitConf(q: seq<Sensor>) {
    forall j :: 0 <= j < |q| ==> AllUnitConf(q[j].objects)
  }

  lemma {:induction false} IngestBounded(cfg: Config, q: seq<Sensor>, i: Intake)
    requires Damping(cfg) && TracksBounded(i.tracks) && BatchesUnitConf(q)
    ensures TracksBounded(Ingest(cfg, q, i).tracks)
  {
    if q != [] {
      var n := |q| - 1;
      IngestBounded(cfg, q[..n], i);
      var mid := Ingest(cfg, q[..n], i);
      AbsorbBounded(cfg, q[n], TrackFor(mid.tracks, q[n]), mid.lastId);
    }
  }

  lemma {:induction false} PoolBounded(cfg: Config, t: Tracks, latest: int, keys: seq<nat>, o: Object)
    requires Damping(cfg) && TracksBounded(t)
    requires forall j :: 0 <= j < |keys| ==> keys[j] in t && t[keys[j]].stamp <= latest
    requires o in Pool(cfg, t, latest, keys)
    ensures Bounded(o)
  {
    var n := |keys| - 1;
    if o in Pool(cfg, t, latest, keys[..n]) {
      PoolBounded(cfg, t, latest, keys[..n], o);
    } else {
      var dt := Seconds(latest, t[keys[n]].stamp);
      var p := PredictAll(cfg, t[keys[n]].objects, dt);
      EstablishedExact(p, o);
      assert o in p;
      var i :| 0 <= i < |p| && p[i] == o;
      PredictedBounded(cfg, t[keys[n]].objects[i], dt);
    }
  }

  lemma {:induction false} MemberOf(gs: Groups, i: nat, j: nat)
    requires i < |gs| && j < |gs[i]|
    ensures gs[i][j] in Members(gs)
  {
    var n := |gs| - 1;
    if i < n {
      MemberOf(gs[..n], i, j);
    } else {
      assert gs[n][j] in multiset(gs[n]);
    }
  }

  lemma MergedUnitConf(cfg: Config, t: Tracks, p: Plan)
    requires Damping(cfg) && TracksBounded(t) && IsLatest(t, p.latest)
    requires Schedule(cfg, t, p.latest, p.keys, p.visits) && AllPositive(p.visits)
    ensures AllUnitConf(MergedSensor(cfg, p.latest, p.visits).objects)
  {
    hide Merged, Rep, Entrants, Pool;
    var gs := Merged(cfg, p.visits);
    MergeConserves(cfg, t, p.latest, p.keys, p.visits);
    forall i | 0 <= i < |gs|
      ensures UnitConf(Rep(gs[i]))
    {
      forall j | 0 <= j < |gs[i]|
        ensures Bounded(gs[i][j])
      {
        MemberOf(gs, i, j);
        PoolBounded(cfg, t, p.latest, p.keys, gs[i][j]);
      }
      RepUnitConf(gs[i]);
    }
  }

  // ----- the invariant of runs ----------------------------------------------------------------

  ghost predicate BoundInv(s: State) {
    TracksBounded(s.internal) && AllBounded(s.fused.objects) && BatchesUnitConf(s.queue)
  }

  /** Inputs have confidences in [0, 1]; processing neither adds life nor multiplies it. */
  predicate Admissible(op: Op) {
    match op
    case AddObjects(objs, _, _) => AllUnitConf(objs)
    case Process(cfg, _) => Damping(cfg)
    case Reset(_) => true
  }

  lemma SortedUnitConf(q: seq<Sensor>, sorted: seq<Sensor>)
    requires BatchesUnitConf(q) && multiset(sorted) == multiset(q)
    ensures BatchesUnitConf(sorted)
  {
    forall j | 0 <= j < |sorted|
      ensures AllUnitConf(sorted[j].objects)
    {
      var i := SameElements(sorted, q, j);
    }
  }

  lemma StepKeepsBoundInv(s: State, op: Op, s': State)
    requires BoundInv(s) && Admissible(op) && Next(s, op, s')
    ensures BoundInv(s')
  {
    hide Absorb, Merged, Ingest;
    if op.Process? && s.queue != [] {
      var cfg, p := op.cfg, op.plan;
      var i := Ingested(cfg, s, p);
      SortedUnitConf(s.queue, p.sorted);
      IngestBounded(cfg, p.sorted, Intake(s.internal, s.lastId, s.allocs));
      MergedUnitConf(cfg, i.tracks, p);
      var m := MergedSensor(cfg, p.latest, p.visits);
      AbsorbBounded(cfg, m, Readied(s.fused, m), i.lastId);
    }
  }

  /** Every track of every reachable state has confidence and score in [0, 1] and life at
      most 1. */
  lemma {:induction false} RunKeepsBounds(r: Run, i: nat)
    requires IsRun(r) && i < |r.states|
    requires forall j :: 0 <= j < |r.ops| ==> Admissible(r.ops[j])
    ensures BoundInv(r.states[i])
  {
    if i > 0 {
      hide Next, BoundInv;
      RunKeepsBounds(r, i - 1);
      RunStep(r, i - 1);
      StepKeepsBoundInv(r.states[i - 1], r.ops[i - 1], r.states[i]);
    }
  }

  // ----- where corrections put a track ------------------------------------------------------------

  /** Every matched track moves along the segment from its prediction to its nearest
      measurement. */
  lemma MatchedOnSegment(cfg: Config, m: Sensor, track: Sensor, lastId: nat, i: nat, b: nat)
    requires Damping(cfg) && AllBounded(track.objects) && !Stale(m, track)
    requires i < |Survivors(cfg, track.objects, Seconds(m.stamp, track.stamp))|
    requires var t := Survivors(cfg, track.objects, Seconds(m.stamp, track.stamp))[i];
             b < |m.objects| && IsNearest(cfg, t, m.objects, |m.objects|, b)
    ensures var t := Survivors(cfg, track.objects, Seconds(m.stamp, track.stamp))[i];
            var r := Absorb(cfg, m, track, lastId).track.objects;
            i < |r| && MovedTowards(t, m.objects[b], r[i])
  {
    hide Corrected, MovedTowards;
    var dt := Seconds(m.stamp, track.stamp);
    var live := Survivors(cfg, track.objects, dt);
    SurvivorsBounded(cfg, track.objects, dt);
    NearestUnique(cfg, live[i], m.objects, |m.objects|, b, Nearest(cfg, live[i], m.objects, |m.objects|));
    CorrectionOnSegment(live[i], m.objects[b], dt);
    assert Absorb(cfg, m, track, lastId).track.objects[i] == MatchAll(cfg, live, m.objects, dt)[i];
    assert MatchAll(cfg, live, m.objects, dt)[i] == Matched(cfg, live[i], m.objects, b, dt);
  }

  /** A matched fused track lands exactly on its merged measurement: its score was reset, so
      the correction takes out the whole error. */
  lemma FusedLandsOnMeasurement(cfg: Config, s: State, p: Plan, i: nat, b: nat)
    requires TrackerStamps.StampInv(s) && s.queue != [] && ValidPlan(cfg, s, p) && s.fused.objects != []
    requires var m := MergedSensor(cfg, p.latest, p.visits);
             var live := Survivors(cfg, ZeroScores(s.fused.objects), Seconds(m.stamp, s.fused.stamp));
             i < |live| && b < |m.objects| && IsNearest(cfg, live[i], m.objects, |m.objects|, b)
    ensures var r := Processed(cfg, s, p).fused.objects;
            i < |r| && r[i].pos == MergedSensor(cfg, p.latest, p.visits).objects[b].pos
  {
    hide Merged, Rep, Ingest, IsNearest, Nearest, NewTracks;
    TrackerStamps.FusedNeverStale(cfg, s, p);
    var m := MergedSensor(cfg, p.latest, p.visits);
    var dt := Seconds(m.stamp, s.fused.stamp);
    var live := Survivors(cfg, ZeroScores(s.fused.objects), dt);
    NearestInRange(cfg, live[i], m.objects, b);
    NearestUnique(cfg, live[i], m.objects, |m.objects|, b, Nearest(cfg, live[i], m.objects, |m.objects|));
    ZeroScoreLandsOnMeasurement(live[i], m.objects[b], dt);
  }

  lemma NearestInRange(cfg: Config, t: Object, ms: seq<Object>, b: nat)
    requires b < |ms| && IsNearest(cfg, t, ms, |ms|, b)
    ensures t.pos.Vec? && ms[b].pos.Vec?
  {
  }

  /** Every merged position lies in every box that holds the positions of its group, every
      merged velocity likewise, and a group with company has only finite positions. */
  lemma MergedInBox(cfg: Config, visits: seq<seq<Object>>, i: nat, f: Field, lo: Vec, hi: Vec)
    requires AllPositive(visits) && i < |Merged(cfg, visits)|
    ensures var g := Merged(cfg, visits)[i];
            && SumScore(g) > 0.0
            && (|g| > 1 ==> AllFinite(g, Pos))
            && (AllInBox(g, f, lo, hi) ==> InBox(Of(Reps(Merged(cfg, visits))[i], f), lo, hi))
  {
    var g := Merged(cfg, visits)[i];
    MergeCoherent(cfg, visits);
    if |g| > 1 {
      forall j | 0 <= j < |g|
        ensures g[j].pos.Vec?
      {
        CoherentFinite(cfg, g, j);
      }
    }
    if AllInBox(g, f, lo, hi) {
      RepInBox(g, f, lo, hi);
    }
  }
}
