/**
 Lost tracks.  A correction over a zero time step by a measurement without velocity divides
 by zero.  The track it leaves can never be matched again; it keeps its identifier and its
 score until it is purged, and while its score is positive every `process` starts a fused
 track of its own for it.
 */
module LostTracks {
  import opened Vectors
  import opened TrackedObjects
  import opened Thinning
  import opened Association
  import opened Merge
  import opened MergeLaws
  import opened Batches
  import opened IdWindows
  import opened Successors
  import opened TrackerModel
  import TrackerStamps
  import IdentityBounds

  /** The velocity is infinite or not-a-number, and with it every predicted position. */
  predicate Lost(o: Object) {
    o.vel == NonFinite
  }

  // ----- when a track is lost -----------------------------------------------------------------------

  /** A correction of a finite track by a finite measurement loses it if and only if the time step
      is zero and the measurement brings no velocity; otherwise every later prediction is finite. */
  lemma CorrectionLosesIff(cfg: Config, t: Object, m: Object, dt: real, later: real)
    requires t.pos.Vec? && t.vel.Vec? && m.pos.Vec? && (m.hasVel ==> m.vel.Vec?)
    ensures Lost(Corrected(t, m, dt)) <==> !m.hasVel && dt == 0.0
    ensures Predicted(cfg, Corrected(t, m, dt), later).pos.Vec? <==> m.hasVel || dt != 0.0
  {
  }

  /** What the nearest measurement must bring so that the correction keeps the track finite. */
  predicate Sound(m: Object, batch: Sensor, track: Sensor) {
    if m.hasVel then m.vel.Vec? else batch.stamp != track.stamp
  }

  lemma MatchLosesIff(cfg: Config, o: Object, m: Sensor, track: Sensor, b: nat)
    requires var t := Predicted(cfg, o, Seconds(m.stamp, track.stamp)); IsNearest(cfg, t, m.objects, |m.objects|, b)
    ensures var dt := Seconds(m.stamp, track.stamp);
            Lost(Matched(cfg, Predicted(cfg, o, dt), m.objects, b, dt)) <==>
            Lost(o) || (b < |m.objects| && !Sound(m.objects[b], m, track))
    ensures Lost(o) ==> b == |m.objects|
  {
    var dt := Seconds(m.stamp, track.stamp);
    assert dt == 0.0 <==> m.stamp == track.stamp;
    if b < |m.objects| {
      assert InRange(cfg, Predicted(cfg, o, dt), m.objects[b]);
    }
  }

  /** The track a batch finds lost, or loses. */
  ghost predicate LosesTo(cfg: Config, o: Object, m: Sensor, track: Sensor) {
    var t := Predicted(cfg, o, Seconds(m.stamp, track.stamp));
    exists b: nat :: b < |m.objects| && IsNearest(cfg, t, m.objects, |m.objects|, b) && !Sound(m.objects[b], m, track)
  }

  /** After every batch that is not stale, a surviving track is lost if and only if it was lost
      before, or the nearest measurement in range brings no velocity over a zero time step, or
      brings one that is not finite. */
  lemma BatchLosesIff(cfg: Config, m: Sensor, track: Sensor, lastId: nat, a: nat, b: nat)
    requires !Stale(m, track) && a < |track.objects| && Successor(cfg, m, track, a, b)
    ensures var r := Absorb(cfg, m, track, lastId).track.objects;
            b < |r| && (Lost(r[b]) <==> Lost(track.objects[a]) || LosesTo(cfg, track.objects[a], m, track))
  {
    hide Matched, Nearest, Predicted, IsNearest, Absorb, Successor, Sound;
    SuccessorAt(cfg, m, track, lastId, a, b);
    var t := Predicted(cfg, track.objects[a], Seconds(m.stamp, track.stamp));
    var n := Nearest(cfg, t, m.objects, |m.objects|);
    MatchLosesIff(cfg, track.objects[a], m, track, n);
    forall l: nat | IsNearest(cfg, t, m.objects, |m.objects|, l)
      ensures l == n
    {
      NearestUnique(cfg, t, m.objects, |m.objects|, l, n);
    }
    NearestIndex(cfg, t, m.objects);
  }

  lemma NearestIndex(cfg: Config, t: Object, ms: seq<Object>)
    ensures Nearest(cfg, t, ms, |ms|) <= |ms|
  {
  }

  // ----- ever after -----------------------------------------------------------------------------------

  /** The same track, still lost, with nothing taken over from any measurement. */
  predicate StillLost(o: Object, r: Object) {
    Lost(r) && r.id == o.id && r.src == o.src && r.score == o.score && r.dims == o.dims
  }

  /** A batch that is not stale only lets a lost track that survives decay: it is in range of no
      measurement, and neither its position nor its velocity becomes finite. */
  lemma LostOnlyDecays(cfg: Config, m: Sensor, track: Sensor, lastId: nat, a: nat, b: nat)
    requires !Stale(m, track) && a < |track.objects| && Lost(track.objects[a]) && Successor(cfg, m, track, a, b)
    ensures var t := Predicted(cfg, track.objects[a], Seconds(m.stamp, track.stamp));
            var r := Absorb(cfg, m, track, lastId).track.objects;
            && b < |r| && r[b] == Decayed(cfg, t)
            && r[b].pos == NonFinite && r[b].vel == NonFinite
            && forall k :: 0 <= k < |m.objects| ==> !InRange(cfg, t, m.objects[k])
  {
    hide Nearest, Absorb, Successor;
    SuccessorAt(cfg, m, track, lastId, a, b);
    var t := Predicted(cfg, track.objects[a], Seconds(m.stamp, track.stamp));
    MatchLosesIff(cfg, track.objects[a], m, track, Nearest(cfg, t, m.objects, |m.objects|));
  }

  lemma LostStep(cfg: Config, m: Sensor, track: Sensor, lastId: nat, a: nat, b: nat)
    requires a < |track.objects| && Lost(track.objects[a]) && Successor(cfg, m, track, a, b)
    ensures var r := Absorb(cfg, m, track, lastId).track.objects;
            b < |r| && StillLost(track.objects[a], r[b])
  {
    if !Stale(m, track) {
      hide Absorb, Successor;
      LostOnlyDecays(cfg, m, track, lastId, a, b);
    }
  }

  /** Track `a` of source `k` is track `b` of it after the queue. */
  ghost predicate Through(cfg: Config, q: seq<Sensor>, i: Intake, k: nat, a: nat, b: nat) {
    if q == [] then a == b
    else
      var n := |q| - 1;
      exists c: nat ::
        Through(cfg, q[..n], i, k, a, c) && ThroughBatch(cfg, q[n], Ingest(cfg, q[..n], i), k, c, b)
  }

  predicate ThroughBatch(cfg: Config, m: Sensor, i: Intake, k: nat, c: nat, b: nat) {
    if m.src == k then Successor(cfg, m, TrackFor(i.tracks, m), c, b) else c == b
  }

  predicate HasLost(t: Tracks, k: nat, a: nat, o: Object) {
    k in t && a < |t[k].objects| && StillLost(o, t[k].objects[a])
  }

  lemma LostThroughBatch(cfg: Config, m: Sensor, i: Intake, k: nat, a: nat, b: nat, o: Object)
    requires HasLost(i.tracks, k, a, o) && ThroughBatch(cfg, m, i, k, a, b)
    ensures HasLost(IngestOne(cfg, m, i).tracks, k, b, o)
  {
    if m.src == k {
      hide Absorb, Successor;
      LostStep(cfg, m, i.tracks[k], i.lastId, a, b);
    }
  }

  lemma {:induction false} LostThrough(cfg: Config, q: seq<Sensor>, i: Intake, k: nat, a: nat, b: nat, o: Object)
    requires HasLost(i.tracks, k, a, o) && Through(cfg, q, i, k, a, b)
    ensures HasLost(Ingest(cfg, q, i).tracks, k, b, o)
  {
    if q != [] {
      hide HasLost, IngestOne, ThroughBatch;
      var n := |q| - 1;
      var c: nat :| Through(cfg, q[..n], i, k, a, c) && ThroughBatch(cfg, q[n], Ingest(cfg, q[..n], i), k, c, b);
      LostThrough(cfg, q[..n], i, k, a, c, o);
      LostThroughBatch(cfg, q[n], Ingest(cfg, q[..n], i), k, c, b, o);
    }
  }

  // ----- over runs ------------------------------------------------------------------------------------

  /** Track `a` of source `k` before an operation is track `b` of it afterwards. */
  ghost predicate StepLives(s: State, op: Op, k: nat, a: nat, b: nat) {
    match op
    case AddObjects(_, _, _) => a == b
    case Process(cfg, p) =>
      if s.queue == [] then a == b
      else Through(cfg, p.sorted, Intake(s.internal, s.lastId, s.allocs), k, a, b)
    case Reset(_) => false
  }

  /** From state `i` on, a track of source `k` lives as `path[0]`, `path[1]` and so on. */
  ghost predicate Lineage(r: Run, i: nat, k: nat, path: seq<nat>)
    requires IsRun(r)
  {
    && |path| > 0 && i + |path| <= |r.states|
    && forall l :: 0 <= l < |path| - 1 ==> StepLives(r.states[i + l], r.ops[i + l], k, path[l], path[l + 1])
  }

  lemma LineageStep(r: Run, i: nat, k: nat, path: seq<nat>, l: nat)
    requires IsRun(r) && Lineage(r, i, k, path) && l < |path| - 1
    ensures StepLives(r.states[i + l], r.ops[i + l], k, path[l], path[l + 1])
  {
  }

  lemma LostOverStep(s: State, op: Op, s': State, k: nat, a: nat, b: nat, o: Object)
    requires Next(s, op, s') && HasLost(s.internal, k, a, o) && StepLives(s, op, k, a, b)
    ensures HasLost(s'.internal, k, b, o)
  {
    hide HasLost, Through, Ingest, Absorb, Merged, Schedule, IsLatest, SortedByStamp;
    if op.Process? && s.queue != [] {
      LostThrough(op.cfg, op.plan.sorted, Intake(s.internal, s.lastId, s.allocs), k, a, b, o);
    }
  }

  /** In every run a lost track `o` stays lost for as long as it lives, under its identifier and
      with its score. */
  lemma {:induction false} LostForever(r: Run, i: nat, k: nat, path: seq<nat>, o: Object, l: nat)
    requires IsRun(r) && Lineage(r, i, k, path) && l < |path|
    requires HasLost(r.states[i].internal, k, path[0], o)
    ensures HasLost(r.states[i + l].internal, k, path[l], o)
  {
    hide Next, StepLives, HasLost;
    if l > 0 {
      LostForever(r, i, k, path, o, l - 1);
      LineageStep(r, i, k, path, l - 1);
      RunStep(r, i + l - 1);
      var s, s' := r.states[i + l - 1], r.states[i + l];
      LostOverStep(s, r.ops[i + l - 1], s', k, path[l - 1], path[l], o);
    }
  }

  // ----- what a lost track costs ------------------------------------------------------------------------

  lemma {:induction false} MemberIndex(gs: Groups, o: Object) returns (g: nat, j: nat)
    requires o in Members(gs)
    ensures g < |gs| && j < |gs[g]| && gs[g][j] == o
  {
    var n := |gs| - 1;
    if o in multiset(gs[n]) {
      assert o in gs[n];
      g := n;
      j :| 0 <= j < |gs[n]| && gs[n][j] == o;
    } else {
      g, j := MemberIndex(gs[..n], o);
    }
  }

  /** An object without a finite position is alone in its merged group. */
  lemma NonFiniteAlone(cfg: Config, visits: seq<seq<Object>>, o: Object) returns (g: nat)
    requires AllPositive(visits) && o in Members(Merged(cfg, visits)) && o.pos == NonFinite
    ensures g < |Merged(cfg, visits)| && Merged(cfg, visits)[g] == [o]
  {
    hide Merged, Members, Coherent;
    var gs := Merged(cfg, visits);
    var j;
    g, j := MemberIndex(gs, o);
    MergeCoherent(cfg, visits);
    if |gs[g]| > 1 {
      CoherentFinite(cfg, gs[g], j);
    }
  }

  lemma {:induction false} PoolHas(cfg: Config, t: Tracks, latest: int, keys: seq<nat>, k: nat, o: Object)
    requires forall j :: 0 <= j < |keys| ==> keys[j] in t
    requires k in keys && o in multiset(Entrants(cfg, t[k], latest))
    ensures o in Pool(cfg, t, latest, keys)
  {
    hide Entrants;
    var n := |keys| - 1;
    if keys[n] != k {
      PoolHas(cfg, t, latest, keys[..n], k, o);
    }
  }

  /** Track `a` of a list as the merge sees it. */
  function AsSeen(cfg: Config, sensor: Sensor, latest: int, a: nat): Object
    requires a < |sensor.objects|
  {
    Predicted(cfg, sensor.objects[a], Seconds(latest, sensor.stamp))
  }

  lemma SeenIsEntrant(cfg: Config, sensor: Sensor, latest: int, a: nat)
    requires a < |sensor.objects| && sensor.objects[a].score > 0.0
    ensures AsSeen(cfg, sensor, latest, a) in multiset(Entrants(cfg, sensor, latest))
  {
    var p := PredictAll(cfg, sensor.objects, Seconds(latest, sensor.stamp));
    EstablishedExact(p, p[a]);
    assert p[a] in multiset(p);
  }

  /** A lost track with a positive score is a merged object by itself. */
  lemma LostAlone(cfg: Config, t: Tracks, p: Plan, k: nat, a: nat) returns (g: nat)
    requires Schedule(cfg, t, p.latest, p.keys, p.visits) && AllPositive(p.visits)
    requires k in t && a < |t[k].objects| && Lost(t[k].objects[a]) && t[k].objects[a].score > 0.0
    ensures g < |Merged(cfg, p.visits)| && Merged(cfg, p.visits)[g] == [AsSeen(cfg, t[k], p.latest, a)]
  {
    hide Merged, Members, Pool, Entrants;
    var o := AsSeen(cfg, t[k], p.latest, a);
    SeenIsEntrant(cfg, t[k], p.latest, a);
    PoolHas(cfg, t, p.latest, p.keys, k, o);
    MergeConserves(cfg, t, p.latest, p.keys, p.visits);
    g := NonFiniteAlone(cfg, p.visits, o);
  }

  /** A measurement without a finite position is in range of no track and near no other one, so
      every batch that has it starts a track with it. */
  lemma NonFiniteChosen(cfg: Config, live: seq<Object>, ms: seq<Object>, k: nat)
    requires k < |ms| && ms[k].pos == NonFinite
    ensures k in NewTracks(cfg, live, ms, |ms|)
  {
    var ok, near := Eligible(cfg, live, ms), Neighbours(cfg, ms);
    ChosenMaximal(ok, near, |ms|, k);
  }

  lemma NonFiniteSpawns(cfg: Config, m: Sensor, track: Sensor, lastId: nat, k: nat) returns (n: nat, j: nat)
    requires !Stale(m, track) && k < |m.objects| && m.objects[k].pos == NonFinite
    ensures var a := Absorb(cfg, m, track, lastId);
            && j < a.spawned && n + a.spawned == |a.track.objects| && n == |Staying(cfg, m, track)|
            && a.track.objects[n + j] == Spawned(m.objects[k], Handed(lastId, j))
  {
    var live := Survivors(cfg, track.objects, Seconds(m.stamp, track.stamp));
    NonFiniteChosen(cfg, live, m.objects, k);
    var chosen := NewTracks(cfg, live, m.objects, |m.objects|);
    n := |live|;
    j :| 0 <= j < |chosen| && chosen[j] == k;
  }

  /** The fused list holds, behind the tracks that stayed, a new one started from `o`. */
  ghost predicate FreshFused(cfg: Config, s: State, p: Plan, o: Object)
    requires AllPositive(p.visits)
  {
    var m := MergedSensor(cfg, p.latest, p.visits);
    var base := Readied(s.fused, m);
    var objs := Processed(cfg, s, p).fused.objects;
    exists l: nat :: |Staying(cfg, m, base)| <= l < |objs| && objs[l] == Spawned(o, objs[l].id)
  }

  lemma LostSpawnsOnce(cfg: Config, s: State, p: Plan, k: nat, a: nat)
    requires TrackerStamps.StampInv(s) && s.queue != [] && ValidPlan(cfg, s, p)
    requires var t := Processed(cfg, s, p).internal;
             k in t && a < |t[k].objects| && Lost(t[k].objects[a]) && t[k].objects[a].score > 0.0
    ensures FreshFused(cfg, s, p, AsSeen(cfg, Processed(cfg, s, p).internal[k], p.latest, a))
    ensures Processed(cfg, s, p).allocs > Ingested(cfg, s, p).allocs
  {
    hide Absorb, Merged, Ingest, SortedByStamp, IsLatest, TrackerStamps.StampInv, Staying, Predicted;
    TrackerStamps.FusedNeverStale(cfg, s, p);
    var i, m := Ingested(cfg, s, p), MergedSensor(cfg, p.latest, p.visits);
    var o := AsSeen(cfg, i.tracks[k], p.latest, a);
    var g := LostAlone(cfg, i.tracks, p, k, a);
    SeenNonFinite(cfg, i.tracks[k], p.latest, a);
    assert m.objects[g] == o;
    var n, j := NonFiniteSpawns(cfg, m, Readied(s.fused, m), i.lastId, g);
    var objs := Processed(cfg, s, p).fused.objects;
    assert objs[n + j] == Spawned(o, objs[n + j].id);
  }

  lemma SeenNonFinite(cfg: Config, sensor: Sensor, latest: int, a: nat)
    requires a < |sensor.objects| && Lost(sensor.objects[a])
    ensures AsSeen(cfg, sensor, latest, a).pos == NonFinite
  {
  }

  /** In every run, every `process` that does anything while a lost track of positive score lives
      starts a fused track from it alone. */
  lemma LostSpawns(r: Run, i: nat, k: nat, path: seq<nat>, o: Object, l: nat)
    requires IsRun(r) && Lineage(r, i, k, path) && l + 1 < |path|
    requires HasLost(r.states[i].internal, k, path[0], o) && o.score > 0.0
    requires r.ops[i + l].Process? && r.states[i + l].queue != []
    ensures var cfg, p, t := r.ops[i + l].cfg, r.ops[i + l].plan, r.states[i + l + 1].internal;
            && HasLost(t, k, path[l + 1], o) && AllPositive(p.visits)
            && FreshFused(cfg, r.states[i + l], p, AsSeen(cfg, t[k], p.latest, path[l + 1]))
            && AsSeen(cfg, t[k], p.latest, path[l + 1]).pos == NonFinite
    ensures r.states[i + l].allocs < r.states[i + l + 1].allocs
  {
    hide StepLives, FreshFused, TrackerStamps.StampInv, ValidPlan, Processed;
    LostForever(r, i, k, path, o, l + 1);
    var cfg, s, p := r.ops[i + l].cfg, r.states[i + l], r.ops[i + l].plan;
    RunStep(r, i + l);
    TrackerStamps.RunKeepsStampInv(r, i + l);
    PlanPositive(cfg, s, p);
    LostSpawnsOnce(cfg, s, p, k, path[l + 1]);
    SeenNonFinite(cfg, Processed(cfg, s, p).internal[k], p.latest, path[l + 1]);
    IngestGrows(cfg, s, p);
  }

  lemma IngestGrows(cfg: Config, s: State, p: Plan)
    ensures s.allocs <= Ingested(cfg, s, p).allocs
  {
    var start := Intake(s.internal, s.lastId, s.allocs);
    IdentityBounds.IngestNone(cfg, p.sorted, start);
    IdentityBounds.AllocsGrow(cfg, p.sorted, start, 0);
  }

  /** How many of the operations `i .. i + l - 1` process a queue. */
  function Workload(r: Run, i: nat, l: nat): nat
    requires i + l <= |r.ops| && |r.states| == |r.ops| + 1
  {
    if l == 0 then 0
    else Workload(r, i, l - 1) + if r.ops[i + l - 1].Process? && r.states[i + l - 1].queue != [] then 1 else 0
  }

  /** So a lost track of positive score spends at least one identifier of the 16-bit counter for
      every `process` it lives through. */
  lemma {:induction false} LostDrains(r: Run, i: nat, k: nat, path: seq<nat>, o: Object, l: nat)
    requires IsRun(r) && Lineage(r, i, k, path) && l < |path|
    requires HasLost(r.states[i].internal, k, path[0], o) && o.score > 0.0
    ensures r.states[i].allocs + Workload(r, i, l) <= r.states[i + l].allocs
  {
    hide HasLost, FreshFused, Next, StepLives, AsSeen;
    if l > 0 {
      LostDrains(r, i, k, path, o, l - 1);
      var n := i + l - 1;
      if r.ops[n].Process? && r.states[n].queue != [] {
        LostSpawns(r, i, k, path, o, l - 1);
      } else {
        RunStep(r, n);
        IdleKeepsAllocs(r.states[n], r.ops[n], r.states[n + 1]);
      }
    }
  }

  lemma IdleKeepsAllocs(s: State, op: Op, s': State)
    requires Next(s, op, s') && !(op.Process? && s.queue != [])
    ensures s'.allocs == s.allocs
  {
  }

  // ----- such runs exist ----------------------------------------------------------------------------------

  lemma FirstTrack(cfg: Config, m: Object, src: nat, stamp: int, lastId: nat)
    ensures Absorb(cfg, Sensor(src, stamp, [m]), Sensor(src, stamp, []), lastId).track ==
            Sensor(src, stamp, [Spawned(m, lastId % ID_SPAN)])
  {
    var b := Sensor(src, stamp, [m]);
    var live := Survivors(cfg, [], Seconds(stamp, stamp));
    assert live == [];
    ChosenAll(Eligible(cfg, live, b.objects), Neighbours(cfg, b.objects), 1);
  }

  lemma SecondBatchLoses(cfg: Config, m: Object, track: Sensor, lastId: nat) returns (a: nat)
    requires cfg.threshold < 1.0 && cfg.rangeDist > 0.0
    requires m.pos.Vec? && m.vel.Vec? && !m.hasVel && m.conf > 0.0
    requires |track.objects| == 1 && track.objects[0] == Spawned(m, track.objects[0].id)
    ensures var objs := Absorb(cfg, Sensor(track.src, track.stamp, [m]), track, lastId).track.objects;
            a < |objs| && Lost(objs[a]) && objs[a].score > 0.0
  {
    var b, o := Sensor(track.src, track.stamp, [m]), track.objects[0];
    var p := PredictAll(cfg, track.objects, 0.0);
    assert p[0].life == 1.0 && p[0].pos == m.pos;
    SuccessorIff(cfg, b, track, 0);
    a :| Successor(cfg, b, track, 0, a);
    SuccessorAt(cfg, b, track, lastId, 0, a);
    OnlyCandidate(cfg, p[0], m);
    NearestUnique(cfg, p[0], b.objects, 1, 0, Nearest(cfg, p[0], b.objects, 1));
  }

  lemma OnlyCandidate(cfg: Config, t: Object, m: Object)
    requires t.pos == m.pos && m.pos.Vec? && cfg.rangeDist > 0.0
    ensures IsNearest(cfg, t, [m], 1, 0)
  {
  }

  lemma TwoBatches(cfg: Config, s: State, p: Plan, b: Sensor)
    requires s.internal == map[] && p.sorted == [b, b]
    ensures var first := Absorb(cfg, b, Sensor(b.src, b.stamp, []), s.lastId);
            Ingested(cfg, s, p).tracks == map[b.src := Absorb(cfg, b, first.track, first.lastId).track]
  {
    hide Absorb;
    var start := Intake(s.internal, s.lastId, s.allocs);
    assert p.sorted[..1] == [b] && [b][..0] == [];
    assert Ingest(cfg, [], start) == start;
    assert Ingest(cfg, [b], start) == IngestOne(cfg, b, start);
  }

  /** A run of two `addObjects` with the same stamp and one `process`. */
  lemma TwiceQueued(cfg: Config, now: int, objs: seq<Object>, src: nat, stamp: int) returns (r: Run)
    ensures IsRun(r) && |r.ops| == 3 && |r.states| == 4
    ensures r.ops[0] == r.ops[1] == AddObjects(objs, src, stamp) && r.ops[2].Process? && r.ops[2].cfg == cfg
    ensures var b := Sensor(src, stamp, Tagged(objs, src));
            var first := Absorb(cfg, b, Sensor(src, stamp, []), 1);
            r.states[3].internal == map[src := Absorb(cfg, b, first.track, first.lastId).track]
  {
    hide Absorb, IsRun, Ingest, Merged, ValidPlan;
    var b, add := Sensor(src, stamp, Tagged(objs, src)), AddObjects(objs, src, stamp);
    var r0, s1, s2 := Run([], [Initial(now)]), Initial(now).(queue := [b]), Initial(now).(queue := [b, b]);
    RunStart(now);
    RunSnoc(r0, add, s1);
    var r1 := Extended(r0, add, s1);
    RunSnoc(r1, add, s2);
    var r2 := Extended(r1, add, s2);
    var p := TrackerStamps.SingleSourcePlan(cfg, s2, src);
    PlanPositive(cfg, s2, p);
    TwoBatches(cfg, s2, p, b);
    RunSnoc(r2, Process(cfg, p), Processed(cfg, s2, p));
    r := Extended(r2, Process(cfg, p), Processed(cfg, s2, p));
  }

  /** Two batches of one source with the same stamp in one queue, each with the same object of
      unknown velocity, lose its track, and leave it with a positive score. */
  lemma ZeroStepRun(cfg: Config, now: int, m: Object, src: nat, stamp: int) returns (r: Run, a: nat)
    requires cfg.threshold < 1.0 && cfg.rangeDist > 0.0
    requires m.pos.Vec? && m.vel.Vec? && !m.hasVel && m.conf > 0.0
    ensures IsRun(r) && |r.ops| == 3
    ensures r.ops[0] == r.ops[1] == AddObjects([m], src, stamp) && r.ops[2].Process? && r.ops[2].cfg == cfg
    ensures var t := r.states[3].internal;
            src in t && a < |t[src].objects| && Lost(t[src].objects[a]) && t[src].objects[a].score > 0.0
  {
    hide Absorb, IsRun;
    r := TwiceQueued(cfg, now, [m], src, stamp);
    var n := m.(src := src);
    assert Tagged([m], src) == [n];
    FirstTrack(cfg, n, src, stamp, 1);
    var first := Absorb(cfg, Sensor(src, stamp, [n]), Sensor(src, stamp, []), 1);
    a := SecondBatchLoses(cfg, n, first.track, first.lastId);
  }
}
