/**
 The first 65536 allocations: up to then every window of identifiers is free, so all live
 tracks carry distinct identifiers.  The bound is tight: a run that collides is given.
 */
module IdentityBounds {
  import opened Vectors
  import opened TrackedObjects
  import opened Thinning
  import opened Association
  import opened Merge
  import opened MergeLaws
  import opened Batches
  import opened TrackIds
  import opened IdWindows
  import opened TrackerModel
  import opened TrackerIdentity
  import TrackerStamps

  // ----- the first 65536 allocations --------------------------------------------------------------

  /** While no more than 65536 identifiers have been handed out, every window is free. */
  lemma BornWindowFree(s: seq<Object>, lastId: nat, allocs: nat, n: nat)
    requires AllBorn(s, allocs) && CounterAt(lastId, allocs) && allocs + n <= 65536
    ensures WindowFree(s, lastId, n)
  {
    hide InWindow;
    forall i | 0 <= i < |s|
      ensures !InWindow(s[i].id, lastId, n)
    {
      WindowExact(s[i].id, lastId, n);
      if InWindow(s[i].id, lastId, n) {
        var j: nat :| j < n && Handed(lastId, j) == s[i].id;
        BirthOfNew(lastId, allocs, j);
      }
    }
  }

  lemma {:induction false} AllocsGrow(cfg: Config, q: seq<Sensor>, i: Intake, j: nat)
    requires j <= |q|
    ensures Ingest(cfg, q[..j], i).allocs <= Ingest(cfg, q, i).allocs
    decreases |q|
  {
    hide Absorb;
    if j == |q| {
      assert q[..j] == q;
    } else {
      PrefixOfPrefix(q, j);
      AllocsGrow(cfg, q[..|q| - 1], i, j);
    }
  }

  lemma EarlyBatchFree(cfg: Config, b: Sensor, i: Intake, fused: seq<Object>)
    requires Counted(i.tracks, fused, i.lastId, i.allocs) && IngestOne(cfg, b, i).allocs <= 65536
    ensures BatchFree(cfg, b, i, fused)
  {
    hide Absorb, WindowFree, AllBorn, CounterAt, Staying;
    var track := TrackFor(i.tracks, b);
    var n := Absorb(cfg, b, track, i.lastId).spawned;
    BornNone(i.allocs);
    StayingBorn(cfg, b, track, i.allocs);
    BornWindowFree(Staying(cfg, b, track), i.lastId, i.allocs, n);
    BornWindowFree(fused, i.lastId, i.allocs, n);
    forall k | k in i.tracks
      ensures WindowFree(i.tracks[k].objects, i.lastId, n)
    {
      BornWindowFree(i.tracks[k].objects, i.lastId, i.allocs, n);
    }
  }

  lemma EarlyQueueFree(cfg: Config, q: seq<Sensor>, i: Intake, fused: seq<Object>)
    requires Counted(i.tracks, fused, i.lastId, i.allocs) && Ingest(cfg, q, i).allocs <= 65536
    ensures QueueFree(cfg, q, i, fused)
  {
    hide Counted, Ingest, IngestOne, BatchFree;
    forall j | 0 <= j < |q|
      ensures BatchFree(cfg, q[j], Ingest(cfg, q[..j], i), fused)
    {
      QueueCounted(cfg, q[..j], i, fused);
      AllocsGrow(cfg, q, i, j + 1);
      assert q[..j + 1][..j] == q[..j];
      IngestSnoc(cfg, q[..j + 1], i);
      EarlyBatchFree(cfg, q[j], Ingest(cfg, q[..j], i), fused);
    }
  }

  lemma EarlyFusedFree(cfg: Config, t: Tracks, m: Sensor, base: Sensor, lastId: nat, allocs: nat)
    requires Counted(t, base.objects, lastId, allocs)
    requires allocs + Absorb(cfg, m, base, lastId).spawned <= 65536
    ensures FusedFree(cfg, t, m, base, lastId)
  {
    hide Absorb, WindowFree, AllBorn, CounterAt, Staying;
    var n := Absorb(cfg, m, base, lastId).spawned;
    StayingBorn(cfg, m, base, allocs);
    BornWindowFree(Staying(cfg, m, base), lastId, allocs, n);
    forall k | k in t
      ensures WindowFree(t[k].objects, lastId, n)
    {
      BornWindowFree(t[k].objects, lastId, allocs, n);
    }
  }

  lemma EarlyStepFree(s: State, op: Op, s': State)
    requires StateCounted(s) && Next(s, op, s')
    ensures s.allocs <= s'.allocs
    ensures s'.allocs <= 65536 ==> StepFree(s, op)
  {
    hide Absorb, Merged, Ingest, Counted, SameIds, FusedFree, QueueFree, Schedule, IsLatest, SortedByStamp;
    if op.Process? && s.queue != [] {
      var cfg, p := op.cfg, op.plan;
      var start := Intake(s.internal, s.lastId, s.allocs);
      var i, m := Ingested(cfg, s, p), MergedSensor(cfg, p.latest, p.visits);
      IngestNone(cfg, p.sorted, start);
      AllocsGrow(cfg, p.sorted, start, 0);
      if s'.allocs <= 65536 {
        EarlyQueueFree(cfg, p.sorted, start, s.fused.objects);
        QueueCounted(cfg, p.sorted, start, s.fused.objects);
        ReadiedIds(s.fused, m);
        SameIdsCounted(i.tracks, s.fused.objects, Readied(s.fused, m).objects, i.lastId, i.allocs);
        EarlyFusedFree(cfg, i.tracks, m, Readied(s.fused, m), i.lastId, i.allocs);
      }
    }
  }

  lemma IngestNone(cfg: Config, q: seq<Sensor>, i: Intake)
    ensures Ingest(cfg, q[..0], i) == i
  {
  }

  lemma EarlyStepOfRun(r: Run, i: nat)
    requires IsRun(r) && i < |r.ops|
    ensures r.states[i].allocs <= r.states[i + 1].allocs
    ensures r.states[i + 1].allocs <= 65536 ==> StepFree(r.states[i], r.ops[i])
  {
    hide Next, StateCounted, StepFree;
    RunCounted(r, i);
    RunStep(r, i);
    EarlyStepFree(r.states[i], r.ops[i], r.states[i + 1]);
  }

  lemma {:induction false} AllocsNeverDecrease(r: Run, i: nat, j: nat)
    requires IsRun(r) && i <= j < |r.states|
    ensures r.states[i].allocs <= r.states[j].allocs
    decreases j
  {
    hide Next, StepFree;
    if i < j {
      AllocsNeverDecrease(r, i, j - 1);
      EarlyStepOfRun(r, j - 1);
    }
  }

  lemma EarlyFree(r: Run, n: nat)
    requires IsRun(r) && n <= |r.ops| && r.states[n].allocs <= 65536
    ensures AlwaysFree(r, n)
  {
    hide Next, StepFree;
    forall i | 0 <= i < n
      ensures StepFree(r.states[i], r.ops[i])
    {
      AllocsNeverDecrease(r, i + 1, n);
      EarlyStepOfRun(r, i);
    }
  }

  /** The merged objects of the `process` step that reached state `n`, if it is one. */
  ghost predicate MergedDistinct(r: Run, n: nat)
    requires IsRun(r) && n <= |r.ops|
  {
    n > 0 && r.ops[n - 1].Process? && r.states[n - 1].queue != [] ==>
      && AllPositive(r.ops[n - 1].plan.visits)
      && DistinctIds(Reps(Merged(r.ops[n - 1].cfg, r.ops[n - 1].plan.visits)))
  }

  lemma MergedFollow(r: Run, n: nat)
    requires IsRun(r) && n <= |r.ops| && StateDistinct(r.states[n])
    ensures MergedDistinct(r, n)
  {
    if n > 0 && r.ops[n - 1].Process? && r.states[n - 1].queue != [] {
      var p := r.ops[n - 1].plan;
      assert Next(r.states[n - 1], r.ops[n - 1], r.states[n]);
      MergedIdsDistinct(r.ops[n - 1].cfg, r.states[n].internal, p.latest, p.keys, p.visits);
    }
  }

  /** In every run, up to every state reached by at most 65536 allocations, all live per-source
      and fused tracks always carry pairwise distinct identifiers; so do the merged objects, each
      under the minimum of its group. */
  lemma LiveIdsDistinct(r: Run, n: nat)
    requires IsRun(r) && n <= |r.ops| && r.states[n].allocs <= 65536
    ensures AlwaysDistinct(r, n) && StateDistinct(r.states[n]) && MergedDistinct(r, n)
  {
    EarlyFree(r, n);
    DistinctIffFree(r, n);
    MergedFollow(r, n);
  }

  // ----- a run that collides ----------------------------------------------------------------------

  /** Objects in a row, far enough from each other for each to start a track of its own. */
  function Spread(cfg: Config, n: nat): (s: seq<Object>)
    ensures |s| == n
  {
    var gap := if cfg.groupDist > 1.0 then cfg.groupDist else 1.0;
    seq(n, i => Object(0, 0, Vec(Times(i as real, gap), 0.0, 0.0), ZERO, ZERO, true, true, 0.0, 1.0, 0.0))
  }

  lemma SquareOfMultiple(d: real, gap: real)
    requires d >= 1.0 && gap >= 1.0
    ensures Square(d * gap) >= gap
  {
    assert d * gap >= gap by {
      ProductNonNegative(d - 1.0, gap);
    }
    var e := d * gap;
    ProductNonNegative(e - 1.0, e);
  }

  lemma SpreadNotNear(cfg: Config, n: nat, k: nat, l: nat)
    requires l < k < n
    ensures !Near(cfg, Spread(cfg, n)[k], Spread(cfg, n)[l])
  {
    var gap := if cfg.groupDist > 1.0 then cfg.groupDist else 1.0;
    var d := k as real - l as real;
    assert k as real * gap - l as real * gap == d * gap;
    SquareOfMultiple(d, gap);
  }

  /** Every object of a first batch starts a track if no two are near. */
  lemma AllSpawn(cfg: Config, m: Sensor, lastId: nat)
    requires forall k: nat, l: nat :: k < |m.objects| && l < k ==> !Near(cfg, m.objects[k], m.objects[l])
    ensures var objs := Absorb(cfg, m, Sensor(m.src, m.stamp, []), lastId).track.objects;
            |objs| == |m.objects| && NumberedFrom(objs, lastId)
  {
    hide Near;
    var live := Survivors(cfg, [], Seconds(m.stamp, m.stamp));
    assert live == [];
    ChosenAll(Eligible(cfg, live, m.objects), Neighbours(cfg, m.objects), |m.objects|);
  }

  lemma FirstBatch(cfg: Config, s: State, p: Plan, b: Sensor)
    requires s.internal == map[] && s.queue == [b] && p.sorted == [b]
    ensures Ingested(cfg, s, p).tracks == map[b.src := Absorb(cfg, b, Sensor(b.src, b.stamp, []), s.lastId).track]
  {
    hide Absorb;
    var start := Intake(s.internal, s.lastId, s.allocs);
    assert p.sorted[..0] == [];
    assert Ingest(cfg, [], start) == start;
    assert Ingest(cfg, p.sorted, start) == IngestOne(cfg, b, start);
  }

  /** The run of one `addObjects` and one `process`. */
  lemma TwoStepRun(cfg: Config, now: int, objs: seq<Object>, src: nat, stamp: int) returns (r: Run)
    ensures IsRun(r) && |r.ops| == 2 && |r.states| == 3
    ensures r.ops[0] == AddObjects(objs, src, stamp) && r.ops[1].Process? && r.ops[1].cfg == cfg
    ensures var b := Sensor(src, stamp, Tagged(objs, src));
            r.states[2].internal == map[src := Absorb(cfg, b, Sensor(src, stamp, []), 1).track]
  {
    hide Absorb, IsRun, Ingest, Merged, ValidPlan;
    var b := Sensor(src, stamp, Tagged(objs, src));
    var r0, s1 := Run([], [Initial(now)]), Initial(now).(queue := [b]);
    RunStart(now);
    var add := AddObjects(objs, src, stamp);
    RunSnoc(r0, add, s1);
    var p := TrackerStamps.SingleSourcePlan(cfg, s1, src);
    PlanPositive(cfg, s1, p);
    FirstBatch(cfg, s1, p, b);
    var s2 := Processed(cfg, s1, p);
    RunSnoc(Extended(r0, add, s1), Process(cfg, p), s2);
    r := Extended(Extended(r0, add, s1), Process(cfg, p), s2);
  }

  lemma RepeatedId(t: Tracks, fused: seq<Object>, k: nat, i: nat, j: nat)
    requires k in t && i < j < |t[k].objects| && t[k].objects[i].id == t[k].objects[j].id
    ensures !LiveDistinct(t, fused)
  {
  }

  /** The bound is tight: whatever the parameters, a run of one `addObjects` with 65537 objects
      and one `process` gives the first and the last of their tracks the same identifier. */
  lemma CollidingRun(cfg: Config, now: int, stamp: int, src: nat) returns (r: Run)
    ensures IsRun(r) && |r.ops| == 2 && |r.states| == 3
    ensures r.ops[0] == AddObjects(Spread(cfg, 65537), src, stamp) && r.ops[1].Process? && r.ops[1].cfg == cfg
    ensures src in r.states[2].internal && |r.states[2].internal[src].objects| == 65537
    ensures r.states[2].internal[src].objects[0].id == r.states[2].internal[src].objects[65536].id
    ensures !StateDistinct(r.states[2]) && !AlwaysFree(r, 2)
  {
    hide Absorb, IsRun, Near, Spread, LiveDistinct, AlwaysFree, AlwaysDistinct;
    var objs := Spread(cfg, 65537);
    r := TwoStepRun(cfg, now, objs, src, stamp);
    var b := Sensor(src, stamp, Tagged(objs, src));
    forall k: nat, l: nat | k < |b.objects| && l < k
      ensures !Near(cfg, b.objects[k], b.objects[l])
    {
      SpreadNotNear(cfg, 65537, k, l);
      NearByPosition(cfg, b.objects[k], b.objects[l], objs[k], objs[l]);
    }
    AllSpawn(cfg, b, 1);
    HandedOutTwice(1, 0, 65536);
    RepeatedId(r.states[2].internal, r.states[2].fused.objects, src, 0, 65536);
    DistinctIffFree(r, 2);
  }

  lemma NearByPosition(cfg: Config, a: Object, b: Object, c: Object, d: Object)
    requires a.pos == c.pos && b.pos == d.pos
    ensures Near(cfg, a, b) <==> Near(cfg, c, d)
  {
  }
}
