/**
 The life of a track over every run of the tracker: the batches one source's list takes in are
 those processed for it, in order, so what holds of every history holds in every run.
 */
module TrackRuns {
  import opened TrackedObjects
  import opened Batches
  import opened MergeLaws
  import opened TrackerModel
  import opened TrackLife

  /** The batches of source `k`, in order. */
  function BatchesOf(q: seq<Sensor>, k: nat): (r: seq<Sensor>) {
    if q == [] then []
    else
      var r := BatchesOf(q[..|q| - 1], k);
      if q[|q| - 1].src == k then r + [q[|q| - 1]] else r
  }

  /** The batches of source `k` that the operations `i` to `j - 1` process, in order. */
  function RunBatches(r: Run, i: nat, j: nat, k: nat): (bs: seq<Sensor>)
    requires i <= j <= |r.ops| && |r.states| == |r.ops| + 1
  {
    if i == j then []
    else
      var bs, op := RunBatches(r, i, j - 1, k), r.ops[j - 1];
      if op.Process? && r.states[j - 1].queue != [] then bs + BatchesOf(op.plan.sorted, k) else bs
  }

  /** A history of the list of source `k` from `before` to `after`. */
  ghost predicate Leads(cfg: Config, before: Tracks, after: Tracks, k: nat, hist: seq<Sensor>, bs: seq<Sensor>) {
    && History(cfg, hist, bs) && k in before && k in after
    && hist[0] == before[k] && hist[|bs|] == after[k]
  }

  lemma NoBatches(cfg: Config, t: Tracks, k: nat)
    requires k in t
    ensures Leads(cfg, t, t, k, [t[k]], [])
  {
  }

  lemma HistoryConcat(cfg: Config, h: seq<Sensor>, bs: seq<Sensor>, g: seq<Sensor>, cs: seq<Sensor>)
    requires History(cfg, h, bs) && History(cfg, g, cs) && h[|bs|] == g[0]
    ensures History(cfg, h + g[1..], bs + cs) && (h + g[1..])[|bs + cs|] == g[|cs|]
  {
    hide TakesIn;
    var f, ds := h + g[1..], bs + cs;
    forall j | 0 <= j < |ds|
      ensures TakesIn(cfg, ds[j], f[j], f[j + 1])
    {
      if j < |bs| {
        assert TakesIn(cfg, bs[j], h[j], h[j + 1]);
      } else {
        assert TakesIn(cfg, cs[j - |bs|], g[j - |bs|], g[j - |bs| + 1]);
        assert f[j] == g[j - |bs|];
      }
    }
  }

  lemma LeadsConcat(cfg: Config, a: Tracks, b: Tracks, c: Tracks, k: nat,
                    h: seq<Sensor>, bs: seq<Sensor>, g: seq<Sensor>, cs: seq<Sensor>)
    requires Leads(cfg, a, b, k, h, bs) && Leads(cfg, b, c, k, g, cs)
    ensures Leads(cfg, a, c, k, h + g[1..], bs + cs)
  {
    HistoryConcat(cfg, h, bs, g, cs);
  }

  lemma BatchHistory(cfg: Config, b: Sensor, i: Intake, k: nat) returns (hist: seq<Sensor>)
    requires k in i.tracks
    ensures Leads(cfg, i.tracks, IngestOne(cfg, b, i).tracks, k, hist, if b.src == k then [b] else [])
  {
    hide Absorb;
    if b.src == k {
      var after := IngestOne(cfg, b, i).tracks[k];
      hist := [i.tracks[k], after];
      assert Rescored(i.tracks[k], i.tracks[k]) && Absorb(cfg, b, i.tracks[k], i.lastId).track == after;
      assert TakesIn(cfg, b, i.tracks[k], after);
    } else {
      hist := [i.tracks[k]];
    }
  }

  lemma {:induction false} QueueHistory(cfg: Config, q: seq<Sensor>, i: Intake, k: nat) returns (hist: seq<Sensor>)
    requires k in i.tracks
    ensures Leads(cfg, i.tracks, Ingest(cfg, q, i).tracks, k, hist, BatchesOf(q, k))
  {
    hide Leads, IngestOne;
    if q == [] {
      NoBatches(cfg, i.tracks, k);
      hist := [i.tracks[k]];
    } else {
      var n := |q| - 1;
      var mid := Ingest(cfg, q[..n], i);
      var h := QueueHistory(cfg, q[..n], i, k);
      LeadsKeeps(cfg, i.tracks, mid.tracks, k, h, BatchesOf(q[..n], k));
      var g := BatchHistory(cfg, q[n], mid, k);
      var cs := if q[n].src == k then [q[n]] else [];
      LeadsKeeps(cfg, mid.tracks, IngestOne(cfg, q[n], mid).tracks, k, g, cs);
      LeadsConcat(cfg, i.tracks, mid.tracks, IngestOne(cfg, q[n], mid).tracks, k, h, BatchesOf(q[..n], k), g, cs);
      assert BatchesOf(q, k) == BatchesOf(q[..n], k) + cs;
      hist := h + g[1..];
    }
  }

  lemma LeadsKeeps(cfg: Config, a: Tracks, b: Tracks, k: nat, h: seq<Sensor>, bs: seq<Sensor>)
    requires Leads(cfg, a, b, k, h, bs)
    ensures k in b && |h| > 0
  {
  }

  lemma StepHistory(cfg: Config, s: State, op: Op, s': State, k: nat) returns (hist: seq<Sensor>)
    requires Next(s, op, s') && k in s.internal && !op.Reset? && (op.Process? ==> op.cfg == cfg)
    ensures Leads(cfg, s.internal, s'.internal, k, hist,
                  if op.Process? && s.queue != [] then BatchesOf(op.plan.sorted, k) else [])
  {
    hide Leads, Absorb, Ingest, Merged, Schedule, IsLatest, SortedByStamp;
    if op.Process? && s.queue != [] {
      hist := QueueHistory(cfg, op.plan.sorted, Intake(s.internal, s.lastId, s.allocs), k);
    } else {
      NoBatches(cfg, s.internal, k);
      hist := [s.internal[k]];
    }
  }

  /** No reset, and the same parameters throughout. */
  ghost predicate Steady(cfg: Config, r: Run, i: nat, j: nat)
    requires i <= j <= |r.ops|
  {
    forall l :: i <= l < j ==> !r.ops[l].Reset? && (r.ops[l].Process? ==> r.ops[l].cfg == cfg)
  }

  /** Over every steady stretch of every run, the list of a source takes in exactly the batches
      processed for it. */
  lemma {:induction false} RunHistory(cfg: Config, r: Run, i: nat, j: nat, k: nat) returns (hist: seq<Sensor>)
    requires IsRun(r) && i <= j <= |r.ops| && Steady(cfg, r, i, j) && k in r.states[i].internal
    ensures Leads(cfg, r.states[i].internal, r.states[j].internal, k, hist, RunBatches(r, i, j, k))
    decreases j
  {
    hide Leads, Next, BatchesOf;
    if i == j {
      NoBatches(cfg, r.states[i].internal, k);
      hist := [r.states[i].internal[k]];
    } else {
      var h := RunHistory(cfg, r, i, j - 1, k);
      var a, b, c := r.states[i].internal, r.states[j - 1].internal, r.states[j].internal;
      LeadsKeeps(cfg, a, b, k, h, RunBatches(r, i, j - 1, k));
      RunStep(r, j - 1);
      var g := StepHistory(cfg, r.states[j - 1], r.ops[j - 1], r.states[j], k);
      var cs := if r.ops[j - 1].Process? && r.states[j - 1].queue != [] then BatchesOf(r.ops[j - 1].plan.sorted, k) else [];
      LeadsConcat(cfg, a, b, c, k, h, RunBatches(r, i, j - 1, k), g, cs);
      LeadsKeeps(cfg, b, c, k, g, cs);
      assert RunBatches(r, i, j - 1, k) + cs == RunBatches(r, i, j, k);
      hist := h + g[1..];
    }
  }

  /** The state holds a track of source `k` with that identifier. */
  ghost predicate Holds(t: Tracks, k: nat, id: nat) {
    k in t && exists b :: 0 <= b < |t[k].objects| && t[k].objects[b].id == id
  }

  /** In every run, a track just started or matched, to which every batch of its source attends within
      bearable misses and time, is never purged: it is there, under its identifier, at the end. */
  lemma SeenIsKept(cfg: Config, r: Run, i: nat, j: nat, k: nat, a: nat, misses: nat, time: real)
    returns (hist: seq<Sensor>)
    requires IsRun(r) && i <= j <= |r.ops| && Steady(cfg, r, i, j) && k in r.states[i].internal
    requires a < |r.states[i].internal[k].objects| && r.states[i].internal[k].objects[a].life == 1.0
    requires cfg.divider >= 1.0 && cfg.decay >= 0.0 && Bearable(cfg, misses, time)
    ensures Leads(cfg, r.states[i].internal, r.states[j].internal, k, hist, RunBatches(r, i, j, k))
    ensures AlwaysAttended(cfg, hist, RunBatches(r, i, j, k), a, misses, time) ==>
              Holds(r.states[j].internal, k, r.states[i].internal[k].objects[a].id)
  {
    hide Bearable, AlwaysAttended, Next, RunBatches;
    hist := RunHistory(cfg, r, i, j, k);
    var bs := RunBatches(r, i, j, k);
    if AlwaysAttended(cfg, hist, bs, a, misses, time) {
      var path := NeverPurged(cfg, hist, bs, a, misses, time, |bs|);
    }
  }

  // ----- the fused list -------------------------------------------------------------------------------

  /** The merged measurements of the operations `i` to `j - 1`, in order. */
  function MergedBatches(r: Run, i: nat, j: nat): (bs: seq<Sensor>)
    requires i <= j <= |r.ops| && |r.states| == |r.ops| + 1
  {
    if i == j then []
    else
      var bs, op := MergedBatches(r, i, j - 1), r.ops[j - 1];
      if op.Process? && r.states[j - 1].queue != [] && AllPositive(op.plan.visits)
      then bs + [MergedSensor(op.cfg, op.plan.latest, op.plan.visits)]
      else bs
  }

  lemma ReadiedRescored(f: Sensor, m: Sensor)
    ensures Rescored(f, Readied(f, m))
  {
  }

  lemma FusedTakesIn(cfg: Config, s: State, p: Plan)
    requires AllPositive(p.visits)
    ensures TakesIn(cfg, MergedSensor(cfg, p.latest, p.visits), s.fused, Processed(cfg, s, p).fused)
  {
    hide Absorb, Merged, Ingest, Rescored;
    var m := MergedSensor(cfg, p.latest, p.visits);
    ReadiedRescored(s.fused, m);
    assert Absorb(cfg, m, Readied(s.fused, m), Ingested(cfg, s, p).lastId).track == Processed(cfg, s, p).fused;
  }

  lemma HistorySnoc(cfg: Config, hist: seq<Sensor>, bs: seq<Sensor>, b: Sensor, after: Sensor)
    requires History(cfg, hist, bs) && TakesIn(cfg, b, hist[|bs|], after)
    ensures History(cfg, hist + [after], bs + [b])
  {
    hide TakesIn;
    var h, cs := hist + [after], bs + [b];
    forall j | 0 <= j < |cs|
      ensures TakesIn(cfg, cs[j], h[j], h[j + 1])
    {
      if j < |bs| {
        assert TakesIn(cfg, bs[j], hist[j], hist[j + 1]);
      }
    }
  }

  /** Likewise the fused list takes in exactly the merged measurements. */
  lemma {:induction false} FusedHistory(cfg: Config, r: Run, i: nat, j: nat) returns (hist: seq<Sensor>)
    requires IsRun(r) && i <= j <= |r.ops| && Steady(cfg, r, i, j)
    ensures History(cfg, hist, MergedBatches(r, i, j))
    ensures hist[0] == r.states[i].fused && hist[|hist| - 1] == r.states[j].fused
    decreases j
  {
    hide TakesIn, Processed, ValidPlan, MergedSensor;
    if i == j {
      hist := [r.states[i].fused];
    } else {
      hist := FusedHistory(cfg, r, i, j - 1);
      RunStep(r, j - 1);
      var s, op := r.states[j - 1], r.ops[j - 1];
      if op.Process? && s.queue != [] {
        PlanPositive(cfg, s, op.plan);
        FusedTakesIn(cfg, s, op.plan);
        var m := MergedSensor(cfg, op.plan.latest, op.plan.visits);
        HistorySnoc(cfg, hist, MergedBatches(r, i, j - 1), m, r.states[j].fused);
        hist := hist + [r.states[j].fused];
      }
    }
  }

  /** And a fused track that every merged measurement attends to is never purged. */
  lemma FusedSeenIsKept(cfg: Config, r: Run, i: nat, j: nat, a: nat, misses: nat, time: real)
    returns (hist: seq<Sensor>)
    requires IsRun(r) && i <= j <= |r.ops| && Steady(cfg, r, i, j)
    requires a < |r.states[i].fused.objects| && r.states[i].fused.objects[a].life == 1.0
    requires cfg.divider >= 1.0 && cfg.decay >= 0.0 && Bearable(cfg, misses, time)
    ensures History(cfg, hist, MergedBatches(r, i, j))
    ensures hist[0] == r.states[i].fused && hist[|hist| - 1] == r.states[j].fused
    ensures AlwaysAttended(cfg, hist, MergedBatches(r, i, j), a, misses, time) ==>
              exists b :: 0 <= b < |r.states[j].fused.objects| &&
                          r.states[j].fused.objects[b].id == r.states[i].fused.objects[a].id
  {
    hide Bearable, AlwaysAttended, Next, MergedBatches, TakesIn;
    hist := FusedHistory(cfg, r, i, j);
    var bs := MergedBatches(r, i, j);
    if AlwaysAttended(cfg, hist, bs, a, misses, time) {
      var path := NeverPurged(cfg, hist, bs, a, misses, time, |bs|);
    }
  }
}
