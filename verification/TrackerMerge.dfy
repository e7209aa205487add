/**
 The merge over every run: whatever the order of the neighbour map, the merged groups
 partition the positive-score objects of all sources.
 */
module TrackerMerge {
  import opened Vectors
  import opened TrackedObjects
  import opened Means
  import opened Merge
  import opened MergeLaws
  import opened Batches
  import opened TrackerModel
  import Purge

  /** The objects of a list come from the source the list belongs to. */
  ghost predicate SourceInv(s: State) {
    OwnSources(s.internal) && OwnBatches(s.queue)
  }

  ghost predicate OwnBatches(q: seq<Sensor>) {
    forall j :: 0 <= j < |q| ==> AllFrom(q[j].objects, q[j].src)
  }

  lemma AbsorbKeepsSource(cfg: Config, m: Sensor, track: Sensor, lastId: nat)
    requires AllFrom(track.objects, m.src) && AllFrom(m.objects, m.src)
    ensures AllFrom(Absorb(cfg, m, track, lastId).track.objects, m.src)
  {
    if !Stale(m, track) {
      var dt := Seconds(m.stamp, track.stamp);
      var p := PredictAll(cfg, track.objects, dt);
      var live := Survivors(cfg, track.objects, dt);
      forall i | 0 <= i < |live|
        ensures MatchAll(cfg, live, m.objects, dt)[i].src == m.src
      {
        assert live[i] == p[Purge.Kept(cfg, p)[i]];
      }
    }
  }

  lemma {:induction false} IngestKeepsSources(cfg: Config, q: seq<Sensor>, i: Intake)
    requires OwnSources(i.tracks) && OwnBatches(q)
    ensures OwnSources(Ingest(cfg, q, i).tracks)
  {
    if q != [] {
      hide Absorb;
      var n := |q| - 1;
      IngestKeepsSources(cfg, q[..n], i);
      var mid := Ingest(cfg, q[..n], i);
      AbsorbKeepsSource(cfg, q[n], TrackFor(mid.tracks, q[n]), mid.lastId);
    }
  }

  lemma ProcessKeepsSources(cfg: Config, s: State, p: Plan)
    requires SourceInv(s) && ValidPlan(cfg, s, p)
    ensures OwnSources(Ingested(cfg, s, p).tracks)
  {
    forall j | 0 <= j < |p.sorted|
      ensures AllFrom(p.sorted[j].objects, p.sorted[j].src)
    {
      var i := SameElements(p.sorted, s.queue, j);
    }
    IngestKeepsSources(cfg, p.sorted, Intake(s.internal, s.lastId, s.allocs));
  }

  lemma StepKeepsSourceInv(s: State, op: Op, s': State)
    requires SourceInv(s) && Next(s, op, s')
    ensures SourceInv(s')
  {
    hide Absorb, Ingest, Merged;
    if op.Process? && s.queue != [] {
      ProcessKeepsSources(op.cfg, s, op.plan);
    }
  }

  lemma {:induction false} RunKeepsSourceInv(r: Run, i: nat)
    requires IsRun(r) && i < |r.states|
    ensures SourceInv(r.states[i])
  {
    if i > 0 {
      hide Next, SourceInv;
      RunKeepsSourceInv(r, i - 1);
      RunStep(r, i - 1);
      StepKeepsSourceInv(r.states[i - 1], r.ops[i - 1], r.states[i]);
    }
  }

  /** In every run, every merge, whatever the visiting order, partitions exactly the
      positive-score objects of all sources: none lost, none duplicated, every group with
      exactly one member from the source whose pass opened it, and every later member close
      to the group's representative when it joined. */
  lemma MergePartitions(r: Run, i: nat)
    requires IsRun(r) && i < |r.ops| && r.ops[i].Process? && r.states[i].queue != []
    ensures var cfg, p, t := r.ops[i].cfg, r.ops[i].plan, r.states[i + 1].internal;
            && AllPositive(p.visits)
            && (forall k :: k in p.keys <==> k in t)
            && Members(Merged(cfg, p.visits)) == Pool(cfg, t, p.latest, p.keys)
            && AllOneFromOpener(Merged(cfg, p.visits), p.keys)
            && AllCoherent(cfg, Merged(cfg, p.visits))
  {
    var cfg, s, p := r.ops[i].cfg, r.states[i], r.ops[i].plan;
    assert Next(s, r.ops[i], r.states[i + 1]);
    RunKeepsSourceInv(r, i);
    ProcessKeepsSources(cfg, s, p);
    var t := Ingested(cfg, s, p).tracks;
    MergeConserves(cfg, t, p.latest, p.keys, p.visits);
    MergeOpeners(cfg, t, p.latest, p.keys, p.visits);
    MergeCoherent(cfg, p.visits);
  }

  /** Every merged object of every schedule represents its group; a group with company has only
      finite positions, so its mean position is finite. */
  lemma MergedRepresents(cfg: Config, p: Plan, i: nat)
    requires AllPositive(p.visits) && i < |Merged(cfg, p.visits)|
    ensures var g, m := Merged(cfg, p.visits)[i], MergedSensor(cfg, p.latest, p.visits);
            && |m.objects| == |Merged(cfg, p.visits)| && |g| > 0
            && Represents(g, m.objects[i])
            && (|g| > 1 ==> m.objects[i].pos.Vec?)
  {
    hide Merged, Rep, Represents;
    var g := Merged(cfg, p.visits)[i];
    RepRepresents(g);
    MergeCoherent(cfg, p.visits);
    if |g| > 1 {
      CompanyFinite(cfg, g);
    }
  }

  lemma CompanyFinite(cfg: Config, g: seq<Object>)
    requires Group(g) && |g| > 1 && Coherent(cfg, g)
    ensures Rep(g).pos.Vec?
  {
    hide Rep, Balances;
    forall j | 0 <= j < |g|
      ensures g[j].pos.Vec?
    {
      CoherentFinite(cfg, g, j);
    }
    RepRepresents(g);
    FiniteBalance(g, Rep(g).pos);
  }

  lemma FiniteBalance(g: seq<Object>, v: Vec)
    requires Balances(g, Pos, v) && AllFinite(g, Pos)
    ensures v.Vec?
  {
  }

  /** In every run, every merge gives for every group its representative. */
  lemma RunMergesMeans(r: Run, i: nat, j: nat)
    requires IsRun(r) && i < |r.ops| && r.ops[i].Process? && r.states[i].queue != []
    requires AllPositive(r.ops[i].plan.visits) && j < |Merged(r.ops[i].cfg, r.ops[i].plan.visits)|
    ensures var cfg, p := r.ops[i].cfg, r.ops[i].plan;
            var g, m := Merged(cfg, p.visits)[j], MergedSensor(cfg, p.latest, p.visits);
            && j < |m.objects| && |g| > 0 && Represents(g, m.objects[j])
            && TakesInMerged(cfg, r.states[i], m, r.states[i + 1])
  {
    hide Merged, Represents, Absorb, Ingest;
    RunStep(r, i);
    MergedRepresents(r.ops[i].cfg, r.ops[i].plan, j);
  }

  /** The fused list has taken in the merged measurement. */
  ghost predicate TakesInMerged(cfg: Config, s: State, m: Sensor, s': State) {
    exists lastId: nat :: Absorb(cfg, m, Readied(s.fused, m), lastId).track == s'.fused
  }
}
