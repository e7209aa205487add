/**
 The tracker as a state machine: `addObjects` queues a batch, `process` absorbs the queue
 into the per-source track lists, merges them and absorbs the merged list into the fused
 one, `reset` forgets the tracks.  What the code leaves open (the order of equal stamps
 after `std::sort`, the iteration order of the neighbour map) is the plan of a `process`.
 */
module TrackerModel {
  import opened TrackedObjects
  import opened Merge
  import opened MergeLaws
  import opened Batches

  /** `allocs` counts the identifiers handed out; the code does not store it. */
  datatype State = State(lastId: nat, queue: seq<Sensor>, internal: Tracks, fused: Sensor, allocs: nat)

  function Initial(now: int): State {
    State(1, [], map[], Sensor(0, now, []), 0)
  }

  function Tagged(objs: seq<Object>, src: nat): (r: seq<Object>)
    ensures |r| == |objs| && forall i :: 0 <= i < |objs| ==> r[i] == objs[i].(src := src)
  {
    seq(|objs|, i requires 0 <= i < |objs| => objs[i].(src := src))
  }

  // ----- the per-source stage -----------------------------------------------------------

  datatype Intake = Intake(tracks: Tracks, lastId: nat, allocs: nat)

  function TrackFor(t: Tracks, b: Sensor): Sensor {
    if b.src in t then t[b.src] else Sensor(b.src, b.stamp, [])
  }

  function IngestOne(cfg: Config, b: Sensor, i: Intake): Intake {
    var a := Absorb(cfg, b, TrackFor(i.tracks, b), i.lastId);
    Intake(i.tracks[b.src := a.track], a.lastId, i.allocs + a.spawned)
  }

  function Ingest(cfg: Config, q: seq<Sensor>, i: Intake): Intake {
    if q == [] then i else IngestOne(cfg, q[|q| - 1], Ingest(cfg, q[..|q| - 1], i))
  }

  lemma IngestSnoc(cfg: Config, q: seq<Sensor>, i: Intake)
    requires q != []
    ensures Ingest(cfg, q, i) == IngestOne(cfg, q[|q| - 1], Ingest(cfg, q[..|q| - 1], i))
  {
  }

  lemma {:induction false} IngestSplit(cfg: Config, q: seq<Sensor>, i: Intake, j: nat)
    requires j <= |q|
    ensures Ingest(cfg, q, i) == Ingest(cfg, q[j..], Ingest(cfg, q[..j], i))
    decreases |q|
  {
    if j == |q| {
      assert q[..j] == q && q[j..] == [];
    } else {
      hide Ingest, IngestOne;
      var n, mid := |q| - 1, Ingest(cfg, q[..j], i);
      IngestSnoc(cfg, q, i);
      IngestSnoc(cfg, q[j..], mid);
      IngestSplit(cfg, q[..n], i, j);
      SuffixOfPrefix(q, j);
    }
  }

  lemma SuffixOfPrefix<T>(q: seq<T>, j: nat)
    requires j < |q|
    ensures q[..|q| - 1][..j] == q[..j] && q[..|q| - 1][j..] == q[j..][..|q[j..]| - 1]
    ensures q[j..][|q[j..]| - 1] == q[|q| - 1]
  {
  }

  // ----- the fused stage ------------------------------------------------------------------

  function ZeroScores(s: seq<Object>): (r: seq<Object>)
    ensures |r| == |s| && forall i :: 0 <= i < |s| ==> r[i] == s[i].(score := 0.0)
  {
    seq(|s|, i requires 0 <= i < |s| => s[i].(score := 0.0))
  }

  /** The fused list made ready for the merged measurement: an empty one takes over its
      stamp, any other has its scores reset. */
  function Readied(f: Sensor, m: Sensor): Sensor {
    if f.objects == [] then f.(src := m.src, stamp := m.stamp) else f.(objects := ZeroScores(f.objects))
  }

  function MergedSensor(cfg: Config, latest: int, visits: seq<seq<Object>>): Sensor
    requires AllPositive(visits)
  {
    Sensor(0, latest, Reps(Merged(cfg, visits)))
  }

  // ----- steps and runs ---------------------------------------------------------------------

  predicate SortedByStamp(q: seq<Sensor>) {
    forall i, j :: 0 <= i < j < |q| ==> q[i].stamp <= q[j].stamp
  }

  datatype Plan = Plan(sorted: seq<Sensor>, latest: int, keys: seq<nat>, visits: seq<seq<Object>>)

  function Ingested(cfg: Config, s: State, p: Plan): Intake {
    Ingest(cfg, p.sorted, Intake(s.internal, s.lastId, s.allocs))
  }

  ghost predicate ValidPlan(cfg: Config, s: State, p: Plan) {
    && multiset(p.sorted) == multiset(s.queue) && SortedByStamp(p.sorted)
    && var t := Ingested(cfg, s, p).tracks;
       IsLatest(t, p.latest) && Schedule(cfg, t, p.latest, p.keys, p.visits) && AllPositive(p.visits)
  }

  lemma PlanPositive(cfg: Config, s: State, p: Plan)
    requires ValidPlan(cfg, s, p)
    ensures AllPositive(p.visits)
  {
  }

  function Processed(cfg: Config, s: State, p: Plan): State
    requires AllPositive(p.visits)
  {
    var i := Ingested(cfg, s, p);
    var m := MergedSensor(cfg, p.latest, p.visits);
    var a := Absorb(cfg, m, Readied(s.fused, m), i.lastId);
    State(a.lastId, [], i.tracks, a.track, i.allocs + a.spawned)
  }

  datatype Op =
    | AddObjects(objs: seq<Object>, src: nat, stamp: int)
    | Process(cfg: Config, plan: Plan)
    | Reset(now: int)

  ghost predicate Next(s: State, op: Op, s': State) {
    match op
    case AddObjects(objs, src, stamp) =>
      s' == s.(queue := s.queue + [Sensor(src, stamp, Tagged(objs, src))])
    case Process(cfg, plan) =>
      if s.queue == [] then s' == s
      else ValidPlan(cfg, s, plan) && s' == Processed(cfg, s, plan)
    case Reset(now) =>
      s' == s.(internal := map[], fused := Sensor(0, now, []))
  }

  datatype Run = Run(ops: seq<Op>, states: seq<State>)

  ghost predicate IsRun(r: Run) {
    && |r.states| == |r.ops| + 1
    && (exists now :: r.states[0] == Initial(now))
    && forall i :: 0 <= i < |r.ops| ==> Next(r.states[i], r.ops[i], r.states[i + 1])
  }

  lemma RunStep(r: Run, i: nat)
    requires IsRun(r) && i < |r.ops|
    ensures Next(r.states[i], r.ops[i], r.states[i + 1])
  {
  }

  function Extended(r: Run, op: Op, s: State): Run {
    Run(r.ops + [op], r.states + [s])
  }

  lemma RunSnoc(r: Run, op: Op, s: State)
    requires IsRun(r) && Next(r.states[|r.ops|], op, s)
    ensures IsRun(Extended(r, op, s))
  {
    hide Next;
    var e := Extended(r, op, s);
    forall i | 0 <= i < |e.ops|
      ensures Next(e.states[i], e.ops[i], e.states[i + 1])
    {
      if i < |r.ops| {
        RunStep(r, i);
      }
    }
  }

  lemma RunStart(now: int)
    ensures IsRun(Run([], [Initial(now)]))
  {
  }
}
