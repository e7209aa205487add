/**
 The stamp discipline of the tracker over every run.
 */
module TrackerStamps {
  import opened TrackedObjects
  import opened MergeLaws
  import opened Batches
  import opened TrackerModel

  /** The queue's stamps and the old stamps are all that new stamps can be, and each source
      ends up at the largest of its own. */
  ghost predicate StampsAdvanced(before: Tracks, q: seq<Sensor>, after: Tracks) {
    && (forall k :: k in before ==> k in after && before[k].stamp <= after[k].stamp)
    && (forall j :: 0 <= j < |q| ==> q[j].src in after && q[j].stamp <= after[q[j].src].stamp)
    && (forall k :: k in after ==> StampFrom(before, q, k, after[k].stamp))
  }

  ghost predicate StampFrom(before: Tracks, q: seq<Sensor>, k: nat, stamp: int) {
    || (k in before && before[k].stamp == stamp)
    || exists j :: 0 <= j < |q| && q[j].src == k && q[j].stamp == stamp
  }

  lemma OneBatchStamps(cfg: Config, b: Sensor, i: Intake)
    ensures var t := IngestOne(cfg, b, i).tracks;
            && (forall k :: k in t <==> k in i.tracks || k == b.src)
            && (forall k :: k in i.tracks && k != b.src ==> t[k] == i.tracks[k])
            && t[b.src].stamp == if Stale(b, TrackFor(i.tracks, b)) then i.tracks[b.src].stamp else b.stamp
  {
    hide Absorb;
    AbsorbStamp(cfg, b, TrackFor(i.tracks, b), i.lastId);
  }

  lemma StampsCompose(before: Tracks, q: seq<Sensor>, mid: Tracks, b: Sensor, after: Tracks)
    requires StampsAdvanced(before, q, mid)
    requires forall k :: k in after <==> k in mid || k == b.src
    requires forall k :: k in mid && k != b.src ==> after[k] == mid[k]
    requires after[b.src].stamp == if b.src in mid && b.stamp < mid[b.src].stamp then mid[b.src].stamp else b.stamp
    ensures StampsAdvanced(before, q + [b], after)
  {
    var r := q + [b];
    assert r[|q|] == b;
    forall k | k in after
      ensures StampFrom(before, r, k, after[k].stamp)
    {
      if k in mid && after[k].stamp == mid[k].stamp {
        assert StampFrom(before, q, k, mid[k].stamp);
        if !(k in before && before[k].stamp == mid[k].stamp) {
          var j :| 0 <= j < |q| && q[j].src == k && q[j].stamp == mid[k].stamp;
          assert r[j] == q[j];
        }
      }
    }
  }

  lemma StampsStep(cfg: Config, before: Tracks, q: seq<Sensor>, mid: Intake, b: Sensor)
    requires StampsAdvanced(before, q, mid.tracks)
    ensures StampsAdvanced(before, q + [b], IngestOne(cfg, b, mid).tracks)
  {
    hide StampsAdvanced, IngestOne;
    OneBatchStamps(cfg, b, mid);
    StampsCompose(before, q, mid.tracks, b, IngestOne(cfg, b, mid).tracks);
  }

  lemma NoStamps(cfg: Config, i: Intake)
    ensures StampsAdvanced(i.tracks, [], Ingest(cfg, [], i).tracks)
  {
  }

  lemma {:induction false} IngestStamps(cfg: Config, q: seq<Sensor>, i: Intake)
    ensures StampsAdvanced(i.tracks, q, Ingest(cfg, q, i).tracks)
  {
    hide Ingest, IngestOne, StampsAdvanced;
    if q == [] {
      NoStamps(cfg, i);
    } else {
      var n := |q| - 1;
      IngestSnoc(cfg, q, i);
      IngestStamps(cfg, q[..n], i);
      StampsStep(cfg, i.tracks, q[..n], Ingest(cfg, q[..n], i), q[n]);
      assert q[..n] + [q[n]] == q;
    }
  }

  lemma AbsorbStamp(cfg: Config, m: Sensor, track: Sensor, lastId: nat)
    ensures Absorb(cfg, m, track, lastId).track.stamp == if m.stamp < track.stamp then track.stamp else m.stamp
  {
  }

  /** A batch of a sorted queue is dropped as stale exactly when it is older than the stamp
      its source had before the whole queue: no batch is lost to its neighbours. */
  lemma DroppedIffOld(cfg: Config, q: seq<Sensor>, i: Intake, j: nat)
    requires SortedByStamp(q) && j < |q|
    ensures Stale(q[j], TrackFor(Ingest(cfg, q[..j], i).tracks, q[j])) <==>
            q[j].src in i.tracks && q[j].stamp < i.tracks[q[j].src].stamp
  {
    IngestStamps(cfg, q[..j], i);
    var mid := Ingest(cfg, q[..j], i).tracks;
    if q[j].src in mid {
      assert StampFrom(i.tracks, q[..j], q[j].src, mid[q[j].src].stamp);
    }
  }

  // ----- the invariant of runs ----------------------------------------------------------------

  /** Before the first `process` since a reset there are no tracks at all; afterwards the fused
      stamp is the maximum of the per-source stamps. */
  ghost predicate StampInv(s: State) {
    if s.internal == map[] then s.fused.objects == [] else IsLatest(s.internal, s.fused.stamp)
  }

  lemma ProcessIngests(cfg: Config, s: State, p: Plan)
    requires s.queue != [] && ValidPlan(cfg, s, p)
    ensures Ingested(cfg, s, p).tracks != map[]
    ensures StampsAdvanced(s.internal, p.sorted, Ingested(cfg, s, p).tracks)
  {
    IngestStamps(cfg, p.sorted, Intake(s.internal, s.lastId, s.allocs));
    assert s.queue[0] in multiset(s.queue);
    assert s.queue[0] in p.sorted;
    assert p.sorted[0].src in Ingested(cfg, s, p).tracks;
  }

  /** In every state of every run, processing a non-empty queue finds per-source tracks to
      merge and a merged measurement at least as new as the fused list, so neither early
      return is taken, and leaves the fused stamp at the maximum per-source stamp. */
  lemma FusedNeverStale(cfg: Config, s: State, p: Plan)
    requires StampInv(s) && s.queue != [] && ValidPlan(cfg, s, p)
    ensures Ingested(cfg, s, p).tracks != map[]
    ensures var m := MergedSensor(cfg, p.latest, p.visits); !Stale(m, Readied(s.fused, m))
    ensures Processed(cfg, s, p).fused.stamp == p.latest
    ensures IsLatest(Processed(cfg, s, p).internal, p.latest)
  {
    ProcessIngests(cfg, s, p);
    if s.fused.objects != [] {
      var k :| k in s.internal && s.internal[k].stamp == s.fused.stamp;
    }
  }

  lemma StepKeepsStampInv(s: State, op: Op, s': State)
    requires StampInv(s) && Next(s, op, s')
    ensures StampInv(s')
  {
    if op.Process? && s.queue != [] {
      FusedNeverStale(op.cfg, s, op.plan);
    }
  }

  lemma {:induction false} RunKeepsStampInv(r: Run, i: nat)
    requires IsRun(r) && i < |r.states|
    ensures StampInv(r.states[i])
  {
    if i > 0 {
      hide Next, StampInv;
      RunKeepsStampInv(r, i - 1);
      RunStep(r, i - 1);
      StepKeepsStampInv(r.states[i - 1], r.ops[i - 1], r.states[i]);
    }
  }

  /** In every run, a `process` on a non-empty queue leaves the fused stamp at the maximum of the
      per-source stamps, having merged at least one source and dropped nothing as stale. */
  lemma FusedStampIsLatest(r: Run, i: nat)
    requires IsRun(r) && i < |r.ops| && r.ops[i].Process? && r.states[i].queue != []
    ensures var cfg, s, p := r.ops[i].cfg, r.states[i], r.ops[i].plan;
            && AllPositive(p.visits)
            && Ingested(cfg, s, p).tracks != map[]
            && (var m := MergedSensor(cfg, p.latest, p.visits); !Stale(m, Readied(s.fused, m)))
            && IsLatest(r.states[i + 1].internal, r.states[i + 1].fused.stamp)
  {
    hide Absorb, Ingest, Merged, Schedule;
    RunKeepsStampInv(r, i);
    RunStep(r, i);
    FusedNeverStale(r.ops[i].cfg, r.states[i], r.ops[i].plan);
  }

  /** Every source of `s` is still there in `s'`, with a stamp no older. */
  ghost predicate NotOlder(s: State, s': State) {
    forall k :: k in s.internal ==> k in s'.internal && s.internal[k].stamp <= s'.internal[k].stamp
  }

  lemma StepNotOlder(s: State, op: Op, s': State)
    requires Next(s, op, s') && !op.Reset?
    ensures NotOlder(s, s')
  {
    hide Absorb, Ingest, Merged, Schedule, IsLatest;
    if op.Process? && s.queue != [] {
      ProcessIngests(op.cfg, s, op.plan);
    }
  }

  lemma NotOlderTransitive(a: State, b: State, c: State)
    ensures NotOlder(a, a)
    ensures NotOlder(a, b) && NotOlder(b, c) ==> NotOlder(a, c)
  {
  }

  /** Over every stretch of a run without a reset, no source disappears and no source's
      stamp decreases. */
  lemma {:induction false} StampsNeverDecrease(r: Run, i: nat, j: nat)
    requires IsRun(r) && i <= j < |r.states|
    requires forall l :: i <= l < j ==> !r.ops[l].Reset?
    ensures NotOlder(r.states[i], r.states[j])
    decreases j
  {
    hide Next, NotOlder;
    if i < j {
      StampsNeverDecrease(r, i, j - 1);
      RunStep(r, j - 1);
      StepNotOlder(r.states[j - 1], r.ops[j - 1], r.states[j]);
      NotOlderTransitive(r.states[i], r.states[j - 1], r.states[j]);
    } else {
      NotOlderTransitive(r.states[i], r.states[i], r.states[i]);
    }
  }

  // ----- a first `process` on one source's batches ------------------------------------------------

  predicate AllBatchesOf(q: seq<Sensor>, k: nat) {
    forall j :: 0 <= j < |q| ==> q[j].src == k
  }

  /** Nothing stands in the way of a first `process` over batches of one source. */
  lemma SingleSourcePlan(cfg: Config, s: State, k: nat) returns (p: Plan)
    requires s.internal == map[] && s.queue != [] && AllBatchesOf(s.queue, k) && SortedByStamp(s.queue)
    ensures ValidPlan(cfg, s, p) && p.sorted == s.queue
    ensures Ingested(cfg, s, p).tracks.Keys == {k} && p.keys == [k]
  {
    var start := Intake(s.internal, s.lastId, s.allocs);
    var t := Ingest(cfg, s.queue, start).tracks;
    IngestStamps(cfg, s.queue, start);
    hide Ingest;
    assert s.queue[0].src in t;
    forall l | l in t
      ensures l == k
    {
      assert StampFrom(map[], s.queue, l, t[l].stamp);
    }
    var latest := t[k].stamp;
    p := Plan(s.queue, latest, [k], [Entrants(cfg, t[k], latest)]);
  }
}
