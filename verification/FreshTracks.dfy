/**
 Which tracks take part in a merge: those of positive score, so none that the last batch of its
 source in the queue has just started.
 */
module FreshTracks {
  import opened TrackedObjects
  import opened Merge
  import opened MergeLaws
  import opened Batches
  import opened IdWindows
  import opened TrackerModel
  import opened LostTracks
  import Thinning
  import Purge

  lemma {:induction false} PoolPositive(cfg: Config, t: Tracks, latest: int, keys: seq<nat>, o: Object)
    requires forall j :: 0 <= j < |keys| ==> keys[j] in t
    requires o in Pool(cfg, t, latest, keys)
    ensures o.score > 0.0
  {
    var n := |keys| - 1;
    if o in Pool(cfg, t, latest, keys[..n]) {
      PoolPositive(cfg, t, latest, keys[..n], o);
    } else {
      var i := EntrantFromTrack(cfg, t[keys[n]], latest, o);
    }
  }

  /** Whatever the visiting order, a track is in a merged group if and only if its score is positive. */
  lemma TakesPartIff(cfg: Config, t: Tracks, p: Plan, k: nat, a: nat)
    requires Schedule(cfg, t, p.latest, p.keys, p.visits) && AllPositive(p.visits)
    requires k in t && a < |t[k].objects|
    ensures AsSeen(cfg, t[k], p.latest, a) in Members(Merged(cfg, p.visits)) <==> t[k].objects[a].score > 0.0
  {
    hide Merged, Members, Pool, Entrants;
    var o := AsSeen(cfg, t[k], p.latest, a);
    MergeConserves(cfg, t, p.latest, p.keys, p.visits);
    if t[k].objects[a].score > 0.0 {
      SeenIsEntrant(cfg, t[k], p.latest, a);
      PoolHas(cfg, t, p.latest, p.keys, k, o);
    } else if o in Pool(cfg, t, p.latest, p.keys) {
      PoolPositive(cfg, t, p.latest, p.keys, o);
    }
  }

  predicate NoBatchOf(q: seq<Sensor>, k: nat) {
    forall j :: 0 <= j < |q| ==> q[j].src != k
  }

  lemma {:induction false} OthersLeaveAlone(cfg: Config, q: seq<Sensor>, i: Intake, k: nat)
    requires NoBatchOf(q, k) && k in i.tracks
    ensures k in Ingest(cfg, q, i).tracks && Ingest(cfg, q, i).tracks[k] == i.tracks[k]
  {
    if q != [] {
      hide Absorb;
      OthersLeaveAlone(cfg, q[..|q| - 1], i, k);
    }
  }

  /** The list of a source after a queue is what its last batch made of it. */
  lemma LastBatchDecides(cfg: Config, q: seq<Sensor>, i: Intake, j: nat)
    requires j < |q| && NoBatchOf(q[j + 1..], q[j].src)
    ensures var mid := Ingest(cfg, q[..j], i);
            var t := Ingest(cfg, q, i).tracks;
            q[j].src in t && t[q[j].src] == Absorb(cfg, q[j], TrackFor(mid.tracks, q[j]), mid.lastId).track
  {
    hide Absorb, Ingest;
    IngestSplit(cfg, q, i, j + 1);
    IngestSnoc(cfg, q[..j + 1], i);
    assert q[..j + 1][..j] == q[..j];
    OthersLeaveAlone(cfg, q[j + 1..], Ingest(cfg, q[..j + 1], i), q[j].src);
  }

  /** In every `process`, a track started by the last batch of its source takes part in no merged
      group. */
  lemma StartedNotMerged(cfg: Config, s: State, p: Plan, j: nat, l: nat)
    requires ValidPlan(cfg, s, p) && j < |p.sorted| && NoBatchOf(p.sorted[j + 1..], p.sorted[j].src)
    requires var b := p.sorted[j];
             var track := TrackFor(Ingest(cfg, p.sorted[..j], Intake(s.internal, s.lastId, s.allocs)).tracks, b);
             b.src in Processed(cfg, s, p).internal &&
             |Staying(cfg, b, track)| <= l < |Processed(cfg, s, p).internal[b.src].objects|
    ensures var t := Processed(cfg, s, p).internal[p.sorted[j].src];
            && t.objects[l].score == 0.0
            && AsSeen(cfg, t, p.latest, l) !in Members(Merged(cfg, p.visits))
  {
    hide Absorb, Ingest, Merged, Members, IsLatest, SortedByStamp, Staying;
    var start, b := Intake(s.internal, s.lastId, s.allocs), p.sorted[j];
    var mid := Ingest(cfg, p.sorted[..j], start);
    LastBatchDecides(cfg, p.sorted, start, j);
    StartedScore(cfg, b, TrackFor(mid.tracks, b), mid.lastId, l);
    TakesPartIff(cfg, Ingested(cfg, s, p).tracks, p, b.src, l);
  }

  lemma StartedScore(cfg: Config, m: Sensor, track: Sensor, lastId: nat, l: nat)
    requires |Staying(cfg, m, track)| <= l < |Absorb(cfg, m, track, lastId).track.objects|
    ensures Absorb(cfg, m, track, lastId).track.objects[l].score == 0.0
  {
    if Stale(m, track) {
      assert false;
    }
    hide Absorb, TracksMatched, AllMovedOn, Thinning.IsThinning, Staying, Purge.Kept;
    var p, kept, chosen := AbsorbOutcome(cfg, m, track, lastId);
    var objs := Absorb(cfg, m, track, lastId).track.objects;
    StayingCount(cfg, m, track, lastId);
    assert objs[|kept|..][l - |kept|] == objs[l];
  }

  lemma StayingCount(cfg: Config, m: Sensor, track: Sensor, lastId: nat)
    requires !Stale(m, track)
    ensures var a := Absorb(cfg, m, track, lastId); |a.track.objects| == |Staying(cfg, m, track)| + a.spawned
  {
  }
}
