/**
 A track through a batch: which track of the list afterwards it is, and that there is one
 exactly when the batch does not purge it.
 */
module Successors {
  import opened TrackedObjects
  import opened Association
  import opened Batches
  import opened IdWindows
  import Purge

  /** Track `a` of a list is track `b` of the list after a batch. */
  predicate Successor(cfg: Config, m: Sensor, track: Sensor, a: nat, b: nat) {
    if Stale(m, track) then a == b
    else
      var kept := Purge.Kept(cfg, PredictAll(cfg, track.objects, Seconds(m.stamp, track.stamp)));
      b < |kept| && kept[b] == a
  }

  /** The batch purges the track. */
  predicate PurgedBy(cfg: Config, m: Sensor, track: Sensor, a: nat)
    requires a < |track.objects|
  {
    !Stale(m, track) && Purge.Removed(cfg, PredictAll(cfg, track.objects, Seconds(m.stamp, track.stamp)), a)
  }

  /** A track has a successor if and only if the batch does not purge it. */
  lemma SuccessorIff(cfg: Config, m: Sensor, track: Sensor, a: nat)
    requires a < |track.objects|
    ensures (exists b :: Successor(cfg, m, track, a, b)) <==> !PurgedBy(cfg, m, track, a)
  {
    if Stale(m, track) {
      assert Successor(cfg, m, track, a, a);
    } else {
      var p := PredictAll(cfg, track.objects, Seconds(m.stamp, track.stamp));
      Purge.PurgeExact(cfg, p, a);
      if a in Purge.Kept(cfg, p) {
        var b: nat :| b < |Purge.Kept(cfg, p)| && Purge.Kept(cfg, p)[b] == a;
        assert Successor(cfg, m, track, a, b);
      }
    }
  }

  lemma SuccessorAt(cfg: Config, m: Sensor, track: Sensor, lastId: nat, a: nat, b: nat)
    requires !Stale(m, track) && a < |track.objects| && Successor(cfg, m, track, a, b)
    ensures var dt := Seconds(m.stamp, track.stamp);
            var t := Predicted(cfg, track.objects[a], dt);
            var r := Absorb(cfg, m, track, lastId).track.objects;
            b < |r| && r[b] == Matched(cfg, t, m.objects, Nearest(cfg, t, m.objects, |m.objects|), dt)
  {
    hide Matched, Nearest, Predicted;
    var dt := Seconds(m.stamp, track.stamp);
    var live := Survivors(cfg, track.objects, dt);
    assert live[b] == Predicted(cfg, track.objects[a], dt);
    assert Absorb(cfg, m, track, lastId).track.objects[b] == MatchAll(cfg, live, m.objects, dt)[b];
  }

  /** A successor carries the track's identifier. */
  lemma SuccessorId(cfg: Config, m: Sensor, track: Sensor, lastId: nat, a: nat, b: nat)
    requires a < |track.objects| && Successor(cfg, m, track, a, b)
    ensures var r := Absorb(cfg, m, track, lastId).track.objects;
            b < |r| && r[b].id == track.objects[a].id
  {
    if !Stale(m, track) {
      hide Absorb, Successor, Matched, Nearest;
      SuccessorAt(cfg, m, track, lastId, a, b);
      var dt := Seconds(m.stamp, track.stamp);
      var t := Predicted(cfg, track.objects[a], dt);
      MatchKeepsId(cfg, t, m.objects, Nearest(cfg, t, m.objects, |m.objects|), dt);
    }
  }
}
