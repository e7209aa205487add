/**
 The tracker object: its fields, and the loops of `mergeTracks` and `process`, each proved
 to take a step of the state machine.
 */
module ObjectTracker {
  import opened Options
  import opened Vectors
  import opened TrackedObjects
  import opened Means
  import opened Merge
  import opened MergeLaws
  import opened Batches
  import opened TrackerModel
  import TrackerStamps

  // ----- visiting every index once ----------------------------------------------------------

  function Picked(s: seq<Object>, order: seq<nat>): (r: seq<Object>)
    requires forall i :: 0 <= i < |order| ==> order[i] < |s|
    ensures |r| == |order| && forall i :: 0 <= i < |order| ==> r[i] == s[order[i]]
  {
    seq(|order|, i requires 0 <= i < |order| => s[order[i]])
  }

  predicate NoRepeats(order: seq<nat>) {
    forall i, j :: 0 <= i < j < |order| ==> order[i] != order[j]
  }

  lemma RemoveAt<T>(s: seq<T>, p: nat)
    requires p < |s|
    ensures multiset(s) == multiset(s[..p] + s[p + 1..]) + multiset{s[p]}
  {
    assert s == s[..p] + [s[p]] + s[p + 1..];
  }

  lemma PickedRest(s: seq<Object>, order: seq<nat>, p: nat, rest: seq<nat>)
    requires forall i :: 0 <= i < |order| ==> order[i] < |s|
    requires p < |order| && |s| > 0 && rest == order[..p] + order[p + 1..]
    requires forall i :: 0 <= i < |rest| ==> rest[i] < |s| - 1
    ensures Picked(s, order)[..p] + Picked(s, order)[p + 1..] == Picked(s[..|s| - 1], rest)
  {
    var a, b := Picked(s, order)[..p] + Picked(s, order)[p + 1..], Picked(s[..|s| - 1], rest);
    forall i | 0 <= i < |rest|
      ensures a[i] == b[i]
    {
      assert rest[i] == order[if i < p then i else i + 1];
    }
  }

  lemma CoversRest(order: seq<nat>, p: nat, rest: seq<nat>, n: nat)
    requires p < |order| && rest == order[..p] + order[p + 1..] && order[p] == n
    requires NoRepeats(order) && forall k: nat :: k <= n ==> k in order
    requires forall i :: 0 <= i < |order| ==> order[i] <= n
    ensures NoRepeats(rest) && forall k: nat :: k < n ==> k in rest
    ensures forall i :: 0 <= i < |rest| ==> rest[i] < n
  {
    assert forall i :: 0 <= i < |rest| ==> rest[i] == order[if i < p then i else i + 1];
    forall k: nat | k < n
      ensures k in rest
    {
      assert k in order;
      var q :| 0 <= q < |order| && order[q] == k;
      assert rest[if q < p then q else q - 1] == k;
    }
  }

  lemma {:induction false} PickedAll(s: seq<Object>, order: seq<nat>)
    requires forall i :: 0 <= i < |order| ==> order[i] < |s|
    requires NoRepeats(order) && forall k: nat :: k < |s| ==> k in order
    ensures multiset(Picked(s, order)) == multiset(s)
    decreases |s|, 1
  {
    if |order| == 0 {
      assert |s| == 0 || 0 in order;
    } else {
      assert order[0] < |s|;
      assert |s| - 1 in order;
      var p :| 0 <= p < |order| && order[p] == |s| - 1;
      PickedSplit(s, order, p);
    }
  }

  lemma {:induction false} PickedSplit(s: seq<Object>, order: seq<nat>, p: nat)
    requires forall i :: 0 <= i < |order| ==> order[i] < |s|
    requires NoRepeats(order) && forall k: nat :: k < |s| ==> k in order
    requires p < |order| && |s| > 0 && order[p] == |s| - 1
    ensures multiset(Picked(s, order)) == multiset(s)
    decreases |s|, 0
  {
    hide NoRepeats, Picked;
    var n := |s| - 1;
    var rest := order[..p] + order[p + 1..];
    CoversRest(order, p, rest, n);
    PickedAll(s[..n], rest);
    PickedRest(s, order, p, rest);
    RemoveAt(Picked(s, order), p);
    MultisetSnoc(s);
  }

  // ----- the merge ----------------------------------------------------------------------------

  /** `order` lists, once each, the indices below `n` that are no longer in `left`. */
  ghost predicate Visiting(n: nat, left: set<nat>, order: seq<nat>) {
    && NoRepeats(order)
    && (forall i :: 0 <= i < |order| ==> order[i] < n && order[i] !in left)
    && (forall k: nat :: k < n ==> k in left || k in order)
    && (forall k :: k in left ==> k < n)
  }

  lemma VisitingStep(n: nat, left: set<nat>, order: seq<nat>, i: nat)
    requires Visiting(n, left, order) && i in left
    ensures i < n && Visiting(n, left - {i}, order + [i])
  {
    assert (order + [i])[|order|] == i;
    forall k: nat | k < n
      ensures k in left - {i} || k in order + [i]
    {
    }
  }

  lemma PassSnoc(cfg: Config, groups: Groups, current: seq<Object>, order: seq<nat>, i: nat)
    requires WellFormed(groups) && PositiveScores(current) && i < |current|
    requires forall j :: 0 <= j < |order| ==> order[j] < |current|
    ensures Pass(cfg, groups, Picked(current, order + [i])) ==
            Visit(cfg, Pass(cfg, groups, Picked(current, order)), current[i],
                  NearestOut(current[i], Reps(groups), |groups|))
  {
    hide Visit, NearestOut;
    assert Picked(current, order + [i])[..|order|] == Picked(current, order);
  }

  /** One source's pass: the neighbour map is computed first and then visited in any order. */
  method MergePass(cfg: Config, current: seq<Object>, groups: Groups, out: seq<Object>)
    returns (groups': Groups, out': seq<Object>, ghost visits: seq<Object>)
    requires WellFormed(groups) && out == Reps(groups) && PositiveScores(current)
    ensures PositiveScores(visits) && multiset(visits) == multiset(current)
    ensures groups' == Pass(cfg, groups, visits)
    ensures out' == Reps(groups')
  {
    hide Pass, Visit, NearestOut, NoRepeats;
    var neighbours := GetDisjointNeighbours(current, out);
    var left := neighbours.Keys;
    ghost var order: seq<nat> := [];
    groups', out' := groups, out;
    VisitingStart(cfg, |current|, left, groups);
    while left != {}
      invariant Visiting(|current|, left, order)
      invariant groups' == Pass(cfg, groups, Picked(current, order))
      invariant out' == Reps(groups')
      decreases left
    {
      var i :| i in left;
      VisitingStep(|current|, left, order, i);
      PassSnoc(cfg, groups, current, order, i);
      groups', out' := MergeVisit(cfg, groups', out', current[i], neighbours[i]);
      left, order := left - {i}, order + [i];
    }
    visits := Picked(current, order);
    PickedAll(current, order);
  }

  lemma VisitingStart(cfg: Config, n: nat, left: set<nat>, groups: Groups)
    requires WellFormed(groups) && forall k: nat :: k in left <==> k < n
    ensures Visiting(n, left, []) && Pass(cfg, groups, []) == groups
  {
  }

  /** One pair of the neighbour map: join the group or open one. */
  method MergeVisit(cfg: Config, groups: Groups, out: seq<Object>, o: Object, neighbour: Option<nat>)
    returns (groups': Groups, out': seq<Object>)
    requires WellFormed(groups) && out == Reps(groups) && o.score > 0.0
    ensures groups' == Visit(cfg, groups, o, neighbour)
    ensures out' == Reps(groups')
  {
    if neighbour.Some? && neighbour.value < |out| && Within(o.pos, out[neighbour.value].pos, cfg.scoreDist) {
      var k := neighbour.value;
      groups' := groups[k := groups[k] + [o]];
      assert groups' == Visit(cfg, groups, o, neighbour);
      var mean := ComputeMeanObject(groups'[k]);
      out' := out[k := mean.(src := 0, id := MinId(groups'[k]))];
    } else {
      groups' := groups + [[o]];
      out' := out + [o];
      assert groups' == Visit(cfg, groups, o, neighbour);
    }
  }

  lemma {:induction false} SmallestExists(s: set<nat>, k: nat)
    requires k in s
    ensures exists m :: m in s && forall l :: l in s ==> m <= l
    decreases k
  {
    if l :| l in s && l < k {
      SmallestExists(s, l);
    } else {
      assert k in s && forall l :: l in s ==> k <= l;
    }
  }

  lemma HasSmallest(s: set<nat>)
    requires s != {}
    ensures exists m :: m in s && forall l :: l in s ==> m <= l
  {
    var k :| k in s;
    SmallestExists(s, k);
  }

  /** The largest stamp of a non-empty collection of track lists. */
  method LatestStamp(t: Tracks) returns (latest: int)
    requires t != map[]
    ensures IsLatest(t, latest)
  {
    var first :| first in t;
    latest := t[first].stamp;
    var left := t.Keys;
    while left != {}
      invariant forall k :: k in left ==> k in t
      invariant exists k :: k in t && t[k].stamp == latest
      invariant forall k :: k in t && k !in left ==> t[k].stamp <= latest
      decreases left
    {
      var k :| k in left;
      if latest < t[k].stamp {
        latest := t[k].stamp;
      }
      left := left - {k};
    }
  }

  lemma EntrantsAre(cfg: Config, sensor: Sensor, latest: int, current: seq<Object>)
    requires current == Established(PredictAll(cfg, sensor.objects, Seconds(latest, sensor.stamp)))
    ensures current == Entrants(cfg, sensor, latest)
  {
  }

  /** `keys` are ascending and below all of `left`; together they are the keys of `t`. */
  ghost predicate KeysSplit(t: Tracks, left: set<nat>, keys: seq<nat>) {
    && Ascending(keys)
    && (forall k :: k in t <==> k in left || k in keys)
    && (forall i, k :: 0 <= i < |keys| && k in left ==> keys[i] < k)
  }

  lemma KeysEnds(t: Tracks, keys: seq<nat>)
    ensures KeysSplit(t, t.Keys, [])
    ensures KeysSplit(t, {}, keys) ==> Ascending(keys) && forall k :: k in keys <==> k in t
  {
  }

  lemma KeysStep(t: Tracks, left: set<nat>, keys: seq<nat>, k: nat)
    requires KeysSplit(t, left, keys) && k in left && forall l :: l in left ==> k <= l
    ensures KeysSplit(t, left - {k}, keys + [k])
  {
    forall l
      ensures l in keys + [k] <==> l in keys || l == k
    {
    }
  }

  method Smallest(s: set<nat>) returns (k: nat)
    requires s != {}
    ensures k in s && forall l :: l in s ==> k <= l
  {
    HasSmallest(s);
    k :| k in s && forall l :: l in s ==> k <= l;
  }

  /** The keys of an ordered map, in order. */
  method KeysInOrder(t: Tracks) returns (keys: seq<nat>)
    ensures Ascending(keys) && forall k :: k in keys <==> k in t
  {
    hide KeysSplit;
    keys := [];
    var left := t.Keys;
    KeysEnds(t, keys);
    while left != {}
      invariant KeysSplit(t, left, keys)
      decreases left
    {
      var k := Smallest(left);
      KeysStep(t, left, keys, k);
      left, keys := left - {k}, keys + [k];
    }
    KeysEnds(t, keys);
  }

  lemma ExtendSchedule(cfg: Config, t: Tracks, latest: int, keys: seq<nat>, visits: seq<seq<Object>>,
                       k: nat, visit: seq<Object>)
    requires VisitsOf(cfg, t, latest, keys, visits) && AllPositive(visits)
    requires k in t && PositiveScores(visit) && multiset(visit) == multiset(Entrants(cfg, t[k], latest))
    ensures VisitsOf(cfg, t, latest, keys + [k], visits + [visit]) && AllPositive(visits + [visit])
    ensures Merged(cfg, visits + [visit]) == Pass(cfg, Merged(cfg, visits), visit)
  {
    assert (visits + [visit])[..|visits|] == visits;
  }

  method MergeTracks(cfg: Config, t: Tracks)
    returns (merged: Sensor, ghost keys: seq<nat>, ghost visits: seq<seq<Object>>)
    requires t != map[]
    ensures IsLatest(t, merged.stamp)
    ensures Schedule(cfg, t, merged.stamp, keys, visits) && AllPositive(visits)
    ensures merged == MergedSensor(cfg, merged.stamp, visits)
  {
    hide Pass, Entrants, IsLatest, Ascending;
    var latest := LatestStamp(t);
    var groups: Groups, out: seq<Object> := [], [];
    var ks := KeysInOrder(t);
    visits := [];
    for j := 0 to |ks|
      invariant VisitsOf(cfg, t, latest, ks[..j], visits) && AllPositive(visits)
      invariant groups == Merged(cfg, visits) && out == Reps(groups)
    {
      var k := ks[j];
      var current := UpdateAll(cfg, t[k].objects, Seconds(latest, t[k].stamp));
      current := Established(current);
      EntrantsAre(cfg, t[k], latest, current);
      ghost var visit;
      groups, out, visit := MergePass(cfg, current, groups, out);
      assert ks[..j + 1] == ks[..j] + [k];
      ExtendSchedule(cfg, t, latest, ks[..j], visits, k, visit);
      visits := visits + [visit];
    }
    assert ks[..|ks|] == ks;
    keys := ks;
    merged := Sensor(0, latest, out);
  }

  // ----- sorting the queue -------------------------------------------------------------------------

  lemma InsertedBelow(b: Sensor, q: seq<Sensor>, r: seq<Sensor>, bound: int)
    requires multiset(r) == multiset(q) + multiset{b}
    requires b.stamp <= bound && forall i :: 0 <= i < |q| ==> q[i].stamp <= bound
    ensures forall i :: 0 <= i < |r| ==> r[i].stamp <= bound
  {
    forall i | 0 <= i < |r|
      ensures r[i].stamp <= bound
    {
      assert r[i] in multiset(r);
      if r[i] != b {
        assert r[i] in q;
      }
    }
  }

  function Inserted(b: Sensor, q: seq<Sensor>): (r: seq<Sensor>)
    requires SortedByStamp(q)
    ensures SortedByStamp(r) && multiset(r) == multiset(q) + multiset{b}
  {
    if q == [] then [b]
    else if q[|q| - 1].stamp <= b.stamp then q + [b]
    else
      var n := |q| - 1;
      var r := Inserted(b, q[..n]);
      MultisetSnoc(q);
      InsertedBelow(b, q[..n], r, q[n].stamp);
      r + [q[n]]
  }

  /** Any order by stamp: callers know no more than that. */
  method SortByStamp(q: seq<Sensor>) returns (r: seq<Sensor>)
    ensures SortedByStamp(r) && multiset(r) == multiset(q)
  {
    r := [];
    for i := 0 to |q|
      invariant SortedByStamp(r) && multiset(r) == multiset(q[..i])
    {
      assert q[..i + 1] == q[..i] + [q[i]];
      r := Inserted(q[i], r);
    }
    assert q[..|q|] == q;
  }

  method ClearScores(s: seq<Object>) returns (r: seq<Object>)
    ensures r == ZeroScores(s)
  {
    r := s;
    for i := 0 to |s|
      invariant |r| == |s|
      invariant forall k :: 0 <= k < i ==> r[k] == s[k].(score := 0.0)
      invariant forall k :: i <= k < |s| ==> r[k] == s[k]
    {
      r := r[i := r[i].(score := 0.0)];
    }
  }

  // ----- the object -----------------------------------------------------------------------------------

  class Tracker {
    var lastId: nat
    var processQ: seq<Sensor>
    var internalTracks: Tracks
    var trackedSensor: Sensor
    ghost var allocs: nat

    ghost function Model(): State
      reads this
    {
      State(lastId, processQ, internalTracks, trackedSensor, allocs)
    }

    ghost predicate Valid()
      reads this
    {
      lastId < ID_SPAN && TrackerStamps.StampInv(Model())
    }

    constructor (now: int)
      ensures Valid() && Model() == Initial(now)
    {
      lastId, processQ, internalTracks, trackedSensor, allocs := 1, [], map[], Sensor(0, now, []), 0;
    }

    method AddObjects(objs: seq<Object>, src: nat, stamp: int)
      requires Valid()
      modifies this`processQ
      ensures Valid() && Next(old(Model()), Op.AddObjects(objs, src, stamp), Model())
    {
      var tagged := objs;
      for i := 0 to |objs|
        invariant |tagged| == |objs|
        invariant forall k :: 0 <= k < i ==> tagged[k] == objs[k].(src := src)
        invariant forall k :: i <= k < |objs| ==> tagged[k] == objs[k]
      {
        tagged := tagged[i := tagged[i].(src := src)];
      }
      assert tagged == Tagged(objs, src);
      processQ := processQ + [Sensor(src, stamp, tagged)];
    }

    method Reset(now: int)
      requires Valid()
      modifies this`trackedSensor, this`internalTracks
      ensures Valid() && Next(old(Model()), Op.Reset(now), Model())
    {
      trackedSensor := Sensor(0, now, []);
      internalTracks := map[];
    }

    /** The loop over the sorted queue. */
    method AbsorbQueue(cfg: Config, q: seq<Sensor>)
      requires lastId < ID_SPAN
      modifies this`internalTracks, this`lastId, this`allocs
      ensures lastId < ID_SPAN
      ensures Intake(internalTracks, lastId, allocs) ==
              Ingest(cfg, q, Intake(old(internalTracks), old(lastId), old(allocs)))
    {
      hide Absorb;
      ghost var start := Intake(internalTracks, lastId, allocs);
      for j := 0 to |q|
        invariant lastId < ID_SPAN
        invariant Intake(internalTracks, lastId, allocs) == Ingest(cfg, q[..j], start)
      {
        var b := q[j];
        assert q[..j + 1][..j] == q[..j];
        if b.src !in internalTracks {
          internalTracks := internalTracks[b.src := Sensor(b.src, b.stamp, [])];
        }
        var a := ProcessObjects(cfg, b, internalTracks[b.src], lastId);
        internalTracks := internalTracks[b.src := a.track];
        lastId, allocs := a.lastId, allocs + a.spawned;
      }
      assert q[..|q|] == q;
    }

    /** A step of the state machine under some plan; returns how many batches it took. */
    method Process(cfg: Config) returns (size: nat, ghost plan: Plan)
      requires Valid()
      modifies this
      ensures Valid() && size == |old(processQ)|
      ensures Next(old(Model()), Op.Process(cfg, plan), Model())
    {
      hide Absorb, Ingest, Merged, Schedule, IsLatest;
      if processQ == [] {
        return 0, Plan([], 0, [], []);
      }
      ghost var before := Model();
      var sorted := SortByStamp(processQ);
      AbsorbQueue(cfg, sorted);
      size := |processQ|;
      processQ := [];
      NonEmptyAfter(cfg, before, sorted);
      var merged;
      ghost var keys, visits;
      merged, keys, visits := MergeTracks(cfg, internalTracks);
      plan := Plan(sorted, merged.stamp, keys, visits);
      if trackedSensor.objects == [] {
        trackedSensor := trackedSensor.(src := merged.src, stamp := merged.stamp);
      } else {
        var zeroed := ClearScores(trackedSensor.objects);
        trackedSensor := trackedSensor.(objects := zeroed);
      }
      assert trackedSensor == Readied(before.fused, merged);
      var a := ProcessObjects(cfg, merged, trackedSensor, lastId);
      trackedSensor, lastId, allocs := a.track, a.lastId, allocs + a.spawned;
      TrackerStamps.StepKeepsStampInv(before, Op.Process(cfg, plan), Model());
    }
  }

  lemma NonEmptyAfter(cfg: Config, s: State, sorted: seq<Sensor>)
    requires s.queue != [] && multiset(sorted) == multiset(s.queue)
    ensures Ingest(cfg, sorted, Intake(s.internal, s.lastId, s.allocs)).tracks != map[]
  {
    var i := Intake(s.internal, s.lastId, s.allocs);
    TrackerStamps.IngestStamps(cfg, sorted, i);
    var j := SameElements(s.queue, sorted, 0);
    assert sorted[j].src in Ingest(cfg, sorted, i).tracks;
  }
}
