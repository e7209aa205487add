/**
 `mergeTracks` over all sources: conservation of the objects, and one member per group from
 the source that opened it.
 */
module MergeLaws {
  import opened TrackedObjects
  import opened Means
  import opened Merge

  type Tracks = map<nat, Sensor>

  predicate IsLatest(t: Tracks, stamp: int) {
    && (exists k :: k in t && t[k].stamp == stamp)
    && (forall k :: k in t ==> t[k].stamp <= stamp)
  }

  // ----- the objects that take part -----------------------------------------------------

  /** The objects with a positive score, in order: freshly seen tracks are left out. */
  function Established(s: seq<Object>): (r: seq<Object>)
    ensures PositiveScores(r)
  {
    if s == [] then []
    else
      var rest := Established(s[..|s| - 1]);
      if s[|s| - 1].score > 0.0 then rest + [s[|s| - 1]] else rest
  }

  lemma {:induction false} EstablishedExact(s: seq<Object>, o: Object)
    ensures multiset(Established(s))[o] == if o.score > 0.0 then multiset(s)[o] else 0
  {
    if s != [] {
      EstablishedExact(s[..|s| - 1], o);
      MultisetSnoc(s);
    }
  }

  function Entrants(cfg: Config, sensor: Sensor, latest: int): (r: seq<Object>)
    ensures PositiveScores(r)
  {
    Established(PredictAll(cfg, sensor.objects, Seconds(latest, sensor.stamp)))
  }

  /** The objects that take part are the tracks of positive score, and no others, each moved on to the
      latest stamp. */
  lemma EntrantFromTrack(cfg: Config, sensor: Sensor, latest: int, o: Object) returns (i: nat)
    requires o in multiset(Entrants(cfg, sensor, latest))
    ensures i < |sensor.objects| && sensor.objects[i].score > 0.0
    ensures MovedOn(cfg, sensor.objects[i], latest - sensor.stamp, o)
  {
    hide MovedOn;
    var p := PredictAll(cfg, sensor.objects, Seconds(latest, sensor.stamp));
    EstablishedExact(p, o);
    assert o in p;
    i :| 0 <= i < |p| && p[i] == o;
    PredictedMovesOn(cfg, sensor.objects[i], latest, sensor.stamp);
  }

  lemma TrackToEntrant(cfg: Config, sensor: Sensor, latest: int, i: nat) returns (o: Object)
    requires i < |sensor.objects| && sensor.objects[i].score > 0.0
    ensures o in multiset(Entrants(cfg, sensor, latest))
    ensures MovedOn(cfg, sensor.objects[i], latest - sensor.stamp, o)
  {
    hide MovedOn;
    var p := PredictAll(cfg, sensor.objects, Seconds(latest, sensor.stamp));
    o := p[i];
    EstablishedExact(p, o);
    assert o in multiset(p);
    PredictedMovesOn(cfg, sensor.objects[i], latest, sensor.stamp);
  }

  /** All positive-score objects of the sources `keys`, predicted to the latest stamp. */
  function Pool(cfg: Config, t: Tracks, latest: int, keys: seq<nat>): multiset<Object>
    requires forall j :: 0 <= j < |keys| ==> keys[j] in t
  {
    if keys == [] then multiset{}
    else Pool(cfg, t, latest, keys[..|keys| - 1]) + multiset(Entrants(cfg, t[keys[|keys| - 1]], latest))
  }

  // ----- all passes ---------------------------------------------------------------------

  predicate Ascending(keys: seq<nat>) {
    forall i, j :: 0 <= i < j < |keys| ==> keys[i] < keys[j]
  }

  /** The sources in key order, and for each any order of its objects. */
  ghost predicate Schedule(cfg: Config, t: Tracks, latest: int, keys: seq<nat>, visits: seq<seq<Object>>) {
    && Ascending(keys)
    && (forall k :: k in keys <==> k in t)
    && VisitsOf(cfg, t, latest, keys, visits)
  }

  predicate VisitsOf(cfg: Config, t: Tracks, latest: int, keys: seq<nat>, visits: seq<seq<Object>>) {
    && |visits| == |keys|
    && forall j :: 0 <= j < |keys| ==>
         && keys[j] in t
         && multiset(visits[j]) == multiset(Entrants(cfg, t[keys[j]], latest))
  }

  predicate AllPositive(visits: seq<seq<Object>>) {
    forall j :: 0 <= j < |visits| ==> PositiveScores(visits[j])
  }

  function Merged(cfg: Config, visits: seq<seq<Object>>): (gs: Groups)
    requires AllPositive(visits)
    ensures WellFormed(gs)
  {
    if visits == [] then []
    else Pass(cfg, Merged(cfg, visits[..|visits| - 1]), visits[|visits| - 1])
  }

  lemma SameElements<T>(a: seq<T>, b: seq<T>, i: nat) returns (j: nat)
    requires multiset(a) == multiset(b) && i < |a|
    ensures j < |b| && b[j] == a[i]
  {
    assert a[i] in multiset(a);
    assert a[i] in b;
    j :| 0 <= j < |b| && b[j] == a[i];
  }

  // ----- conservation ---------------------------------------------------------------------

  /** For every schedule the groups hold exactly the positive-score objects of all sources,
      none lost and none duplicated. */
  lemma {:induction false} MergeConserves(cfg: Config, t: Tracks, latest: int, keys: seq<nat>, visits: seq<seq<Object>>)
    requires VisitsOf(cfg, t, latest, keys, visits) && AllPositive(visits)
    ensures Members(Merged(cfg, visits)) == Pool(cfg, t, latest, keys)
  {
    if visits != [] {
      var n := |visits| - 1;
      MergeConserves(cfg, t, latest, keys[..n], visits[..n]);
      PassConserves(cfg, Merged(cfg, visits[..n]), visits[n]);
    }
  }

  // ----- one member from the source that opened the group -----------------------------------

  predicate OwnSources(t: Tracks) {
    forall k :: k in t ==> AllFrom(t[k].objects, k)
  }

  /** The opening member is the only one from its source, and that source is in `keys`. */
  predicate OneFromOpener(g: seq<Object>, keys: seq<nat>) {
    && |g| > 0 && g[0].src in keys
    && forall i :: 1 <= i < |g| ==> g[i].src != g[0].src
  }

  predicate AllOneFromOpener(gs: Groups, keys: seq<nat>) {
    forall i :: 0 <= i < |gs| ==> OneFromOpener(gs[i], keys)
  }

  lemma {:induction false} EstablishedFrom(s: seq<Object>, src: nat)
    requires AllFrom(s, src)
    ensures AllFrom(Established(s), src)
  {
    if s != [] {
      EstablishedFrom(s[..|s| - 1], src);
    }
  }

  lemma VisitsFromSource(cfg: Config, t: Tracks, latest: int, key: nat, visits: seq<Object>)
    requires key in t && AllFrom(t[key].objects, key)
    requires multiset(visits) == multiset(Entrants(cfg, t[key], latest))
    ensures AllFrom(visits, key)
  {
    EstablishedFrom(PredictAll(cfg, t[key].objects, Seconds(latest, t[key].stamp)), key);
    forall i | 0 <= i < |visits|
      ensures visits[i].src == key
    {
      var k := SameElements(visits, Entrants(cfg, t[key], latest), i);
    }
  }

  lemma ShapeKeepsOpener(start: Groups, gs: Groups, keys: seq<nat>, key: nat)
    requires AllOneFromOpener(start, keys) && PassShape(start, gs, key) && key !in keys
    ensures AllOneFromOpener(gs, keys + [key])
  {
    forall i | 0 <= i < |gs|
      ensures OneFromOpener(gs[i], keys + [key])
    {
      if i < |start| {
        assert OneFromOpener(start[i], keys);
        var n := |start[i]|;
        assert forall j :: n <= j < |gs[i]| ==> gs[i][j] == gs[i][n..][j - n];
      } else {
        assert (keys + [key])[|keys|] == key;
      }
    }
  }

  lemma MergedNil(cfg: Config, keys: seq<nat>)
    ensures AllOneFromOpener(Merged(cfg, []), keys)
  {
  }

  lemma MergedSnoc(cfg: Config, visits: seq<seq<Object>>)
    requires AllPositive(visits) && visits != []
    ensures Merged(cfg, visits) == Pass(cfg, Merged(cfg, visits[..|visits| - 1]), visits[|visits| - 1])
  {
  }

  lemma AscendingLast(keys: seq<nat>)
    requires Ascending(keys) && keys != []
    ensures Ascending(keys[..|keys| - 1]) && keys[|keys| - 1] !in keys[..|keys| - 1]
  {
  }

  lemma {:induction false} MergeOpeners(cfg: Config, t: Tracks, latest: int, keys: seq<nat>, visits: seq<seq<Object>>)
    requires VisitsOf(cfg, t, latest, keys, visits) && AllPositive(visits)
    requires Ascending(keys) && OwnSources(t)
    ensures AllOneFromOpener(Merged(cfg, visits), keys)
  {
    hide Entrants, Pass, Merged, AllOneFromOpener, PassShape, Ascending;
    if visits == [] {
      MergedNil(cfg, keys);
    } else {
      var n := |visits| - 1;
      MergedSnoc(cfg, visits);
      AscendingLast(keys);
      MergeOpeners(cfg, t, latest, keys[..n], visits[..n]);
      VisitsFromSource(cfg, t, latest, keys[n], visits[n]);
      var start := Merged(cfg, visits[..n]);
      PassHasShape(cfg, start, visits[n], keys[n]);
      ShapeKeepsOpener(start, Pass(cfg, start, visits[n]), keys[..n], keys[n]);
      assert keys[..n] + [keys[n]] == keys;
    }
  }

  lemma {:induction false} MergeCoherent(cfg: Config, visits: seq<seq<Object>>)
    requires AllPositive(visits)
    ensures AllCoherent(cfg, Merged(cfg, visits))
  {
    if visits != [] {
      MergeCoherent(cfg, visits[..|visits| - 1]);
      PassCoherent(cfg, Merged(cfg, visits[..|visits| - 1]), visits[|visits| - 1]);
    }
  }
}
