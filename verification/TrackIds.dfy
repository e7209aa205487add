/**
 Identifiers: distinct within and across track lists, hence distinct among the
 representatives of the merged groups.
 */
module TrackIds {
  import opened TrackedObjects
  import opened Means
  import opened Merge
  import opened MergeLaws

  predicate DistinctIds(s: seq<Object>) {
    forall i, j :: 0 <= i < j < |s| ==> s[i].id != s[j].id
  }

  predicate ApartIds(a: seq<Object>, b: seq<Object>) {
    forall i, j :: 0 <= i < |a| && 0 <= j < |b| ==> a[i].id != b[j].id
  }

  predicate TracksDistinct(t: Tracks) {
    && (forall k :: k in t ==> DistinctIds(t[k].objects))
    && (forall k, l :: k in t && l in t && k != l ==> ApartIds(t[k].objects, t[l].objects))
  }

  /** No object occurs twice and no two objects share an identifier. */
  ghost predicate UniquePool(m: multiset<Object>) {
    && (forall o :: o in m ==> m[o] == 1)
    && (forall o, p :: o in m && p in m && o.id == p.id ==> o == p)
  }

  ghost predicate ApartPools(a: multiset<Object>, b: multiset<Object>) {
    forall o, p :: o in a && p in b ==> o.id != p.id
  }

  lemma UniqueSum(a: multiset<Object>, b: multiset<Object>)
    requires UniquePool(a) && UniquePool(b) && ApartPools(a, b)
    ensures UniquePool(a + b)
  {
  }

  lemma UniqueSub(a: multiset<Object>, b: multiset<Object>)
    requires UniquePool(b) && a <= b
    ensures UniquePool(a)
  {
  }

  lemma {:induction false} DistinctPool(s: seq<Object>)
    requires DistinctIds(s)
    ensures UniquePool(multiset(s))
  {
    if s != [] {
      var n := |s| - 1;
      DistinctPool(s[..n]);
      MultisetSnoc(s);
      forall o | o in multiset(s[..n])
        ensures o.id != s[n].id
      {
        var i :| 0 <= i < n && s[..n][i] == o;
      }
      UniqueSum(multiset(s[..n]), multiset{s[n]});
    }
  }

  lemma EntrantsWithin(cfg: Config, sensor: Sensor, latest: int)
    ensures multiset(Entrants(cfg, sensor, latest)) <=
            multiset(PredictAll(cfg, sensor.objects, Seconds(latest, sensor.stamp)))
  {
    var p := PredictAll(cfg, sensor.objects, Seconds(latest, sensor.stamp));
    forall o
      ensures multiset(Entrants(cfg, sensor, latest))[o] <= multiset(p)[o]
    {
      EstablishedExact(p, o);
    }
  }

  lemma EntrantsUnique(cfg: Config, sensor: Sensor, latest: int)
    requires DistinctIds(sensor.objects)
    ensures UniquePool(multiset(Entrants(cfg, sensor, latest)))
  {
    var p := PredictAll(cfg, sensor.objects, Seconds(latest, sensor.stamp));
    DistinctPool(p);
    EntrantsWithin(cfg, sensor, latest);
    UniqueSub(multiset(Entrants(cfg, sensor, latest)), multiset(p));
  }

  /** An entrant carries the identifier of one of its source's tracks. */
  lemma EntrantId(cfg: Config, sensor: Sensor, latest: int, o: Object) returns (i: nat)
    requires o in multiset(Entrants(cfg, sensor, latest))
    ensures i < |sensor.objects| && sensor.objects[i].id == o.id
  {
    var p := PredictAll(cfg, sensor.objects, Seconds(latest, sensor.stamp));
    EstablishedExact(p, o);
    assert o in p;
    i :| 0 <= i < |p| && p[i] == o;
  }

  lemma {:induction false} PoolId(cfg: Config, t: Tracks, latest: int, keys: seq<nat>, o: Object)
    returns (k: nat, i: nat)
    requires forall j :: 0 <= j < |keys| ==> keys[j] in t
    requires o in Pool(cfg, t, latest, keys)
    ensures k in keys && k in t && i < |t[k].objects| && t[k].objects[i].id == o.id
  {
    var n := |keys| - 1;
    if o in multiset(Entrants(cfg, t[keys[n]], latest)) {
      k := keys[n];
      i := EntrantId(cfg, t[k], latest, o);
    } else {
      k, i := PoolId(cfg, t, latest, keys[..n], o);
    }
  }

  lemma {:induction false} PoolUnique(cfg: Config, t: Tracks, latest: int, keys: seq<nat>)
    requires forall j :: 0 <= j < |keys| ==> keys[j] in t
    requires Ascending(keys) && TracksDistinct(t)
    ensures UniquePool(Pool(cfg, t, latest, keys))
  {
    if keys != [] {
      var n := |keys| - 1;
      PoolUnique(cfg, t, latest, keys[..n]);
      EntrantsUnique(cfg, t[keys[n]], latest);
      var a, b := Pool(cfg, t, latest, keys[..n]), multiset(Entrants(cfg, t[keys[n]], latest));
      forall o, p | o in a && p in b
        ensures o.id != p.id
      {
        var k, i := PoolId(cfg, t, latest, keys[..n], o);
        var j := EntrantId(cfg, t[keys[n]], latest, p);
        assert ApartIds(t[k].objects, t[keys[n]].objects);
      }
      UniqueSum(a, b);
    }
  }

  // ----- distinct representatives ---------------------------------------------------------

  lemma {:induction false} GroupWithin(gs: Groups, i: nat)
    requires i < |gs|
    ensures multiset(gs[i]) <= Members(gs)
  {
    var n := |gs| - 1;
    if i < n {
      GroupWithin(gs[..n], i);
      assert gs[..n][i] == gs[i];
    }
  }

  lemma {:induction false} TwoGroupsWithin(gs: Groups, i: nat, j: nat)
    requires i < j < |gs|
    ensures multiset(gs[i]) + multiset(gs[j]) <= Members(gs)
  {
    var n := |gs| - 1;
    if j < n {
      TwoGroupsWithin(gs[..n], i, j);
      assert gs[..n][i] == gs[i] && gs[..n][j] == gs[j];
    } else {
      GroupWithin(gs[..n], i);
      assert gs[..n][i] == gs[i];
    }
  }

  lemma RepMember(g: seq<Object>) returns (o: Object)
    requires Group(g)
    ensures o in multiset(g) && o.id == Rep(g).id
  {
    var i :| 0 <= i < |g| && g[i].id == MinId(g);
    o := g[i];
  }

  lemma RepsApart(gs: Groups, i: nat, j: nat)
    requires WellFormed(gs) && UniquePool(Members(gs)) && i < j < |gs|
    ensures Rep(gs[i]).id != Rep(gs[j]).id
  {
    TwoGroupsWithin(gs, i, j);
    var o := RepMember(gs[i]);
    var p := RepMember(gs[j]);
    assert (multiset(gs[i]) + multiset(gs[j]))[o] <= Members(gs)[o];
  }

  /** Distinct live tracks give distinct merged identifiers, each the minimum of its group. */
  lemma MergedIdsDistinct(cfg: Config, t: Tracks, latest: int, keys: seq<nat>, visits: seq<seq<Object>>)
    requires Schedule(cfg, t, latest, keys, visits) && AllPositive(visits) && TracksDistinct(t)
    ensures DistinctIds(Reps(Merged(cfg, visits)))
    ensures forall i :: 0 <= i < |Merged(cfg, visits)| ==>
              Reps(Merged(cfg, visits))[i].id == MinId(Merged(cfg, visits)[i])
  {
    hide Merged, Members, Pool, Entrants, UniquePool, TracksDistinct;
    var gs := Merged(cfg, visits);
    MergeConserves(cfg, t, latest, keys, visits);
    PoolUnique(cfg, t, latest, keys);
    forall i, j | 0 <= i < j < |gs|
      ensures Reps(gs)[i].id != Reps(gs)[j].id
    {
      RepsApart(gs, i, j);
    }
  }
}
