/**
 `mergeTracks`: the sources are visited in order; every object of a source either joins the
 group whose representative was nearest to it when the pass of that source began, or opens
 a group of its own.  The objects of a source are visited in the iteration order of a hash
 map, so a pass is a function of an arbitrary sequence of visits.
 */
module Merge {
  import opened Options
  import opened Vectors
  import opened TrackedObjects
  import opened Means

  type Groups = seq<seq<Object>>

  predicate WellFormed(gs: Groups) {
    forall i :: 0 <= i < |gs| ==> Group(gs[i])
  }

  function Reps(gs: Groups): (r: seq<Object>)
    requires WellFormed(gs)
    ensures |r| == |gs| && forall i :: 0 <= i < |gs| ==> r[i] == Rep(gs[i])
  {
    seq(|gs|, i requires 0 <= i < |gs| => Rep(gs[i]))
  }

  /** All objects of all groups, with their multiplicity. */
  function Members(gs: Groups): multiset<Object> {
    if gs == [] then multiset{} else Members(gs[..|gs| - 1]) + multiset(gs[|gs| - 1])
  }

  // ----- nearest neighbours -----------------------------------------------------------

  function Gap(o: Object, p: Object): Distance {
    DistSq(o.pos, p.pos)
  }

  /** `b` is the first of the nearest of `out[..n]`; none if no distance is a number. */
  predicate IsNearestOut(o: Object, out: seq<Object>, n: nat, b: Option<nat>)
    requires n <= |out|
  {
    match b
    case None => forall k :: 0 <= k < n ==> Gap(o, out[k]).Unbounded?
    case Some(j) =>
      && j < n && Gap(o, out[j]).Dist?
      && (forall k :: 0 <= k < n && Gap(o, out[k]).Dist? ==> Gap(o, out[j]).d <= Gap(o, out[k]).d)
      && (forall k :: 0 <= k < j && Gap(o, out[k]).Dist? ==> Gap(o, out[j]).d < Gap(o, out[k]).d)
  }

  function NearestOut(o: Object, out: seq<Object>, n: nat): (b: Option<nat>)
    requires n <= |out|
    ensures IsNearestOut(o, out, n, b)
  {
    if n == 0 then None
    else
      var b := NearestOut(o, out, n - 1);
      var best := if b.Some? then Gap(o, out[b.value]) else Unbounded;
      if Less(Gap(o, out[n - 1]), best) then Some(n - 1) else b
  }

  lemma NearestOutIndex(o: Object, out: seq<Object>)
    ensures NearestOut(o, out, |out|).Some? ==> NearestOut(o, out, |out|).value < |out|
  {
    assert IsNearestOut(o, out, |out|, NearestOut(o, out, |out|));
  }

  method GetDisjointNeighbours(first: seq<Object>, second: seq<Object>) returns (out: map<nat, Option<nat>>)
    ensures forall i: nat :: i in out <==> i < |first|
    ensures forall i :: 0 <= i < |first| ==> i in out && out[i] == NearestOut(first[i], second, |second|)
  {
    out := map[];
    for i := 0 to |first|
      invariant forall k: nat :: k in out <==> k < i
      invariant forall k :: 0 <= k < i ==> k in out && out[k] == NearestOut(first[k], second, |second|)
    {
      var best, candidate: Option<nat> := Unbounded, None;
      for j := 0 to |second|
        invariant candidate == NearestOut(first[i], second, j)
        invariant best == if candidate.Some? then Gap(first[i], second[candidate.value]) else Unbounded
      {
        var dist := DistSq(first[i].pos, second[j].pos);
        if Less(dist, best) {
          candidate, best := Some(j), dist;
        }
      }
      out := out[i := candidate];
    }
  }

  // ----- one pass --------------------------------------------------------------------

  predicate Joins(cfg: Config, gs: Groups, o: Object, b: Option<nat>)
    requires WellFormed(gs)
  {
    b.Some? && b.value < |gs| && Within(o.pos, Rep(gs[b.value]).pos, cfg.scoreDist)
  }

  function Visit(cfg: Config, gs: Groups, o: Object, b: Option<nat>): (r: Groups)
    requires WellFormed(gs) && o.score > 0.0
    ensures WellFormed(r)
  {
    if Joins(cfg, gs, o, b) then gs[b.value := gs[b.value] + [o]] else gs + [[o]]
  }

  /** The pass of one source over the groups `start`, in the order `visits`. */
  function Pass(cfg: Config, start: Groups, visits: seq<Object>): (r: Groups)
    requires WellFormed(start) && PositiveScores(visits)
    ensures WellFormed(r)
  {
    if visits == [] then start
    else
      var n := |visits| - 1;
      Visit(cfg, Pass(cfg, start, visits[..n]), visits[n], NearestOut(visits[n], Reps(start), |start|))
  }

  lemma NearestOutUnique(o: Object, out: seq<Object>, a: Option<nat>, b: Option<nat>)
    requires IsNearestOut(o, out, |out|, a) && IsNearestOut(o, out, |out|, b)
    ensures a == b
  {
  }

  /** Where each visited object ends up: at the end of the group whose representative was the
      first nearest when the pass began, if it is within the pairing distance of what that
      representative has become by now; otherwise in a group of its own. */
  lemma VisitPlaces(cfg: Config, start: Groups, visits: seq<Object>, k: nat, b: Option<nat>)
    requires WellFormed(start) && PositiveScores(visits) && k < |visits|
    requires IsNearestOut(visits[k], Reps(start), |start|, b)
    ensures var o, before, after := visits[k], Pass(cfg, start, visits[..k]), Pass(cfg, start, visits[..k + 1]);
            if b.Some? && b.value < |before| && Within(o.pos, Rep(before[b.value]).pos, cfg.scoreDist)
            then after == before[b.value := before[b.value] + [o]]
            else after == before + [[o]]
  {
    hide IsNearestOut, NearestOut, Within, Rep;
    NearestOutUnique(visits[k], Reps(start), b, NearestOut(visits[k], Reps(start), |start|));
    assert visits[..k + 1][..k] == visits[..k];
  }

  // ----- conservation -------------------------------------------------------------------

  lemma {:induction false} MembersUpdate(gs: Groups, k: nat, o: Object)
    requires k < |gs|
    ensures Members(gs[k := gs[k] + [o]]) == Members(gs) + multiset{o}
  {
    var n := |gs| - 1;
    var hs := gs[k := gs[k] + [o]];
    if k == n {
      assert hs[..n] == gs[..n];
    } else {
      assert hs[..n] == gs[..n][k := gs[k] + [o]];
      MembersUpdate(gs[..n], k, o);
    }
  }

  lemma VisitConserves(cfg: Config, gs: Groups, o: Object, b: Option<nat>)
    requires WellFormed(gs) && o.score > 0.0
    ensures Members(Visit(cfg, gs, o, b)) == Members(gs) + multiset{o}
  {
    if Joins(cfg, gs, o, b) {
      MembersUpdate(gs, b.value, o);
    } else {
      assert (gs + [[o]])[..|gs|] == gs;
    }
  }

  lemma MultisetSnoc<T>(s: seq<T>)
    requires s != []
    ensures multiset(s) == multiset(s[..|s| - 1]) + multiset{s[|s| - 1]}
  {
    assert s == s[..|s| - 1] + [s[|s| - 1]];
  }

  lemma {:induction false} PassConserves(cfg: Config, start: Groups, visits: seq<Object>)
    requires WellFormed(start) && PositiveScores(visits)
    ensures Members(Pass(cfg, start, visits)) == Members(start) + multiset(visits)
  {
    if visits != [] {
      hide Visit, NearestOut, Members, Reps;
      var n := |visits| - 1;
      PassConserves(cfg, start, visits[..n]);
      VisitConserves(cfg, Pass(cfg, start, visits[..n]), visits[n], NearestOut(visits[n], Reps(start), |start|));
      MultisetSnoc(visits);
    }
  }

  // ----- the shape of a pass -------------------------------------------------------------

  predicate AllFrom(s: seq<Object>, src: nat) {
    forall i :: 0 <= i < |s| ==> s[i].src == src
  }

  /** A pass of source `src` extends the old groups by objects of that source and opens
      singleton groups, one per object that joined none. */
  predicate PassShape(start: Groups, gs: Groups, src: nat) {
    && |start| <= |gs|
    && (forall i :: 0 <= i < |start| ==> start[i] <= gs[i] && AllFrom(gs[i][|start[i]|..], src))
    && (forall i :: |start| <= i < |gs| ==> |gs[i]| == 1 && gs[i][0].src == src)
  }

  lemma JoinShape(start: Groups, gs: Groups, k: nat, o: Object)
    requires PassShape(start, gs, o.src) && k < |start|
    ensures PassShape(start, gs[k := gs[k] + [o]], o.src)
  {
    var hs := gs[k := gs[k] + [o]];
    forall i | 0 <= i < |start|
      ensures start[i] <= hs[i] && AllFrom(hs[i][|start[i]|..], o.src)
    {
      if i == k {
        assert hs[k][|start[k]|..] == gs[k][|start[k]|..] + [o];
      }
    }
  }

  lemma OpenShape(start: Groups, gs: Groups, o: Object)
    requires PassShape(start, gs, o.src)
    ensures PassShape(start, gs + [[o]], o.src)
  {
  }

  lemma VisitShape(cfg: Config, start: Groups, gs: Groups, o: Object)
    requires WellFormed(start) && WellFormed(gs) && o.score > 0.0
    requires PassShape(start, gs, o.src)
    ensures PassShape(start, Visit(cfg, gs, o, NearestOut(o, Reps(start), |start|)), o.src)
  {
    hide Within, Rep, NearestOut, IsNearestOut, Gap, PassShape;
    var b := NearestOut(o, Reps(start), |start|);
    NearestOutIndex(o, Reps(start));
    if Joins(cfg, gs, o, b) {
      JoinShape(start, gs, b.value, o);
    } else {
      OpenShape(start, gs, o);
    }
  }

  lemma {:induction false} PassHasShape(cfg: Config, start: Groups, visits: seq<Object>, src: nat)
    requires WellFormed(start) && PositiveScores(visits) && AllFrom(visits, src)
    ensures PassShape(start, Pass(cfg, start, visits), src)
  {
    if visits != [] {
      var n := |visits| - 1;
      PassHasShape(cfg, start, visits[..n], src);
      VisitShape(cfg, start, Pass(cfg, start, visits[..n]), visits[n]);
    }
  }

  // ----- every member was close when it joined --------------------------------------------

  /** Each member after the first was, when it joined, within the pairing distance of the
      representative of the members before it. */
  predicate Coherent(cfg: Config, g: seq<Object>)
    requires Group(g)
  {
    forall j :: 1 <= j < |g| ==> JoinedClose(cfg, g, j)
  }

  predicate JoinedClose(cfg: Config, g: seq<Object>, j: nat)
    requires Group(g) && 1 <= j < |g|
  {
    assert Group(g[..j]);
    Within(g[j].pos, Rep(g[..j]).pos, cfg.scoreDist)
  }

  predicate AllCoherent(cfg: Config, gs: Groups)
    requires WellFormed(gs)
  {
    forall i :: 0 <= i < |gs| ==> Coherent(cfg, gs[i])
  }

  lemma JoinCoherent(cfg: Config, g: seq<Object>, o: Object)
    requires Group(g) && o.score > 0.0 && Coherent(cfg, g)
    requires Within(o.pos, Rep(g).pos, cfg.scoreDist)
    ensures Group(g + [o]) && Coherent(cfg, g + [o])
  {
    forall j | 1 <= j < |g + [o]|
      ensures JoinedClose(cfg, g + [o], j)
    {
      if j < |g| {
        assert JoinedClose(cfg, g, j);
        assert (g + [o])[..j] == g[..j];
      } else {
        assert (g + [o])[..j] == g;
      }
    }
  }

  lemma {:induction false} PassCoherent(cfg: Config, start: Groups, visits: seq<Object>)
    requires WellFormed(start) && PositiveScores(visits) && AllCoherent(cfg, start)
    ensures AllCoherent(cfg, Pass(cfg, start, visits))
  {
    if visits != [] {
      var n := |visits| - 1;
      PassCoherent(cfg, start, visits[..n]);
      var gs := Pass(cfg, start, visits[..n]);
      var b := NearestOut(visits[n], Reps(start), |start|);
      if Joins(cfg, gs, visits[n], b) {
        JoinCoherent(cfg, gs[b.value], visits[n]);
      }
    }
  }

  /** So every member of a group with company has a finite position. */
  lemma CoherentFinite(cfg: Config, g: seq<Object>, i: nat)
    requires Group(g) && Coherent(cfg, g) && |g| > 1 && i < |g|
    ensures g[i].pos.Vec?
  {
    if i > 0 {
      assert JoinedClose(cfg, g, i);
    } else {
      assert JoinedClose(cfg, g, 1);
      assert g[..1] == [g[0]];
    }
  }
}
