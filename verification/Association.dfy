/**
 The association step of `processObjects`: every surviving track takes its nearest
 in-range measurement, and the measurements in range of no track are thinned greedily
 into the list of new tracks.
 */
module Association {
  import opened Vectors
  import opened TrackedObjects
  import opened Thinning

  predicate InRange(cfg: Config, t: Object, m: Object) {
    Within(m.pos, t.pos, cfg.rangeDist)
  }

  predicate OutOfRangeOfAll(cfg: Config, tracks: seq<Object>, m: Object) {
    forall i :: 0 <= i < |tracks| ==> !InRange(cfg, tracks[i], m)
  }

  predicate Near(cfg: Config, m: Object, n: Object) {
    Within(m.pos, n.pos, cfg.groupDist)
  }

  /** A measurement is in range of the track it is off by `x`, `y` and `z` if the sum of the squares
      is below the range parameter, and near another measurement if it is below the grouping one. */
  lemma RangesMean(cfg: Config, t: Object, m: Object, x: real, y: real, z: real)
    requires t.pos.Vec? && m.pos == Along(Along(Along(t.pos, X, x), Y, y), Z, z)
    ensures InRange(cfg, t, m) <==> x * x + y * y + z * z < cfg.rangeDist
    ensures Near(cfg, m, t) <==> x * x + y * y + z * z < cfg.groupDist
  {
    hide DistSq;
    DistanceAlongAxes(t.pos, x, y, z);
    DistanceZeroIff(t.pos, m.pos);
  }

  // ----- the best candidate of a track ---------------------------------------------

  /** `b` is the nearest measurement of `ms[..n]` in range of `t`, the lowest index on
      ties; `|ms|` stands for "none in range". */
  predicate IsNearest(cfg: Config, t: Object, ms: seq<Object>, n: nat, b: nat)
    requires n <= |ms|
  {
    if b == |ms| then
      forall k :: 0 <= k < n ==> !InRange(cfg, t, ms[k])
    else
      && b < n
      && InRange(cfg, t, ms[b])
      && (forall k :: 0 <= k < n && InRange(cfg, t, ms[k]) ==>
            DistSq(ms[b].pos, t.pos).d <= DistSq(ms[k].pos, t.pos).d)
      && (forall k :: 0 <= k < b && InRange(cfg, t, ms[k]) ==>
            DistSq(ms[b].pos, t.pos).d < DistSq(ms[k].pos, t.pos).d)
  }

  lemma NearestUnique(cfg: Config, t: Object, ms: seq<Object>, n: nat, a: nat, b: nat)
    requires n <= |ms| && IsNearest(cfg, t, ms, n, a) && IsNearest(cfg, t, ms, n, b)
    ensures a == b
  {
  }

  /** The score the search holds for candidate `b`: infinite until there is one. */
  function ScoreOf(t: Object, ms: seq<Object>, b: nat): Distance {
    if b < |ms| then DistSq(ms[b].pos, t.pos) else Unbounded
  }

  function Improve(cfg: Config, t: Object, ms: seq<Object>, n: nat, b: nat): (r: nat)
    requires n < |ms|
  {
    if InRange(cfg, t, ms[n]) && Less(DistSq(ms[n].pos, t.pos), ScoreOf(t, ms, b)) then n else b
  }

  lemma ImproveKeepsNearest(cfg: Config, t: Object, ms: seq<Object>, n: nat, b: nat)
    requires n < |ms| && IsNearest(cfg, t, ms, n, b)
    ensures IsNearest(cfg, t, ms, n + 1, Improve(cfg, t, ms, n, b))
  {
  }

  function Nearest(cfg: Config, t: Object, ms: seq<Object>, n: nat): (b: nat)
    requires n <= |ms|
    ensures IsNearest(cfg, t, ms, n, b)
  {
    if n == 0 then |ms|
    else
      var b := Nearest(cfg, t, ms, n - 1);
      ImproveKeepsNearest(cfg, t, ms, n - 1, b);
      Improve(cfg, t, ms, n - 1, b)
  }

  // ----- the new tracks -------------------------------------------------------------

  /** Eligible as a new track: in range of no surviving track. */
  function Eligible(cfg: Config, tracks: seq<Object>, ms: seq<Object>): nat -> bool {
    (k: nat) => k < |ms| && OutOfRangeOfAll(cfg, tracks, ms[k])
  }

  function Neighbours(cfg: Config, ms: seq<Object>): (nat, nat) -> bool {
    (k: nat, l: nat) => k < |ms| && l < |ms| && Near(cfg, ms[k], ms[l])
  }

  /** The indices of `ms[..n]` that become new tracks, in order. */
  function NewTracks(cfg: Config, tracks: seq<Object>, ms: seq<Object>, n: nat): (c: seq<nat>)
    requires n <= |ms|
    ensures forall i :: 0 <= i < |c| ==> c[i] < n
  {
    Chosen(Eligible(cfg, tracks, ms), Neighbours(cfg, ms), n)
  }
}
