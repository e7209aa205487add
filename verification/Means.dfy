/**
 `computeMeanObject`: the score-weighted mean of a non-empty group of objects, and the
 group's representative (the object itself while it is alone, afterwards the mean under
 the smallest identifier of the group).
 */
module Means {
  import opened Vectors
  import opened TrackedObjects

  predicate PositiveScores(g: seq<Object>) {
    forall i :: 0 <= i < |g| ==> g[i].score > 0.0
  }

  predicate Group(g: seq<Object>) {
    |g| > 0 && PositiveScores(g)
  }

  function SumScore(g: seq<Object>): (r: real)
    ensures Group(g) ==> r > 0.0
  {
    if g == [] then 0.0 else SumScore(g[..|g| - 1]) + g[|g| - 1].score
  }

  datatype Field = Pos | Vel

  function Of(o: Object, f: Field): Vec {
    match f case Pos => o.pos case Vel => o.vel
  }

  /** The score-weighted sum of the positions or of the velocities. */
  function SumOf(g: seq<Object>, f: Field): Vec {
    if g == [] then ZERO
    else Add(SumOf(g[..|g| - 1], f), Scale(g[|g| - 1].score, Of(g[|g| - 1], f)))
  }

  function Mean(g: seq<Object>): Object
    requires Group(g)
  {
    var score := SumScore(g) / |g| as real;
    Object(0, 0, Over(SumOf(g, Pos), SumScore(g)), Over(SumOf(g, Vel), SumScore(g)), ZERO, true, false, 0.0, score, score)
  }

  method ComputeMeanObject(g: seq<Object>) returns (obj: Object)
    requires Group(g)
    ensures obj == Mean(g)
    ensures Balances(g, Pos, obj.pos) && Balances(g, Vel, obj.vel)
  {
    obj := Object(0, 0, ZERO, ZERO, ZERO, false, false, 0.0, 0.0, 0.0);
    for i := 0 to |g|
      invariant obj == Object(0, 0, SumOf(g[..i], Pos), SumOf(g[..i], Vel), ZERO, false, false, 0.0, 0.0, SumScore(g[..i]))
    {
      assert g[..i + 1][..i] == g[..i];
      obj := obj.(pos := Add(obj.pos, Scale(g[i].score, g[i].pos)),
                  vel := Add(obj.vel, Scale(g[i].score, g[i].vel)),
                  score := obj.score + g[i].score);
    }
    assert g[..|g|] == g;
    obj := obj.(pos := Over(obj.pos, obj.score),
                vel := Over(obj.vel, obj.score),
                score := obj.score / |g| as real);
    obj := obj.(conf := obj.score, hasVel := true);
    MeanBalances(g, Pos);
    MeanBalances(g, Vel);
  }

  /** The smallest identifier of a group: at most every member's, and some member's. */
  function MinId(g: seq<Object>): (id: nat)
    requires |g| > 0
    ensures forall i :: 0 <= i < |g| ==> id <= g[i].id
    ensures exists i :: 0 <= i < |g| && g[i].id == id
  {
    if |g| == 1 then g[0].id
    else
      var m := MinId(g[..|g| - 1]);
      var k :| 0 <= k < |g| - 1 && g[..|g| - 1][k].id == m;
      assert g[k].id == m;
      if g[|g| - 1].id < m then g[|g| - 1].id else m
  }

  function Rep(g: seq<Object>): (r: Object)
    requires Group(g)
  {
    if |g| == 1 then g[0] else Mean(g).(id := MinId(g), src := 0)
  }

  // ----- the mean lies among the members ----------------------------------------------

  predicate InBox(v: Vec, lo: Vec, hi: Vec) {
    v.Vec? && lo.Vec? && hi.Vec? && forall c: Axis :: Coord(lo, c) <= Coord(v, c) <= Coord(hi, c)
  }

  predicate AllInBox(g: seq<Object>, f: Field, lo: Vec, hi: Vec) {
    forall i :: 0 <= i < |g| ==> InBox(Of(g[i], f), lo, hi)
  }

  /** A weighted sum `s` of total weight `w` over values between `lo` and `hi`. */
  predicate Weighed(s: real, w: real, lo: real, hi: real) {
    Times(w, lo) <= s <= Times(w, hi)
  }

  lemma SumTimes(w: real, k: real, x: real)
    ensures Times(w + k, x) == Times(w, x) + Times(k, x)
  {
  }

  lemma AddBounds(s: real, w: real, k: real, v: real, lo: real, hi: real)
    requires k >= 0.0 && lo <= v <= hi && Weighed(s, w, lo, hi)
    ensures Weighed(s + Times(k, v), w + k, lo, hi)
  {
    hide Times;
    TimesMonotone(k, lo, v);
    TimesMonotone(k, v, hi);
    SumTimes(w, k, lo);
    SumTimes(w, k, hi);
  }

  function Total(w: seq<real>): real {
    if w == [] then 0.0 else Total(w[..|w| - 1]) + w[|w| - 1]
  }

  function Dot(w: seq<real>, x: seq<real>): real
    requires |w| == |x|
  {
    if w == [] then 0.0 else Dot(w[..|w| - 1], x[..|x| - 1]) + Times(w[|w| - 1], x[|x| - 1])
  }

  lemma DotNil(lo: real, hi: real)
    ensures Weighed(Dot([], []), Total([]), lo, hi)
  {
  }

  lemma {:induction false} DotBounds(w: seq<real>, x: seq<real>, lo: real, hi: real)
    requires |w| == |x|
    requires forall i :: 0 <= i < |w| ==> w[i] >= 0.0 && lo <= x[i] <= hi
    ensures Weighed(Dot(w, x), Total(w), lo, hi)
  {
    hide Weighed, Times;
    if w == [] {
      DotNil(lo, hi);
    } else {
      var n := |w| - 1;
      DotBounds(w[..n], x[..n], lo, hi);
      AddBounds(Dot(w[..n], x[..n]), Total(w[..n]), w[n], x[n], lo, hi);
    }
  }

  function Scores(g: seq<Object>): (w: seq<real>)
    ensures |w| == |g| && forall i :: 0 <= i < |g| ==> w[i] == g[i].score
  {
    seq(|g|, i requires 0 <= i < |g| => g[i].score)
  }

  predicate AllFinite(g: seq<Object>, f: Field) {
    forall i :: 0 <= i < |g| ==> Of(g[i], f).Vec?
  }

  function Coords(g: seq<Object>, f: Field, c: Axis): (x: seq<real>)
    requires AllFinite(g, f)
    ensures |x| == |g| && forall i :: 0 <= i < |g| ==> x[i] == Coord(Of(g[i], f), c)
  {
    seq(|g|, i requires 0 <= i < |g| => Coord(Of(g[i], f), c))
  }

  lemma CoordOfSum(a: Vec, k: real, b: Vec, c: Axis)
    requires a.Vec? && b.Vec?
    ensures Add(a, Scale(k, b)).Vec?
    ensures Coord(Add(a, Scale(k, b)), c) == Coord(a, c) + Times(k, Coord(b, c))
  {
  }

  lemma {:induction false} SumsAreDots(g: seq<Object>, f: Field, c: Axis)
    requires AllFinite(g, f)
    ensures SumScore(g) == Total(Scores(g))
    ensures SumOf(g, f).Vec? && Coord(SumOf(g, f), c) == Dot(Scores(g), Coords(g, f, c))
  {
    if g != [] {
      var n := |g| - 1;
      hide Add, Scale, Times, Of;
      SumsAreDots(g[..n], f, c);
      assert Scores(g)[..n] == Scores(g[..n]);
      assert Coords(g, f, c)[..n] == Coords(g[..n], f, c);
      CoordOfSum(SumOf(g[..n], f), g[n].score, Of(g[n], f), c);
    }
  }

  lemma QuotientBounds(w: real, s: real, lo: real, hi: real)
    requires w > 0.0 && Weighed(s, w, lo, hi)
    ensures lo <= s / w <= hi
  {
    var q := s / w;
    assert s == w * q;
    if lo > q {
      StrictProduct(w, lo - q);
    }
    if q > hi {
      StrictProduct(w, q - hi);
    }
  }

  lemma CoordOfQuotient(v: Vec, k: real, c: Axis)
    requires v.Vec? && k != 0.0
    ensures Over(v, k).Vec? && Coord(Over(v, k), c) == Coord(v, c) / k
  {
  }

  lemma MeanCoord(g: seq<Object>, f: Field, lo: Vec, hi: Vec, c: Axis)
    requires Group(g) && AllInBox(g, f, lo, hi)
    ensures lo.Vec? && hi.Vec? && Of(Mean(g), f).Vec?
    ensures Coord(lo, c) <= Coord(Of(Mean(g), f), c) <= Coord(hi, c)
  {
    hide Over, SumOf, SumScore, Dot, Total, Weighed, Times;
    assert InBox(Of(g[0], f), lo, hi);
    SumsAreDots(g, f, c);
    DotBounds(Scores(g), Coords(g, f, c), Coord(lo, c), Coord(hi, c));
    QuotientBounds(SumScore(g), Coord(SumOf(g, f), c), Coord(lo, c), Coord(hi, c));
    CoordOfQuotient(SumOf(g, f), SumScore(g), c);
  }

  /** Every box that holds the positions of all members of a group holds its representative's,
      and likewise for velocities; the division by the score sum is never one by zero. */
  lemma RepInBox(g: seq<Object>, f: Field, lo: Vec, hi: Vec)
    requires Group(g) && AllInBox(g, f, lo, hi)
    ensures SumScore(g) > 0.0
    ensures InBox(Of(Rep(g), f), lo, hi)
  {
    if |g| > 1 {
      hide Mean;
      MeanCoord(g, f, lo, hi, X);
      forall c: Axis
        ensures Coord(lo, c) <= Coord(Of(Mean(g), f), c) <= Coord(hi, c)
      {
        MeanCoord(g, f, lo, hi, c);
      }
    }
  }

  // ----- the mean balances the members ---------------------------------------------------

  lemma {:induction false} SumFiniteIff(g: seq<Object>, f: Field)
    ensures SumOf(g, f).Vec? <==> AllFinite(g, f)
  {
    if g != [] {
      hide Of;
      var n := |g| - 1;
      SumFiniteIff(g[..n], f);
      assert AllFinite(g, f) <==> AllFinite(g[..n], f) && Of(g[n], f).Vec?;
    }
  }

  lemma QuotientTimes(s: real, w: real)
    requires w != 0.0
    ensures Times(w, s / w) == s
  {
  }

  /** The balance law of a group with company: the position, or velocity, of its representative is
      finite exactly if all its members' are, and on every axis the total score times its coordinate
      is the sum of the members' scores times theirs, so the weighted deviations cancel. */
  predicate Balances(g: seq<Object>, f: Field, v: Vec) {
    && (v.Vec? <==> AllFinite(g, f))
    && (v.Vec? ==> forall c: Axis :: Times(Total(Scores(g)), Coord(v, c)) == Dot(Scores(g), Coords(g, f, c)))
  }

  lemma MeanBalances(g: seq<Object>, f: Field)
    requires Group(g)
    ensures Balances(g, f, Of(Mean(g), f))
  {
    hide Over, SumOf, Times, Dot, Total, Coord;
    var v := Of(Mean(g), f);
    SumFiniteIff(g, f);
    NotFiniteOver(SumOf(g, f), SumScore(g));
    if v.Vec? {
      forall c: Axis
        ensures Times(Total(Scores(g)), Coord(v, c)) == Dot(Scores(g), Coords(g, f, c))
      {
        SumsAreDots(g, f, c);
        CoordOfQuotient(SumOf(g, f), SumScore(g), c);
        QuotientTimes(Coord(SumOf(g, f), c), SumScore(g));
      }
    }
  }

  lemma NotFiniteOver(v: Vec, k: real)
    requires k != 0.0
    ensures Over(v, k).Vec? <==> v.Vec?
  {
  }

  lemma {:induction false} TotalIsSum(g: seq<Object>)
    ensures SumScore(g) == Total(Scores(g))
  {
    if g != [] {
      TotalIsSum(g[..|g| - 1]);
      assert Scores(g)[..|g| - 1] == Scores(g[..|g| - 1]);
    }
  }

  /** What the representative `r` of a group is: the only member itself, or with company the
      score-weighted mean position and velocity, present as measured, the mean score as score and as
      confidence, no dimensions, no source, and the smallest identifier. */
  predicate Represents(g: seq<Object>, r: Object)
    requires |g| > 0
  {
    if |g| == 1 then r == g[0]
    else
      && Balances(g, Pos, r.pos) && Balances(g, Vel, r.vel)
      && Times(|g| as real, r.score) == Total(Scores(g)) && r.conf == r.score
      && r.hasVel && !r.hasDims && r.src == 0 && r.life == 0.0 && r.dims == ZERO
      && (forall i :: 0 <= i < |g| ==> r.id <= g[i].id) && (exists i :: 0 <= i < |g| && g[i].id == r.id)
  }

  lemma RepRepresents(g: seq<Object>)
    requires Group(g)
    ensures Represents(g, Rep(g))
  {
    if |g| > 1 {
      MeanBalances(g, Pos);
      MeanBalances(g, Vel);
      TotalIsSum(g);
      QuotientTimes(SumScore(g), |g| as real);
      hide Balances, Times, Total, SumScore, SumOf, Over;
    }
  }

  // ----- the representative's confidence and score --------------------------------------

  predicate UnitScores(g: seq<Object>) {
    forall i :: 0 <= i < |g| ==> 0.0 <= g[i].score <= 1.0 && UnitConf(g[i])
  }

  lemma {:induction false} SumAtMostCount(g: seq<Object>)
    requires UnitScores(g)
    ensures SumScore(g) <= |g| as real
  {
    if g != [] {
      SumAtMostCount(g[..|g| - 1]);
    }
  }

  lemma RepUnitConf(g: seq<Object>)
    requires Group(g) && UnitScores(g)
    ensures UnitConf(Rep(g))
  {
    if |g| > 1 {
      SumAtMostCount(g);
      var n := |g| as real;
      QuotientBounds(n, SumScore(g), 0.0, 1.0);
    }
  }
}
