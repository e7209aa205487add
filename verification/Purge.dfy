/**
 `purgeExpiredTracks`: the loop erases an expired track and still advances, so it skips
 the track that slid into the erased slot.  The exact outcome is stated against the runs
 of consecutive expired tracks.
 */
module Purge {
  import opened TrackedObjects
  import opened Powers

  predicate Expired(cfg: Config, o: Object) {
    o.life <= cfg.threshold
  }

  predicate StrictlyIncreasing(s: seq<nat>) {
    forall i, j :: 0 <= i < j < |s| ==> s[i] < s[j]
  }

  predicate Indexes(idx: seq<nat>, lo: nat, hi: nat) {
    forall k :: 0 <= k < |idx| ==> lo <= idx[k] < hi
  }

  /** The objects of `s` at the given indices, in that order. */
  function At(s: seq<Object>, idx: seq<nat>): (r: seq<Object>)
    requires Indexes(idx, 0, |s|)
    ensures |r| == |idx| && forall i :: 0 <= i < |idx| ==> r[i] == s[idx[i]]
  {
    seq(|idx|, i requires 0 <= i < |idx| => s[idx[i]])
  }

  /** The indices that survive when the loop stands at position `i` of the original list. */
  function KeptFrom(cfg: Config, s: seq<Object>, i: nat): (idx: seq<nat>)
    requires i <= |s|
    ensures Indexes(idx, i, |s|)
    ensures StrictlyIncreasing(idx)
    decreases |s| - i
  {
    if i == |s| then []
    else if !Expired(cfg, s[i]) then
      var rest := KeptFrom(cfg, s, i + 1);
      assert forall k :: 0 <= k < |rest| ==> i < rest[k];
      [i] + rest
    else if i + 1 == |s| then []
    else
      var rest := KeptFrom(cfg, s, i + 2);
      assert forall k :: 0 <= k < |rest| ==> i + 1 < rest[k];
      [i + 1] + rest
  }

  lemma KeptFromStep(cfg: Config, s: seq<Object>, i: nat)
    requires i <= |s|
    ensures KeptFrom(cfg, s, i) ==
            if i == |s| then []
            else if !Expired(cfg, s[i]) then [i] + KeptFrom(cfg, s, i + 1)
            else if i + 1 == |s| then []
            else [i + 1] + KeptFrom(cfg, s, i + 2)
  {
  }

  function Kept(cfg: Config, s: seq<Object>): (idx: seq<nat>)
    ensures Indexes(idx, 0, |s|)
    ensures StrictlyIncreasing(idx)
  {
    KeptFrom(cfg, s, 0)
  }

  function Purged(cfg: Config, s: seq<Object>): (r: seq<Object>) {
    At(s, Kept(cfg, s))
  }

  /** What the loop still contributes from position `j` of the original list on. */
  function PurgedFrom(cfg: Config, s: seq<Object>, j: nat): (r: seq<Object>)
    requires j <= |s|
  {
    At(s, KeptFrom(cfg, s, j))
  }

  lemma PurgedFromStep(cfg: Config, s: seq<Object>, j: nat)
    requires j <= |s|
    ensures PurgedFrom(cfg, s, j) ==
            if j == |s| then []
            else if !Expired(cfg, s[j]) then [s[j]] + PurgedFrom(cfg, s, j + 1)
            else if j + 1 == |s| then []
            else [s[j + 1]] + PurgedFrom(cfg, s, j + 2)
  {
  }

  lemma EraseHead<T>(front: seq<T>, s: seq<T>, j: nat)
    requires j < |s|
    ensures (front + s[j..])[|front|] == s[j]
    ensures (front + s[j..])[..|front|] + (front + s[j..])[|front| + 1..] == front + s[j + 1..]
  {
    assert s[j..] == [s[j]] + s[j + 1..];
  }

  lemma ShiftHead<T>(front: seq<T>, s: seq<T>, j: nat, rest: seq<T>)
    requires j < |s|
    ensures front + s[j..] == (front + [s[j]]) + s[j + 1..]
    ensures front + ([s[j]] + rest) == (front + [s[j]]) + rest
  {
    assert s[j..] == [s[j]] + s[j + 1..];
  }

  /** The loop of the source: erase in place at `i`, then advance `i` all the same. */
  method PurgeExpiredTracks(cfg: Config, s: seq<Object>) returns (objs: seq<Object>)
    ensures objs == Purged(cfg, s)
  {
    hide PurgedFrom, KeptFrom;
    objs := s;
    PurgedFromStart(cfg, s);
    PurgedFromStep(cfg, s, |s|);
    var i := 0;
    ghost var front: seq<Object>, j := [], 0;
    while i < |objs|
      invariant j <= |s| && objs == front + s[j..]
      invariant front + PurgedFrom(cfg, s, j) == Purged(cfg, s)
      invariant i == |front| || (i == |front| + 1 && j == |s|)
      decreases |objs| - i
    {
      EraseHead(front, s, j);
      PurgedFromStep(cfg, s, j);
      if objs[i].life <= cfg.threshold {
        objs := objs[..i] + objs[i + 1..];
        j := j + 1;
      }
      if j < |s| {
        ShiftHead(front, s, j, PurgedFrom(cfg, s, j + 1));
        front, j := front + [s[j]], j + 1;
      }
      i := i + 1;
    }
  }

  lemma PurgedFromStart(cfg: Config, s: seq<Object>)
    ensures [] + PurgedFrom(cfg, s, 0) == Purged(cfg, s)
  {
  }

  // ----- which tracks survive -------------------------------------------------------

  /** How many consecutive expired tracks stand directly before position `k`. */
  function RunOffset(cfg: Config, s: seq<Object>, k: nat): nat
    requires k <= |s|
  {
    if k > 0 && Expired(cfg, s[k - 1]) then 1 + RunOffset(cfg, s, k - 1) else 0
  }

  /** The first, third, fifth ... track of every maximal run of expired tracks. */
  predicate Removed(cfg: Config, s: seq<Object>, k: nat)
    requires k < |s|
  {
    Expired(cfg, s[k]) && RunOffset(cfg, s, k) % 2 == 0
  }

  /** The loop stands only at positions with an even run behind them: a kept track is either
      live, and starts a new run, or the second of a pair of expired ones. */
  lemma LoopPositions(cfg: Config, s: seq<Object>, i: nat)
    requires i < |s| && RunOffset(cfg, s, i) % 2 == 0
    ensures !Expired(cfg, s[i]) ==> RunOffset(cfg, s, i + 1) == 0
    ensures Expired(cfg, s[i]) ==> RunOffset(cfg, s, i + 1) % 2 == 1
    ensures Expired(cfg, s[i]) && i + 1 < |s| ==> RunOffset(cfg, s, i + 2) % 2 == 0
  {
  }

  lemma {:induction false} KeptFromExact(cfg: Config, s: seq<Object>, i: nat, k: nat)
    requires i <= k < |s|
    requires RunOffset(cfg, s, i) % 2 == 0
    ensures k in KeptFrom(cfg, s, i) <==> !Removed(cfg, s, k)
    decreases |s| - i
  {
    LoopPositions(cfg, s, i);
    hide RunOffset;
    if !Expired(cfg, s[i]) {
      if i < k { KeptFromExact(cfg, s, i + 1, k); }
    } else if i + 2 <= k {
      KeptFromExact(cfg, s, i + 2, k);
    }
  }

  /** A purge keeps the order, keeps every live track, and removes exactly the tracks at
      odd positions (counting from one) of each maximal run of expired ones. */
  lemma PurgeExact(cfg: Config, s: seq<Object>, k: nat)
    requires k < |s|
    ensures k in Kept(cfg, s) <==> !Removed(cfg, s, k)
    ensures !Expired(cfg, s[k]) ==> k in Kept(cfg, s)
  {
    KeptFromExact(cfg, s, 0, k);
  }

  predicate NoneExpired(cfg: Config, s: seq<Object>) {
    forall i :: 0 <= i < |s| ==> !Expired(cfg, s[i])
  }

  predicate ExpiredPair(cfg: Config, s: seq<Object>, i: nat)
    requires i + 1 < |s|
  {
    Expired(cfg, s[i]) && Expired(cfg, s[i + 1])
  }

  predicate NoExpiredPair(cfg: Config, s: seq<Object>) {
    forall i: nat :: i + 1 < |s| ==> !ExpiredPair(cfg, s, i)
  }

  /** One pass leaves no expired track if and only if no two adjacent tracks are expired. */
  lemma PurgeClearsIff(cfg: Config, s: seq<Object>)
    ensures NoneExpired(cfg, Purged(cfg, s)) <==> NoExpiredPair(cfg, s)
  {
    hide KeptFrom, Kept;
    var kept := Kept(cfg, s);
    forall i: nat | i + 1 < |s| && ExpiredPair(cfg, s, i)
      ensures !NoneExpired(cfg, Purged(cfg, s))
    {
      PurgeExact(cfg, s, i);
      PurgeExact(cfg, s, i + 1);
      var k := if i in kept then i else i + 1;
      var j :| 0 <= j < |kept| && kept[j] == k;
      assert Expired(cfg, Purged(cfg, s)[j]);
    }
    forall j | 0 <= j < |kept| && Expired(cfg, Purged(cfg, s)[j])
      ensures !NoExpiredPair(cfg, s)
    {
      PurgeExact(cfg, s, kept[j]);
      assert ExpiredPair(cfg, s, kept[j] - 1);
    }
  }

  // ----- repeated passes ------------------------------------------------------------

  function ExpiredFrom(cfg: Config, s: seq<Object>, i: nat): nat
    requires i <= |s|
    decreases |s| - i
  {
    if i == |s| then 0
    else (if Expired(cfg, s[i]) then 1 else 0) + ExpiredFrom(cfg, s, i + 1)
  }

  function ExpiredCount(cfg: Config, s: seq<Object>): nat {
    ExpiredFrom(cfg, s, 0)
  }

  lemma {:induction false} ExpiredFromSuffix(cfg: Config, s: seq<Object>, t: seq<Object>, i: nat, j: nat)
    requires i <= |s| && j <= |t| && s[i..] == t[j..]
    ensures ExpiredFrom(cfg, s, i) == ExpiredFrom(cfg, t, j)
    decreases |s| - i
  {
    assert |s| - i == |s[i..]| == |t[j..]| == |t| - j;
    if i < |s| {
      assert s[i] == s[i..][0] == t[j..][0] == t[j];
      assert s[i + 1..] == s[i..][1..] == t[j..][1..] == t[j + 1..];
      ExpiredFromSuffix(cfg, s, t, i + 1, j + 1);
    }
  }

  lemma {:induction false} HalvesFrom(cfg: Config, s: seq<Object>, i: nat)
    requires i <= |s|
    ensures 2 * ExpiredCount(cfg, At(s, KeptFrom(cfg, s, i))) <= ExpiredFrom(cfg, s, i)
    decreases |s| - i
  {
    var idx := KeptFrom(cfg, s, i);
    if idx != [] {
      var next := if Expired(cfg, s[i]) then i + 2 else i + 1;
      HalvesFrom(cfg, s, next);
      assert At(s, idx)[1..] == At(s, KeptFrom(cfg, s, next));
      ExpiredFromSuffix(cfg, At(s, idx), At(s, KeptFrom(cfg, s, next)), 1, 0);
    }
  }

  function PurgedTimes(cfg: Config, s: seq<Object>, n: nat): (r: seq<Object>)
    decreases n
  {
    if n == 0 then s else PurgedTimes(cfg, Purged(cfg, s), n - 1)
  }

  /** Each pass at least halves the number of expired tracks. */
  lemma PurgeHalves(cfg: Config, s: seq<Object>)
    ensures 2 * ExpiredCount(cfg, Purged(cfg, s)) <= ExpiredCount(cfg, s)
  {
    HalvesFrom(cfg, s, 0);
  }

  /** So `n` passes clear any list that holds fewer than 2^n expired tracks. */
  lemma {:induction false} RepeatedPurge(cfg: Config, s: seq<Object>, n: nat)
    requires ExpiredCount(cfg, s) < PowerOfTwo(n)
    ensures ExpiredCount(cfg, PurgedTimes(cfg, s, n)) == 0
    decreases n
  {
    if n > 0 {
      PurgeHalves(cfg, s);
      RepeatedPurge(cfg, Purged(cfg, s), n - 1);
    }
  }
}
