/**
 Greedy thinning of the candidates `0 .. n-1`: a candidate is chosen when it is eligible
 and near none of those chosen before it.
 */
module Thinning {

  predicate Covered(near: (nat, nat) -> bool, chosen: seq<nat>, k: nat) {
    exists i :: 0 <= i < |chosen| && near(k, chosen[i])
  }

  function Chosen(ok: nat -> bool, near: (nat, nat) -> bool, n: nat): (c: seq<nat>)
    ensures forall i :: 0 <= i < |c| ==> c[i] < n
  {
    if n == 0 then []
    else
      var c := Chosen(ok, near, n - 1);
      if ok(n - 1) && !Covered(near, c, n - 1) then c + [n - 1] else c
  }

  /** What the greedy pass guarantees: the chosen candidates are eligible, increasing and
      pairwise not near; every other eligible candidate is near an earlier chosen one. */
  ghost predicate IsThinning(ok: nat -> bool, near: (nat, nat) -> bool, n: nat, c: seq<nat>) {
    Spaced(ok, near, n, c) && Maximal(ok, near, n, c)
  }

  ghost predicate Spaced(ok: nat -> bool, near: (nat, nat) -> bool, n: nat, c: seq<nat>) {
    && (forall i :: 0 <= i < |c| ==> c[i] < n && ok(c[i]))
    && (forall i, j :: 0 <= i < j < |c| ==> c[i] < c[j] && !near(c[j], c[i]))
  }

  ghost predicate Maximal(ok: nat -> bool, near: (nat, nat) -> bool, n: nat, c: seq<nat>) {
    forall k: nat :: k < n && ok(k) && k !in c ==> CoveredBefore(near, c, k)
  }

  ghost predicate CoveredBefore(near: (nat, nat) -> bool, c: seq<nat>, k: nat) {
    exists i :: 0 <= i < |c| && c[i] < k && near(k, c[i])
  }

  lemma {:induction false} ChosenSpaced(ok: nat -> bool, near: (nat, nat) -> bool, n: nat)
    ensures Spaced(ok, near, n, Chosen(ok, near, n))
  {
    if n > 0 {
      ChosenSpaced(ok, near, n - 1);
    }
  }

  lemma {:induction false} ChosenMaximal(ok: nat -> bool, near: (nat, nat) -> bool, n: nat, k: nat)
    requires k < n && ok(k)
    ensures k in Chosen(ok, near, n) || CoveredBefore(near, Chosen(ok, near, n), k)
  {
    var c, d := Chosen(ok, near, n - 1), Chosen(ok, near, n);
    assert forall i :: 0 <= i < |c| ==> d[i] == c[i];
    if k < n - 1 {
      ChosenMaximal(ok, near, n - 1, k);
      if k !in c {
        var i :| 0 <= i < |c| && c[i] < k && near(k, c[i]);
        assert d[i] == c[i];
      }
    } else if Covered(near, c, k) {
      var i :| 0 <= i < |c| && near(k, c[i]);
      assert d[i] < k;
    }
  }

  lemma {:induction false} ChosenIsThinning(ok: nat -> bool, near: (nat, nat) -> bool, n: nat)
    ensures IsThinning(ok, near, n, Chosen(ok, near, n))
  {
    ChosenSpaced(ok, near, n);
    forall k: nat | k < n && ok(k) && k !in Chosen(ok, near, n)
      ensures CoveredBefore(near, Chosen(ok, near, n), k)
    {
      ChosenMaximal(ok, near, n, k);
    }
  }

  /** Where all candidates are eligible and no two are near, all are chosen. */
  lemma {:induction false} ChosenAll(ok: nat -> bool, near: (nat, nat) -> bool, n: nat)
    requires forall k: nat :: k < n ==> ok(k)
    requires forall k: nat, l: nat :: k < n && l < k ==> !near(k, l)
    ensures |Chosen(ok, near, n)| == n && forall k :: 0 <= k < n ==> Chosen(ok, near, n)[k] == k
  {
    if n > 0 {
      ChosenAll(ok, near, n - 1);
    }
  }

  lemma NotNearEarlier(ok: nat -> bool, near: (nat, nat) -> bool, n: nat, c: seq<nat>, k: nat, l: nat)
    requires Spaced(ok, near, n, c) && k in c && l in c && l < k
    ensures !near(k, l)
  {
    var j :| 0 <= j < |c| && c[j] == k;
    var i :| 0 <= i < |c| && c[i] == l;
    if j < i {
      assert c[j] < c[i];
    }
  }

  /** The thinning law has exactly one solution, so it says all there is to say. */
  lemma {:induction false} ThinningUnique(ok: nat -> bool, near: (nat, nat) -> bool, n: nat,
                                          c: seq<nat>, d: seq<nat>, k: nat)
    requires IsThinning(ok, near, n, c) && IsThinning(ok, near, n, d) && k < n
    ensures k in c <==> k in d
    decreases k
  {
    if k in c {
      ThinningIncluded(ok, near, n, c, d, k);
    }
    if k in d {
      ThinningIncluded(ok, near, n, d, c, k);
    }
  }

  lemma {:induction false} ThinningIncluded(ok: nat -> bool, near: (nat, nat) -> bool, n: nat,
                                            c: seq<nat>, d: seq<nat>, k: nat)
    requires IsThinning(ok, near, n, c) && IsThinning(ok, near, n, d)
    requires k < n && k in c
    ensures k in d
    decreases k, 0
  {
    if k !in d {
      var j :| 0 <= j < |c| && c[j] == k;
      assert CoveredBefore(near, d, k);
      var i :| 0 <= i < |d| && d[i] < k && near(k, d[i]);
      ThinningUnique(ok, near, n, c, d, d[i]);
      NotNearEarlier(ok, near, n, c, k, d[i]);
    }
  }
}
