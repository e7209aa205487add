/**
 The language of the burst synchroniser: a burst is signalled exactly at the end of a
 complete sequence of frames since the last 0x4E0, from whatever state.
 */
module DelphiLanguage {
  import opened DelphiBurst

  // ----- the complete sequence -----------------------------------------------------------------

  /** Statuses 1 to 4, tracks 0 to 63, `n` power frames, statuses 5 to 9. */
  function PatternAt(n: nat, k: nat): nat {
    if k < 4 then 0x4E0 + k
    else if k < 68 then 0x500 + (k - 4)
    else if k < 68 + n then 0x540
    else 0x5E4 + (k - 68 - n)
  }

  function Pattern(n: nat): (r: seq<nat>)
    ensures |r| == 73 + n && forall k :: 0 <= k < |r| ==> r[k] == PatternAt(n, k)
  {
    seq(73 + n, k requires 0 <= k < 73 + n => PatternAt(n, k))
  }

  ghost predicate Complete(ids: seq<nat>) {
    exists n: nat :: n > 0 && ids == Pattern(n)
  }

  // ----- chains ------------------------------------------------------------------------------------

  predicate Follows(a: nat, b: nat) {
    Handled(b) && b != 0x4E0 &&
    if b == 0x500 then a == 0x4E3
    else if b == 0x540 then a == 0x53F || a == 0x540
    else if b == 0x5E4 then a == 0x540
    else a == b - 1
  }

  /** A sequence of handled identifiers, each expected after the one before it. */
  predicate Chain(ids: seq<nat>) {
    |ids| > 0 && ids[0] == 0x4E0 && forall k :: 1 <= k < |ids| ==> Follows(ids[k - 1], ids[k])
  }

  lemma ChainSnoc(ids: seq<nat>, id: nat)
    requires |ids| > 0
    ensures Chain(ids + [id]) <==> Chain(ids) && Follows(ids[|ids| - 1], id)
  {
    var r := ids + [id];
    if Chain(r) {
      forall k | 1 <= k < |ids|
        ensures Follows(ids[k - 1], ids[k])
      {
        assert Follows(r[k - 1], r[k]);
      }
      assert Follows(r[|ids| - 1], r[|ids|]);
    }
  }

  /** Up to the last track the next identifier is forced. */
  lemma {:induction false} ForcedPrefix(ids: seq<nat>, k: nat)
    requires Chain(ids) && k < |ids| && k < 68
    ensures ids[k] == PatternAt(0, k)
  {
    if k > 0 {
      ForcedPrefix(ids, k - 1);
      assert Follows(ids[k - 1], ids[k]);
    }
  }

  /** From index 68 on there are power frames until status 5. */
  lemma {:induction false} PowerFrames(ids: seq<nat>, k: nat) returns (m: nat)
    requires Chain(ids) && 68 <= k < |ids| && ids[|ids| - 1] == 0x5E8
    requires forall j :: 68 <= j < k ==> ids[j] == 0x540
    requires ids[k] == 0x540
    ensures k < m < |ids| && ids[m] == 0x5E4
    ensures forall j :: 68 <= j < m ==> ids[j] == 0x540
    decreases |ids| - k
  {
    assert Follows(ids[k], ids[k + 1]);
    if ids[k + 1] == 0x540 {
      m := PowerFrames(ids, k + 1);
    } else {
      m := k + 1;
    }
  }

  lemma NothingFollows(id: nat)
    ensures !Follows(0x5E8, id)
  {
  }

  lemma ForcedSuffix(ids: seq<nat>, m: nat)
    requires Chain(ids) && m < |ids| && ids[m] == 0x5E4 && ids[|ids| - 1] == 0x5E8
    ensures |ids| == m + 5 && forall j :: m <= j < |ids| ==> ids[j] == 0x5E4 + (j - m)
  {
    assert Follows(ids[m], ids[m + 1]);
    assert Follows(ids[m + 1], ids[m + 2]);
    assert Follows(ids[m + 2], ids[m + 3]);
    assert Follows(ids[m + 3], ids[m + 4]);
    assert ids[m + 4] == 0x5E8;
    if |ids| > m + 5 {
      NothingFollows(ids[m + 5]);
    }
  }

  lemma ChainComplete(ids: seq<nat>)
    requires Chain(ids) && ids[|ids| - 1] == 0x5E8
    ensures Complete(ids)
  {
    var last := |ids| - 1;
    if last < 68 {
      ForcedPrefix(ids, last);
    }
    ForcedPrefix(ids, 67);
    assert Follows(ids[67], ids[68]);
    var m := PowerFrames(ids, 68);
    ForcedSuffix(ids, m);
    forall k | 0 <= k < |ids|
      ensures ids[k] == PatternAt(m - 68, k)
    {
      if k < 68 {
        ForcedPrefix(ids, k);
      }
    }
    assert ids == Pattern(m - 68);
  }

  lemma PatternIsChain(n: nat)
    requires n > 0
    ensures Chain(Pattern(n)) && Pattern(n)[|Pattern(n)| - 1] == 0x5E8
  {
  }

  lemma CompleteIsChain(ids: seq<nat>)
    requires Complete(ids)
    ensures Chain(ids) && ids[|ids| - 1] == 0x5E8
  {
    var n: nat :| n > 0 && ids == Pattern(n);
    PatternIsChain(n);
  }

  // ----- the flags follow the chain -----------------------------------------------------------------

  lemma RelevantSnoc<P>(fs: seq<Frame<P>>, p: nat)
    requires p < |fs|
    ensures var n := |fs| - 1;
            RelevantOf(fs[p..]) == if Relevant(fs[n]) then RelevantOf(fs[p..n]) + [fs[n]] else RelevantOf(fs[p..n])
  {
    assert fs[p..][..|fs| - 1 - p] == fs[p..|fs| - 1];
  }

  /** After a stream with a last 0x4E0 at `p`, whatever the state before: the flags say
      whether the relevant frames since then chain, and the last one is remembered. */
  ghost predicate Tracking<P>(s: Sync<P>, ids: seq<nat>) {
    && s.inSync == Chain(ids) && s.invalid == !s.inSync
    && |ids| > 0 && (s.inSync ==> s.lastId == ids[|ids| - 1])
  }

  lemma TrackingStep<P>(s: Sync<P>, f: Frame<P>, ids: seq<nat>)
    requires Sized(s.burst) && Tracking(s, ids) && !IsStart(f)
    requires forall k :: 0 <= k < |ids| ==> Handled(ids[k])
    ensures Tracking(Step(s, f), if Relevant(f) then ids + [f.id] else ids)
  {
    if Relevant(f) {
      ChainSnoc(ids, f.id);
    }
  }

  lemma IdsSnoc<P>(fs: seq<Frame<P>>, f: Frame<P>)
    ensures Ids(fs + [f]) == Ids(fs) + [f.id]
  {
  }

  lemma {:induction false} TrackingSince<P>(s: Sync<P>, fs: seq<Frame<P>>, p: nat)
    requires Sized(s.burst) && LastStart(fs, p)
    ensures Tracking(After(s, fs), Ids(RelevantOf(fs[p..])))
    decreases |fs|
  {
    var n := |fs| - 1;
    RelevantSnoc(fs, p);
    if p == n {
      assert fs[p..n] == [];
      assert RelevantOf(fs[p..]) == [fs[p]];
    } else {
      hide Tracking, Step;
      TrackingSince(s, fs[..n], p);
      assert fs[..n][p..] == fs[p..n];
      var r := RelevantOf(fs[p..n]);
      TrackingStep(After(s, fs[..n]), fs[n], Ids(r));
      IdsSnoc(r, fs[n]);
    }
  }

  /** Before any 0x4E0 the client has seen nothing relevant or is waiting for one. */
  lemma {:induction false} NoStart<P>(blank: P, fs: seq<Frame<P>>)
    requires forall k :: 0 <= k < |fs| ==> !IsStart(fs[k])
    ensures var s := After(Initial(blank), fs); s.invalid || (s.lastId == 0 && s.inSync)
  {
    if fs != [] {
      NoStart(blank, fs[..|fs| - 1]);
    }
  }

  // ----- the language ------------------------------------------------------------------------------------

  /** From any state: once there has been a 0x4E0, a frame signals a burst exactly when it is
      the 0x5E8 that completes the sequence since the last 0x4E0. */
  lemma SignalledIffComplete<P>(s: Sync<P>, fs: seq<Frame<P>>, i: nat, p: nat)
    requires Sized(s.burst) && i < |fs| && LastStart(fs[..i + 1], p)
    ensures SignalledAt(s, fs, i).Some? <==>
            Relevant(fs[i]) && fs[i].id == 0x5E8 && Complete(Ids(RelevantOf(fs[p..i + 1])))
  {
    hide Complete, RelevantOf, Pattern;
    var since := Ids(RelevantOf(fs[p..i + 1]));
    assert fs[..i + 1][p..] == fs[p..i + 1];
    TrackingSince(s, fs[..i + 1], p);
    assert fs[..i + 1][..i] == fs[..i];
    RelevantSnoc(fs[..i + 1], p);
    if Relevant(fs[i]) && fs[i].id == 0x5E8 {
      IdsSnoc(RelevantOf(fs[p..i]), fs[i]);
      assert fs[..i + 1][p..i] == fs[p..i];
      if Chain(since) {
        ChainComplete(since);
        ChainSnoc(Ids(RelevantOf(fs[p..i])), fs[i].id);
        WasValid(s, fs, i, p);
      }
      if Complete(since) {
        CompleteIsChain(since);
      }
    }
  }

  lemma WasValid<P>(s: Sync<P>, fs: seq<Frame<P>>, i: nat, p: nat)
    requires Sized(s.burst) && i < |fs| && LastStart(fs[..i + 1], p) && p < i
    requires Chain(Ids(RelevantOf(fs[p..i])))
    ensures !After(s, fs[..i]).invalid
  {
    assert fs[..i + 1][..i] == fs[..i];
    assert LastStart(fs[..i], p) by {
      assert forall k :: 0 <= k < i ==> fs[..i][k] == fs[..i + 1][k];
    }
    TrackingSince(s, fs[..i], p);
    assert fs[..i][p..] == fs[p..i];
  }

  /** The last 0x4E0 up to frame `i` is at `p`, and the relevant frames from there to `i`
      are a complete sequence. */
  ghost predicate CompletesFrom<P>(fs: seq<Frame<P>>, p: nat, i: nat)
    requires i < |fs|
  {
    LastStart(fs[..i + 1], p) && Complete(Ids(RelevantOf(fs[p..i + 1])))
  }

  /** For every stream from start-up, a burst is signalled at a frame if and only if there is
      a last 0x4E0 and the relevant frames from it to this frame are a complete sequence. */
  lemma BurstLanguage<P>(blank: P, fs: seq<Frame<P>>, i: nat)
    requires i < |fs|
    ensures SignalledAt(Initial(blank), fs, i).Some? <==>
            Relevant(fs[i]) && exists p: nat :: CompletesFrom(fs, p, i)
  {
    var s := Initial(blank);
    if k :| 0 <= k < i + 1 && IsStart(fs[k]) {
      assert IsStart(fs[..i + 1][k]);
      var p := FindLastStart(fs[..i + 1]);
      SignalledIffComplete(s, fs, i, p);
      forall q: nat | CompletesFrom(fs, q, i)
        ensures q == p
      {
        OneLastStart(fs[..i + 1], p, q);
      }
      if Relevant(fs[i]) && Complete(Ids(RelevantOf(fs[p..i + 1]))) {
        CompleteEnds(fs, i, p);
        assert CompletesFrom(fs, p, i);
      }
    } else {
      NoStart(blank, fs[..i]);
      forall q: nat
        ensures !CompletesFrom(fs, q, i)
      {
        assert q < i + 1 ==> !IsStart(fs[..i + 1][q]);
      }
    }
  }

  lemma OneLastStart<P>(fs: seq<Frame<P>>, p: nat, q: nat)
    requires LastStart(fs, p) && LastStart(fs, q)
    ensures p == q
  {
  }

  lemma RelevantLast<P>(fs: seq<Frame<P>>, p: nat, i: nat)
    requires p <= i < |fs| && Relevant(fs[i])
    ensures var r := RelevantOf(fs[p..i + 1]); |r| > 0 && r[|r| - 1] == fs[i]
  {
    RelevantSnoc(fs[..i + 1], p);
    assert fs[..i + 1][p..] == fs[p..i + 1];
  }

  lemma CompleteEnds<P>(fs: seq<Frame<P>>, i: nat, p: nat)
    requires p <= i < |fs| && Relevant(fs[i]) && Complete(Ids(RelevantOf(fs[p..i + 1])))
    ensures fs[i].id == 0x5E8
  {
    var rel := RelevantOf(fs[p..i + 1]);
    RelevantLast(fs, p, i);
    var n: nat :| n > 0 && Ids(rel) == Pattern(n);
    assert Ids(rel)[|rel| - 1] == PatternAt(n, 72 + n);
  }

  lemma {:induction false} FindLastStart<P>(fs: seq<Frame<P>>) returns (p: nat)
    requires exists k :: 0 <= k < |fs| && IsStart(fs[k])
    ensures LastStart(fs, p)
  {
    var n := |fs| - 1;
    if IsStart(fs[n]) {
      p := n;
    } else {
      var k :| 0 <= k < |fs| && IsStart(fs[k]);
      assert IsStart(fs[..n][k]);
      p := FindLastStart(fs[..n]);
    }
  }

  /** No burst is signalled twice: between two signals there is a new 0x4E0. */
  lemma NeverTwice<P>(blank: P, fs: seq<Frame<P>>, i: nat, j: nat, p: nat)
    requires i < j < |fs| && LastStart(fs[..j + 1], p)
    requires SignalledAt(Initial(blank), fs, i).Some? && SignalledAt(Initial(blank), fs, j).Some?
    ensures i < p <= j
  {
    var s := Initial(blank);
    SignalledIffComplete(s, fs, j, p);
    if p <= i {
      MiddleFrame(fs, p, i, j);
    }
  }

  lemma {:induction false} RelevantAppend<P>(a: seq<Frame<P>>, b: seq<Frame<P>>)
    ensures RelevantOf(a + b) == RelevantOf(a) + RelevantOf(b)
  {
    if b == [] {
      assert a + b == a;
    } else {
      var n := |b| - 1;
      assert (a + b)[..|a| + n] == a + b[..n];
      RelevantAppend(a, b[..n]);
    }
  }

  lemma EndsOnce(ids: seq<nat>, k: nat)
    requires Complete(ids) && k < |ids| && ids[k] == 0x5E8
    ensures k == |ids| - 1
  {
    var n: nat :| n > 0 && ids == Pattern(n);
    assert PatternAt(n, k) == 0x5E8;
  }

  lemma MiddleFrame<P>(fs: seq<Frame<P>>, p: nat, i: nat, j: nat)
    requires p <= i < j < |fs| && Relevant(fs[i]) && Relevant(fs[j]) && fs[i].id == 0x5E8
    ensures !Complete(Ids(RelevantOf(fs[p..j + 1])))
  {
    hide Complete, RelevantOf;
    var a, b := fs[p..i + 1], fs[i + 1..j + 1];
    assert fs[p..j + 1] == a + b;
    RelevantAppend(a, b);
    RelevantLast(fs, p, i);
    RelevantLast(fs, i + 1, j);
    var ids, k := Ids(RelevantOf(a) + RelevantOf(b)), |RelevantOf(a)| - 1;
    assert ids[k] == 0x5E8;
    if Complete(ids) {
      EndsOnce(ids, k);
    }
  }
}
