/**
 The data of a signalled burst: although frames out of sequence are written into the same
 burst data, what is signalled comes from the burst's own frames, except for the
 motion/power of tracks whose group no 0x540 frame of the burst named.
 */
module DelphiCoherence {
  import opened DelphiBurst
  import opened DelphiLanguage

  function StoreAll<P>(b: Burst<P>, fs: seq<Frame<P>>): (r: Burst<P>)
    requires Sized(b)
    ensures Sized(r)
  {
    if fs == [] then b else Store(StoreAll(b, fs[..|fs| - 1]), fs[|fs| - 1])
  }

  lemma StoreAllSnoc<P>(b: Burst<P>, fs: seq<Frame<P>>, f: Frame<P>)
    requires Sized(b)
    ensures StoreAll(b, fs + [f]) == Store(StoreAll(b, fs), f)
  {
    assert (fs + [f])[..|fs|] == fs;
  }

  lemma StepInChain<P>(s: Sync<P>, f: Frame<P>, ids: seq<nat>)
    requires Sized(s.burst) && Tracking(s, ids) && Relevant(f) && Chain(ids + [f.id])
    ensures Chain(ids) && Step(s, f).burst == Store(s.burst, f)
  {
    ChainSnoc(ids, f.id);
  }

  /** While the frames since the last 0x4E0 chain, the burst data is what they wrote over
      what was there when it came. */
  lemma {:induction false} StoresSince<P>(s: Sync<P>, fs: seq<Frame<P>>, p: nat)
    requires Sized(s.burst) && LastStart(fs, p) && Chain(Ids(RelevantOf(fs[p..])))
    ensures After(s, fs).burst == StoreAll(After(s, fs[..p]).burst, RelevantOf(fs[p..]))
    decreases |fs|
  {
    var n := |fs| - 1;
    var b := After(s, fs[..p]).burst;
    RelevantSnoc(fs, p);
    if p == n {
      assert fs[p..n] == [];
      StoreAllSnoc(b, [], fs[p]);
      assert [] + [fs[p]] == [fs[p]];
    } else {
      hide Step, Store, Tracking;
      var r := RelevantOf(fs[p..n]);
      assert fs[..n][p..] == fs[p..n] && fs[..n][..p] == fs[..p];
      TrackingSince(s, fs[..n], p);
      if Relevant(fs[n]) {
        IdsSnoc(r, fs[n]);
        StepInChain(After(s, fs[..n]), fs[n], Ids(r));
        StoreAllSnoc(b, r, fs[n]);
      } else {
        StepIrrelevant(After(s, fs[..n]), fs[n]);
      }
      StoresSince(s, fs[..n], p);
    }
  }

  lemma StepIrrelevant<P>(s: Sync<P>, f: Frame<P>)
    requires Sized(s.burst) && !Relevant(f)
    ensures Step(s, f) == s
  {
  }

  // ----- the last writer of every field ----------------------------------------------------------

  lemma {:induction false} StatusFromLast<P>(b: Burst<P>, fs: seq<Frame<P>>, j: nat)
    requires Sized(b) && j < |fs| && IsStatus(fs[j].id)
    requires forall l :: j < l < |fs| ==> fs[l].id != fs[j].id
    ensures StoreAll(b, fs).status[StatusIndex(fs[j].id)] == fs[j].data
    ensures fs[j].id == 0x4E0 ==> StoreAll(b, fs).stamp == fs[j].stamp
  {
    var n := |fs| - 1;
    if j < n {
      StatusFromLast(b, fs[..n], j);
    }
  }

  lemma {:induction false} TrackFromLast<P>(b: Burst<P>, fs: seq<Frame<P>>, j: nat)
    requires Sized(b) && j < |fs| && IsTrack(fs[j].id)
    requires forall l :: j < l < |fs| ==> fs[l].id != fs[j].id
    ensures StoreAll(b, fs).tracks[fs[j].id - 0x500] == fs[j].data
  {
    var n := |fs| - 1;
    if j < n {
      TrackFromLast(b, fs[..n], j);
    }
  }

  predicate Names<P>(f: Frame<P>, t: nat) {
    f.id == 0x540 && f.group == t / 7
  }

  lemma {:induction false} MotionFromLast<P>(b: Burst<P>, fs: seq<Frame<P>>, j: nat, t: nat)
    requires Sized(b) && j < |fs| && t < 64 && Names(fs[j], t)
    requires forall l :: j < l < |fs| ==> !Names(fs[l], t)
    ensures StoreAll(b, fs).motion[t] == Motion(fs[j].data, t % 7)
  {
    var n := |fs| - 1;
    if j < n {
      MotionFromLast(b, fs[..n], j, t);
    }
  }

  lemma {:induction false} MotionKept<P>(b: Burst<P>, fs: seq<Frame<P>>, t: nat)
    requires Sized(b) && t < 64
    requires forall l :: 0 <= l < |fs| ==> !Names(fs[l], t)
    ensures StoreAll(b, fs).motion[t] == b.motion[t]
  {
    if fs != [] {
      MotionKept(b, fs[..|fs| - 1], t);
    }
  }

  lemma {:induction false} LastNaming<P>(fs: seq<Frame<P>>, t: nat) returns (j: nat)
    requires exists l :: 0 <= l < |fs| && Names(fs[l], t)
    ensures j < |fs| && Names(fs[j], t) && forall l :: j < l < |fs| ==> !Names(fs[l], t)
  {
    var n := |fs| - 1;
    if Names(fs[n], t) {
      j := n;
    } else {
      var l :| 0 <= l < |fs| && Names(fs[l], t);
      assert Names(fs[..n][l], t);
      j := LastNaming(fs[..n], t);
    }
  }

  // ----- coherence -----------------------------------------------------------------------------------

  /** `own` are the burst's frames (a complete sequence with `n` power frames). */
  ghost predicate Coherent<P>(before: Burst<P>, b: Burst<P>, own: seq<Frame<P>>, n: nat)
    requires Sized(before) && Sized(b)
  {
    && n > 0 && Ids(own) == Pattern(n)
    && b.stamp == own[0].stamp
    && (forall k :: 0 <= k < 4 ==> b.status[k] == own[k].data)
    && (forall k :: 4 <= k < 9 ==> b.status[k] == own[64 + n + k].data)
    && (forall t :: 0 <= t < 64 ==> b.tracks[t] == own[4 + t].data)
    && (forall t :: 0 <= t < 64 ==> MotionCoherent(before, b, own, t))
  }

  /** The motion/power of track `t` comes from the last power frame of the burst that names
      its group if there is one, and is left over from before the burst if there is none. */
  ghost predicate MotionCoherent<P>(before: Burst<P>, b: Burst<P>, own: seq<Frame<P>>, t: nat)
    requires Sized(before) && Sized(b) && t < 64
  {
    if exists j :: 0 <= j < |own| && Names(own[j], t) then
      exists j :: 0 <= j < |own| && LastToName(own, j, t) && b.motion[t] == Motion(own[j].data, t % 7)
    else
      b.motion[t] == before.motion[t]
  }

  ghost predicate LastToName<P>(own: seq<Frame<P>>, j: nat, t: nat)
    requires j < |own|
  {
    Names(own[j], t) && forall l :: j < l < |own| ==> !Names(own[l], t)
  }

  lemma MotionOfStores<P>(before: Burst<P>, own: seq<Frame<P>>, t: nat)
    requires Sized(before) && t < 64
    ensures MotionCoherent(before, StoreAll(before, own), own, t)
  {
    if exists j :: 0 <= j < |own| && Names(own[j], t) {
      var j := LastNaming(own, t);
      assert LastToName(own, j, t);
      MotionFromLast(before, own, j, t);
    } else {
      MotionKept(before, own, t);
    }
  }

  lemma OccursOnce(n: nat, j: nat, l: nat)
    requires j < l < 73 + n && PatternAt(n, j) != 0x540
    ensures PatternAt(n, j) != PatternAt(n, l)
  {
  }

  lemma OwnFrame<P>(before: Burst<P>, own: seq<Frame<P>>, n: nat, j: nat)
    requires Sized(before) && n > 0 && Ids(own) == Pattern(n) && j < |own| && own[j].id != 0x540
    ensures own[j].id == PatternAt(n, j)
    ensures IsStatus(own[j].id) ==> StoreAll(before, own).status[StatusIndex(own[j].id)] == own[j].data
    ensures own[j].id == 0x4E0 ==> StoreAll(before, own).stamp == own[j].stamp
    ensures IsTrack(own[j].id) ==> StoreAll(before, own).tracks[own[j].id - 0x500] == own[j].data
  {
    assert Ids(own)[j] == PatternAt(n, j);
    forall l | j < l < |own|
      ensures own[l].id != own[j].id
    {
      assert Ids(own)[l] == PatternAt(n, l);
      OccursOnce(n, j, l);
    }
    if IsStatus(own[j].id) {
      StatusFromLast(before, own, j);
    } else if IsTrack(own[j].id) {
      TrackFromLast(before, own, j);
    }
  }

  lemma StoresCoherent<P>(before: Burst<P>, own: seq<Frame<P>>, n: nat)
    requires Sized(before) && n > 0 && Ids(own) == Pattern(n)
    ensures Coherent(before, StoreAll(before, own), own, n)
  {
    hide StoreAll, MotionCoherent;
    assert |own| == 73 + n;
    forall k | 0 <= k < 4
      ensures StoreAll(before, own).status[k] == own[k].data
    {
      assert Ids(own)[k] == PatternAt(n, k);
      OwnFrame(before, own, n, k);
    }
    forall k | 4 <= k < 9
      ensures StoreAll(before, own).status[k] == own[64 + n + k].data
    {
      assert Ids(own)[64 + n + k] == PatternAt(n, 64 + n + k);
      OwnFrame(before, own, n, 64 + n + k);
    }
    forall t | 0 <= t < 64
      ensures StoreAll(before, own).tracks[t] == own[4 + t].data
      ensures MotionCoherent(before, StoreAll(before, own), own, t)
    {
      assert Ids(own)[4 + t] == PatternAt(n, 4 + t);
      OwnFrame(before, own, n, 4 + t);
      MotionOfStores(before, own, t);
    }
    assert Ids(own)[0] == PatternAt(n, 0);
    OwnFrame(before, own, n, 0);
  }

  lemma SignalledIsAfter<P>(s: Sync<P>, fs: seq<Frame<P>>, i: nat)
    requires Sized(s.burst) && i < |fs| && SignalledAt(s, fs, i).Some?
    ensures SignalledAt(s, fs, i).value == After(s, fs[..i + 1]).burst
  {
    assert fs[..i + 1][..i] == fs[..i];
  }

  /** Every signalled burst, from whatever state the stream began: its stamp, its nine
      statuses and its 64 tracks are those of its own frames. */
  lemma SignalledCoherent<P>(s: Sync<P>, fs: seq<Frame<P>>, i: nat, p: nat)
    requires Sized(s.burst) && i < |fs| && LastStart(fs[..i + 1], p)
    requires SignalledAt(s, fs, i).Some?
    ensures Sized(SignalledAt(s, fs, i).value)
    ensures var own := RelevantOf(fs[p..i + 1]);
            && |own| > 73
            && Coherent(After(s, fs[..p]).burst, SignalledAt(s, fs, i).value, own, |own| - 73)
  {
    hide StoreAll, Coherent, RelevantOf, Step;
    SignalledIffComplete(s, fs, i, p);
    var own := RelevantOf(fs[p..i + 1]);
    var n: nat :| n > 0 && Ids(own) == Pattern(n);
    PatternIsChain(n);
    var gs := fs[..i + 1];
    assert gs[p..] == fs[p..i + 1] && gs[..i] == fs[..i] && gs[..p] == fs[..p];
    StoresSince(s, gs, p);
    SignalledIsAfter(s, fs, i);
    StoresCoherent(After(s, fs[..p]).burst, own, n);
  }
}
