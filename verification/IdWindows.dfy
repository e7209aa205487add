/**
 The identifiers a batch hands out are a window of the 16-bit numbers, starting at the
 counter.  A track list stays free of repeated identifiers exactly when the window is no
 longer than the numbers there are and no track that stays carries one of them.
 */
module IdWindows {
  import opened TrackedObjects
  import opened Association
  import opened Batches
  import opened TrackIds
  import Purge

  /** The identifier handed out `i` allocations after the counter stood at `lastId`. */
  function Handed(lastId: nat, i: nat): nat {
    (lastId + i) % 65536
  }

  /** `id` is among the `n` identifiers handed out from `lastId` on. */
  predicate InWindow(id: nat, lastId: nat, n: nat) {
    (id - lastId) % 65536 < n
  }

  predicate WindowFree(s: seq<Object>, lastId: nat, n: nat) {
    forall i :: 0 <= i < |s| ==> !InWindow(s[i].id, lastId, n)
  }

  /** Every identifier fits the counter. */
  predicate Numbered(s: seq<Object>) {
    forall i :: 0 <= i < |s| ==> s[i].id < 65536
  }

  // ----- the window -----------------------------------------------------------------------------

  lemma ForthAndBack(lastId: nat, i: nat)
    requires lastId < 65536
    ensures ((lastId + i) % 65536 - lastId) % 65536 == i % 65536
  {
    var q := (lastId + i) / 65536;
    assert (lastId + i) % 65536 - lastId == i - 65536 * q;
    ShiftMod(i, -q);
  }

  lemma BackAndForth(id: nat, lastId: nat)
    requires id < 65536 && lastId < 65536
    ensures (lastId + (id - lastId) % 65536) % 65536 == id
  {
  }

  lemma ShiftMod(a: int, q: int)
    ensures (a + 65536 * q) % 65536 == a % 65536
  {
  }

  /** A number is in the window exactly when it is one of those handed out. */
  lemma WindowExact(id: nat, lastId: nat, n: nat)
    requires id < 65536 && lastId < 65536
    ensures InWindow(id, lastId, n) <==> exists i: nat :: i < n && Handed(lastId, i) == id
  {
    if InWindow(id, lastId, n) {
      BackAndForth(id, lastId);
      var i := (id - lastId) % 65536;
      assert i < n && Handed(lastId, i) == id;
    }
    forall i: nat | i < n && Handed(lastId, i) == id
      ensures InWindow(id, lastId, n)
    {
      ForthAndBack(lastId, i);
    }
  }

  /** Two of the numbers handed out agree exactly when they are a multiple of 65536 apart. */
  lemma HandedOutTwice(lastId: nat, i: nat, j: nat)
    requires lastId < 65536
    ensures Handed(lastId, i) == Handed(lastId, j) <==> i % 65536 == j % 65536
  {
    ForthAndBack(lastId, i);
    ForthAndBack(lastId, j);
    if i % 65536 == j % 65536 {
      SameResidue(lastId, i, j);
    }
  }

  lemma SameResidue(lastId: nat, i: nat, j: nat)
    requires i % 65536 == j % 65536
    ensures Handed(lastId, i) == Handed(lastId, j)
  {
    var q := i / 65536 - j / 65536;
    assert lastId + i == lastId + j + 65536 * q;
    ShiftMod(lastId + j, q);
  }

  // ----- one list ---------------------------------------------------------------------------------

  /** `news` are tracks numbered consecutively from `lastId` on. */
  predicate NumberedFrom(news: seq<Object>, lastId: nat) {
    forall i :: 0 <= i < |news| ==> news[i].id == Handed(lastId, i)
  }

  lemma NewsDistinctIff(news: seq<Object>, lastId: nat)
    requires NumberedFrom(news, lastId) && lastId < 65536
    ensures DistinctIds(news) <==> |news| <= 65536
  {
    if |news| > 65536 {
      HandedOutTwice(lastId, 0, 65536);
      assert news[0].id == news[65536].id;
    } else {
      forall i, j | 0 <= i < j < |news|
        ensures news[i].id != news[j].id
      {
        HandedOutTwice(lastId, i, j);
      }
    }
  }

  /** A list is apart from the newly numbered tracks exactly when it avoids their window. */
  lemma ApartIffFree(s: seq<Object>, news: seq<Object>, lastId: nat)
    requires Numbered(s) && NumberedFrom(news, lastId) && lastId < 65536
    ensures ApartIds(s, news) <==> WindowFree(s, lastId, |news|)
  {
    hide InWindow;
    forall i | 0 <= i < |s|
      ensures InWindow(s[i].id, lastId, |news|) <==> exists j :: 0 <= j < |news| && s[i].id == news[j].id
    {
      WindowExact(s[i].id, lastId, |news|);
      if InWindow(s[i].id, lastId, |news|) {
        var j: nat :| j < |news| && Handed(lastId, j) == s[i].id;
        assert news[j].id == s[i].id;
      }
    }
  }

  lemma DistinctConcat(a: seq<Object>, b: seq<Object>)
    ensures DistinctIds(a + b) <==> DistinctIds(a) && DistinctIds(b) && ApartIds(a, b)
  {
    var c := a + b;
    if DistinctIds(c) {
      forall i, j | 0 <= i < j < |a|
        ensures a[i].id != a[j].id
      {
        assert c[i].id != c[j].id;
      }
      forall i, j | 0 <= i < j < |b|
        ensures b[i].id != b[j].id
      {
        assert c[|a| + i].id != c[|a| + j].id;
      }
      forall i, j | 0 <= i < |a| && 0 <= j < |b|
        ensures a[i].id != b[j].id
      {
        assert c[i].id != c[|a| + j].id;
      }
    }
  }

  lemma ApartConcat(other: seq<Object>, a: seq<Object>, b: seq<Object>)
    ensures ApartIds(other, a + b) <==> ApartIds(other, a) && ApartIds(other, b)
  {
    var c := a + b;
    if ApartIds(other, c) {
      forall i, j | 0 <= i < |other| && 0 <= j < |a|
        ensures other[i].id != a[j].id
      {
        assert other[i].id != c[j].id;
      }
      forall i, j | 0 <= i < |other| && 0 <= j < |b|
        ensures other[i].id != b[j].id
      {
        assert other[i].id != c[|a| + j].id;
      }
    }
  }

  // ----- one batch --------------------------------------------------------------------------------

  /** The tracks of a list that stay when a batch comes. */
  function Staying(cfg: Config, m: Sensor, track: Sensor): seq<Object> {
    if Stale(m, track) then track.objects else Survivors(cfg, track.objects, Seconds(m.stamp, track.stamp))
  }

  /** A surviving track keeps its identifier and its source through prediction, purge and
      correction or decay. */
  lemma TrackKeepsId(cfg: Config, m: Sensor, track: Sensor, lastId: nat, i: nat)
    requires !Stale(m, track)
    requires i < |Survivors(cfg, track.objects, Seconds(m.stamp, track.stamp))|
    ensures var p := PredictAll(cfg, track.objects, Seconds(m.stamp, track.stamp));
            var k := Purge.Kept(cfg, p)[i];
            var r := Absorb(cfg, m, track, lastId).track.objects;
            && k < |track.objects| && i < |r|
            && r[i].id == track.objects[k].id && r[i].src == track.objects[k].src
            && Survivors(cfg, track.objects, Seconds(m.stamp, track.stamp))[i].id == track.objects[k].id
  {
    hide Corrected, Decayed, Nearest;
    var dt := Seconds(m.stamp, track.stamp);
    var live := Survivors(cfg, track.objects, dt);
    var b := Nearest(cfg, live[i], m.objects, |m.objects|);
    assert Absorb(cfg, m, track, lastId).track.objects[i] == MatchAll(cfg, live, m.objects, dt)[i];
    MatchKeepsId(cfg, live[i], m.objects, b, dt);
  }

  lemma MatchKeepsId(cfg: Config, t: Object, ms: seq<Object>, b: nat, dt: real)
    ensures Matched(cfg, t, ms, b, dt).id == t.id && Matched(cfg, t, ms, b, dt).src == t.src
  {
  }

  /** `r` carries the identifiers of `s`, in order. */
  predicate SameIds(s: seq<Object>, r: seq<Object>) {
    |s| == |r| && forall i :: 0 <= i < |s| ==> s[i].id == r[i].id
  }

  lemma SameIdsDistinct(s: seq<Object>, r: seq<Object>)
    requires SameIds(s, r)
    ensures DistinctIds(s) <==> DistinctIds(r)
    ensures Numbered(s) <==> Numbered(r)
  {
    if DistinctIds(s) {
      forall i, j | 0 <= i < j < |r|
        ensures r[i].id != r[j].id
      {
        assert s[i].id != s[j].id;
      }
    }
    if DistinctIds(r) {
      forall i, j | 0 <= i < j < |s|
        ensures s[i].id != s[j].id
      {
        assert r[i].id != r[j].id;
      }
    }
    if Numbered(s) {
      assert forall i :: 0 <= i < |r| ==> r[i].id == s[i].id;
    }
  }

  lemma SameIdsApart(other: seq<Object>, s: seq<Object>, r: seq<Object>)
    requires SameIds(s, r)
    ensures ApartIds(other, s) <==> ApartIds(other, r)
  {
    if ApartIds(other, r) {
      forall i, j | 0 <= i < |other| && 0 <= j < |s|
        ensures other[i].id != s[j].id
      {
        assert other[i].id != r[j].id;
      }
    }
  }

  /** A batch leaves the staying tracks, with their identifiers, followed by the new ones. */
  lemma AbsorbSplits(cfg: Config, m: Sensor, track: Sensor, lastId: nat)
    returns (kept: seq<Object>, news: seq<Object>)
    ensures Absorb(cfg, m, track, lastId).track.objects == kept + news
    ensures SameIds(Staying(cfg, m, track), kept)
    ensures NumberedFrom(news, lastId) && |news| == Absorb(cfg, m, track, lastId).spawned
  {
    if Stale(m, track) {
      kept, news := track.objects, [];
    } else {
      var dt := Seconds(m.stamp, track.stamp);
      var live := Survivors(cfg, track.objects, dt);
      var chosen := NewTracks(cfg, live, m.objects, |m.objects|);
      kept, news := MatchAll(cfg, live, m.objects, dt), SpawnAll(m.objects, chosen, lastId);
      forall i | 0 <= i < |live|
        ensures live[i].id == kept[i].id
      {
        MatchKeepsId(cfg, live[i], m.objects, Nearest(cfg, live[i], m.objects, |m.objects|), dt);
      }
    }
  }

  /** The tracks that stay keep the list's distinctness and its distance from other lists. */
  lemma StayingIds(cfg: Config, m: Sensor, track: Sensor)
    ensures Numbered(track.objects) ==> Numbered(Staying(cfg, m, track))
    ensures DistinctIds(track.objects) ==> DistinctIds(Staying(cfg, m, track))
  {
    if !Stale(m, track) {
      var p := PredictAll(cfg, track.objects, Seconds(m.stamp, track.stamp));
      var kept := Purge.Kept(cfg, p);
      var live := Staying(cfg, m, track);
      assert forall i :: 0 <= i < |live| ==> live[i].id == track.objects[kept[i]].id;
      if DistinctIds(track.objects) {
        forall i, j | 0 <= i < j < |live|
          ensures live[i].id != live[j].id
        {
          assert kept[i] < kept[j];
        }
      }
    }
  }

  lemma StayingApart(cfg: Config, m: Sensor, track: Sensor, other: seq<Object>)
    requires ApartIds(other, track.objects)
    ensures ApartIds(other, Staying(cfg, m, track))
  {
    if !Stale(m, track) {
      var p := PredictAll(cfg, track.objects, Seconds(m.stamp, track.stamp));
      var kept := Purge.Kept(cfg, p);
      var live := Staying(cfg, m, track);
      assert forall i :: 0 <= i < |live| ==> live[i].id == track.objects[kept[i]].id;
    }
  }

  lemma WindowOfSameIds(s: seq<Object>, r: seq<Object>, lastId: nat, n: nat)
    requires SameIds(s, r)
    ensures WindowFree(s, lastId, n) <==> WindowFree(r, lastId, n)
  {
    hide InWindow;
    if WindowFree(s, lastId, n) {
      assert forall i :: 0 <= i < |r| ==> r[i].id == s[i].id;
    }
  }

  /** The batch starts at most 65536 tracks, and no staying track of its list carries one of
      their identifiers. */
  predicate ListFree(cfg: Config, m: Sensor, track: Sensor, lastId: nat) {
    var n := Absorb(cfg, m, track, lastId).spawned;
    n <= 65536 && WindowFree(Staying(cfg, m, track), lastId, n)
  }

  /** After a batch a list has distinct identifiers if and only if the staying tracks have, the
      batch starts at most 65536 tracks and no staying track carries one of their identifiers. */
  lemma AbsorbDistinctIff(cfg: Config, m: Sensor, track: Sensor, lastId: nat)
    requires Numbered(track.objects) && lastId < 65536
    ensures DistinctIds(Absorb(cfg, m, track, lastId).track.objects) <==>
            DistinctIds(Staying(cfg, m, track)) && ListFree(cfg, m, track, lastId)
  {
    hide Absorb, DistinctIds, ApartIds, WindowFree, Staying;
    var kept, news := AbsorbSplits(cfg, m, track, lastId);
    var live := Staying(cfg, m, track);
    StayingIds(cfg, m, track);
    SameIdsDistinct(live, kept);
    DistinctConcat(kept, news);
    NewsDistinctIff(news, lastId);
    ApartIffFree(kept, news, lastId);
    WindowOfSameIds(live, kept, lastId, |news|);
  }

  /** After a batch another list is apart from this one if and only if it is apart from the
      staying tracks and avoids the window. */
  lemma AbsorbApartIff(cfg: Config, m: Sensor, track: Sensor, lastId: nat, other: seq<Object>)
    requires Numbered(other) && lastId < 65536
    ensures ApartIds(other, Absorb(cfg, m, track, lastId).track.objects) <==>
            && ApartIds(other, Staying(cfg, m, track))
            && WindowFree(other, lastId, Absorb(cfg, m, track, lastId).spawned)
  {
    hide Absorb, DistinctIds, ApartIds, WindowFree, Staying;
    var kept, news := AbsorbSplits(cfg, m, track, lastId);
    SameIdsApart(other, Staying(cfg, m, track), kept);
    ApartConcat(other, kept, news);
    ApartIffFree(other, news, lastId);
  }
}
