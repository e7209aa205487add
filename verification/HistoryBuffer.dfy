/**
 `LinearHistoryBuffer`: a deque of stamped entries over a time window, cleared when time
 runs backwards, and its bracketed lookup.  After any sequence of additions it is a simple
 filter of what was added.
 */
module HistoryBuffer {

  datatype Entry<T> = Entry(stamp: int, value: T)

  predicate Sorted<T>(s: seq<Entry<T>>) {
    forall i, j :: 0 <= i < j < |s| ==> s[i].stamp <= s[j].stamp
  }

  // ----- one addition -------------------------------------------------------------------------------

  /** Drops entries from the front as long as they are older than `lo`. */
  function DropOld<T>(s: seq<Entry<T>>, lo: int): (r: seq<Entry<T>>) {
    if s == [] || s[0].stamp >= lo then s else DropOld(s[1..], lo)
  }

  function Added<T>(s: seq<Entry<T>>, e: Entry<T>, period: int): (r: seq<Entry<T>>) {
    var kept := if s != [] && e.stamp < s[|s| - 1].stamp then [] else s;
    DropOld(kept + [e], e.stamp - period)
  }

  datatype Lookup<T> = Empty | IntoPast | IntoFuture | Found(value: T)

  /** Lookup at `t`: refused outside the buffer's span; at the front the entry itself;
      otherwise the interpolation of the adjacent entries with `prev < t <= next`. */
  ghost predicate Answers<T(!new)>(s: seq<Entry<T>>, lerp: (T, T, int) -> T, t: int, r: Lookup<T>) {
    match r
    case Empty => s == []
    case IntoPast => s != [] && t < s[0].stamp
    case IntoFuture => s != [] && s[|s| - 1].stamp < t
    case Found(v) =>
      && s != [] && s[0].stamp <= t <= s[|s| - 1].stamp
      && if t == s[0].stamp then v == s[0].value
         else exists i :: 1 <= i < |s| && Brackets(s, t, i) && v == lerp(s[i - 1].value, s[i].value, t - s[i - 1].stamp)
  }

  predicate Brackets<T>(s: seq<Entry<T>>, t: int, i: nat)
    requires 1 <= i < |s|
  {
    s[i - 1].stamp < t <= s[i].stamp
  }

  /** In a sorted buffer there is one bracketing pair, so the answer is determined. */
  lemma BracketUnique<T>(s: seq<Entry<T>>, t: int, i: nat, j: nat)
    requires Sorted(s) && 1 <= i < |s| && 1 <= j < |s| && Brackets(s, t, i) && Brackets(s, t, j)
    ensures i == j
  {
  }

  lemma AppendKeeps<T>(s: seq<Entry<T>>, kept: seq<Entry<T>>, e: Entry<T>, period: int)
    requires Sorted(s) && kept == if s != [] && e.stamp < s[|s| - 1].stamp then [] else s
    ensures Sorted(kept + [e]) && DropOld(kept + [e], e.stamp - period) == Added(s, e, period)
  {
    hide DropOld;
  }

  lemma PopFront<T>(s: seq<Entry<T>>, lo: int)
    requires s != [] && Sorted(s) && s[0].stamp < lo
    ensures Sorted(s[1..]) && DropOld(s, lo) == DropOld(s[1..], lo)
  {
  }

  lemma NothingToDrop<T>(s: seq<Entry<T>>, lo: int)
    requires s != [] && s[0].stamp >= lo
    ensures DropOld(s, lo) == s
  {
  }

  class Buffer<T(!new)> {
    var history: seq<Entry<T>>
    const period: int

    ghost predicate Valid()
      reads this
    {
      period >= 0 && Sorted(history)
    }

    constructor (length: int)
      requires length >= 0
      ensures Valid() && history == [] && period == length
    {
      history, period := [], length;
    }

    method AddEntry(e: T, t: int)
      requires Valid()
      modifies this
      ensures Valid() && history == Added(old(history), Entry(t, e), period)
      ensures history != [] && history[|history| - 1] == Entry(t, e)
    {
      hide Sorted, DropOld, Added;
      ghost var before := history;
      if history != [] {
        if t < history[|history| - 1].stamp {
          history := [];
        }
      }
      AppendKeeps(before, history, Entry(t, e), period);
      history := history + [Entry(t, e)];
      while history[0].stamp < t - period
        invariant history != [] && history[|history| - 1] == Entry(t, e)
        invariant Sorted(history)
        invariant DropOld(history, t - period) == Added(before, Entry(t, e), period)
        decreases |history|
      {
        PopFront(history, t - period);
        history := history[1..];
      }
      NothingToDrop(history, t - period);
    }

    method GetLerp(lerp: (T, T, int) -> T, t: int) returns (r: Lookup<T>)
      requires Valid()
      ensures Answers(history, lerp, t, r)
    {
      if history == [] {
        return Empty;
      }
      if t < history[0].stamp {
        return IntoPast;
      }
      var i := 0;
      while i < |history| && history[i].stamp < t
        invariant i <= |history|
        invariant forall k :: 0 <= k < i ==> history[k].stamp < t
      {
        i := i + 1;
      }
      if i == |history| {
        return IntoFuture;
      }
      assert history[i].stamp <= history[|history| - 1].stamp;
      if i == 0 {
        r := Found(history[0].value);
      } else {
        assert Brackets(history, t, i);
        assert history[0].stamp < t;
        r := Found(lerp(history[i - 1].value, history[i].value, t - history[i - 1].stamp));
      }
    }
  }

  // ----- any sequence of additions ----------------------------------------------------------------------

  function AddedAll<T>(h: seq<Entry<T>>, period: int): (r: seq<Entry<T>>) {
    if h == [] then [] else Added(AddedAll(h[..|h| - 1], period), h[|h| - 1], period)
  }

  /** The entries since the last one that was older than its predecessor. */
  function SinceBackward<T>(h: seq<Entry<T>>): (r: seq<Entry<T>>) {
    if |h| <= 1 then h
    else if h[|h| - 1].stamp < h[|h| - 2].stamp then [h[|h| - 1]]
    else SinceBackward(h[..|h| - 1]) + [h[|h| - 1]]
  }

  /** The entries of `s` no older than `lo`, in order. */
  function NotOlder<T>(s: seq<Entry<T>>, lo: int): (r: seq<Entry<T>>) {
    if s == [] then []
    else
      var r := NotOlder(s[..|s| - 1], lo);
      if s[|s| - 1].stamp >= lo then r + [s[|s| - 1]] else r
  }

  function Window<T>(h: seq<Entry<T>>, period: int): (r: seq<Entry<T>>) {
    if h == [] then [] else NotOlder(SinceBackward(h), h[|h| - 1].stamp - period)
  }

  lemma {:induction false} NotOlderAll<T>(s: seq<Entry<T>>, lo: int)
    requires forall i :: 0 <= i < |s| ==> s[i].stamp >= lo
    ensures NotOlder(s, lo) == s
  {
    if s != [] {
      NotOlderAll(s[..|s| - 1], lo);
    }
  }

  lemma {:induction false} NotOlderTwice<T>(s: seq<Entry<T>>, lo: int, hi: int)
    requires lo <= hi
    ensures NotOlder(NotOlder(s, lo), hi) == NotOlder(s, hi)
  {
    if s != [] {
      var n := |s| - 1;
      NotOlderTwice(s[..n], lo, hi);
      if s[n].stamp >= lo {
        NotOlderSnoc(NotOlder(s[..n], lo), s[n], hi);
      }
    }
  }

  lemma NotOlderSnoc<T>(s: seq<Entry<T>>, e: Entry<T>, lo: int)
    ensures NotOlder(s + [e], lo) == if e.stamp >= lo then NotOlder(s, lo) + [e] else NotOlder(s, lo)
  {
    assert (s + [e])[..|s|] == s;
  }

  lemma {:induction false} NotOlderFirst<T>(s: seq<Entry<T>>, lo: int)
    requires s != []
    ensures s[0].stamp < lo ==> NotOlder(s, lo) == NotOlder(s[1..], lo)
  {
    var n := |s| - 1;
    if n > 0 {
      NotOlderFirst(s[..n], lo);
      assert s[..n][1..] == s[1..][..n - 1];
    }
  }

  lemma {:induction false} DropIsFilter<T>(s: seq<Entry<T>>, lo: int)
    requires Sorted(s)
    ensures DropOld(s, lo) == NotOlder(s, lo)
  {
    if s != [] {
      if s[0].stamp >= lo {
        NotOlderAll(s, lo);
      } else {
        DropIsFilter(s[1..], lo);
        NotOlderFirst(s, lo);
      }
    }
  }

  lemma {:induction false} SinceBackwardSorted<T>(h: seq<Entry<T>>)
    ensures Sorted(SinceBackward(h))
    ensures h != [] ==> SinceBackward(h) != [] && SinceBackward(h)[|SinceBackward(h)| - 1] == h[|h| - 1]
  {
    if |h| > 1 {
      SinceBackwardSorted(h[..|h| - 1]);
    }
  }

  lemma {:induction false} NotOlderSorted<T>(s: seq<Entry<T>>, lo: int)
    requires Sorted(s)
    ensures Sorted(NotOlder(s, lo))
    ensures forall i :: 0 <= i < |NotOlder(s, lo)| ==> NotOlder(s, lo)[i] in s
  {
    if s != [] {
      NotOlderSorted(s[..|s| - 1], lo);
    }
  }

  /** After any sequence of additions the buffer is, in order, the entries since the last
      backward stamp that are no older than the newest minus the period. */
  lemma {:induction false} BufferIsWindow<T>(h: seq<Entry<T>>, period: int)
    requires period >= 0
    ensures AddedAll(h, period) == Window(h, period)
  {
    if h != [] {
      hide Added, Window;
      var n := |h| - 1;
      BufferIsWindow(h[..n], period);
      AddToWindow(h[..n], h[n], period);
      assert h[..n] + [h[n]] == h;
    }
  }

  lemma Restart<T>(e: Entry<T>, period: int)
    requires period >= 0
    ensures DropOld([e], e.stamp - period) == [e] == NotOlder([e], e.stamp - period)
  {
    hide DropOld, NotOlder;
    NothingToDrop([e], e.stamp - period);
    NotOlderAll([e], e.stamp - period);
  }

  lemma SinceBackwardSnoc<T>(h: seq<Entry<T>>, e: Entry<T>)
    ensures SinceBackward(h + [e]) ==
            if h == [] || e.stamp < h[|h| - 1].stamp then [e] else SinceBackward(h) + [e]
  {
    assert (h + [e])[..|h|] == h;
  }

  /** Dropping from a filtered, sorted list extended by the newest entry is filtering again. */
  lemma DropExtended<T>(s: seq<Entry<T>>, lo: int, e: Entry<T>, hi: int)
    requires Sorted(s + [e]) && lo <= hi <= e.stamp
    ensures DropOld(NotOlder(s, lo) + [e], hi) == NotOlder(s + [e], hi)
  {
    hide Sorted, DropOld, NotOlder;
    FilteredSorted(s, lo, e);
    DropIsFilter(NotOlder(s, lo) + [e], hi);
    NotOlderSnoc(NotOlder(s, lo), e, hi);
    NotOlderTwice(s, lo, hi);
    NotOlderSnoc(s, e, hi);
  }

  lemma FilteredSorted<T>(s: seq<Entry<T>>, lo: int, e: Entry<T>)
    requires Sorted(s + [e])
    ensures Sorted(NotOlder(s, lo) + [e])
  {
    var w := NotOlder(s, lo);
    assert Sorted(s) by {
      forall i, j | 0 <= i < j < |s|
        ensures s[i].stamp <= s[j].stamp
      {
        assert (s + [e])[i].stamp <= (s + [e])[j].stamp;
      }
    }
    NotOlderSorted(s, lo);
    if w != [] {
      assert w[|w| - 1] in s;
      var i :| 0 <= i < |s| && s[i] == w[|w| - 1];
      assert (s + [e])[i].stamp <= (s + [e])[|s|].stamp;
    }
    AppendSorted(w, e);
  }

  lemma AddToWindow<T>(h: seq<Entry<T>>, e: Entry<T>, period: int)
    requires period >= 0
    ensures Added(Window(h, period), e, period) == Window(h + [e], period)
  {
    hide Sorted, DropOld, NotOlder, SinceBackward;
    SinceBackwardSnoc(h, e);
    Restart(e, period);
    assert [] + [e] == [e];
    assert (h + [e])[|h|] == e;
    if h != [] {
      var last, since := h[|h| - 1], SinceBackward(h);
      SinceBackwardSorted(h);
      WindowLast(h, period);
      if e.stamp >= last.stamp {
        AppendSorted(since, e);
        DropExtended(since, last.stamp - period, e, e.stamp - period);
      }
    }
  }

  lemma AppendSorted<T>(w: seq<Entry<T>>, e: Entry<T>)
    requires Sorted(w) && (w != [] ==> w[|w| - 1].stamp <= e.stamp)
    ensures Sorted(w + [e])
  {
  }

  lemma WindowLast<T>(h: seq<Entry<T>>, period: int)
    requires h != [] && period >= 0
    ensures Window(h, period) != [] && Window(h, period)[|Window(h, period)| - 1] == h[|h| - 1]
  {
    SinceBackwardSorted(h);
  }
}
