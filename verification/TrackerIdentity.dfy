/**
 Identifiers over every run.  Each batch hands out a window of the 16-bit numbers; the live
 tracks, per-source and fused, carry distinct identifiers throughout a run if and only if
 every window is free of the tracks that are alive when it is handed out.
 */
module TrackerIdentity {
  import opened TrackedObjects
  import opened MergeLaws
  import opened Batches
  import opened TrackIds
  import opened IdWindows
  import opened TrackerModel

  /** All live tracks carry distinct identifiers, within and across the lists. */
  ghost predicate LiveDistinct(t: Tracks, fused: seq<Object>) {
    && TracksDistinct(t) && DistinctIds(fused)
    && forall k :: k in t ==> ApartIds(t[k].objects, fused)
  }

  // ----- the counter ------------------------------------------------------------------------------

  /** Which allocation an identifier was, counting from one: the counter starts at 1 and
      reaches 0 last. */
  function Birth(id: nat): nat {
    if id == 0 then 65536 else id
  }

  predicate AllBorn(s: seq<Object>, allocs: nat) {
    forall i :: 0 <= i < |s| ==> s[i].id < 65536 && Birth(s[i].id) <= allocs
  }

  predicate CounterAt(lastId: nat, allocs: nat) {
    lastId == (1 + allocs) % 65536
  }

  /** The counter stands where the number of allocations puts it, and every live identifier
      is one of those handed out so far. */
  ghost predicate Counted(t: Tracks, fused: seq<Object>, lastId: nat, allocs: nat) {
    && CounterAt(lastId, allocs) && AllBorn(fused, allocs)
    && forall k :: k in t ==> AllBorn(t[k].objects, allocs)
  }

  lemma BornLater(s: seq<Object>, a: nat, b: nat)
    requires AllBorn(s, a) && a <= b
    ensures AllBorn(s, b)
  {
  }

  lemma BirthOfNew(lastId: nat, allocs: nat, i: nat)
    requires CounterAt(lastId, allocs)
    ensures Handed(lastId, i) == (1 + allocs + i) % 65536
    ensures Birth(Handed(lastId, i)) <= allocs + i + 1
    ensures allocs + i + 1 <= 65536 ==> Birth(Handed(lastId, i)) == allocs + i + 1
  {
    ShiftMod(1 + allocs + i, -((1 + allocs) / 65536));
  }

  /** Absorbing a batch keeps the count. */
  lemma AbsorbBorn(cfg: Config, m: Sensor, track: Sensor, lastId: nat, allocs: nat)
    requires CounterAt(lastId, allocs) && AllBorn(track.objects, allocs)
    ensures var a := Absorb(cfg, m, track, lastId);
            CounterAt(a.lastId, allocs + a.spawned) && AllBorn(a.track.objects, allocs + a.spawned)
  {
    hide AllBorn, Staying, SameIds, NumberedFrom;
    var kept, news := AbsorbSplits(cfg, m, track, lastId);
    StayingBorn(cfg, m, track, allocs);
    KeptBorn(Staying(cfg, m, track), kept, allocs, allocs + |news|);
    NewsBorn(news, lastId, allocs);
    ConcatBorn(kept, news, allocs + |news|);
    BirthOfNew(lastId, allocs, |news|);
  }

  lemma StayingBorn(cfg: Config, m: Sensor, track: Sensor, allocs: nat)
    requires AllBorn(track.objects, allocs)
    ensures AllBorn(Staying(cfg, m, track), allocs)
  {
    if !Stale(m, track) {
      forall i | 0 <= i < |Staying(cfg, m, track)|
        ensures var id := Staying(cfg, m, track)[i].id; id < 65536 && Birth(id) <= allocs
      {
        TrackKeepsId(cfg, m, track, 0, i);
      }
    }
  }

  lemma KeptBorn(s: seq<Object>, r: seq<Object>, a: nat, b: nat)
    requires SameIds(s, r) && AllBorn(s, a) && a <= b
    ensures AllBorn(r, b)
  {
  }

  lemma NewsBorn(news: seq<Object>, lastId: nat, allocs: nat)
    requires NumberedFrom(news, lastId) && CounterAt(lastId, allocs)
    ensures AllBorn(news, allocs + |news|)
  {
    forall i | 0 <= i < |news|
      ensures news[i].id < 65536 && Birth(news[i].id) <= allocs + |news|
    {
      BirthOfNew(lastId, allocs, i);
    }
  }

  lemma ConcatBorn(a: seq<Object>, b: seq<Object>, allocs: nat)
    requires AllBorn(a, allocs) && AllBorn(b, allocs)
    ensures AllBorn(a + b, allocs)
  {
  }

  // ----- one batch among all lists ----------------------------------------------------------------

  /** The other lists, left alone by a batch of source `src`, avoid a window. */
  ghost predicate OthersFree(t: Tracks, src: nat, lastId: nat, n: nat) {
    forall k :: k in t && k != src ==> WindowFree(t[k].objects, lastId, n)
  }

  ghost predicate OthersApart(t: Tracks, src: nat, s: seq<Object>) {
    forall k :: k in t && k != src ==> ApartIds(t[k].objects, s)
  }

  lemma Symmetric(a: seq<Object>, b: seq<Object>)
    ensures ApartIds(a, b) <==> ApartIds(b, a)
  {
  }

  /** Replacing one list: distinct everywhere iff distinct without it, within it and across. */
  lemma UpdatedDistinct(t: Tracks, k: nat, x: Sensor, fused: seq<Object>)
    ensures LiveDistinct(t[k := x], fused) <==>
            && LiveDistinct(t - {k}, fused) && DistinctIds(x.objects)
            && OthersApart(t, k, x.objects) && ApartIds(fused, x.objects)
  {
    hide DistinctIds, ApartIds;
    var u := t[k := x];
    Symmetric(x.objects, fused);
    forall l | l in t
      ensures ApartIds(t[l].objects, x.objects) <==> ApartIds(x.objects, t[l].objects)
    {
      Symmetric(t[l].objects, x.objects);
    }
    if LiveDistinct(u, fused) {
      assert forall l :: l in t - {k} ==> l in u && u[l] == t[l];
      assert forall l :: l in t && l != k ==> l in u && u[l] == t[l];
      assert u[k] == x;
    } else if && LiveDistinct(t - {k}, fused) && DistinctIds(x.objects)
              && OthersApart(t, k, x.objects) && ApartIds(fused, x.objects) {
      forall l | l in u
        ensures DistinctIds(u[l].objects) && ApartIds(u[l].objects, fused)
      {
        assert l != k ==> l in t - {k};
      }
      forall l, l' | l in u && l' in u && l != l'
        ensures ApartIds(u[l].objects, u[l'].objects)
      {
        assert l != k ==> l in t - {k};
        assert l' != k ==> l' in t - {k};
      }
      assert false;
    }
  }

  /** The lists without the tracks a batch is about to expire. */
  function Left(cfg: Config, b: Sensor, t: Tracks): Tracks {
    var track := TrackFor(t, b);
    t[b.src := track.(objects := Staying(cfg, b, track))]
  }

  /** The window of a batch is free: at most 65536 tracks are started and none of their
      identifiers is carried by a track that stays, in whatever list. */
  ghost predicate BatchFree(cfg: Config, b: Sensor, i: Intake, fused: seq<Object>) {
    var track := TrackFor(i.tracks, b);
    var n := Absorb(cfg, b, track, i.lastId).spawned;
    ListFree(cfg, b, track, i.lastId) && OthersFree(i.tracks, b.src, i.lastId, n) && WindowFree(fused, i.lastId, n)
  }

  lemma OthersApartIff(cfg: Config, b: Sensor, i: Intake)
    requires i.lastId < 65536 && forall k :: k in i.tracks ==> Numbered(i.tracks[k].objects)
    ensures var track := TrackFor(i.tracks, b);
            var a := Absorb(cfg, b, track, i.lastId);
            OthersApart(i.tracks, b.src, a.track.objects) <==>
            && OthersApart(i.tracks, b.src, Staying(cfg, b, track))
            && OthersFree(i.tracks, b.src, i.lastId, a.spawned)
  {
    hide Absorb, ApartIds, WindowFree, Staying;
    var track := TrackFor(i.tracks, b);
    forall k | k in i.tracks && k != b.src
      ensures ApartIds(i.tracks[k].objects, Absorb(cfg, b, track, i.lastId).track.objects) <==>
              && ApartIds(i.tracks[k].objects, Staying(cfg, b, track))
              && WindowFree(i.tracks[k].objects, i.lastId, Absorb(cfg, b, track, i.lastId).spawned)
    {
      AbsorbApartIff(cfg, b, track, i.lastId, i.tracks[k].objects);
    }
  }

  /** From any state of the lists, after a batch all live identifiers are distinct if and only
      if those that stay are and the batch's window is free. */
  lemma BatchDistinctIff(cfg: Config, b: Sensor, i: Intake, fused: seq<Object>)
    requires Counted(i.tracks, fused, i.lastId, i.allocs)
    ensures LiveDistinct(IngestOne(cfg, b, i).tracks, fused) <==>
            LiveDistinct(Left(cfg, b, i.tracks), fused) && BatchFree(cfg, b, i, fused)
  {
    hide Absorb, LiveDistinct, DistinctIds, ApartIds, WindowFree, Staying, OthersApart, OthersFree;
    var track := TrackFor(i.tracks, b);
    var a := Absorb(cfg, b, track, i.lastId);
    UpdatedDistinct(i.tracks, b.src, a.track, fused);
    UpdatedDistinct(i.tracks, b.src, track.(objects := Staying(cfg, b, track)), fused);
    AbsorbDistinctIff(cfg, b, track, i.lastId);
    AbsorbApartIff(cfg, b, track, i.lastId, fused);
    OthersApartIff(cfg, b, i);
  }

  /** Expiry alone makes no two identifiers equal. */
  lemma LeftDistinct(cfg: Config, b: Sensor, t: Tracks, fused: seq<Object>)
    requires LiveDistinct(t, fused)
    ensures LiveDistinct(Left(cfg, b, t), fused)
  {
    hide Staying, DistinctIds, ApartIds;
    var track := TrackFor(t, b);
    NoneLive(fused);
    Symmetric(fused, track.objects);
    StayingIds(cfg, b, track);
    StayingApart(cfg, b, track, fused);
    forall k | k in t && k != b.src
      ensures ApartIds(t[k].objects, Staying(cfg, b, track))
    {
      NoneLive(t[k].objects);
      StayingApart(cfg, b, track, t[k].objects);
    }
    UpdatedDistinct(t, b.src, track.(objects := Staying(cfg, b, track)), fused);
  }

  lemma NoneLive(s: seq<Object>)
    ensures DistinctIds([]) && ApartIds(s, []) && ApartIds([], s)
  {
  }

  lemma BatchCounted(cfg: Config, b: Sensor, i: Intake, fused: seq<Object>)
    requires Counted(i.tracks, fused, i.lastId, i.allocs)
    ensures var r := IngestOne(cfg, b, i); Counted(r.tracks, fused, r.lastId, r.allocs)
  {
    hide Absorb, AllBorn, CounterAt;
    var track := TrackFor(i.tracks, b);
    var a := Absorb(cfg, b, track, i.lastId);
    BornNone(i.allocs);
    AbsorbBorn(cfg, b, track, i.lastId, i.allocs);
    BornLater(fused, i.allocs, i.allocs + a.spawned);
    forall k | k in i.tracks
      ensures AllBorn(i.tracks[k].objects, i.allocs + a.spawned)
    {
      BornLater(i.tracks[k].objects, i.allocs, i.allocs + a.spawned);
    }
  }

  lemma BornNone(allocs: nat)
    ensures AllBorn([], allocs)
  {
  }

  // ----- a whole queue ----------------------------------------------------------------------------

  /** Distinct after every batch of the queue. */
  ghost predicate QueueDistinct(cfg: Config, q: seq<Sensor>, i: Intake, fused: seq<Object>) {
    forall j :: 0 <= j < |q| ==> LiveDistinct(IngestOne(cfg, q[j], Ingest(cfg, q[..j], i)).tracks, fused)
  }

  ghost predicate QueueFree(cfg: Config, q: seq<Sensor>, i: Intake, fused: seq<Object>) {
    forall j :: 0 <= j < |q| ==> BatchFree(cfg, q[j], Ingest(cfg, q[..j], i), fused)
  }

  lemma {:induction false} QueueCounted(cfg: Config, q: seq<Sensor>, i: Intake, fused: seq<Object>)
    requires Counted(i.tracks, fused, i.lastId, i.allocs)
    ensures var r := Ingest(cfg, q, i); Counted(r.tracks, fused, r.lastId, r.allocs)
  {
    if q != [] {
      hide Counted, IngestOne;
      var n := |q| - 1;
      QueueCounted(cfg, q[..n], i, fused);
      BatchCounted(cfg, q[n], Ingest(cfg, q[..n], i), fused);
    }
  }

  lemma PrefixOfPrefix<T>(q: seq<T>, j: nat)
    requires j < |q|
    ensures q[..|q| - 1][..j] == q[..j]
  {
  }

  lemma {:induction false} QueueDistinctIff(cfg: Config, q: seq<Sensor>, i: Intake, fused: seq<Object>)
    requires Counted(i.tracks, fused, i.lastId, i.allocs) && LiveDistinct(i.tracks, fused)
    ensures QueueDistinct(cfg, q, i, fused) <==> QueueFree(cfg, q, i, fused)
    ensures QueueDistinct(cfg, q, i, fused) ==> LiveDistinct(Ingest(cfg, q, i).tracks, fused)
  {
    if q != [] {
      hide Counted, IngestOne, LiveDistinct, BatchFree, Left;
      var n := |q| - 1;
      var p, mid := q[..n], Ingest(cfg, q[..n], i);
      QueueDistinctIff(cfg, p, i, fused);
      QueueSnoc(cfg, q, i, fused);
      if QueueDistinct(cfg, p, i, fused) {
        QueueCounted(cfg, p, i, fused);
        LeftDistinct(cfg, q[n], mid.tracks, fused);
        BatchDistinctIff(cfg, q[n], mid, fused);
      }
    }
  }

  lemma QueueSnoc(cfg: Config, q: seq<Sensor>, i: Intake, fused: seq<Object>)
    requires q != []
    ensures var n := |q| - 1;
            var mid := Ingest(cfg, q[..n], i);
            && (QueueDistinct(cfg, q, i, fused) <==>
                QueueDistinct(cfg, q[..n], i, fused) && LiveDistinct(IngestOne(cfg, q[n], mid).tracks, fused))
            && (QueueFree(cfg, q, i, fused) <==> QueueFree(cfg, q[..n], i, fused) && BatchFree(cfg, q[n], mid, fused))
  {
    hide Ingest, IngestOne, LiveDistinct, BatchFree;
    var n := |q| - 1;
    forall j | 0 <= j < n
      ensures q[..n][..j] == q[..j]
    {
      PrefixOfPrefix(q, j);
    }
  }

  // ----- the fused stage --------------------------------------------------------------------------

  /** The window handed out for the merged measurement is free. */
  ghost predicate FusedFree(cfg: Config, t: Tracks, m: Sensor, base: Sensor, lastId: nat) {
    && ListFree(cfg, m, base, lastId)
    && forall k :: k in t ==> WindowFree(t[k].objects, lastId, Absorb(cfg, m, base, lastId).spawned)
  }

  lemma FusedDistinctIff(cfg: Config, t: Tracks, m: Sensor, base: Sensor, lastId: nat, allocs: nat)
    requires Counted(t, base.objects, lastId, allocs)
    ensures LiveDistinct(t, Absorb(cfg, m, base, lastId).track.objects) <==>
            LiveDistinct(t, Staying(cfg, m, base)) && FusedFree(cfg, t, m, base, lastId)
  {
    hide Absorb, ListFree, TracksDistinct, DistinctIds, ApartIds, WindowFree, Staying;
    AbsorbDistinctIff(cfg, m, base, lastId);
    var a := Absorb(cfg, m, base, lastId);
    forall k | k in t
      ensures ApartIds(t[k].objects, a.track.objects) <==>
              ApartIds(t[k].objects, Staying(cfg, m, base)) && WindowFree(t[k].objects, lastId, a.spawned)
    {
      AbsorbApartIff(cfg, m, base, lastId, t[k].objects);
    }
  }

  lemma FusedCounted(cfg: Config, t: Tracks, m: Sensor, base: Sensor, lastId: nat, allocs: nat)
    requires Counted(t, base.objects, lastId, allocs)
    ensures var a := Absorb(cfg, m, base, lastId);
            Counted(t, a.track.objects, a.lastId, allocs + a.spawned)
  {
    hide Absorb, AllBorn, CounterAt;
    AbsorbBorn(cfg, m, base, lastId, allocs);
    forall k | k in t
      ensures AllBorn(t[k].objects, allocs + Absorb(cfg, m, base, lastId).spawned)
    {
      BornLater(t[k].objects, allocs, allocs + Absorb(cfg, m, base, lastId).spawned);
    }
  }

  lemma ReadiedIds(f: Sensor, m: Sensor)
    ensures SameIds(f.objects, Readied(f, m).objects)
  {
  }

  lemma SameIdsLive(t: Tracks, f: seq<Object>, g: seq<Object>)
    requires SameIds(f, g) && LiveDistinct(t, f)
    ensures LiveDistinct(t, g)
  {
    hide DistinctIds, ApartIds, TracksDistinct;
    SameIdsDistinct(f, g);
    forall k | k in t
      ensures ApartIds(t[k].objects, g)
    {
      SameIdsApart(t[k].objects, f, g);
    }
  }

  lemma SameIdsCounted(t: Tracks, f: seq<Object>, g: seq<Object>, lastId: nat, allocs: nat)
    requires SameIds(f, g) && Counted(t, f, lastId, allocs)
    ensures Counted(t, g, lastId, allocs)
  {
  }

  lemma StayingLive(cfg: Config, t: Tracks, m: Sensor, base: Sensor)
    requires LiveDistinct(t, base.objects)
    ensures LiveDistinct(t, Staying(cfg, m, base))
  {
    hide DistinctIds, ApartIds, TracksDistinct, Staying;
    StayingIds(cfg, m, base);
    forall k | k in t
      ensures ApartIds(t[k].objects, Staying(cfg, m, base))
    {
      StayingApart(cfg, m, base, t[k].objects);
    }
  }

  // ----- one step ---------------------------------------------------------------------------------

  /** Distinct after every batch of a `process` and after its fused stage. */
  ghost predicate ProcessDistinct(cfg: Config, s: State, p: Plan)
    requires AllPositive(p.visits)
  {
    && QueueDistinct(cfg, p.sorted, Intake(s.internal, s.lastId, s.allocs), s.fused.objects)
    && LiveDistinct(Processed(cfg, s, p).internal, Processed(cfg, s, p).fused.objects)
  }

  /** Every window a `process` hands out is free when it is handed out. */
  ghost predicate ProcessFree(cfg: Config, s: State, p: Plan)
    requires AllPositive(p.visits)
  {
    var i, m := Ingested(cfg, s, p), MergedSensor(cfg, p.latest, p.visits);
    && QueueFree(cfg, p.sorted, Intake(s.internal, s.lastId, s.allocs), s.fused.objects)
    && FusedFree(cfg, i.tracks, m, Readied(s.fused, m), i.lastId)
  }

  ghost predicate StateCounted(s: State) {
    Counted(s.internal, s.fused.objects, s.lastId, s.allocs)
  }

  ghost predicate StateDistinct(s: State) {
    LiveDistinct(s.internal, s.fused.objects)
  }

  lemma ProcessDistinctIff(cfg: Config, s: State, p: Plan)
    requires AllPositive(p.visits) && StateCounted(s) && StateDistinct(s)
    ensures ProcessDistinct(cfg, s, p) <==> ProcessFree(cfg, s, p)
  {
    hide Absorb, Merged, Ingest, Counted, LiveDistinct, FusedFree, QueueFree, QueueDistinct, SameIds, Staying;
    var start := Intake(s.internal, s.lastId, s.allocs);
    var i, m := Ingested(cfg, s, p), MergedSensor(cfg, p.latest, p.visits);
    var base := Readied(s.fused, m);
    QueueDistinctIff(cfg, p.sorted, start, s.fused.objects);
    if QueueDistinct(cfg, p.sorted, start, s.fused.objects) {
      QueueCounted(cfg, p.sorted, start, s.fused.objects);
      ReadiedIds(s.fused, m);
      SameIdsLive(i.tracks, s.fused.objects, base.objects);
      SameIdsCounted(i.tracks, s.fused.objects, base.objects, i.lastId, i.allocs);
      StayingLive(cfg, i.tracks, m, base);
      FusedDistinctIff(cfg, i.tracks, m, base, i.lastId, i.allocs);
    }
  }

  lemma ProcessCounted(cfg: Config, s: State, p: Plan)
    requires AllPositive(p.visits) && StateCounted(s)
    ensures StateCounted(Processed(cfg, s, p))
  {
    hide Absorb, Merged, Ingest, Counted, SameIds;
    var i, m := Ingested(cfg, s, p), MergedSensor(cfg, p.latest, p.visits);
    QueueCounted(cfg, p.sorted, Intake(s.internal, s.lastId, s.allocs), s.fused.objects);
    ReadiedIds(s.fused, m);
    SameIdsCounted(i.tracks, s.fused.objects, Readied(s.fused, m).objects, i.lastId, i.allocs);
    FusedCounted(cfg, i.tracks, m, Readied(s.fused, m), i.lastId, i.allocs);
  }

  // ----- runs -------------------------------------------------------------------------------------

  predicate Processes(s: State, op: Op) {
    op.Process? && s.queue != [] && AllPositive(op.plan.visits)
  }

  ghost predicate StepDistinct(s: State, op: Op) {
    Processes(s, op) ==> ProcessDistinct(op.cfg, s, op.plan)
  }

  ghost predicate StepFree(s: State, op: Op) {
    Processes(s, op) ==> ProcessFree(op.cfg, s, op.plan)
  }

  /** At no moment of the first `n` operations, not even between two batches of a queue, do
      two live tracks share an identifier. */
  ghost predicate AlwaysDistinct(r: Run, n: nat)
    requires IsRun(r) && n <= |r.ops|
  {
    forall i :: 0 <= i < n ==> StepDistinct(r.states[i], r.ops[i])
  }

  /** Every window handed out in the first `n` operations is free at that moment. */
  ghost predicate AlwaysFree(r: Run, n: nat)
    requires IsRun(r) && n <= |r.ops|
  {
    forall i :: 0 <= i < n ==> StepFree(r.states[i], r.ops[i])
  }

  lemma StepKeepsCounted(s: State, op: Op, s': State)
    requires StateCounted(s) && Next(s, op, s')
    ensures StateCounted(s')
  {
    hide Processed, ValidPlan, Counted;
    CountedNone(s.lastId, s.allocs);
    if op.Process? && s.queue != [] {
      PlanPositive(op.cfg, s, op.plan);
      ProcessCounted(op.cfg, s, op.plan);
    } else if op.Reset? {
      CounterOf(s);
    }
  }

  lemma CounterOf(s: State)
    requires StateCounted(s)
    ensures CounterAt(s.lastId, s.allocs)
  {
  }

  lemma CountedNone(lastId: nat, allocs: nat)
    ensures CounterAt(lastId, allocs) ==> Counted(map[], [], lastId, allocs)
    ensures LiveDistinct(map[], [])
  {
  }

  /** The counter and the live identifiers agree with the number of allocations in every
      reachable state. */
  lemma {:induction false} RunCounted(r: Run, i: nat)
    requires IsRun(r) && i < |r.states|
    ensures StateCounted(r.states[i])
  {
    if i > 0 {
      hide Next, StateCounted;
      RunCounted(r, i - 1);
      RunStep(r, i - 1);
      StepKeepsCounted(r.states[i - 1], r.ops[i - 1], r.states[i]);
    }
  }

  lemma StepKeepsDistinct(s: State, op: Op, s': State)
    requires Next(s, op, s') && StateDistinct(s) && StepDistinct(s, op)
    ensures StateDistinct(s')
  {
    hide Processed, ValidPlan, LiveDistinct, QueueDistinct;
    CountedNone(s.lastId, s.allocs);
    if op.Process? && s.queue != [] {
      PlanPositive(op.cfg, s, op.plan);
    }
  }

  lemma StepDistinctIff(s: State, op: Op)
    requires StateCounted(s) && StateDistinct(s)
    ensures StepDistinct(s, op) <==> StepFree(s, op)
  {
    hide StateCounted, StateDistinct, ProcessDistinct, ProcessFree;
    if Processes(s, op) {
      ProcessDistinctIff(op.cfg, s, op.plan);
    }
  }

  /** For every run: all live per-source and fused tracks carry pairwise distinct identifiers at
      every moment if and only if every window of identifiers is free when it is handed out. */
  lemma {:induction false} DistinctIffFree(r: Run, n: nat)
    requires IsRun(r) && n <= |r.ops|
    ensures AlwaysDistinct(r, n) <==> AlwaysFree(r, n)
    ensures AlwaysDistinct(r, n) ==> StateDistinct(r.states[n])
  {
    hide StateCounted, StateDistinct, StepDistinct, StepFree, Next;
    if n == 0 {
      InitialDistinct(r);
    } else {
      DistinctIffFree(r, n - 1);
      if AlwaysDistinct(r, n - 1) {
        RunCounted(r, n - 1);
        RunStep(r, n - 1);
        StepDistinctIff(r.states[n - 1], r.ops[n - 1]);
        if StepDistinct(r.states[n - 1], r.ops[n - 1]) {
          StepKeepsDistinct(r.states[n - 1], r.ops[n - 1], r.states[n]);
        }
      }
    }
  }

  lemma InitialDistinct(r: Run)
    requires IsRun(r)
    ensures StateDistinct(r.states[0])
  {
  }
}
