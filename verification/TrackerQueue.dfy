/**
 The queue over every run: every batch handed to the tracker is taken in by exactly one
 `process`, the next one; a reset loses none.
 */
module TrackerQueue {
  import opened TrackedObjects
  import opened MergeLaws
  import opened TrackerModel

  /** `b` holds the objects handed over, each marked with its source and otherwise as it was. */
  predicate HandedOver(objs: seq<Object>, src: nat, stamp: int, b: Sensor) {
    && b.src == src && b.stamp == stamp && |b.objects| == |objs|
    && forall i :: 0 <= i < |objs| ==> b.objects[i].src == src && objs[i] == b.objects[i].(src := objs[i].src)
  }

  /** How many batches were added since the last `process`, up to state `n`. */
  function PendingCount(r: Run, n: nat): nat
    requires n <= |r.ops|
  {
    if n == 0 then 0
    else match r.ops[n - 1]
      case AddObjects(_, _, _) => PendingCount(r, n - 1) + 1
      case Process(_, _) => 0
      case Reset(_) => PendingCount(r, n - 1)
  }

  /** In every reachable state the queue holds, in order, the batches added since the last `process`:
      an addition appends what was handed over, a `process` takes all and leaves none, a reset
      changes nothing. */
  lemma {:induction false} QueueIsPending(r: Run, n: nat)
    requires IsRun(r) && n <= |r.ops|
    ensures |r.states[n].queue| == PendingCount(r, n)
    ensures n > 0 ==>
              match r.ops[n - 1]
              case AddObjects(objs, src, stamp) =>
                && |r.states[n].queue| == |r.states[n - 1].queue| + 1
                && r.states[n].queue[..|r.states[n - 1].queue|] == r.states[n - 1].queue
                && HandedOver(objs, src, stamp, r.states[n].queue[|r.states[n - 1].queue|])
              case Process(_, plan) =>
                && r.states[n].queue == []
                && (r.states[n - 1].queue != [] ==> multiset(plan.sorted) == multiset(r.states[n - 1].queue))
              case Reset(_) => r.states[n].queue == r.states[n - 1].queue
  {
    hide Merged, Ingest, Schedule, IsLatest;
    if n > 0 {
      QueueIsPending(r, n - 1);
      RunStep(r, n - 1);
    }
  }
}
