/** A bounded queue that drops its oldest item when full, seen against everything that was ever added to it. */
module DropOldest {
  import opened Bytes

  /** `taken` are the arrival numbers of the items `us` removed for use, in order, all below `bound`. */
  ghost predicate Picks<T>(arrivals: seq<T>, taken: seq<nat>, us: seq<T>, bound: nat) {
    && |us| == |taken| && bound <= |arrivals|
    && (forall i :: 0 <= i < |taken| ==> taken[i] < bound && us[i] == arrivals[taken[i]])
    && (forall i, j :: 0 <= i < j < |taken| ==> taken[i] < taken[j])
  }

  /** The queue is the newest arrivals, bounded; of the earlier ones, `us` were used, in order, and the rest dropped. */
  ghost predicate Kept<T>(capacity: nat, queue: seq<T>, arrivals: seq<T>, taken: seq<nat>, us: seq<T>) {
    && |queue| <= Max(1, capacity) && |queue| <= |arrivals|
    && queue == arrivals[|arrivals| - |queue|..]
    && Picks(arrivals, taken, us, |arrivals| - |queue|)
  }

  function DroppedOf<T>(queue: seq<T>, arrivals: seq<T>, taken: seq<nat>): int {
    |arrivals| - |queue| - |taken|
  }

  /** Adding to a full queue shifts the oldest item out first, if there is one. */
  function Added<T>(capacity: nat, queue: seq<T>, x: T): seq<T> {
    (if |queue| >= capacity && queue != [] then queue[1..] else queue) + [x]
  }

  lemma KeptArrival<T>(capacity: nat, queue: seq<T>, arrivals: seq<T>, taken: seq<nat>, us: seq<T>, x: T)
    requires Kept(capacity, queue, arrivals, taken, us)
    ensures Kept(capacity, Added(capacity, queue, x), arrivals + [x], taken, us)
    ensures DroppedOf(Added(capacity, queue, x), arrivals + [x], taken)
            == DroppedOf(queue, arrivals, taken) + if |queue| >= capacity && queue != [] then 1 else 0
  {
    var after, kept := arrivals + [x], Added(capacity, queue, x);
    assert kept == after[|after| - |kept|..];
  }

  lemma KeptTake<T>(capacity: nat, queue: seq<T>, arrivals: seq<T>, taken: seq<nat>, us: seq<T>)
    requires Kept(capacity, queue, arrivals, taken, us) && queue != []
    ensures Kept(capacity, queue[1..], arrivals, taken + [|arrivals| - |queue|], us + [queue[0]])
    ensures DroppedOf(queue[1..], arrivals, taken + [|arrivals| - |queue|]) == DroppedOf(queue, arrivals, taken)
  {
    assert queue[1..] == arrivals[|arrivals| - |queue| + 1..];
  }
}
