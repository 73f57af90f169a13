/** Which lots a cold-start reconstruction ends with (packages/solana-portfolio/src/reconstructor.ts). */
module ReplayFacts {
  import opened Wrappers
  import opened Bytes
  import opened Lots
  import opened LotFacts
  import opened Reconstructor

  // ---- Lots as a queue of tokens ----

  /** A lot without its basis: who it came from, where, and how much is left. */
  function Bare(lots: seq<Lot>): (r: seq<Lot>)
    ensures |r| == |lots| && forall i :: 0 <= i < |lots| ==> r[i] == lots[i].(basis := 0)
  {
    seq(|lots|, i requires 0 <= i < |lots| => lots[i].(basis := 0))
  }

  ghost predicate NoBasis(lots: seq<Lot>) {
    forall i :: 0 <= i < |lots| ==> lots[i].basis == 0
  }

  lemma {:induction false} BareTotal(lots: seq<Lot>)
    ensures Total(Bare(lots)) == Total(lots)
    decreases |lots|
  {
    if lots != [] {
      BareTotal(lots[1..]);
      assert Bare(lots)[1..] == Bare(lots[1..]);
    }
  }

  lemma BareJoin(a: seq<Lot>, b: seq<Lot>)
    ensures Bare(a + b) == Bare(a) + Bare(b)
  {
  }

  /** Dropping tokens from the front does not depend on basis. */
  lemma {:induction false} BareLeaves(lots: seq<Lot>, n: nat)
    requires Positive(lots) && n <= Total(lots)
    ensures Positive(Bare(lots)) && n <= Total(Bare(lots))
    ensures Bare(Leaves(lots, n)) == Leaves(Bare(lots), n)
    decreases |lots|
  {
    BareTotal(lots);
    if lots != [] {
      assert Bare(lots)[1..] == Bare(lots[1..]);
      if n < lots[0].amount {
        BareJoin([Cut(lots[0], n)], lots[1..]);
        CutNoBasis(lots[0].(basis := 0), n);
        assert Bare([Cut(lots[0], n)]) == [Cut(lots[0], n).(basis := 0)];
      } else {
        BareLeaves(lots[1..], n - lots[0].amount);
      }
    }
  }

  lemma CutNoBasis(l: Lot, n: nat)
    requires l.basis == 0 && n <= l.amount && l.amount > 0
    ensures Cut(l, n) == l.(amount := l.amount - n)
  {
  }

  /** Without basis two drops are one. */
  lemma {:induction false} LeavesTwice(lots: seq<Lot>, a: nat, b: nat)
    requires Positive(lots) && NoBasis(lots) && a + b <= Total(lots)
    ensures Positive(Leaves(lots, a)) && b <= Total(Leaves(lots, a))
    ensures Leaves(Leaves(lots, a), b) == Leaves(lots, a + b)
    decreases |lots|
  {
    hide TruncDiv, Cut;
    LeavesTotal(lots, a);
    if lots != [] {
      var l, rest := lots[0], lots[1..];
      if a < l.amount {
        CutNoBasis(l, a);
        var once := [Cut(l, a)] + rest;
        assert once[0] == l.(amount := l.amount - a) && once[1..] == rest;
        if a + b < l.amount {
          CutNoBasis(l, a + b);
          CutNoBasis(once[0], b);
        }
      } else {
        LeavesTwice(rest, a - l.amount, b);
      }
    }
  }

  /** What is dropped from the front of a longer queue is dropped from the front. */
  lemma {:induction false} LeavesBefore(lots: seq<Lot>, more: seq<Lot>, n: nat)
    requires Positive(lots) && Positive(more) && n <= Total(lots)
    ensures Positive(lots + more) && Total(lots + more) == Total(lots) + Total(more)
    ensures Leaves(lots + more, n) == Leaves(lots, n) + more
    decreases |lots|
  {
    hide Cut;
    TotalAppend(lots, more);
    if lots == [] {
      assert lots + more == more;
      LeavesAll(more);
    } else {
      var all := lots + more;
      assert all[0] == lots[0] && all[1..] == lots[1..] + more;
      if n < lots[0].amount {
        assert [Cut(lots[0], n)] + (lots[1..] + more) == ([Cut(lots[0], n)] + lots[1..]) + more;
      } else {
        LeavesBefore(lots[1..], more, n - lots[0].amount);
      }
    }
  }

  // ---- Replay ----

  /** One outflow takes the oldest tokens, at most what is held, and leaves exactly the rest with its basis. */
  lemma OutflowLeaves(lots: seq<Lot>, c: Change)
    requires Positive(lots) && c.post <= c.pre
    ensures ReplayOne(lots, c) == Ok(Leaves(lots, Min(c.pre - c.post, Total(lots))))
  {
    FifoLeaves(lots, Min(c.pre - c.post, Total(lots)), 0);
  }

  /** The inflow lots of a history, in order. */
  function Inflows(ordered: seq<Change>): seq<Lot> {
    if ordered == [] then []
    else (if ordered[0].post > ordered[0].pre then [ordered[0].inflow] else []) + Inflows(ordered[1..])
  }

  lemma InflowsCons(ordered: seq<Change>)
    requires ordered != []
    ensures Inflows(ordered)
            == if ordered[0].post > ordered[0].pre then [ordered[0].inflow] + Inflows(ordered[1..])
               else Inflows(ordered[1..])
  {
  }

  lemma {:induction false} InflowsPositive(ordered: seq<Change>)
    requires PositiveInflows(ordered)
    ensures Positive(Inflows(ordered))
    decreases |ordered|
  {
    if ordered != [] {
      InflowsPositive(ordered[1..]);
    }
  }

  /** `out` is `all` with its oldest tokens dropped, basis aside. */
  ghost predicate QueueOf(out: seq<Lot>, all: seq<Lot>) {
    && Positive(Bare(all)) && Total(out) <= Total(all) == Total(Bare(all))
    && Bare(out) == Leaves(Bare(all), Total(all) - Total(out))
  }

  lemma WholeQueue(lots: seq<Lot>)
    requires Positive(lots)
    ensures QueueOf(lots, lots)
  {
    BareTotal(lots);
    LeavesAll(Bare(lots));
  }

  /** After any history, the lots are the starting ones and the inflows in order, less what left, oldest first. */
  lemma {:induction false} ReplayIsQueue(lots: seq<Lot>, ordered: seq<Change>)
    requires Positive(lots) && PositiveInflows(ordered)
    ensures Replay(lots, ordered).Ok? && Positive(Replay(lots, ordered).value)
    ensures QueueOf(Replay(lots, ordered).value, lots + Inflows(ordered))
    decreases |ordered|
  {
    hide ReplayOne, QueueOf, Inflows;
    if ordered == [] {
      NoInflows();
      assert lots + Inflows(ordered) == lots;
      WholeQueue(lots);
    } else {
      var c, rest := ordered[0], ordered[1..];
      ReplayOneOk(lots, c);
      var next := ReplayOne(lots, c).value;
      ReplayIsQueue(next, rest);
      InflowsCons(ordered);
      if c.post > c.pre {
        InflowNext(lots, c);
        assert lots + [c.inflow] + Inflows(rest) == lots + ([c.inflow] + Inflows(rest));
      } else {
        InflowsPositive(rest);
        OutflowLeaves(lots, c);
        OutflowQueue(lots, Inflows(rest), Min(c.pre - c.post, Total(lots)), Replay(next, rest).value);
      }
    }
  }

  lemma NoInflows()
    ensures Inflows([]) == []
  {
  }

  lemma InflowNext(lots: seq<Lot>, c: Change)
    requires c.post > c.pre
    ensures ReplayOne(lots, c) == Ok(lots + [c.inflow])
  {
  }

  lemma OutflowQueue(lots: seq<Lot>, more: seq<Lot>, n: nat, out: seq<Lot>)
    requires Positive(lots) && Positive(more) && n <= Total(lots)
    requires QueueOf(out, Leaves(lots, n) + more)
    ensures QueueOf(out, lots + more)
  {
    hide Leaves, Bare;
    var all := lots + more;
    LeavesBefore(lots, more, n);
    LeavesTotal(all, n);
    BareLeaves(all, n);
    BareTotal(all);
    BareNoBasis(all);
    LeavesTwice(Bare(all), n, Total(all) - n - Total(out));
  }

  lemma BareNoBasis(lots: seq<Lot>)
    ensures NoBasis(Bare(lots))
  {
  }

  // ---- Continuous histories: what left is what the balances say ----

  function Spent(ordered: seq<Change>): nat {
    if ordered == [] then 0
    else (if ordered[0].pre > ordered[0].post then ordered[0].pre - ordered[0].post else 0) + Spent(ordered[1..])
  }

  /** On a continuous history no outflow is cut short: exactly the tokens spent have left the queue. */
  lemma {:induction false} NothingClamped(lots: seq<Lot>, ordered: seq<Change>)
    requires Positive(lots) && PositiveInflows(ordered) && Chained(ordered)
    requires ordered != [] ==> Total(lots) == ordered[0].pre
    ensures Replay(lots, ordered).Ok?
    ensures Total(Replay(lots, ordered).value) + Spent(ordered) == Total(lots + Inflows(ordered))
    decreases |ordered|
  {
    hide ReplayOne, Inflows;
    TotalAppend(lots, Inflows(ordered));
    NoInflows();
    if ordered != [] {
      var c, rest := ordered[0], ordered[1..];
      ReplayOneOk(lots, c);
      var next := ReplayOne(lots, c).value;
      NothingClamped(next, rest);
      TotalAppend(next, Inflows(rest));
      InflowsCons(ordered);
      TotalAppend([c.inflow], Inflows(rest));
      OneLotTotal(c.inflow);
    }
  }

  lemma OneLotTotal(l: Lot)
    ensures Total([l]) == l.amount
  {
    assert Total([l][1..]) == 0;
  }

  // ---- The whole reconstruction ----

  /** What was held before the walk, by the oldest change it reached. */
  function Before(ordered: seq<Change>, slot: nat): seq<Lot> {
    if ordered != [] && ordered[0].pre > 0 then [Lot(ordered[0].pre, 0, slot, "", ColdUnresolved, true)] else []
  }

  lemma OpeningIs(ordered: seq<Change>, slot: nat)
    ensures Opening(ordered, slot) == Before(ordered, slot) && Positive(Before(ordered, slot))
    ensures Total(Before(ordered, slot)) == if ordered == [] then 0 else ordered[0].pre
  {
  }

  /** All lots of a walk, oldest first: what was held before it, then every inflow. */
  function AllLots(w: Walked): seq<Lot> {
    Before(Reverse(w.changes), w.oldestSlot) + Inflows(Reverse(w.changes))
  }

  /** What the walked changes alone account for. */
  function Held(w: Walked): nat
    requires PositiveInflows(w.changes)
  {
    ReverseInflows(w.changes);
    OpeningIs(Reverse(w.changes), w.oldestSlot);
    ReplayOk(Before(Reverse(w.changes), w.oldestSlot), Reverse(w.changes));
    Total(Replay(Before(Reverse(w.changes), w.oldestSlot), Reverse(w.changes)).value)
  }

  lemma ReverseInflows(cs: seq<Change>)
    requires PositiveInflows(cs)
    ensures PositiveInflows(Reverse(cs))
  {
  }

  /**
   * The rebuilt lots are all lots of the walk less their oldest tokens, down to the current balance; if the walk
   * accounts for less than that, one unresolved lot makes up the difference. Basis aside, nothing else matters.
   */
  lemma RebuildIsQueue(w: Walked, current: nat)
    requires PositiveInflows(w.changes)
    ensures Rebuild(w, current).Ok?
    ensures var all, lots := AllLots(w), Rebuild(w, current).value;
            && Positive(Bare(all)) && Held(w) <= Total(Bare(all)) == Total(all)
            && (Held(w) >= current ==> Bare(lots) == Leaves(Bare(all), Total(all) - current))
            && (Held(w) < current ==>
                  Bare(lots) == Leaves(Bare(all), Total(all) - Held(w))
                                + [Lot(current - Held(w), 0, w.oldestSlot, "", ColdUnresolved, true)])
  {
    hide Replay, Leaves, Bare, Before, Inflows, Opening, QueueOf, Reconcile, Total;
    var ordered := Reverse(w.changes);
    ReverseInflows(w.changes);
    OpeningIs(ordered, w.oldestSlot);
    ReplayIsQueue(Before(ordered, w.oldestSlot), ordered);
    var held := Replay(Before(ordered, w.oldestSlot), ordered).value;
    var all := AllLots(w);
    QueueFacts(held, all);
    ReconcileQueue(all, held, current, w.oldestSlot);
  }

  lemma QueueFacts(out: seq<Lot>, all: seq<Lot>)
    requires QueueOf(out, all)
    ensures Positive(Bare(all)) && Total(out) <= Total(all) == Total(Bare(all))
  {
  }

  lemma ReconcileQueue(all: seq<Lot>, held: seq<Lot>, current: nat, slot: nat)
    requires Positive(held) && QueueOf(held, all)
    ensures Positive(Bare(all)) && Total(held) <= Total(all) == Total(Bare(all))
    ensures Reconcile(held, current, slot).Ok?
    ensures var lots := Reconcile(held, current, slot).value;
            && (Total(held) >= current ==> Bare(lots) == Leaves(Bare(all), Total(all) - current))
            && (Total(held) < current ==>
                  Bare(lots) == Leaves(Bare(all), Total(all) - Total(held))
                                + [Lot(current - Total(held), 0, slot, "", ColdUnresolved, true)])
  {
    hide Leaves, Bare, ReduceSpec;
    var total := Total(held);
    if total > current {
      FifoLeaves(held, total - current, 0);
      BareLeaves(held, total - current);
      BareNoBasis(all);
      LeavesTwice(Bare(all), Total(all) - total, total - current);
    } else if total < current {
      var l := Lot(current - total, 0, slot, "", ColdUnresolved, true);
      BareJoin(held, [l]);
      BareOne(l);
    }
  }

  lemma BareOne(l: Lot)
    requires l.basis == 0
    ensures Bare([l]) == [l]
  {
  }

  /** On a continuous history the walk accounts for its newest balance, and every token spent has left the queue. */
  lemma ContinuousHeld(w: Walked)
    requires PositiveInflows(w.changes) && Continuous(w.changes)
    ensures Held(w) == if w.changes == [] then 0 else w.changes[0].post
    ensures Held(w) + Spent(Reverse(w.changes)) == Total(AllLots(w))
  {
    hide Replay, Before, Inflows, Opening;
    var ordered := Reverse(w.changes);
    ReverseInflows(w.changes);
    ReverseChained(w.changes);
    OpeningIs(ordered, w.oldestSlot);
    NothingClamped(Before(ordered, w.oldestSlot), ordered);
    ReplayTracks(Before(ordered, w.oldestSlot), ordered);
    if ordered == [] {
      NoReplay(Before(ordered, w.oldestSlot));
    }
  }

  lemma NoReplay(lots: seq<Lot>)
    ensures Replay(lots, []) == Ok(lots)
  {
  }

  // ---- How much of the result has no known basis ----

  lemma {:induction false} UnaccountedJoin(a: seq<Lot>, b: seq<Lot>)
    ensures Unaccounted(a + b) == Unaccounted(a) + Unaccounted(b)
    decreases |a|
  {
    if a == [] {
      assert a + b == b;
    } else {
      UnaccountedJoin(a[1..], b);
      assert (a + b)[1..] == a[1..] + b && (a + b)[0] == a[0];
    }
  }

  lemma {:induction false} UnaccountedBare(lots: seq<Lot>)
    ensures Unaccounted(Bare(lots)) == Unaccounted(lots)
    decreases |lots|
  {
    if lots != [] {
      UnaccountedBare(lots[1..]);
      assert Bare(lots)[1..] == Bare(lots[1..]);
    }
  }

  /** Resolved lots behind at most one unresolved lot: what is dropped takes from the unresolved one first. */
  lemma {:induction false} UnaccountedLeaves(lots: seq<Lot>, n: nat)
    requires Positive(lots) && n <= Total(lots)
    requires forall i :: 0 < i < |lots| ==> !lots[i].unresolved
    ensures Unaccounted(Leaves(lots, n))
            == if lots != [] && lots[0].unresolved && n < lots[0].amount then lots[0].amount - n else 0
    decreases |lots|
  {
    hide TruncDiv;
    if lots != [] {
      var rest := lots[1..];
      assert forall i :: 0 <= i < |rest| ==> rest[i] == lots[i + 1];
      AllResolved(rest);
      if n < lots[0].amount {
        UnaccountedJoin([Cut(lots[0], n)], rest);
        OneUnaccounted(Cut(lots[0], n));
      } else {
        UnaccountedLeaves(rest, n - lots[0].amount);
      }
    }
  }

  lemma {:induction false} AllResolved(lots: seq<Lot>)
    requires forall i :: 0 <= i < |lots| ==> !lots[i].unresolved
    ensures Unaccounted(lots) == 0
    decreases |lots|
  {
    if lots != [] {
      AllResolved(lots[1..]);
    }
  }

  lemma OneUnaccounted(l: Lot)
    ensures Unaccounted([l]) == if l.unresolved then l.amount else 0
  {
    assert Unaccounted([l][1..]) == 0;
  }

  ghost predicate ResolvedInflows(cs: seq<Change>) {
    forall i :: 0 <= i < |cs| ==> !cs[i].inflow.unresolved
  }

  lemma {:induction false} InflowsResolved(ordered: seq<Change>)
    requires ResolvedInflows(ordered)
    ensures forall i :: 0 <= i < |Inflows(ordered)| ==> !Inflows(ordered)[i].unresolved
    decreases |ordered|
  {
    if ordered != [] {
      InflowsResolved(ordered[1..]);
    }
  }

  /**
   * When every inflow was resolved, the tokens reported as unaccounted are what is left of the balance before the walk
   * and what the walk does not explain, and no others.
   */
  lemma UnaccountedIs(w: Walked, current: nat)
    requires PositiveInflows(w.changes) && ResolvedInflows(w.changes)
    ensures Rebuild(w, current).Ok?
    ensures var before := if w.changes == [] then 0 else w.changes[|w.changes| - 1].pre;
            var dropped := Total(AllLots(w)) - Min(Held(w), current);
            Unaccounted(Rebuild(w, current).value)
            == (if dropped < before then before - dropped else 0)
               + if Held(w) < current then current - Held(w) else 0
  {
    hide Rebuild, Leaves, Bare, Inflows, Total, Unaccounted, Held;
    RebuildIsQueue(w, current);
    var ordered := Reverse(w.changes);
    var all, lots := AllLots(w), Rebuild(w, current).value;
    var n := Total(all) - Min(Held(w), current);
    InflowsResolved(ordered);
    UnaccountedBare(lots);
    UnaccountedLeaves(Bare(all), n);
    if Held(w) < current {
      var l := Lot(current - Held(w), 0, w.oldestSlot, "", ColdUnresolved, true);
      UnaccountedJoin(Leaves(Bare(all), n), [l]);
      OneUnaccounted(l);
    }
  }

  // ---- What the walk reads ----

  /** Entries up to the first one older than the lookback. */
  ghost predicate Reach(h: seq<Entry>, cutoff: int, k: nat) {
    && k <= |h|
    && (forall i :: 0 <= i < k ==> h[i].blockTime.None? || h[i].blockTime.value >= cutoff)
    && (k < |h| ==> h[k].blockTime.Some? && h[k].blockTime.value < cutoff)
  }

  /** A landed transaction of the wallet that the node still returns. */
  predicate Landed(e: Entry) {
    !e.failed && e.tx.Some? && !e.tx.value.failed
  }

  /** Every landed transaction that moved the balance, newest first. */
  function ChangesIn(h: seq<Entry>): seq<Change> {
    if h == [] then []
    else
      var e := h[|h| - 1];
      ChangesIn(h[..|h| - 1])
      + if Landed(e) && e.tx.value.pre != e.tx.value.post
        then [Change(e.sig, e.slot, e.tx.value.pre, e.tx.value.post, e.tx.value.inflow)] else []
  }

  /** The slot of the oldest landed transaction. */
  function OldestLanded(h: seq<Entry>, none: nat): nat {
    if h == [] then none
    else if Landed(h[|h| - 1]) then h[|h| - 1].slot
    else OldestLanded(h[..|h| - 1], none)
  }

  lemma {:induction false} ChangesCons(e: Entry, h: seq<Entry>)
    ensures ChangesIn([e] + h) == ChangesIn([e]) + ChangesIn(h)
    ensures forall none :: OldestLanded([e] + h, none) == OldestLanded(h, OldestLanded([e], none))
    decreases |h|
  {
    if h == [] {
      assert [e] + h == [e];
    } else {
      var all := [e] + h;
      assert all[..|all| - 1] == [e] + h[..|h| - 1] && all[|all| - 1] == h[|h| - 1];
      ChangesCons(e, h[..|h| - 1]);
    }
  }

  lemma OneChange(e: Entry)
    ensures ChangesIn([e]) == if Landed(e) && e.tx.value.pre != e.tx.value.post
                              then [Change(e.sig, e.slot, e.tx.value.pre, e.tx.value.post, e.tx.value.inflow)] else []
    ensures forall none :: OldestLanded([e], none) == if Landed(e) then e.slot else none
  {
    assert [e][..0] == [];
  }

  /** The full walk collects every change in reach, and the slot of the oldest landed transaction in reach. */
  lemma {:induction false} ScanReads(h: seq<Entry>, cutoff: int, oldest: nat, k: nat)
    requires Reach(h, cutoff, k)
    ensures Scan(h, cutoff, oldest, false) == Walked(ChangesIn(h[..k]), OldestLanded(h[..k], oldest))
    decreases |h|
  {
    hide ChangesIn, OldestLanded;
    if k == 0 {
      NothingRead(oldest);
      assert h[..k] == [];
    } else {
      var e := h[0];
      assert h[..k] == [e] + h[1..][..k - 1];
      ChangesCons(e, h[1..][..k - 1]);
      OneChange(e);
      ScanReads(h[1..], cutoff, if Landed(e) then e.slot else oldest, k - 1);
    }
  }

  lemma NothingRead(none: nat)
    ensures ChangesIn([]) == [] && OldestLanded([], none) == none
  {
  }

  /** The early stop reports the slot of the transaction it stopped at. */
  lemma {:induction false} EarlySlot(h: seq<Entry>, cutoff: int, oldest: nat)
    ensures var w := Scan(h, cutoff, oldest, true);
            w.changes != [] && w.changes[|w.changes| - 1].pre == 0 ==> w.oldestSlot == w.changes[|w.changes| - 1].slot
    decreases |h|
  {
    if h != [] && !TooOld(h[0], cutoff) {
      EarlySlot(h[1..], cutoff, oldest);
      EarlySlot(h[1..], cutoff, h[0].slot);
    }
  }
}
