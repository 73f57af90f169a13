/** Cold-start cost-basis reconstruction (packages/solana-portfolio/src/reconstructor.ts). */
module Reconstructor {
  import opened Wrappers
  import opened Bytes
  import opened Lots
  import opened LotFacts

  const SIG_PAGE_SIZE := 1000

  /** A transaction of the wallet: its balance of the mint before and after, and the lot an inflow classifies to. */
  datatype Tx = Tx(failed: bool, pre: nat, post: nat, inflow: Lot)

  /** One entry of the newest-first signature listing, with the transaction the node returns for it, if any. */
  datatype Entry = Entry(sig: string, slot: nat, blockTime: Option<int>, failed: bool, tx: Option<Tx>)

  datatype Change = Change(sig: string, slot: nat, pre: nat, post: nat, inflow: Lot)

  ghost predicate DistinctSigs(h: seq<Entry>) {
    forall i, j :: 0 <= i < j < |h| ==> h[i].sig != h[j].sig
  }

  predicate TooOld(e: Entry, cutoff: int) {
    e.blockTime.Some? && e.blockTime.value < cutoff
  }

  predicate Usable(e: Entry) {
    !e.failed && e.tx.Some? && !e.tx.value.failed
  }

  function ChangeOf(e: Entry): Change
    requires Usable(e)
  {
    Change(e.sig, e.slot, e.tx.value.pre, e.tx.value.post, e.tx.value.inflow)
  }

  datatype Walked = Walked(changes: seq<Change>, oldestSlot: nat)

  /**
   * The walk over the flat listing. With `stopAtOpening` it ends at the transaction that opened the position
   * (balance 0 before it); without, it goes on to the lookback cutoff.
   */
  function Scan(h: seq<Entry>, cutoff: int, oldest: nat, stopAtOpening: bool): Walked {
    if h == [] || TooOld(h[0], cutoff) then Walked([], oldest)
    else if !Usable(h[0]) then Scan(h[1..], cutoff, oldest, stopAtOpening)
    else
      var c := ChangeOf(h[0]);
      if c.pre == c.post then Scan(h[1..], cutoff, h[0].slot, stopAtOpening)
      else if c.pre == 0 && stopAtOpening then Walked([c], h[0].slot)
      else
        var rest := Scan(h[1..], cutoff, h[0].slot, stopAtOpening);
        Walked([c] + rest.changes, rest.oldestSlot)
  }

  // ---- The paged walk ----

  function IndexOfSig(h: seq<Entry>, sig: string): (i: nat)
    ensures i <= |h|
    ensures i < |h| ==> h[i].sig == sig
  {
    if h == [] || h[0].sig == sig then 0 else 1 + IndexOfSig(h[1..], sig)
  }

  /** The node's answer for one page: up to `SIG_PAGE_SIZE` entries older than `before`. */
  function Page(h: seq<Entry>, before: Option<string>): (p: seq<Entry>)
    ensures |p| <= SIG_PAGE_SIZE
  {
    var start := if before.None? then 0 else Min(IndexOfSig(h, before.value) + 1, |h|);
    h[start..Min(start + SIG_PAGE_SIZE, |h|)]
  }

  lemma {:induction false} IndexOfSigAt(h: seq<Entry>, i: nat)
    requires DistinctSigs(h) && i < |h|
    ensures IndexOfSig(h, h[i].sig) == i
  {
    if i > 0 {
      assert h[1..][i - 1] == h[i];
      IndexOfSigAt(h[1..], i - 1);
    }
  }

  /** Scanning one more entry, with `done` already collected. */
  function Joined(done: seq<Change>, rest: Walked): Walked {
    Walked(done + rest.changes, rest.oldestSlot)
  }

  lemma JoinedNothing(w: Walked)
    ensures Joined([], w) == w
  {
    assert [] + w.changes == w.changes;
  }

  lemma ScanEnd(cutoff: int, oldest: nat, done: seq<Change>)
    ensures Joined(done, Scan([], cutoff, oldest, true)) == Walked(done, oldest)
  {
    assert done + [] == done;
  }

  /** What the walk makes of the entry at `pos`. */
  lemma ScanStep(h: seq<Entry>, pos: nat, cutoff: int, oldest: nat, done: seq<Change>)
    requires pos < |h|
    ensures var e := h[pos];
            Joined(done, Scan(h[pos..], cutoff, oldest, true)) ==
            if TooOld(e, cutoff) then Walked(done, oldest)
            else if !Usable(e) then Joined(done, Scan(h[pos + 1..], cutoff, oldest, true))
            else if e.tx.value.pre == e.tx.value.post then Joined(done, Scan(h[pos + 1..], cutoff, e.slot, true))
            else if e.tx.value.pre == 0 then Walked(done + [ChangeOf(e)], e.slot)
            else Joined(done + [ChangeOf(e)], Scan(h[pos + 1..], cutoff, e.slot, true))
  {
    var e := h[pos];
    assert h[pos..][0] == e && h[pos..][1..] == h[pos + 1..];
    assert done + [] == done;
    if Usable(e) {
      var rest := Scan(h[pos + 1..], cutoff, e.slot, true).changes;
      assert done + ([ChangeOf(e)] + rest) == done + [ChangeOf(e)] + rest;
    }
  }

  method Unseen(page: seq<Entry>, seen: set<string>) returns (unseen: seq<Entry>)
    requires forall i :: 0 <= i < |page| ==> page[i].sig !in seen
    ensures unseen == page
  {
    unseen := [];
    for i := 0 to |page|
      invariant unseen == page[..i]
    {
      if page[i].sig !in seen {
        unseen := unseen + [page[i]];
      }
    }
    assert page[..|page|] == page;
  }

  /** The walk as the source runs it, page by page with a `before` cursor and a `seen` set. */
  method Walk(h: seq<Entry>, cutoff: int) returns (w: Walked)
    requires DistinctSigs(h)
    ensures w == Scan(h, cutoff, 0, true)
  {
    hide Page, Scan, Joined;
    var changes: seq<Change> := [];
    var seen: set<string> := {};
    var oldestSlot: nat := 0;
    var before: Option<string> := None;
    ghost var pos := 0;
    assert h[0..] == h;
    JoinedNothing(Scan(h, cutoff, 0, true));
    while true
      invariant 0 <= pos <= |h|
      invariant Scan(h, cutoff, 0, true) == Joined(changes, Scan(h[pos..], cutoff, oldestSlot, true))
      invariant before == if pos == 0 then None else Some(h[pos - 1].sig)
      invariant forall s :: s in seen ==> exists i :: 0 <= i < pos && h[i].sig == s
      decreases |h| - pos
    {
      PageIs(h, pos);
      var page := Page(h, before);
      var unseen := Unseen(page, seen);
      if |unseen| == 0 {
        break;
      }
      ghost var start := pos;
      for k := 0 to |unseen|
        invariant pos == start + k && page == unseen == h[start..start + |page|] && start + |page| <= |h|
        invariant Scan(h, cutoff, 0, true) == Joined(changes, Scan(h[pos..], cutoff, oldestSlot, true))
        invariant forall s :: s in seen ==> exists i :: 0 <= i < pos && h[i].sig == s
      {
        var e := unseen[k];
        assert h[pos] == e;
        ScanStep(h, pos, cutoff, oldestSlot, changes);
        seen := seen + {e.sig};
        pos := pos + 1;
        assert h[pos - 1].sig == e.sig;
        if TooOld(e, cutoff) {
          return Walked(changes, oldestSlot);
        }
        if e.failed {
          continue;
        }
        if e.tx.None? || e.tx.value.failed {
          continue;
        }
        oldestSlot := e.slot;
        if e.tx.value.pre == e.tx.value.post {
          continue;
        }
        changes := changes + [ChangeOf(e)];
        if e.tx.value.pre == 0 {
          return Walked(changes, oldestSlot);
        }
      }
      if |page| < SIG_PAGE_SIZE {
        break;
      }
      before := Some(page[|page| - 1].sig);
    }
    assert h[pos..] == [];
    ScanEnd(cutoff, oldestSlot, changes);
    return Walked(changes, oldestSlot);
  }

  lemma PageIs(h: seq<Entry>, pos: nat)
    requires DistinctSigs(h) && pos <= |h|
    ensures var before := if pos == 0 then None else Some(h[pos - 1].sig);
            && Page(h, before) == h[pos..Min(pos + SIG_PAGE_SIZE, |h|)]
            && (forall i, j :: 0 <= i < pos && 0 <= j < |Page(h, before)| ==> h[i].sig != Page(h, before)[j].sig)
  {
    if pos > 0 {
      IndexOfSigAt(h, pos - 1);
    }
  }

  // ---- Replay and reconciliation ----

  function UnresolvedLot(amount: nat, slot: nat): Lot {
    Lot(amount, 0, slot, "", ColdUnresolved, true)
  }

  /** One change: an inflow adds its lot, an outflow consumes FIFO at most what is held. */
  function ReplayOne(lots: seq<Lot>, c: Change): Result<seq<Lot>, Error> {
    if c.post > c.pre then Ok(lots + [c.inflow])
    else
      var r :- ReduceSpec(lots, Min(c.pre - c.post, Total(lots)), 0, Fifo);
      Ok(r.remaining)
  }

  /** Oldest to newest. */
  function Replay(lots: seq<Lot>, ordered: seq<Change>): Result<seq<Lot>, Error>
    decreases |ordered|
  {
    if ordered == [] then Ok(lots)
    else
      var next :- ReplayOne(lots, ordered[0]);
      Replay(next, ordered[1..])
  }

  function Reconcile(lots: seq<Lot>, current: nat, slot: nat): Result<seq<Lot>, Error> {
    var total := Total(lots);
    if total > current then
      var r :- ReduceSpec(lots, total - current, 0, Fifo);
      Ok(r.remaining)
    else if total < current then Ok(lots + [UnresolvedLot(current - total, slot)])
    else Ok(lots)
  }

  function Opening(ordered: seq<Change>, slot: nat): seq<Lot> {
    if ordered == [] || ordered[0].pre == 0 then [] else [UnresolvedLot(ordered[0].pre, slot)]
  }

  function Rebuild(w: Walked, current: nat): Result<seq<Lot>, Error> {
    var ordered := Reverse(w.changes);
    var lots :- Replay(Opening(ordered, w.oldestSlot), ordered);
    Reconcile(lots, current, w.oldestSlot)
  }

  method ReplayLoop(start: seq<Lot>, ordered: seq<Change>) returns (r: Result<seq<Lot>, Error>)
    ensures r == Replay(start, ordered)
  {
    hide ReduceSpec;
    var lots := start;
    assert ordered[0..] == ordered;
    for i := 0 to |ordered|
      invariant Replay(start, ordered) == Replay(lots, ordered[i..])
    {
      var c := ordered[i];
      assert ordered[i..][1..] == ordered[i + 1..];
      var delta := c.post - c.pre;
      if delta > 0 {
        lots := lots + [c.inflow];
      } else {
        var held := Total(lots);
        var out := if -delta < held then -delta else held;
        var reduced := ReduceLots(lots, out, 0, Fifo);
        if reduced.Err? {
          return Err(reduced.error);
        }
        lots := reduced.value.remaining;
      }
    }
    return Ok(lots);
  }

  /** reconstruct: walk, replay, reconcile; also reports how much of the result has unresolved basis. */
  method Reconstruct(h: seq<Entry>, cutoff: int, current: nat)
    returns (r: Result<seq<Lot>, Error>, unaccounted: nat)
    requires DistinctSigs(h)
    ensures r == Rebuild(Scan(h, cutoff, 0, true), current)
    ensures r.Ok? ==> unaccounted == Unaccounted(r.value)
  {
    hide Scan, Replay, ReduceSpec;
    unaccounted := 0;
    var w := Walk(h, cutoff);
    var ordered := Reverse(w.changes);
    var replayed := ReplayLoop(Opening(ordered, w.oldestSlot), ordered);
    if replayed.Err? {
      return Err(replayed.error), 0;
    }
    var lots := replayed.value;
    var total := Total(lots);
    if total > current {
      var trimmed := ReduceLots(lots, total - current, 0, Fifo);
      if trimmed.Err? {
        return Err(trimmed.error), 0;
      }
      lots := trimmed.value.remaining;
    } else if total < current {
      lots := lots + [UnresolvedLot(current - total, w.oldestSlot)];
    }
    return Ok(lots), Unaccounted(lots);
  }

  function Unaccounted(lots: seq<Lot>): nat {
    if lots == [] then 0 else (if lots[0].unresolved then lots[0].amount else 0) + Unaccounted(lots[1..])
  }

  // ---- Any history: the lots add up to the current balance ----

  ghost predicate PositiveInflows(cs: seq<Change>) {
    forall i :: 0 <= i < |cs| ==> cs[i].inflow.amount > 0
  }

  lemma ReplayOneOk(lots: seq<Lot>, c: Change)
    requires Positive(lots) && c.inflow.amount > 0
    ensures ReplayOne(lots, c).Ok? && Positive(ReplayOne(lots, c).value)
    ensures Total(ReplayOne(lots, c).value) ==
            if c.post > c.pre then Total(lots) + c.inflow.amount else Total(lots) - Min(c.pre - c.post, Total(lots))
  {
    hide ReduceSpec;
    if c.post > c.pre {
      TotalAppend(lots, [c.inflow]);
    } else {
      ReduceConserves(lots, Min(c.pre - c.post, Total(lots)), 0, Fifo);
    }
  }

  lemma {:induction false} ReplayOk(lots: seq<Lot>, ordered: seq<Change>)
    requires Positive(lots) && PositiveInflows(ordered)
    ensures Replay(lots, ordered).Ok? && Positive(Replay(lots, ordered).value)
    decreases |ordered|
  {
    hide ReplayOne;
    if ordered != [] {
      ReplayOneOk(lots, ordered[0]);
      ReplayOk(ReplayOne(lots, ordered[0]).value, ordered[1..]);
    }
  }

  /**
   * Whatever the history (gaps, clamped outflows, missing inflows), reconstruction succeeds and the lots add up
   * exactly to the current balance.
   */
  lemma RebuildSumsToBalance(w: Walked, current: nat)
    requires PositiveInflows(w.changes)
    ensures Rebuild(w, current).Ok?
    ensures Positive(Rebuild(w, current).value) && Total(Rebuild(w, current).value) == current
  {
    hide ReduceSpec, Replay;
    var ordered := Reverse(w.changes);
    ReplayOk(Opening(ordered, w.oldestSlot), ordered);
    var lots := Replay(Opening(ordered, w.oldestSlot), ordered).value;
    if Total(lots) > current {
      ReduceConserves(lots, Total(lots) - current, 0, Fifo);
    } else if Total(lots) < current {
      TotalAppend(lots, [UnresolvedLot(current - Total(lots), w.oldestSlot)]);
    }
  }

  // ---- Early stop refines full replay ----

  /** Newest first: every balance change continues the one before it, and inflow lots have the inflow's size. */
  ghost predicate Continuous(cs: seq<Change>) {
    && (forall i :: 0 <= i < |cs| - 1 ==> cs[i].pre == cs[i + 1].post)
    && (forall i :: 0 <= i < |cs| && cs[i].post > cs[i].pre ==> cs[i].inflow.amount == cs[i].post - cs[i].pre)
  }

  /** Oldest first. */
  ghost predicate Chained(ordered: seq<Change>) {
    && (forall i :: 0 < i < |ordered| ==> ordered[i].pre == ordered[i - 1].post)
    && (forall i :: 0 <= i < |ordered| && ordered[i].post > ordered[i].pre ==>
          ordered[i].inflow.amount == ordered[i].post - ordered[i].pre)
  }

  lemma ReverseChained(cs: seq<Change>)
    requires Continuous(cs)
    ensures Chained(Reverse(cs))
  {
    var r := Reverse(cs);
    forall i | 0 < i < |r|
      ensures r[i].pre == r[i - 1].post
    {
      assert cs[|cs| - 1 - i].pre == cs[|cs| - 1 - i + 1].post;
    }
  }

  /** Along a chained history the lots always hold exactly the wallet's balance. */
  lemma {:induction false} ReplayTracks(lots: seq<Lot>, ordered: seq<Change>)
    requires Positive(lots) && PositiveInflows(ordered) && Chained(ordered)
    requires ordered != [] ==> Total(lots) == ordered[0].pre
    ensures Replay(lots, ordered).Ok? && Positive(Replay(lots, ordered).value)
    ensures ordered != [] ==> Total(Replay(lots, ordered).value) == ordered[|ordered| - 1].post
    decreases |ordered|
  {
    hide ReplayOne;
    if ordered != [] {
      ReplayOneOk(lots, ordered[0]);
      var next := ReplayOne(lots, ordered[0]).value;
      assert Total(next) == ordered[0].post;
      ReplayTracks(next, ordered[1..]);
    }
  }

  lemma {:induction false} ReplayConcat(lots: seq<Lot>, a: seq<Change>, b: seq<Change>)
    requires Replay(lots, a).Ok?
    ensures Replay(lots, a + b) == Replay(Replay(lots, a).value, b)
    decreases |a|
  {
    hide ReplayOne;
    if a == [] {
      assert a + b == b;
    } else {
      assert (a + b)[1..] == a[1..] + b;
      ReplayConcat(ReplayOne(lots, a[0]).value, a[1..], b);
    }
  }

  /** Newest-first changes up to and including the first that started from a zero balance. */
  function UpToOpening(cs: seq<Change>): seq<Change> {
    if cs == [] then [] else if cs[0].pre == 0 then [cs[0]] else [cs[0]] + UpToOpening(cs[1..])
  }

  lemma {:induction false} UpToOpeningPrefix(cs: seq<Change>)
    ensures var p := UpToOpening(cs); |p| <= |cs| && p == cs[..|p|]
    ensures var p := UpToOpening(cs); |p| < |cs| ==> p != [] && p[|p| - 1].pre == 0
  {
    if cs != [] && cs[0].pre != 0 {
      UpToOpeningPrefix(cs[1..]);
    }
  }

  /** The early-stopping walk returns exactly the prefix of the full walk that ends at the opening transaction. */
  lemma {:induction false} EarlyStopIsPrefix(h: seq<Entry>, cutoff: int, oldest: nat)
    ensures Scan(h, cutoff, oldest, true).changes == UpToOpening(Scan(h, cutoff, oldest, false).changes)
    decreases |h|
  {
    if h != [] && !TooOld(h[0], cutoff) {
      if !Usable(h[0]) {
        EarlyStopIsPrefix(h[1..], cutoff, oldest);
      } else {
        EarlyStopIsPrefix(h[1..], cutoff, h[0].slot);
        if h[0].tx.value.pre != h[0].tx.value.post {
          var rest := Scan(h[1..], cutoff, h[0].slot, false).changes;
          assert ([ChangeOf(h[0])] + rest)[1..] == rest;
        }
      }
    }
  }

  lemma {:induction false} ScanKeepsInflows(h: seq<Entry>, cutoff: int, oldest: nat, stop: bool)
    requires forall i :: 0 <= i < |h| && h[i].tx.Some? ==> h[i].tx.value.inflow.amount > 0
    ensures PositiveInflows(Scan(h, cutoff, oldest, stop).changes)
    decreases |h|
  {
    if h != [] && !TooOld(h[0], cutoff) {
      ScanKeepsInflows(h[1..], cutoff, oldest, stop);
      ScanKeepsInflows(h[1..], cutoff, h[0].slot, stop);
    }
  }

  /** Without an opening transaction in range, stopping early is not stopping at all. */
  lemma {:induction false} NoOpeningNoStop(h: seq<Entry>, cutoff: int, oldest: nat)
    requires forall i :: 0 <= i < |Scan(h, cutoff, oldest, false).changes| ==>
               Scan(h, cutoff, oldest, false).changes[i].pre != 0
    ensures Scan(h, cutoff, oldest, true) == Scan(h, cutoff, oldest, false)
    decreases |h|
  {
    if h != [] && !TooOld(h[0], cutoff) {
      if !Usable(h[0]) {
        assert Scan(h, cutoff, oldest, false) == Scan(h[1..], cutoff, oldest, false);
        NoOpeningNoStop(h[1..], cutoff, oldest);
      } else {
        var cs := Scan(h, cutoff, oldest, false).changes;
        var rest := Scan(h[1..], cutoff, h[0].slot, false).changes;
        if h[0].tx.value.pre != h[0].tx.value.post {
          assert cs == [ChangeOf(h[0])] + rest;
          assert cs[0].pre != 0;
          forall i | 0 <= i < |rest|
            ensures rest[i].pre != 0
          {
            assert cs[i + 1] == rest[i];
          }
        }
        NoOpeningNoStop(h[1..], cutoff, h[0].slot);
      }
    }
  }

  lemma SplitReverse(a: seq<Change>, b: seq<Change>)
    ensures Reverse(a + b) == Reverse(b) + Reverse(a)
  {
  }

  lemma ChainedParts(a: seq<Change>, b: seq<Change>)
    requires Chained(a + b)
    ensures Chained(a) && Chained(b)
    ensures a != [] && b != [] ==> b[0].pre == a[|a| - 1].post
  {
    var all := a + b;
    forall i | 0 <= i < |a|
      ensures all[i] == a[i]
    {
    }
    forall i | 0 <= i < |b|
      ensures all[|a| + i] == b[i]
    {
    }
    forall i | 0 < i < |b|
      ensures b[i].pre == b[i - 1].post
    {
      assert all[|a| + i].pre == all[|a| + i - 1].post;
    }
    if a != [] && b != [] {
      assert all[|a|].pre == all[|a| - 1].post;
    }
  }

  lemma EmptyLots(lots: seq<Lot>)
    requires Positive(lots) && Total(lots) == 0
    ensures lots == []
  {
    if lots != [] {
      TotalPositive(lots);
    }
  }

  /** The balance at the opening transaction is zero, so no older lot is left and older history cannot matter. */
  lemma OlderHistoryIsGone(older: seq<Change>, ordered: seq<Change>, slot: nat)
    requires ordered != [] && ordered[0].pre == 0
    requires PositiveInflows(older) && PositiveInflows(ordered) && Chained(older + ordered)
    ensures Replay(Opening(older + ordered, slot), older + ordered) == Replay([], ordered)
    ensures Replay([], ordered).Ok? && Total(Replay([], ordered).value) == ordered[|ordered| - 1].post
  {
    hide ReplayOne, Replay;
    ChainedParts(older, ordered);
    ReplayTracks([], ordered);
    if older == [] {
      assert older + ordered == ordered;
    } else {
      var open := Opening(older + ordered, slot);
      assert (older + ordered)[0] == older[0];
      ReplayTracks(open, older);
      EmptyLots(Replay(open, older).value);
      ReplayConcat(open, older, ordered);
    }
  }

  /**
   * The early-stopping walk refines full replay: on a continuous history whose newest balance is the current one,
   * stopping at the opening transaction reconstructs the same lots as replaying everything in range.
   */
  lemma EarlyStopRefinesFullReplay(h: seq<Entry>, cutoff: int, oldest: nat, current: nat)
    requires forall i :: 0 <= i < |h| && h[i].tx.Some? ==> h[i].tx.value.inflow.amount > 0
    requires Continuous(Scan(h, cutoff, oldest, false).changes)
    requires var cs := Scan(h, cutoff, oldest, false).changes; cs != [] ==> cs[0].post == current
    ensures Rebuild(Scan(h, cutoff, oldest, true), current) == Rebuild(Scan(h, cutoff, oldest, false), current)
    ensures Rebuild(Scan(h, cutoff, oldest, true), current).Ok?
  {
    hide Replay, Scan, ReduceSpec, Continuous, Chained;
    var full, early := Scan(h, cutoff, oldest, false), Scan(h, cutoff, oldest, true);
    ScanKeepsInflows(h, cutoff, oldest, false);
    EarlyStopIsPrefix(h, cutoff, oldest);
    UpToOpeningPrefix(full.changes);
    ScanKeepsInflows(h, cutoff, oldest, true);
    RebuildSumsToBalance(early, current);
    var p := early.changes;
    if p != [] && p[|p| - 1].pre == 0 {
      var older := full.changes[|p|..];
      assert full.changes == p + older;
      SplitReverse(p, older);
      ReverseChained(full.changes);
      OlderHistoryIsGone(Reverse(older), Reverse(p), full.oldestSlot);
      assert Reverse(p)[|p| - 1] == full.changes[0];
      assert Opening(Reverse(p), early.oldestSlot) == [];
    } else {
      NoZeroBefore(full.changes);
      NoOpeningNoStop(h, cutoff, oldest);
    }
  }

  lemma {:induction false} NoZeroBefore(cs: seq<Change>)
    requires var p := UpToOpening(cs); p == [] || p[|p| - 1].pre != 0
    ensures forall i :: 0 <= i < |cs| ==> cs[i].pre != 0
  {
    if cs != [] && cs[0].pre != 0 {
      var rest := UpToOpening(cs[1..]);
      assert UpToOpening(cs) == [cs[0]] + rest;
      NoZeroBefore(cs[1..]);
    }
  }
}
