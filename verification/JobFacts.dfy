/** What each job that changes a wallet file does to it (packages/solana-portfolio/src/store-file.ts). */
module JobFacts {
  import opened Wrappers
  import opened Bytes
  import opened Lots
  import opened Ledger
  import opened LedgerJobs

  /** The slot of the newest lot, 0 without any. */
  ghost predicate Newest(slot: nat, lots: seq<Lot>) {
    && (forall i :: 0 <= i < |lots| ==> lots[i].slot <= slot)
    && if lots == [] then slot == 0 else exists i :: 0 <= i < |lots| && lots[i].slot == slot
  }

  lemma {:induction false} MaxSlotIs(lots: seq<Lot>)
    ensures Newest(MaxSlot(lots), lots)
    decreases |lots|
  {
    if lots != [] {
      var front := lots[..|lots| - 1];
      MaxSlotIs(front);
      assert lots[|lots| - 1].slot <= MaxSlot(lots);
      if MaxSlot(lots) != lots[|lots| - 1].slot && front != [] {
        var i :| 0 <= i < |front| && front[i].slot == MaxSlot(front);
        assert lots[i].slot == MaxSlot(lots);
      }
    }
  }

  // ---- Observing a wallet ----

  /** The first holding of its mint with a balance, and of a mint that had no position. */
  ghost predicate Starts(ps: seq<Position>, held: seq<Holding>, i: nat) {
    && i < |held| && held[i].balance > 0 && !HasMint(ps, held[i].mint)
    && forall j :: 0 <= j < i && held[j].balance > 0 ==> held[j].mint != held[i].mint
  }

  ghost predicate StartsWith(h: Holding, p: Position) {
    p.mint == h.mint && p.lots == h.lots && Newest(p.slot, h.lots)
  }

  /** The new positions follow the old ones, one for each holding that starts one, in the order of the holdings. */
  ghost predicate StartedAt(ps: seq<Position>, held: seq<Holding>, after: seq<Position>, at: seq<nat>) {
    && |after| == |ps| + |at| && after[..|ps|] == ps
    && (forall i: nat :: i in at <==> Starts(ps, held, i))
    && (forall j, k :: 0 <= j < k < |at| ==> at[j] < at[k])
    && forall k :: 0 <= k < |at| ==> at[k] < |held| && StartsWith(held[at[k]], after[|ps| + k])
  }

  /** Holdings are taken up from the front, so the last one sees the positions the earlier ones started. */
  lemma {:induction false} StartedLast(ps: seq<Position>, held: seq<Holding>, h: Holding)
    ensures var before := Started(ps, held);
            Started(ps, held + [h])
            == if h.balance == 0 || PosIndex(before, h.mint) < |before| then before
               else before + [Position(h.mint, h.lots, MaxSlot(h.lots))]
    decreases |held|
  {
    hide PosIndex, MaxSlot;
    if held == [] {
      assert held + [h] == [h] && [h][1..] == [];
    } else {
      var g := held[0];
      var known := g.balance == 0 || PosIndex(ps, g.mint) < |ps|;
      assert (held + [h])[1..] == held[1..] + [h];
      StartedLast(if known then ps else ps + [Position(g.mint, g.lots, MaxSlot(g.lots))], held[1..], h);
    }
  }

  /** A mint has a position afterwards when it had one or a holding started one. */
  lemma KnownAfter(ps: seq<Position>, held: seq<Holding>, after: seq<Position>, at: seq<nat>, mint: string)
    requires StartedAt(ps, held, after, at)
    ensures HasMint(after, mint)
            <==> HasMint(ps, mint) || exists j :: 0 <= j < |held| && held[j].balance > 0 && held[j].mint == mint
  {
    hide StartsWith;
    assert forall i :: 0 <= i < |ps| ==> after[i] == after[..|ps|][i] == ps[i];
    if HasMint(ps, mint) {
      var i :| 0 <= i < |ps| && ps[i].mint == mint;
      assert after[i] == after[..|ps|][i];
    } else if j :| 0 <= j < |held| && held[j].balance > 0 && held[j].mint == mint {
      var i := FirstHolding(held, mint, j);
      assert Starts(ps, held, i);
      var k :| 0 <= k < |at| && at[k] == i;
      assert StartsWith(held[at[k]], after[|ps| + k]);
      MintOf(held[i], after[|ps| + k]);
    }
    if HasMint(after, mint) && !HasMint(ps, mint) {
      var i :| 0 <= i < |after| && after[i].mint == mint;
      assert i >= |ps|;
      var k := i - |ps|;
      assert after[|ps| + k] == after[i] && StartsWith(held[at[k]], after[|ps| + k]);
      MintOf(held[at[k]], after[i]);
      assert at[k] in at;
    }
  }

  lemma MintOf(h: Holding, p: Position)
    requires StartsWith(h, p)
    ensures p.mint == h.mint
  {
  }

  lemma {:induction false} FirstHolding(held: seq<Holding>, mint: string, j: nat) returns (i: nat)
    requires j < |held| && held[j].balance > 0 && held[j].mint == mint
    ensures i <= j && held[i].balance > 0 && held[i].mint == mint
    ensures forall k :: 0 <= k < i && held[k].balance > 0 ==> held[k].mint != mint
    decreases j
  {
    if k: nat :| k < j && held[k].balance > 0 && held[k].mint == mint {
      i := FirstHolding(held, mint, k);
    } else {
      i := j;
    }
  }

  lemma {:induction false} StartedIs(ps: seq<Position>, held: seq<Holding>) returns (at: seq<nat>)
    ensures StartedAt(ps, held, Started(ps, held), at)
    decreases |held|
  {
    hide Started, StartedAt, PosIndex, MaxSlot;
    if held == [] {
      at := [];
      NothingHeld(ps);
    } else {
      var front, h := held[..|held| - 1], held[|held| - 1];
      assert held == front + [h];
      var before := StartedIs(ps, front);
      StartedLast(ps, front, h);
      var mid := Started(ps, front);
      PosIndexNone(mid, h.mint);
      KnownAfter(ps, front, mid, before, h.mint);
      if h.balance == 0 || HasMint(mid, h.mint) {
        at := before;
        StartedSame(ps, front, mid, before, h);
      } else {
        at := before + [|front|];
        MaxSlotIs(h.lots);
        StartedMore(ps, front, mid, before, h, Position(h.mint, h.lots, MaxSlot(h.lots)));
      }
    }
  }

  lemma NothingHeld(ps: seq<Position>)
    ensures StartedAt(ps, [], Started(ps, []), [])
  {
  }

  lemma StartsFront(ps: seq<Position>, held: seq<Holding>, h: Holding, i: nat)
    requires i < |held|
    ensures Starts(ps, held + [h], i) <==> Starts(ps, held, i)
  {
    assert forall j :: 0 <= j <= i ==> (held + [h])[j] == held[j];
  }

  lemma StartsLast(ps: seq<Position>, held: seq<Holding>, h: Holding)
    ensures Starts(ps, held + [h], |held|)
            <==> h.balance > 0 && !HasMint(ps, h.mint)
                 && !exists j :: 0 <= j < |held| && held[j].balance > 0 && held[j].mint == h.mint
  {
    assert forall j :: 0 <= j < |held| ==> (held + [h])[j] == held[j];
  }

  lemma StartedSame(ps: seq<Position>, held: seq<Holding>, after: seq<Position>, at: seq<nat>, h: Holding)
    requires StartedAt(ps, held, after, at) && (h.balance == 0 || HasMint(after, h.mint))
    ensures StartedAt(ps, held + [h], after, at)
  {
    hide Starts, StartsWith;
    KnownAfter(ps, held, after, at, h.mint);
    StartsLast(ps, held, h);
    MembersAfter(ps, held, h, at, at);
  }

  lemma StartedMore(ps: seq<Position>, held: seq<Holding>, after: seq<Position>, at: seq<nat>, h: Holding, p: Position)
    requires StartedAt(ps, held, after, at) && h.balance > 0 && !HasMint(after, h.mint) && StartsWith(h, p)
    ensures StartedAt(ps, held + [h], after + [p], at + [|held|])
  {
    hide Starts, StartsWith;
    KnownAfter(ps, held, after, at, h.mint);
    StartsLast(ps, held, h);
    MembersAfter(ps, held, h, at, at + [|held|]);
  }

  lemma MembersAfter(ps: seq<Position>, held: seq<Holding>, h: Holding, at: seq<nat>, more: seq<nat>)
    requires forall i: nat :: i in at <==> Starts(ps, held, i)
    requires more == if Starts(ps, held + [h], |held|) then at + [|held|] else at
    ensures forall i: nat :: i in more <==> Starts(ps, held + [h], i)
  {
    forall i: nat
      ensures i in more <==> Starts(ps, held + [h], i)
    {
      if i < |held| {
        StartsFront(ps, held, h, i);
      }
    }
  }

  /**
   * Observing a wallet leaves its positions and totals alone; each held mint without a position gets one, holding the
   * reconstructed lots; and the accounting method changes only to one that is given.
   */
  lemma ObserveIs(d: WalletData, owner: string, accounting: Option<Method>, held: seq<Holding>) returns (at: seq<nat>)
    ensures Change(d, Observe(owner, accounting, held)).Ok?
    ensures var after := Change(d, Observe(owner, accounting, held)).value;
            && StartedAt(d.positions, held, after.positions, at)
            && after.realized == d.realized && after.byMint == d.byMint
            && after.accounting == (if accounting == None then d.accounting else accounting)
  {
    hide StartedAt, Started;
    at := StartedIs(d.positions, held);
  }

  // ---- Rebuilding a position, correcting a lot ----

  /** `after` is `before` but for the position of one mint, which keeps its place or comes last. */
  ghost predicate OnlyPosition(before: seq<Position>, after: seq<Position>, p: Position) {
    if HasMint(before, p.mint) then
      |after| == |before|
      && exists i :: 0 <= i < |before| && before[i].mint == p.mint && after[i] == p
                     && (forall j :: 0 <= j < i ==> before[j].mint != p.mint)
                     && forall j :: 0 <= j < |before| && j != i ==> after[j] == before[j]
    else after == before + [p]
  }

  lemma {:induction false} PosIndexFirst(ps: seq<Position>, mint: string)
    ensures forall j :: 0 <= j < PosIndex(ps, mint) ==> ps[j].mint != mint
    decreases |ps|
  {
    if ps != [] && ps[0].mint != mint {
      PosIndexFirst(ps[1..], mint);
      assert forall j :: 0 < j < |ps| ==> ps[j] == ps[1..][j - 1];
    }
  }

  lemma PutIs(ps: seq<Position>, p: Position)
    ensures OnlyPosition(ps, Put(ps, p), p)
  {
    PosIndexFirst(ps, p.mint);
    PosIndexNone(ps, p.mint);
    var i := PosIndex(ps, p.mint);
    if i < |ps| {
      assert Put(ps, p)[i] == p;
    }
  }

  /** A rebuilt position has the reconstructed lots and the slot of the newest; nothing else changes. */
  lemma RebuildIs(d: WalletData, owner: string, mint: string, lots: seq<Lot>) returns (slot: nat)
    ensures Newest(slot, lots) && Change(d, Rebuild(owner, mint, lots)).Ok?
    ensures var after := Change(d, Rebuild(owner, mint, lots)).value;
            after == d.(positions := after.positions)
            && OnlyPosition(d.positions, after.positions, Position(mint, lots, slot))
  {
    hide OnlyPosition, Put, MaxSlot;
    slot := MaxSlot(lots);
    MaxSlotIs(lots);
    PutIs(d.positions, Position(mint, lots, slot));
  }

  /** Which lot a correction means: the position of the mint, if there is one, and the lot of that index. */
  ghost predicate Meant(d: WalletData, mint: string, k: int, i: nat) {
    && i < |d.positions| && d.positions[i].mint == mint && (forall j :: 0 <= j < i ==> d.positions[j].mint != mint)
    && 0 <= k < |d.positions[i].lots|
  }

  /**
   * A correction sets that lot's basis and clears its unresolved mark, and changes nothing else; it is refused exactly
   * when the wallet has no position of the mint, or the position no such lot.
   */
  lemma CorrectIs(d: WalletData, owner: string, mint: string, k: int, basis: int)
    ensures var r := Change(d, Correct(owner, mint, k, basis));
            && (r == Err(NoPosition) <==> !HasMint(d.positions, mint))
            && (r == Err(LotOutOfRange) <==> HasMint(d.positions, mint) && !exists i :: Meant(d, mint, k, i))
            && (r.Ok? ==>
                  r.value == d.(positions := r.value.positions) && |r.value.positions| == |d.positions|
                  && exists i :: Meant(d, mint, k, i) && Corrected(d, r.value, i, k, basis))
  {
    var i := PosIndex(d.positions, mint);
    PosIndexFirst(d.positions, mint);
    PosIndexNone(d.positions, mint);
    forall n: nat | Meant(d, mint, k, n)
      ensures n == i
    {
      assert i < |d.positions| && d.positions[i].mint == mint;
      assert n >= i;
    }
    if i < |d.positions| && 0 <= k < |d.positions[i].lots| {
      assert Meant(d, mint, k, i);
      assert Corrected(d, Change(d, Correct(owner, mint, k, basis)).value, i, k, basis);
    }
  }

  ghost predicate Corrected(d: WalletData, after: WalletData, i: nat, k: int, basis: int)
    requires i < |d.positions| == |after.positions|
  {
    var p, q := d.positions[i], after.positions[i];
    && (forall j :: 0 <= j < |d.positions| && j != i ==> after.positions[j] == d.positions[j])
    && q == p.(lots := q.lots) && |q.lots| == |p.lots| && 0 <= k < |p.lots|
    && (forall j :: 0 <= j < |p.lots| && j != k ==> q.lots[j] == p.lots[j])
    && q.lots[k] == Lot(p.lots[k].amount, basis, p.lots[k].slot, p.lots[k].sig, p.lots[k].source, false)
  }

  // ---- The accounting method ----

  /** The method last chosen by an observation. */
  function Chosen(start: Option<Method>, js: seq<Job>): Option<Method> {
    if js == [] then start
    else
      var j := js[|js| - 1];
      if j.Observe? && j.accounting.Some? then j.accounting else Chosen(start, js[..|js| - 1])
  }

  /** Over any jobs a wallet sells by the method the last observation chose, and no other job changes it. */
  lemma {:induction false} MethodIsChosen(start: WalletData, js: seq<Job>)
    ensures Replay(start, js).data.accounting == Chosen(start.accounting, js)
    decreases |js|
  {
    hide ReduceSpec, Put, PosIndex, Started, MaxSlot;
    if js != [] {
      MethodIsChosen(start, js[..|js| - 1]);
    }
  }
}
