/** What a stored trade does to the books, from its own numbers (packages/solana-portfolio/src/store-file.ts). */
module LedgerEarnings {
  import opened Wrappers
  import opened Bytes
  import opened Lots
  import opened LotFacts
  import opened LotAverage
  import opened Ledger

  // ---- Purchases ----

  /** A buy appends one lot of its own tokens at the SOL it cost; positions of other mints and all totals stay. */
  lemma BuyAdds(d: WalletData, t: Trade)
    requires UniqueMints(d.positions) && AllPositive(d.positions) && t.amount > 0
    ensures Apply(d, t).Ok?
    ensures var after := Apply(d, t).value;
            && PositionOf(after, t.mint)
               == Position(t.mint,
                           PositionOf(d, t.mint).lots
                           + [Lot(t.amount, Max(-t.flow, 0), t.slot, t.sig, Source.Trade, false)],
                           t.slot)
            && (forall m :: m != t.mint ==> PositionOf(after, m).lots == PositionOf(d, m).lots)
            && after.realized == d.realized && after.byMint == d.byMint && after.accounting == d.accounting
  {
    hide PosIndex, Put;
    var pos := PositionOf(d, t.mint);
    PositionMintIs(d, t.mint);
    var p := Position(t.mint, pos.lots + [Lot(t.amount, Max(-t.flow, 0), t.slot, t.sig, Source.Trade, false)], t.slot);
    assert p == pos.(lots := pos.lots + [LotOf(t)], slot := t.slot);
    PositionPositive(d, t.mint);
    PutPositions(d, p);
    PutWhole(d, p);
  }

  lemma PositionMintIs(d: WalletData, mint: string)
    ensures PositionOf(d, mint).mint == mint
  {
  }

  /** The position just put is the one found. */
  lemma PutWhole(d: WalletData, p: Position)
    requires UniqueMints(d.positions)
    ensures forall e: WalletData :: e.positions == Put(d.positions, p) ==> PositionOf(e, p.mint) == p
    ensures forall e: WalletData, m :: e.positions == Put(d.positions, p) ==>
              PositionOf(e, m).lots == PositionOf(d.(positions := Put(d.positions, p)), m).lots
  {
    PutUnique(d.positions, p);
    var i := PosIndex(d.positions, p.mint);
    assert Put(d.positions, p)[i] == p;
    PosIndexAt(Put(d.positions, p), i);
  }

  // ---- Sales ----

  /** What the wallet received. */
  function Received(t: Trade): nat {
    if t.amount < 0 && t.flow > 0 then t.flow else 0
  }

  /** The basis a sale took out of the position. */
  function BasisOut(d: WalletData, t: Trade): int
    requires Apply(d, t).Ok?
  {
    TotalBasis(PositionOf(d, t.mint).lots) - TotalBasis(PositionOf(Apply(d, t).value, t.mint).lots)
  }

  function RealizedBy(d: WalletData, t: Trade): int
    requires Apply(d, t).Ok?
  {
    Apply(d, t).value.realized - d.realized
  }

  /** The lots a sale takes from, in the order it takes them. */
  function SellOrder(d: WalletData, t: Trade): seq<Lot> {
    InOrder(PositionOf(d, t.mint).lots, MethodOf(d))
  }

  ghost predicate NoLotExceeds(d: WalletData, t: Trade) {
    t.amount < 0 ==> NoTouchedLotExceeds(SellOrder(d, t), -t.amount, -t.amount)
  }

  /** How many lamports rounding can keep from being counted: one for each lot the sale touches but one. */
  function Slack(d: WalletData, t: Trade): int {
    if t.amount < 0 then Touched(SellOrder(d, t), -t.amount) - 1 else 0
  }

  /** Apply's sale, written out. */
  lemma SaleIs(d: WalletData, t: Trade)
    requires UniqueMints(d.positions) && t.amount < 0 && Apply(d, t).Ok?
    ensures var lots := PositionOf(d, t.mint).lots;
            var r := ReduceSpec(lots, -t.amount, Proceeds(t), MethodOf(d));
            && r.Ok?
            && PositionOf(Apply(d, t).value, t.mint) == Position(t.mint, r.value.remaining, t.slot)
            && Apply(d, t).value.realized == d.realized + r.value.realized
  {
    hide ReduceSpec, PosIndex, Put;
    var pos := PositionOf(d, t.mint);
    PositionMintIs(d, t.mint);
    var r := ReduceSpec(pos.lots, -t.amount, Proceeds(t), MethodOf(d)).value;
    PutWhole(d, pos.(lots := r.remaining, slot := t.slot));
  }

  /**
   * A FIFO or LIFO sale: realized result plus basis taken out never exceeds the SOL received, and misses at most one
   * lamport per extra lot when no touched lot is larger than the sale.
   */
  lemma SaleEarns(d: WalletData, t: Trade)
    requires UniqueMints(d.positions) && AllPositive(d.positions) && MethodOf(d) != AvgCost
    requires t.amount < 0 && Apply(d, t).Ok?
    ensures RealizedBy(d, t) + BasisOut(d, t) <= Received(t)
    ensures NoLotExceeds(d, t) ==> RealizedBy(d, t) + BasisOut(d, t) >= Received(t) - Slack(d, t)
    ensures BasisOut(d, t) == CostOf(d, t)
  {
    hide Apply, ReduceSpec, Touched, NoTouchedLotExceeds, InOrder, TotalBasis, Total;
    var lots := PositionOf(d, t.mint).lots;
    PositionPositive(d, t.mint);
    SaleIs(d, t);
    ReduceConserves(lots, -t.amount, Proceeds(t), MethodOf(d));
    ProceedsAllocation(lots, -t.amount, Proceeds(t), MethodOf(d));
  }

  /**
   * Which lots a sale takes is the wallet's own choice: the oldest first when it chose nothing or FIFO, the newest
   * first under LIFO, and of every lot its share at average cost.
   */
  lemma SaleTakes(d: WalletData, t: Trade)
    requires UniqueMints(d.positions) && AllPositive(d.positions) && t.amount < 0
    requires -t.amount <= Total(PositionOf(d, t.mint).lots)
    ensures Positive(PositionOf(d, t.mint).lots) && Apply(d, t).Ok?
    ensures var lots, left := PositionOf(d, t.mint).lots, PositionOf(Apply(d, t).value, t.mint).lots;
            && (d.accounting == None || d.accounting == Some(Fifo) ==> left == Leaves(lots, -t.amount))
            && (d.accounting == Some(Lifo) ==>
                  && Positive(Reverse(lots)) && Total(Reverse(lots)) == Total(lots)
                  && left == Reverse(Leaves(Reverse(lots), -t.amount)))
            && (d.accounting == Some(AvgCost) ==>
                  exists kept: seq<Lot> ::
                    && |kept| == |lots| && left == NonEmpty(kept)
                    && forall i :: 0 <= i < |lots| ==> KeptOf(lots[i], kept[i], -t.amount, Total(lots)))
  {
    hide ReduceSpec, Total, KeptOf, Leaves, PosIndex, Put, Reverse;
    var lots := PositionOf(d, t.mint).lots;
    PositionPositive(d, t.mint);
    TotalReverse(lots);
    FifoLeaves(lots, -t.amount, Proceeds(t));
    FifoLeaves(Reverse(lots), -t.amount, Proceeds(t));
    LifoIsReversedFifo(lots, -t.amount, Proceeds(t));
    var kept := AvgCostKeeps(lots, -t.amount, Proceeds(t));
    var r := ReduceSpec(lots, -t.amount, Proceeds(t), MethodOf(d));
    assert r.Ok? by {
      assert ReduceSpec(lots, -t.amount, Proceeds(t), Fifo).Ok?;
      assert ReduceSpec(lots, -t.amount, Proceeds(t), Lifo).Ok?;
      assert ReduceSpec(lots, -t.amount, Proceeds(t), AvgCost).Ok?;
      assert MethodOf(d) == Fifo || MethodOf(d) == Lifo || MethodOf(d) == AvgCost;
    }
    SaleIs(d, t);
  }

  /** An average-cost sale: realized result plus the charged cost is exactly the SOL received. */
  lemma AvgSaleEarns(d: WalletData, t: Trade)
    requires UniqueMints(d.positions) && MethodOf(d) == AvgCost && t.amount < 0
    requires -t.amount <= Total(PositionOf(d, t.mint).lots)
    ensures Apply(d, t).Ok? && RealizedBy(d, t) + CostOf(d, t) == Received(t)
    ensures var lots := PositionOf(d, t.mint).lots;
            TotalBasis(lots) >= 0 ==>
              CostOf(d, t) * Total(lots) <= TotalBasis(lots) * -t.amount < (CostOf(d, t) + 1) * Total(lots)
  {
    hide ReduceSpec, TotalBasis, Total, Put, PosIndex;
    AvgCostIs(PositionOf(d, t.mint).lots, -t.amount, Proceeds(t));
    SaleIs(d, t);
  }

  // ---- Histories ----

  function ReceivedSum(ts: seq<Trade>): nat {
    if ts == [] then 0 else ReceivedSum(ts[..|ts| - 1]) + Received(ts[|ts| - 1])
  }

  /** No sale of the history meets a lot larger than itself. */
  ghost predicate AllFit(start: WalletData, ts: seq<Trade>) {
    forall i :: 0 <= i < |ts| ==> NoLotExceeds(Fold(start, ts[..i]).data, ts[i])
  }

  function SlackSum(start: WalletData, ts: seq<Trade>): int {
    if ts == [] then 0
    else
      var before := Fold(start, ts[..|ts| - 1]).data;
      SlackSum(start, ts[..|ts| - 1]) + if Apply(before, ts[|ts| - 1]).Ok? then Slack(before, ts[|ts| - 1]) else 0
  }

  /** A trade that is no sale moves no total. */
  lemma NoSaleNoGain(d: WalletData, t: Trade)
    requires t.amount >= 0 && Apply(d, t).Ok?
    ensures Apply(d, t).value.realized == d.realized && CostOf(d, t) == 0 && Received(t) == 0 && Slack(d, t) == 0
  {
  }

  /**
   * A FIFO or LIFO wallet's whole history: all realized results and all basis sold never exceed the SOL its sales
   * brought in, and fall short by rounding only when no sale meets a lot larger than itself.
   */
  lemma {:induction false} HistoryEarns(accounting: Option<Method>, ts: seq<Trade>)
    requires accounting != Some(AvgCost)
    ensures var h := Fold(EmptyWallet().(accounting := accounting), ts);
            && h.data.realized + h.consumed <= ReceivedSum(h.applied)
            && (AllFit(EmptyWallet().(accounting := accounting), ts) ==>
                  h.data.realized + h.consumed
                  >= ReceivedSum(h.applied) - SlackSum(EmptyWallet().(accounting := accounting), ts))
    decreases |ts|
  {
    hide Apply, CostOf, GainOf, Balanced, Slack, NoLotExceeds, Received;
    var start := EmptyWallet().(accounting := accounting);
    if ts != [] {
      var last, t := ts[..|ts| - 1], ts[|ts| - 1];
      HistoryEarns(accounting, last);
      HistoryBalanced(accounting, last);
      var before := Fold(start, last);
      assert AllFit(start, ts) ==> AllFit(start, last) by {
        AllFitFront(start, ts);
      }
      assert AllFit(start, ts) ==> NoLotExceeds(before.data, t);
      if Apply(before.data, t).Ok? {
        StepEarns(before, t);
        assert (before.applied + [t])[..|before.applied|] == before.applied;
      }
    }
  }

  lemma AllFitFront(start: WalletData, ts: seq<Trade>)
    requires ts != []
    ensures AllFit(start, ts) ==> AllFit(start, ts[..|ts| - 1])
  {
    hide Fold, NoLotExceeds;
    var last := ts[..|ts| - 1];
    assert forall i :: 0 <= i < |last| ==> last[..i] == ts[..i] && last[i] == ts[i];
  }

  lemma StepEarns(h: History, t: Trade)
    requires Balanced(h) && Apply(h.data, t).Ok?
    ensures var gained := Apply(h.data, t).value.realized - h.data.realized + CostOf(h.data, t);
            && gained <= Received(t)
            && (NoLotExceeds(h.data, t) ==> gained >= Received(t) - Slack(h.data, t))
  {
    hide Apply, CostOf, Slack, NoLotExceeds, Received;
    if t.amount < 0 {
      SaleEarns(h.data, t);
    } else {
      NoSaleNoGain(h.data, t);
    }
  }
}
