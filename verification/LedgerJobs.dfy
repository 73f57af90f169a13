/** Everything that changes a wallet file under its mutex (packages/solana-portfolio/src/store-file.ts). */
module LedgerJobs {
  import opened Wrappers
  import opened Bytes
  import opened Lots
  import opened Ledger

  /** A token balance found on chain, with the lots the reconstructor answers for it. */
  datatype Holding = Holding(mint: string, balance: nat, lots: seq<Lot>)

  /** applyLandedTrade, observe, rebuildPosition and correctLotBasis. */
  datatype Job =
    | Landed(trade: Trade)
    | Observe(owner: string, accounting: Option<Method>, held: seq<Holding>)
    | Rebuild(owner: string, mint: string, lots: seq<Lot>)
    | Correct(owner: string, mint: string, lotIndex: int, basis: int)

  datatype Refusal = SaleRefused(error: Lots.Error) | NoPosition | LotOutOfRange

  function WalletOf(j: Job): string {
    if j.Landed? then j.trade.wallet else j.owner
  }

  function MaxSlot(lots: seq<Lot>): nat {
    if lots == [] then 0 else Max(MaxSlot(lots[..|lots| - 1]), lots[|lots| - 1].slot)
  }

  /** Every balance without a position starts one; zero balances are passed over. */
  function Started(ps: seq<Position>, held: seq<Holding>): seq<Position>
    decreases |held|
  {
    if held == [] then ps
    else
      var h := held[0];
      var known := h.balance == 0 || PosIndex(ps, h.mint) < |ps|;
      Started(if known then ps else ps + [Position(h.mint, h.lots, MaxSlot(h.lots))], held[1..])
  }

  /** What a job makes of the wallet it loaded, or why it throws before writing. */
  function Change(d: WalletData, j: Job): Result<WalletData, Refusal> {
    match j
    case Landed(t) =>
      (match Apply(d, t)
       case Ok(after) => Ok(after)
       case Err(e) => Err(SaleRefused(e)))
    case Observe(_, accounting, held) =>
      Ok(d.(positions := Started(d.positions, held),
            accounting := if accounting.Some? then accounting else d.accounting))
    case Rebuild(_, mint, lots) => Ok(d.(positions := Put(d.positions, Position(mint, lots, MaxSlot(lots)))))
    case Correct(_, mint, k, basis) =>
      var i := PosIndex(d.positions, mint);
      if i == |d.positions| then Err(NoPosition)
      else
        var pos := d.positions[i];
        if 0 <= k < |pos.lots| then
          Ok(d.(positions := Put(d.positions,
                                 pos.(lots := pos.lots[k := pos.lots[k].(basis := basis, unresolved := false)]))))
        else Err(LotOutOfRange)
  }

  method MaxSlotOf(lots: seq<Lot>) returns (slot: nat)
    ensures slot == MaxSlot(lots)
  {
    slot := 0;
    for i := 0 to |lots|
      invariant slot == MaxSlot(lots[..i])
    {
      assert lots[..i + 1][..i] == lots[..i];
      slot := Max(slot, lots[i].slot);
    }
    assert lots[..|lots|] == lots;
  }

  method StartPositions(known: seq<Position>, held: seq<Holding>) returns (ps: seq<Position>)
    ensures ps == Started(known, held)
  {
    ps := known;
    assert held[0..] == held;
    for i := 0 to |held|
      invariant Started(ps, held[i..]) == Started(known, held)
    {
      assert held[i..][1..] == held[i + 1..];
      if held[i].balance == 0 {
        continue;
      }
      if PosIndex(ps, held[i].mint) < |ps| {
        continue;
      }
      var slot := MaxSlotOf(held[i].lots);
      ps := ps + [Position(held[i].mint, held[i].lots, slot)];
    }
  }

  /** The bodies run under the mutex, on the loaded copy. */
  method ChangeLoaded(loaded: WalletData, j: Job) returns (r: Result<WalletData, Refusal>)
    ensures r == Change(loaded, j)
  {
    hide Apply, Started, MaxSlot;
    match j {
      case Landed(t) =>
        var applied := ApplyTrade(loaded, t);
        r := if applied.Ok? then Ok(applied.value) else Err(SaleRefused(applied.error));
      case Observe(_, accounting, held) =>
        var data := loaded;
        if accounting.Some? {
          data := data.(accounting := accounting);
        }
        var ps := StartPositions(data.positions, held);
        r := Ok(data.(positions := ps));
      case Rebuild(_, mint, lots) =>
        var slot := MaxSlotOf(lots);
        var after := Position(mint, lots, slot);
        var idx := PosIndex(loaded.positions, mint);
        if idx < |loaded.positions| {
          r := Ok(loaded.(positions := loaded.positions[idx := after]));
        } else {
          r := Ok(loaded.(positions := loaded.positions + [after]));
        }
      case Correct(_, mint, k, basis) =>
        var idx := PosIndex(loaded.positions, mint);
        if idx == |loaded.positions| {
          return Err(NoPosition);
        }
        var pos := loaded.positions[idx];
        if k < 0 || k >= |pos.lots| {
          return Err(LotOutOfRange);
        }
        pos := pos.(lots := pos.lots[k := pos.lots[k].(basis := basis, unresolved := false)]);
        r := Ok(loaded.(positions := loaded.positions[idx := pos]));
    }
  }

  // ---- A wallet's jobs, one by one ----

  datatype Replayed = Replayed(data: WalletData, applied: seq<Job>)

  /** The wallet after a list of jobs, with those that took effect. */
  function Replay(start: WalletData, js: seq<Job>): Replayed {
    if js == [] then Replayed(start, [])
    else
      var before := Replay(start, js[..|js| - 1]);
      var j := js[|js| - 1];
      match Change(before.data, j)
      case Err(_) => before
      case Ok(d) => Replayed(d, before.applied + [j])
  }

  ghost predicate OnlyTrades(js: seq<Job>) {
    forall i :: 0 <= i < |js| ==> js[i].Landed?
  }

  function TradesOf(js: seq<Job>): (ts: seq<Trade>)
    requires OnlyTrades(js)
    ensures |ts| == |js|
  {
    seq(|js|, i requires 0 <= i < |js| => js[i].trade)
  }

  /** Where only trades landed, the replay is the ledger's own history of them. */
  lemma {:induction false} ReplayIsFold(start: WalletData, js: seq<Job>)
    requires OnlyTrades(js)
    ensures OnlyTrades(Replay(start, js).applied)
    ensures Replay(start, js).data == Fold(start, TradesOf(js)).data
    ensures TradesOf(Replay(start, js).applied) == Fold(start, TradesOf(js)).applied
    decreases |js|
  {
    hide Apply, CostOf, GainOf;
    if js != [] {
      var last := js[..|js| - 1];
      ReplayIsFold(start, last);
      assert TradesOf(js)[..|js| - 1] == TradesOf(last);
      assert Change(Replay(start, last).data, js[|js| - 1]).Ok? ==>
          TradesOf(Replay(start, js).applied) == TradesOf(Replay(start, last).applied) + [js[|js| - 1].trade];
    }
  }

  // ---- What every job keeps ----

  /** One position per mint, and total realized PnL is the sum over the positions' mints. */
  ghost predicate BooksAdd(d: WalletData) {
    && UniqueMints(d.positions)
    && (forall m :: m in d.byMint ==> HasMint(d.positions, m))
    && d.realized == RealizedSum(d.positions, d.byMint)
  }

  lemma PutAdds(d: WalletData, p: Position)
    requires BooksAdd(d)
    ensures BooksAdd(d.(positions := Put(d.positions, p)))
  {
    hide RealizedSum, Put;
    PutSums(d, p, 0);
    PutUnique(d.positions, p);
  }

  lemma {:induction false} StartedAdds(d: WalletData, held: seq<Holding>)
    requires BooksAdd(d)
    ensures BooksAdd(d.(positions := Started(d.positions, held)))
    decreases |held|
  {
    hide BooksAdd, MaxSlot;
    if held != [] {
      var h := held[0];
      if h.balance != 0 && PosIndex(d.positions, h.mint) == |d.positions| {
        var p := Position(h.mint, h.lots, MaxSlot(h.lots));
        PutAdds(d, p);
        StartedAdds(d.(positions := d.positions + [p]), held[1..]);
      } else {
        StartedAdds(d, held[1..]);
      }
    }
  }

  /** A landed trade moves the total and its mint's share alike, under every accounting method. */
  lemma ApplyAdds(d: WalletData, t: Trade)
    requires BooksAdd(d) && Apply(d, t).Ok?
    ensures BooksAdd(Apply(d, t).value)
  {
    hide RealizedSum, Put, ReduceSpec, PosIndex;
    var after := Apply(d, t).value;
    var pos := PositionOf(d, t.mint);
    PositionMint(d, t.mint);
    var p := if t.amount > 0 then pos.(lots := pos.lots + [LotOf(t)], slot := t.slot)
             else if t.amount < 0 then
               pos.(lots := ReduceSpec(pos.lots, -t.amount, Proceeds(t), MethodOf(d)).value.remaining, slot := t.slot)
             else pos;
    PutUnique(d.positions, p);
    PutSums(d, p, RealizedFor(d, t.mint) + RealizedOf(d, t));
    assert after.positions == Put(d.positions, p);
  }

  lemma PositionMint(d: WalletData, mint: string)
    ensures PositionOf(d, mint).mint == mint
  {
  }

  lemma ChangeAdds(d: WalletData, j: Job)
    requires BooksAdd(d) && Change(d, j).Ok?
    ensures BooksAdd(Change(d, j).value)
  {
    hide Apply, Put, Started, RealizedSum, MaxSlot;
    match j {
      case Landed(t) => ApplyAdds(d, t);
      case Observe(_, accounting, held) => StartedAdds(d, held);
      case Rebuild(_, mint, lots) => PutAdds(d, Position(mint, lots, MaxSlot(lots)));
      case Correct(_, mint, k, basis) =>
        var pos := d.positions[PosIndex(d.positions, mint)];
        PutAdds(d, pos.(lots := pos.lots[k := pos.lots[k].(basis := basis, unresolved := false)]));
    }
  }

  /** No sequence of jobs, refused ones included, breaks the sum. */
  lemma {:induction false} ReplayAdds(start: WalletData, js: seq<Job>)
    requires BooksAdd(start)
    ensures BooksAdd(Replay(start, js).data)
    decreases |js|
  {
    hide Change, BooksAdd;
    if js != [] {
      ReplayAdds(start, js[..|js| - 1]);
      var before := Replay(start, js[..|js| - 1]).data;
      if Change(before, js[|js| - 1]).Ok? {
        ChangeAdds(before, js[|js| - 1]);
      }
    }
  }
}
