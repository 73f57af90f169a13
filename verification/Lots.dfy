/** Lot reduction (packages/solana-portfolio/src/accounting.ts). */
module Lots {
  import opened Wrappers
  import opened Bytes
  import Division

  datatype Source = Trade | Airdrop | TransferIn | ColdReconstructed | ColdUnresolved

  datatype Lot = Lot(amount: nat, basis: int, slot: nat, sig: string, source: Source, unresolved: bool)

  datatype Method = Fifo | Lifo | AvgCost

  /** A zero lot reached by a FIFO/LIFO sale divides by zero; the other error is the source's own. */
  datatype Error = Insufficient(available: nat) | DivideByZero

  datatype Reduced = Reduced(remaining: seq<Lot>, realized: int, costBasis: int, proceeds: int, basisUnresolved: bool)

  /** BigInt division: truncation toward zero. */
  function TruncDiv(a: int, b: nat): int
    requires b >= 1
  {
    if a >= 0 then a / b else -((-a) / b)
  }

  function Total(lots: seq<Lot>): nat {
    if lots == [] then 0 else lots[0].amount + Total(lots[1..])
  }

  function TotalBasis(lots: seq<Lot>): int {
    if lots == [] then 0 else lots[0].basis + TotalBasis(lots[1..])
  }

  predicate Positive(lots: seq<Lot>) {
    forall i :: 0 <= i < |lots| ==> lots[i].amount > 0
  }

  predicate AnyUnresolved(lots: seq<Lot>) {
    exists i :: 0 <= i < |lots| && lots[i].unresolved
  }

  // ---- FIFO consumption ----

  /** What is left of one lot after `taken` of its tokens are sold. */
  function Cut(l: Lot, taken: nat): Lot
    requires taken <= l.amount && l.amount > 0
  {
    l.(amount := l.amount - taken, basis := l.basis - TruncDiv(l.basis * taken, l.amount))
  }

  datatype Taken = Taken(remaining: seq<Lot>, basis: int, earned: int, unresolved: bool, left: nat)

  /** Walk the lots in order, taking `toTake` of an `amount`-token sale worth `proceeds`. */
  function Consume(lots: seq<Lot>, toTake: nat, amount: nat, proceeds: int): (r: Result<Taken, Error>)
    requires amount >= 1
    ensures r.Ok? ==> r.value.left <= toTake
  {
    if lots == [] || toTake == 0 then Ok(Taken(lots, 0, 0, false, toTake))
    else if lots[0].amount == 0 then Err(DivideByZero)
    else
      var l := lots[0];
      var taken := Min(l.amount, toTake);
      var share := TruncDiv(proceeds * taken, Max(l.amount, amount));
      var rest :- Consume(lots[1..], toTake - taken, amount, proceeds);
      Ok(Taken((if taken < l.amount then [Cut(l, taken)] else []) + rest.remaining,
               TruncDiv(l.basis * taken, l.amount) + rest.basis,
               share + rest.earned,
               l.unresolved || rest.unresolved,
               rest.left))
  }

  function InOrder(lots: seq<Lot>, m: Method): seq<Lot> {
    if m == Lifo then Reverse(lots) else lots
  }

  // ---- Average cost ----

  function AvgTake(l: Lot, amount: nat, total: nat): nat
    requires total >= 1
  {
    l.amount * amount / total
  }

  /** Proportional reduction of every lot; emptied lots are dropped. */
  function AvgRemaining(lots: seq<Lot>, amount: nat, total: nat): seq<Lot>
    requires total >= 1 && amount <= total
  {
    if lots == [] then []
    else
      var l := lots[0];
      var take := AvgTake(l, amount, total);
      TakeWithin(l.amount, amount, total);
      var after := if take == 0 then l else Cut(l, take);
      (if after.amount > 0 then [after] else []) + AvgRemaining(lots[1..], amount, total)
  }

  lemma TakeWithin(n: nat, amount: nat, total: nat)
    requires total >= 1 && amount <= total
    ensures n * amount / total <= n
    ensures n == 0 ==> n * amount / total == 0
  {
    assert n * amount <= n * total;
    Division.DivMonotone(n * amount, n * total, total);
    Division.ExactDiv(n, total);
  }

  function ReduceSpec(lots: seq<Lot>, amount: int, proceeds: int, m: Method): Result<Reduced, Error> {
    if amount <= 0 then Ok(Reduced(lots, 0, 0, proceeds, false))
    else if m == AvgCost then
      var total := Total(lots);
      if total == 0 then Ok(Reduced(lots, 0, 0, proceeds, false))
      else if amount > total then Err(Insufficient(total))
      else
        var avg := TruncDiv(TotalBasis(lots) * amount, total);
        Ok(Reduced(AvgRemaining(lots, amount, total), proceeds - avg, avg, proceeds, AnyUnresolved(lots)))
    else
      var t :- Consume(InOrder(lots, m), amount, amount, proceeds);
      if t.left > 0 then Err(Insufficient(amount - t.left))
      else Ok(Reduced(InOrder(t.remaining, m), t.earned - t.basis, t.basis, proceeds, t.unresolved))
  }

  // ---- The source's loop ----

  /** What was accumulated before, joined with what the rest of the walk gives. */
  function Resume(out: seq<Lot>, basis: int, earned: int, unresolved: bool, rest: Result<Taken, Error>)
    : Result<Taken, Error>
  {
    match rest
    case Err(e) => Err(e)
    case Ok(t) => Ok(Taken(out + t.remaining, basis + t.basis, earned + t.earned, unresolved || t.unresolved, t.left))
  }

  lemma ResumeStep(out: seq<Lot>, kept: seq<Lot>, b0: int, b1: int, a0: int, a1: int, u0: bool, u1: bool,
                   rest: Result<Taken, Error>)
    ensures Resume(out, b0, a0, u0, Resume(kept, b1, a1, u1, rest))
            == Resume(out + kept, b0 + b1, a0 + a1, u0 || u1, rest)
  {
    if rest.Ok? {
      assert out + (kept + rest.value.remaining) == out + kept + rest.value.remaining;
    }
  }

  lemma ResumeNothing(rest: Result<Taken, Error>)
    ensures Resume([], 0, 0, false, rest) == rest
  {
    if rest.Ok? {
      assert [] + rest.value.remaining == rest.value.remaining;
    }
  }

  /** One lot of the walk, as the accumulator sees it. */
  lemma ConsumeUnfold(l: Lot, rest: seq<Lot>, toTake: nat, amount: nat, proceeds: int)
    requires amount >= 1
    ensures toTake == 0 ==>
              Consume([l] + rest, 0, amount, proceeds) == Resume([l], 0, 0, false, Consume(rest, 0, amount, proceeds))
    ensures toTake > 0 && l.amount == 0 ==> Consume([l] + rest, toTake, amount, proceeds) == Err(DivideByZero)
    ensures toTake > 0 && l.amount > 0 ==>
              var taken := Min(l.amount, toTake);
              Consume([l] + rest, toTake, amount, proceeds) ==
              Resume(if taken < l.amount then [Cut(l, taken)] else [], TruncDiv(l.basis * taken, l.amount),
                     TruncDiv(proceeds * taken, Max(l.amount, amount)), l.unresolved,
                     Consume(rest, toTake - taken, amount, proceeds))
  {
    hide TruncDiv;
    assert ([l] + rest)[1..] == rest;
    assert forall t: seq<Lot> :: [] + t == t;
  }

  method ConsumeLoop(ordered: seq<Lot>, amount: nat, proceeds: int) returns (r: Result<Taken, Error>)
    requires amount >= 1
    ensures r == Consume(ordered, amount, amount, proceeds)
  {
    hide TruncDiv, Consume;
    var toTake: nat := amount;
    var costBasis, earned, basisUnresolved := 0, 0, false;
    var out: seq<Lot> := [];
    ghost var whole := Consume(ordered, amount, amount, proceeds);
    ResumeNothing(whole);
    assert ordered[0..] == ordered;
    for i := 0 to |ordered|
      invariant whole == Resume(out, costBasis, earned, basisUnresolved,
                                Consume(ordered[i..], toTake, amount, proceeds))
    {
      var l := ordered[i];
      ghost var rest := ordered[i + 1..];
      assert ordered[i..] == [l] + rest;
      ConsumeUnfold(l, rest, toTake, amount, proceeds);
      if toTake == 0 {
        ResumeStep(out, [l], costBasis, 0, earned, 0, basisUnresolved, false, Consume(rest, 0, amount, proceeds));
        out := out + [l];
        continue;
      }
      if l.amount == 0 {
        return Err(DivideByZero);
      }
      var taken: nat := if l.amount <= toTake then l.amount else toTake;
      var partialBasis := TruncDiv(l.basis * taken, l.amount);
      var denom := if l.amount > amount then l.amount else amount;
      var share := TruncDiv(proceeds * taken, denom);
      var kept := if taken < l.amount then [l.(amount := l.amount - taken, basis := l.basis - partialBasis)] else [];
      ResumeStep(out, kept, costBasis, partialBasis, earned, share, basisUnresolved, l.unresolved,
                 Consume(rest, toTake - taken, amount, proceeds));
      costBasis := costBasis + partialBasis;
      earned := earned + share;
      if l.unresolved {
        basisUnresolved := true;
      }
      toTake := toTake - taken;
      out := out + kept;
    }
    ConsumeNothing(toTake, amount, proceeds);
    assert out + [] == out;
    return Ok(Taken(out, costBasis, earned, basisUnresolved, toTake));
  }

  lemma ConsumeNothing(toTake: nat, amount: nat, proceeds: int)
    requires amount >= 1
    ensures Consume([], toTake, amount, proceeds) == Ok(Taken([], 0, 0, false, toTake))
  {
  }

  /** The two reductions of the avg-cost path. */
  method SumLots(lots: seq<Lot>) returns (amount: nat, basis: int)
    ensures amount == Total(lots) && basis == TotalBasis(lots)
  {
    amount, basis := 0, 0;
    assert lots[0..] == lots;
    for i := 0 to |lots|
      invariant Total(lots) == amount + Total(lots[i..]) && TotalBasis(lots) == basis + TotalBasis(lots[i..])
    {
      assert lots[i..][1..] == lots[i + 1..];
      amount := amount + lots[i].amount;
      basis := basis + lots[i].basis;
    }
  }

  /** Its map and filter, and whether any lot is unresolved. */
  method ScaleLots(lots: seq<Lot>, amount: nat, total: nat) returns (remaining: seq<Lot>, unresolved: bool)
    requires total >= 1 && amount <= total
    ensures remaining == AvgRemaining(lots, amount, total) && unresolved == AnyUnresolved(lots)
  {
    hide TruncDiv, AvgRemaining;
    remaining, unresolved := [], false;
    assert lots[0..] == lots;
    for i := 0 to |lots|
      invariant AvgRemaining(lots, amount, total) == remaining + AvgRemaining(lots[i..], amount, total)
      invariant unresolved <==> exists j :: 0 <= j < i && lots[j].unresolved
    {
      var l := lots[i];
      ScaleOne(lots[i..], amount, total);
      assert lots[i..][1..] == lots[i + 1..];
      var take := l.amount * amount / total;
      var after := l;
      if take != 0 {
        after := l.(amount := l.amount - take, basis := l.basis - TruncDiv(l.basis * take, l.amount));
      }
      ghost var rest := AvgRemaining(lots[i + 1..], amount, total);
      if after.amount > 0 {
        assert remaining + ([after] + rest) == remaining + [after] + rest;
        remaining := remaining + [after];
      }
      if l.unresolved {
        unresolved := true;
      }
    }
    assert AvgRemaining(lots[|lots|..], amount, total) == [] by {
      ScaleNothing(amount, total);
    }
  }

  /** One lot of the map and filter. */
  lemma ScaleOne(lots: seq<Lot>, amount: nat, total: nat)
    requires lots != [] && total >= 1 && amount <= total
    ensures var l := lots[0];
            var take := l.amount * amount / total;
            && 0 <= take <= l.amount && (take != 0 ==> l.amount > 0)
            && var after := if take == 0 then l
                            else l.(amount := l.amount - take, basis := l.basis - TruncDiv(l.basis * take, l.amount));
               AvgRemaining(lots, amount, total)
               == (if after.amount > 0 then [after] else []) + AvgRemaining(lots[1..], amount, total)
  {
    hide TruncDiv;
    TakeWithin(lots[0].amount, amount, total);
  }

  lemma ScaleNothing(amount: nat, total: nat)
    requires total >= 1 && amount <= total
    ensures AvgRemaining([], amount, total) == []
  {
  }

  method ReduceLots(lots: seq<Lot>, amount: int, proceeds: int, m: Method) returns (r: Result<Reduced, Error>)
    ensures r == ReduceSpec(lots, amount, proceeds, m)
  {
    hide Consume, AvgRemaining, Total, TotalBasis;
    if amount <= 0 {
      return Ok(Reduced(lots, 0, 0, proceeds, false));
    }
    if m == AvgCost {
      var totalAmt, totalBasis := SumLots(lots);
      if totalAmt == 0 {
        return Ok(Reduced(lots, 0, 0, proceeds, false));
      }
      if amount > totalAmt {
        return Err(Insufficient(totalAmt));
      }
      var avgBasis := TruncDiv(totalBasis * amount, totalAmt);
      var remaining, unresolved := ScaleLots(lots, amount, totalAmt);
      return Ok(Reduced(remaining, proceeds - avgBasis, avgBasis, proceeds, unresolved));
    }
    var t := ConsumeLoop(InOrder(lots, m), amount, proceeds);
    if t.Err? {
      return Err(t.error);
    }
    if t.value.left > 0 {
      return Err(Insufficient(amount - t.value.left));
    }
    return Ok(Reduced(InOrder(t.value.remaining, m), t.value.earned - t.value.basis, t.value.basis, proceeds,
                      t.value.unresolved));
  }
}
