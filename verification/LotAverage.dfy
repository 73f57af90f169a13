/** What an average-cost sale charges and what each lot keeps (packages/solana-portfolio/src/accounting.ts). */
module LotAverage {
  import opened Wrappers
  import opened Bytes
  import opened Lots
  import opened LotFacts
  import Division

  // ---- The cost charged ----

  /** The cost is the sold fraction of the whole basis, rounded toward zero. */
  lemma AvgCostIs(lots: seq<Lot>, amount: nat, proceeds: int)
    requires 1 <= amount <= Total(lots)
    ensures ReduceSpec(lots, amount, proceeds, AvgCost).Ok?
    ensures var r, basis := ReduceSpec(lots, amount, proceeds, AvgCost).value, TotalBasis(lots);
            && r.realized == proceeds - r.costBasis
            && (basis >= 0 ==>
                  r.costBasis >= 0
                  && r.costBasis * Total(lots) <= basis * amount < (r.costBasis + 1) * Total(lots))
            && (basis < 0 ==>
                  r.costBasis <= 0
                  && (r.costBasis - 1) * Total(lots) < basis * amount <= r.costBasis * Total(lots))
  {
    hide AvgRemaining, Total, TotalBasis, TruncDiv;
    var basis := TotalBasis(lots);
    TruncBrackets(basis * amount, Total(lots));
    Signs(basis, amount);
  }

  /** Truncation toward zero, bracketed. */
  lemma TruncBrackets(a: int, d: nat)
    requires d >= 1
    ensures a >= 0 ==> TruncDiv(a, d) >= 0 && TruncDiv(a, d) * d <= a < (TruncDiv(a, d) + 1) * d
    ensures a < 0 ==> TruncDiv(a, d) <= 0 && (TruncDiv(a, d) - 1) * d < a <= TruncDiv(a, d) * d
  {
    if a >= 0 {
      Division.FloorBrackets(a, d);
      Division.DivBounds(a, d, 0);
    } else {
      NegativeBrackets(-a, d);
    }
  }

  lemma NegativeBrackets(a: int, d: nat)
    requires a > 0 && d >= 1
    ensures var q := -(a / d); q <= 0 && (q - 1) * d < -a <= q * d
  {
    Division.FloorBrackets(a, d);
    Division.DivBounds(a, d, 0);
    Negated(a / d, d);
  }

  lemma Negated(q: int, total: nat)
    ensures (-q) * total == -(q * total) && (-q - 1) * total == -((q + 1) * total)
  {
  }

  lemma Signs(basis: int, amount: nat)
    requires amount >= 1
    ensures basis >= 0 <==> basis * amount >= 0
  {
  }

  // ---- What each lot keeps ----

  /**
   * The lot after the sale: its tokens fall by the sold fraction, floored, and its basis by the fraction of its tokens
   * that left, floored; the rest of it stays.
   */
  ghost predicate KeptOf(l: Lot, after: Lot, amount: nat, total: nat) {
    && after == l.(amount := after.amount, basis := after.basis) && after.amount <= l.amount
    && var taken := l.amount - after.amount;
       && taken * total <= l.amount * amount < (taken + 1) * total
       && (taken == 0 ==> after.basis == l.basis)
       && (l.basis >= 0 && l.amount > 0 ==>
             (l.basis - after.basis) * l.amount <= l.basis * taken < (l.basis - after.basis + 1) * l.amount)
  }

  function NonEmpty(lots: seq<Lot>): seq<Lot> {
    if lots == [] then [] else (if lots[0].amount > 0 then [lots[0]] else []) + NonEmpty(lots[1..])
  }

  lemma OneKept(l: Lot, amount: nat, total: nat) returns (after: Lot)
    requires total >= 1 && amount <= total
    ensures KeptOf(l, after, amount, total)
    ensures AvgTake(l, amount, total) <= l.amount
    ensures after == if AvgTake(l, amount, total) == 0 then l else Cut(l, AvgTake(l, amount, total))
  {
    TakeWithin(l.amount, amount, total);
    var take := AvgTake(l, amount, total);
    Division.FloorBrackets(l.amount * amount, total);
    after := if take == 0 then l else Cut(l, take);
    if l.basis >= 0 && l.amount > 0 {
      assert l.basis * take >= 0;
      Division.FloorBrackets(l.basis * take, l.amount);
    }
  }

  /** Lot by lot, in order; the emptied ones are dropped. */
  lemma {:induction false} EachKept(lots: seq<Lot>, amount: nat, total: nat) returns (after: seq<Lot>)
    requires total >= 1 && amount <= total
    ensures |after| == |lots| && forall i :: 0 <= i < |lots| ==> KeptOf(lots[i], after[i], amount, total)
    ensures AvgRemaining(lots, amount, total) == NonEmpty(after)
    decreases |lots|
  {
    hide KeptOf, AvgTake, Cut;
    if lots == [] {
      after := [];
    } else {
      var first := OneKept(lots[0], amount, total);
      var rest := EachKept(lots[1..], amount, total);
      after := [first] + rest;
      assert after[1..] == rest;
      forall i | 0 <= i < |lots|
        ensures KeptOf(lots[i], after[i], amount, total)
      {
        if i > 0 {
          assert KeptOf(lots[1..][i - 1], rest[i - 1], amount, total);
        }
      }
    }
  }

  /** A sale at average cost, lot by lot. */
  lemma AvgCostKeeps(lots: seq<Lot>, amount: nat, proceeds: int) returns (after: seq<Lot>)
    requires 1 <= amount <= Total(lots)
    ensures |after| == |lots| && forall i :: 0 <= i < |lots| ==> KeptOf(lots[i], after[i], amount, Total(lots))
    ensures ReduceSpec(lots, amount, proceeds, AvgCost).Ok?
    ensures ReduceSpec(lots, amount, proceeds, AvgCost).value.remaining == NonEmpty(after)
  {
    hide AvgRemaining, KeptOf;
    after := EachKept(lots, amount, Total(lots));
  }

  // ---- How much basis rounding can leave over ----

  /** The price of one token of each lot, floored and added up. */
  function UnitPrices(lots: seq<Lot>): int
    requires Positive(lots)
  {
    if lots == [] then 0 else lots[0].basis / lots[0].amount + UnitPrices(lots[1..])
  }

  function Shares(lots: seq<Lot>, amount: nat, total: nat): int
    requires total >= 1
  {
    if lots == [] then 0 else lots[0].basis * amount / total + Shares(lots[1..], amount, total)
  }

  lemma {:induction false} SharesSum(lots: seq<Lot>, amount: nat, total: nat)
    requires total >= 1
    ensures TotalBasis(lots) * amount / total <= Shares(lots, amount, total) + if lots == [] then 0 else |lots| - 1
    decreases |lots|
  {
    if lots != [] {
      SharesSum(lots[1..], amount, total);
      var b, rest := lots[0].basis, TotalBasis(lots[1..]);
      assert (b + rest) * amount == b * amount + rest * amount;
      Division.FloorSum(b * amount, rest * amount, total);
      if lots[1..] == [] {
        assert rest * amount == 0;
      }
    }
  }

  /** One lot keeps at most its unsold share, one token's price and one lamport. */
  lemma KeptAtMost(b: nat, n: nat, amount: nat, total: nat)
    requires total >= 1 && amount <= total && n >= 1
    ensures b * (n * amount / total) / n >= b * amount / total - b / n - 1
  {
    Division.FloorBrackets(n * amount, total);
    var take := n * amount / total;
    Nonneg(n, amount);
    Division.DivBounds(n * amount, total, 0);
    Nonneg(b, take);
    Nonneg(b, amount);
    Division.FloorBrackets(b * take, n);
    Division.FloorBrackets(b, n);
    Division.FloorBrackets(b * amount, total);
    KeptFrom(b, n, amount, total, take, b * take / n, b / n, b * amount / total);
  }

  lemma Nonneg(x: nat, y: nat)
    ensures x * y >= 0
  {
  }

  lemma KeptFrom(b: nat, n: nat, amount: nat, total: nat, take: nat, q: int, price: int, share: int)
    requires total >= 1 && n >= 1
    requires n * amount < (take + 1) * total && b * take < (q + 1) * n && b < (price + 1) * n
    requires share * total <= b * amount
    ensures q >= share - price - 1
  {
    // share * total <= b * amount; amount * n < (take + 1) * total, so share * n <= b * (take + 1)
    Scale(share, total, b, amount, n, take);
    Distribute(b, take, q, price, n);
    Below(share, q + price + 2, b * (take + 1), n);
  }

  lemma Scale(share: int, total: nat, b: nat, amount: nat, n: nat, take: nat)
    requires share * total <= b * amount && n * amount < (take + 1) * total && total >= 1
    ensures share * n <= b * (take + 1)
  {
    MulLe(share * total, b * amount, n);
    MulLe(n * amount, (take + 1) * total, b);
    assert (share * total) * n == (share * n) * total;
    assert (b * amount) * n == (n * amount) * b;
    assert ((take + 1) * total) * b == (b * (take + 1)) * total;
    MulCancel(share * n, b * (take + 1), total);
  }

  lemma Distribute(b: nat, take: nat, q: int, price: int, n: nat)
    requires b * take < (q + 1) * n && b < (price + 1) * n
    ensures b * (take + 1) < (q + price + 2) * n
  {
    assert b * (take + 1) == b * take + b;
    assert (q + price + 2) * n == (q + 1) * n + (price + 1) * n;
  }

  lemma Below(x: int, y: int, m: int, n: nat)
    requires x * n <= m < y * n
    ensures x < y
  {
    if x >= y {
      MulLe(y, x, n);
    }
  }

  lemma LotKeepsAtMost(l: Lot, amount: nat, total: nat)
    requires total >= 1 && amount <= total && l.amount >= 1 && l.basis >= 0
    ensures AvgKept(l, amount, total) <= l.basis - l.basis * amount / total + l.basis / l.amount + 1
  {
    hide Cut, AvgTake;
    KeptAtMost(l.basis, l.amount, amount, total);
    TakeWithin(l.amount, amount, total);
    TakeIs(l, amount, total);
    var take := l.amount * amount / total;
    CutBasis(l, take);
    if take == 0 {
      NothingTaken(l.basis, l.amount);
    }
  }

  lemma TakeIs(l: Lot, amount: nat, total: nat)
    requires total >= 1
    ensures AvgTake(l, amount, total) == l.amount * amount / total
  {
  }

  lemma CutBasis(l: Lot, taken: nat)
    requires taken <= l.amount && l.amount > 0 && l.basis >= 0
    ensures Cut(l, taken).basis == l.basis - l.basis * taken / l.amount
  {
    Nonneg(l.basis, taken);
  }

  lemma NothingTaken(b: nat, n: nat)
    requires n >= 1
    ensures b * 0 / n == 0
  {
  }

  lemma {:induction false} RemainingAtMost(lots: seq<Lot>, amount: nat, total: nat)
    requires total >= 1 && amount <= total && Positive(lots)
    requires forall i :: 0 <= i < |lots| ==> lots[i].basis >= 0
    ensures TotalBasis(AvgRemaining(lots, amount, total))
            <= TotalBasis(lots) - Shares(lots, amount, total) + UnitPrices(lots) + |lots|
    decreases |lots|
  {
    hide AvgTake, TruncDiv;
    if lots != [] {
      RemainingAtMost(lots[1..], amount, total);
      LotKeepsAtMost(lots[0], amount, total);
      AvgUnfold(lots, amount, total);
    }
  }

  /**
   * Reported plus remaining basis exceeds the original by less than one token's price and two lamports a lot; together
   * with AvgCostBounds, which has it from below, rounding is all that can be lost.
   */
  lemma AvgCostDrift(lots: seq<Lot>, amount: nat, proceeds: int)
    requires Positive(lots) && 1 <= amount <= Total(lots)
    requires forall i :: 0 <= i < |lots| ==> lots[i].basis >= 0
    ensures ReduceSpec(lots, amount, proceeds, AvgCost).Ok?
    ensures var r := ReduceSpec(lots, amount, proceeds, AvgCost).value;
            r.costBasis + TotalBasis(r.remaining) <= TotalBasis(lots) + UnitPrices(lots) + 2 * |lots| - 1
  {
    hide AvgRemaining, Shares, UnitPrices, Total, TotalBasis;
    var total := Total(lots);
    RemainingAtMost(lots, amount, total);
    SharesSum(lots, amount, total);
    AvgBasisBound(lots, amount, total);
    assert TotalBasis(lots) * amount >= 0;
    NoTokens();
  }

  lemma NoTokens()
    ensures Total([]) == 0
  {
  }
}
