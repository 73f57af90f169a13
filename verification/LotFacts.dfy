/** What lot reduction keeps: tokens, cost basis, lot shapes, and the exact rounding bounds. */
module LotFacts {
  import opened Wrappers
  import opened Bytes
  import opened Lots
  import Division

  // ---- Sums over lists ----

  lemma {:induction false} TotalAppend(a: seq<Lot>, b: seq<Lot>)
    ensures Total(a + b) == Total(a) + Total(b) && TotalBasis(a + b) == TotalBasis(a) + TotalBasis(b)
    decreases |a|
  {
    if a == [] {
      assert a + b == b;
    } else {
      TotalAppend(a[1..], b);
      assert (a + b)[1..] == a[1..] + b;
    }
  }

  lemma {:induction false} TotalReverse(lots: seq<Lot>)
    ensures Total(Reverse(lots)) == Total(lots) && TotalBasis(Reverse(lots)) == TotalBasis(lots)
    ensures Positive(lots) ==> Positive(Reverse(lots))
    decreases |lots|
  {
    if lots != [] {
      TotalReverse(lots[1..]);
      assert Reverse(lots) == Reverse(lots[1..]) + [lots[0]];
      TotalAppend(Reverse(lots[1..]), [lots[0]]);
    }
  }

  lemma {:induction false} TotalPositive(lots: seq<Lot>)
    requires Positive(lots) && lots != []
    ensures Total(lots) > 0
  {
  }

  // ---- FIFO and LIFO conserve ----

  /** Walking positive lots: success, conservation of tokens and basis, exact shortfall. */
  lemma {:induction false} ConsumeConserves(lots: seq<Lot>, toTake: nat, amount: nat, proceeds: int)
    requires amount >= 1 && Positive(lots)
    ensures Consume(lots, toTake, amount, proceeds).Ok?
    ensures var t := Consume(lots, toTake, amount, proceeds).value;
            && Positive(t.remaining)
            && Total(t.remaining) + (toTake - t.left) == Total(lots)
            && TotalBasis(t.remaining) + t.basis == TotalBasis(lots)
            && t.left == (if toTake <= Total(lots) then 0 else toTake - Total(lots))
    decreases |lots|
  {
    hide TruncDiv;
    if lots != [] && toTake > 0 {
      var l := lots[0];
      var taken := Min(l.amount, toTake);
      ConsumeConserves(lots[1..], toTake - taken, amount, proceeds);
      var rest := Consume(lots[1..], toTake - taken, amount, proceeds).value;
      var kept := if taken < l.amount then [Cut(l, taken)] else [];
      TotalAppend(kept, rest.remaining);
      if taken == l.amount {
        FullShare(l);
      }
    }
  }

  /** A fully sold lot gives up exactly its basis. */
  lemma FullShare(l: Lot)
    requires l.amount > 0
    ensures TruncDiv(l.basis * l.amount, l.amount) == l.basis
  {
    Division.ExactDiv(l.basis, l.amount);
    Division.ExactDiv(-l.basis, l.amount);
    assert -(l.basis * l.amount) == (-l.basis) * l.amount;
    if l.basis < 0 {
      assert l.basis * l.amount <= 0;
    } else {
      assert l.basis * l.amount >= 0;
    }
  }

  /**
   * FIFO and LIFO fail exactly when the sale exceeds the holdings (reporting what is there), and otherwise conserve
   * tokens and cost basis to the unit.
   */
  lemma ReduceConserves(lots: seq<Lot>, amount: int, proceeds: int, m: Method)
    requires Positive(lots) && m != AvgCost
    ensures ReduceSpec(lots, amount, proceeds, m).Ok? <==> amount <= Total(lots)
    ensures amount > Total(lots) ==> ReduceSpec(lots, amount, proceeds, m) == Err(Insufficient(Total(lots)))
    ensures amount <= Total(lots) ==>
              var r := ReduceSpec(lots, amount, proceeds, m).value;
              && Positive(r.remaining)
              && Total(r.remaining) == Total(lots) - Max(amount, 0)
              && TotalBasis(r.remaining) + r.costBasis == TotalBasis(lots)
  {
    hide Consume, TruncDiv;
    TotalReverse(lots);
    if amount > 0 {
      var ordered := InOrder(lots, m);
      ConsumeConserves(ordered, amount, amount, proceeds);
      var t := Consume(ordered, amount, amount, proceeds).value;
      TotalReverse(t.remaining);
    }
  }

  /** LIFO is FIFO between two list reversals. */
  lemma LifoIsReversedFifo(lots: seq<Lot>, amount: int, proceeds: int)
    ensures ReduceSpec(lots, amount, proceeds, Lifo) ==
            match ReduceSpec(Reverse(lots), amount, proceeds, Fifo)
            case Err(e) => Err(e)
            case Ok(r) => Ok(r.(remaining := Reverse(r.remaining)))
  {
    hide Consume, Reverse;
    if amount <= 0 {
      ReverseReverse(lots);
    }
  }

  // ---- The lots a FIFO sale leaves, in closed form ----

  /** Number of leading lots a sale of `amount` uses up entirely. */
  function UsedUp(lots: seq<Lot>, amount: nat): (k: nat)
    ensures k <= |lots|
  {
    if lots == [] || amount < lots[0].amount then 0 else 1 + UsedUp(lots[1..], amount - lots[0].amount)
  }

  /** Drop the used-up lots and cut the next one; every other lot is untouched. */
  function Leaves(lots: seq<Lot>, amount: nat): seq<Lot>
    requires Positive(lots) && amount <= Total(lots)
    decreases |lots|
  {
    if lots == [] then []
    else if amount < lots[0].amount then [Cut(lots[0], amount)] + lots[1..]
    else Leaves(lots[1..], amount - lots[0].amount)
  }

  lemma CutNothing(l: Lot)
    requires l.amount > 0
    ensures Cut(l, 0) == l
  {
  }

  lemma {:induction false} ConsumeLeaves(lots: seq<Lot>, toTake: nat, amount: nat, proceeds: int)
    requires amount >= 1 && Positive(lots) && toTake <= Total(lots)
    ensures Consume(lots, toTake, amount, proceeds).Ok?
    ensures Consume(lots, toTake, amount, proceeds).value.remaining == Leaves(lots, toTake)
    ensures Consume(lots, toTake, amount, proceeds).value.left == 0
    decreases |lots|
  {
    hide TruncDiv;
    ConsumeConserves(lots, toTake, amount, proceeds);
    if lots != [] {
      var l := lots[0];
      if toTake == 0 {
        CutNothing(l);
        assert lots == [l] + lots[1..];
      } else {
        var taken := Min(l.amount, toTake);
        ConsumeLeaves(lots[1..], toTake - taken, amount, proceeds);
        if toTake < l.amount {
          LeavesAll(lots[1..]);
        }
      }
    }
  }

  lemma LeavesAll(lots: seq<Lot>)
    requires Positive(lots)
    ensures Leaves(lots, 0) == lots
  {
    if lots != [] {
      CutNothing(lots[0]);
      assert lots == [lots[0]] + lots[1..];
    }
  }

  /** A FIFO sale leaves `Leaves(lots, amount)`: an untouched suffix behind at most one cut lot. */
  lemma FifoLeaves(lots: seq<Lot>, amount: nat, proceeds: int)
    requires Positive(lots) && amount <= Total(lots)
    ensures ReduceSpec(lots, amount, proceeds, Fifo).Ok?
    ensures ReduceSpec(lots, amount, proceeds, Fifo).value.remaining == Leaves(lots, amount)
  {
    if amount == 0 {
      LeavesAll(lots);
    } else {
      ConsumeLeaves(lots, amount, amount, proceeds);
    }
  }

  lemma {:induction false} LeavesShape(lots: seq<Lot>, amount: nat)
    requires Positive(lots) && amount <= Total(lots)
    ensures var k := UsedUp(lots, amount);
            && Total(lots[..k]) <= amount
            && (k == |lots| ==> Leaves(lots, amount) == [] && amount == Total(lots))
            && (k < |lots| ==> amount < Total(lots[..k]) + lots[k].amount
                               && Leaves(lots, amount) == [Cut(lots[k], amount - Total(lots[..k]))] + lots[k + 1..])
    decreases |lots|
  {
    hide TruncDiv, Cut, Leaves, UsedUp;
    if lots == [] {
      LeavesNothing();
    } else {
      LeavesOpen(lots, amount);
      if amount >= lots[0].amount {
        var rest := lots[1..];
        var k := UsedUp(rest, amount - lots[0].amount);
        LeavesShape(rest, amount - lots[0].amount);
        TotalPrefix(lots, k);
        assert k < |rest| ==> rest[k + 1..] == lots[k + 2..] && rest[k] == lots[k + 1];
      }
    }
  }

  lemma LeavesNothing()
    ensures Leaves([], 0) == [] && UsedUp([], 0) == 0
  {
  }

  /** One lot of the closed form. */
  lemma LeavesOpen(lots: seq<Lot>, amount: nat)
    requires lots != [] && Positive(lots) && amount <= Total(lots)
    ensures amount < lots[0].amount ==>
              UsedUp(lots, amount) == 0 && Leaves(lots, amount) == [Cut(lots[0], amount)] + lots[1..]
    ensures amount >= lots[0].amount ==>
              && UsedUp(lots, amount) == 1 + UsedUp(lots[1..], amount - lots[0].amount)
              && Leaves(lots, amount) == Leaves(lots[1..], amount - lots[0].amount)
  {
    hide TruncDiv, Cut;
  }

  lemma TotalPrefix(lots: seq<Lot>, k: nat)
    requires k < |lots|
    ensures Total(lots[..k + 1]) == lots[0].amount + Total(lots[1..][..k])
  {
    assert lots[..k + 1][1..] == lots[1..][..k];
  }

  // ---- Selling in two steps ----

  /** The two-step remainder of one cut lot holds the same tokens and at most one lamport more. */
  lemma CutTwice(l: Lot, x: nat, y: nat)
    requires l.basis >= 0 && x + y < l.amount
    ensures var once, twice := Cut(l, x + y), Cut(Cut(l, x), y);
            && twice.amount == once.amount
            && once.basis <= twice.basis <= once.basis + 1
            && twice == once.(basis := twice.basis)
            && twice.basis >= 0 && once.basis >= 0
  {
    var b, a := l.basis, l.amount;
    ShareWithin(b, x, a);
    var f := b * x / a;
    ShareWithin(b - f, y, a - x);
    ShareWithin(b, x + y, a);
    Division.FloorBrackets(b * x, a);
    Division.FloorBrackets((b - f) * y, a - x);
    Division.FloorBrackets(b * (x + y), a);
    SplitFloorOf(b, x, y, a, f, (b - f) * y / (a - x), b * (x + y) / a);
  }

  lemma ShareWithin(b: nat, x: nat, a: nat)
    requires a >= 1 && x <= a
    ensures b * x >= 0 && 0 <= b * x / a <= b
  {
    TakeWithin(b, x, a);
    assert b * x >= 0;
    Division.DivBounds(b * x, a, 0);
  }

  lemma SplitFloorOf(b: nat, x: nat, y: nat, a: nat, f: nat, h: int, g: int)
    requires x + y < a && f <= b
    requires f * a <= b * x < (f + 1) * a
    requires h * (a - x) <= (b - f) * y < (h + 1) * (a - x)
    requires g * a <= b * (x + y) < (g + 1) * a
    ensures g - 1 <= f + h <= g
  {
    SplitUpper(b, x, y, a, f, h);
    SplitLower(b, x, y, a, f, h);
    if f + h >= g + 1 {
      MulLe(g + 1, f + h, a);
    }
    if g >= f + h + 2 {
      MulLe(f + h + 2, g, a);
    }
  }

  lemma SplitUpper(b: nat, x: nat, y: nat, a: nat, f: nat, h: int)
    requires x + y < a && f * a <= b * x && h * (a - x) <= (b - f) * y
    ensures (f + h) * a <= b * (x + y)
  {
    var r, e := a - x, b * x - f * a;
    Remainder(b, x, a, f);
    MulLe(h * r, (b - f) * y, a);
    Swap(h, r, a);
    Swap(b - f, y, a);
    Spread(b * r, e, y);
    Swap(b, r, y);
    MulLe(y, r, e);
    Spread(b * y, e, r);
    MulCancel(h * a, b * y + e, r);
    Spread(f, h, a);
    Spread(x, y, b);
  }

  lemma SplitLower(b: nat, x: nat, y: nat, a: nat, f: nat, h: int)
    requires x + y < a && f * a <= b * x < (f + 1) * a && (b - f) * y < (h + 1) * (a - x)
    ensures b * (x + y) < (f + h + 2) * a
  {
    var r, e := a - x, b * x - f * a;
    Remainder(b, x, a, f);
    MulLt((b - f) * y, (h + 1) * r, a);
    Swap(h + 1, r, a);
    Swap(b - f, y, a);
    Spread(b * r, e, y);
    Swap(b, r, y);
    MulLe(0, e, y);
    if b * y >= (h + 1) * a {
      MulLe((h + 1) * a, b * y, r);
    }
    Spread(f + 1, h + 1, a);
    Spread(x, y, b);
  }

  /** With `e` the remainder of the first floor, `a * (b - f)` is `b * (a - x) + e`. */
  lemma Remainder(b: nat, x: nat, a: nat, f: nat)
    requires x <= a
    ensures (b - f) * a == b * (a - x) + (b * x - f * a)
  {
    var minusF: int, minusX: int := 0 - f, 0 - x;
    Spread(b, minusF, a);
    Spread(a, minusX, b);
  }

  lemma Swap(u: int, v: int, w: int)
    ensures (u * v) * w == (u * w) * v
  {
  }

  lemma Spread(u: int, v: int, w: int)
    ensures (u + v) * w == u * w + v * w && w * (u + v) == u * w + v * w
  {
  }

  lemma MulLe(u: int, v: int, c: nat)
    requires u <= v
    ensures u * c <= v * c
  {
  }

  lemma MulLt(u: int, v: int, c: nat)
    requires u < v && c >= 1
    ensures u * c < v * c
  {
  }

  lemma MulCancel(u: int, v: int, c: nat)
    requires c >= 1 && u * c <= v * c
    ensures u <= v
  {
    if u > v {
      MulLt(v, u, c);
    }
  }

  lemma {:induction false} LeavesTotal(lots: seq<Lot>, amount: nat)
    requires Positive(lots) && amount <= Total(lots)
    ensures Positive(Leaves(lots, amount)) && Total(Leaves(lots, amount)) == Total(lots) - amount
    decreases |lots|
  {
    hide TruncDiv;
    if lots != [] {
      if amount < lots[0].amount {
        TotalAppend([Cut(lots[0], amount)], lots[1..]);
      } else {
        LeavesTotal(lots[1..], amount - lots[0].amount);
      }
    }
  }

  /** Equal lots, except that the first may carry one lamport more of basis. */
  ghost predicate OneLamportAbove(twice: seq<Lot>, once: seq<Lot>) {
    || twice == once
    || (&& once != [] && |twice| == |once| && twice[1..] == once[1..]
        && twice[0] == once[0].(basis := once[0].basis + 1))
  }

  /**
   * Selling `a` then `b` under FIFO leaves the same lots as selling `a + b`, except that a lot cut by both sales may
   * keep exactly one lamport more of basis.
   */
  lemma {:induction false} SplitSell(lots: seq<Lot>, a: nat, b: nat)
    requires Positive(lots) && a + b <= Total(lots)
    requires forall i :: 0 <= i < |lots| ==> lots[i].basis >= 0
    ensures Positive(Leaves(lots, a)) && b <= Total(Leaves(lots, a))
    ensures OneLamportAbove(Leaves(Leaves(lots, a), b), Leaves(lots, a + b))
    ensures Leaves(Leaves(lots, a), b) != Leaves(lots, a + b) ==>
              var k := UsedUp(lots, a);
              k < |lots| && UsedUp(lots, a + b) == k && Total(lots[..k]) < a && b > 0
    decreases |lots|
  {
    hide TruncDiv, Cut;
    LeavesTotal(lots, a);
    if lots != [] {
      if a < lots[0].amount {
        SplitFirst(lots, a, b);
      } else {
        SplitSell(lots[1..], a - lots[0].amount, b);
        if UsedUp(lots[1..], a - lots[0].amount) < |lots[1..]| {
          TotalPrefix(lots, UsedUp(lots[1..], a - lots[0].amount));
        }
      }
    }
  }

  /** The first sale ends inside the first lot. */
  lemma SplitFirst(lots: seq<Lot>, a: nat, b: nat)
    requires Positive(lots) && a + b <= Total(lots) && lots != [] && a < lots[0].amount
    requires forall i :: 0 <= i < |lots| ==> lots[i].basis >= 0
    requires Positive(Leaves(lots, a)) && b <= Total(Leaves(lots, a))
    ensures OneLamportAbove(Leaves(Leaves(lots, a), b), Leaves(lots, a + b))
    ensures Leaves(Leaves(lots, a), b) != Leaves(lots, a + b) ==> a > 0 && b > 0 && a + b < lots[0].amount
  {
    hide TruncDiv;
    var l, rest := lots[0], lots[1..];
    var cut := Cut(l, a);
    var once := Leaves(lots, a);
    assert once == [cut] + rest && once[1..] == rest;
    if a + b < l.amount {
      CutNothing(l);
      CutNothing(cut);
      CutTwice(l, a, b);
      assert Leaves(once, b) == [Cut(cut, b)] + rest;
      assert Leaves(lots, a + b) == [Cut(l, a + b)] + rest;
    } else {
      assert Leaves(once, b) == Leaves(rest, b - (l.amount - a));
      assert Leaves(lots, a + b) == Leaves(rest, a + b - l.amount);
    }
  }

  /** The same of two FIFO sales, whatever they earn. */
  lemma SplitSale(lots: seq<Lot>, a: nat, b: nat, proceedsA: int, proceedsB: int, proceeds: int)
    requires Positive(lots) && a + b <= Total(lots)
    requires forall i :: 0 <= i < |lots| ==> lots[i].basis >= 0
    ensures ReduceSpec(lots, a, proceedsA, Fifo).Ok? && ReduceSpec(lots, a + b, proceeds, Fifo).Ok?
    ensures ReduceSpec(ReduceSpec(lots, a, proceedsA, Fifo).value.remaining, b, proceedsB, Fifo).Ok?
    ensures var once := ReduceSpec(lots, a + b, proceeds, Fifo).value.remaining;
            var first := ReduceSpec(lots, a, proceedsA, Fifo).value.remaining;
            var twice := ReduceSpec(first, b, proceedsB, Fifo).value.remaining;
            && OneLamportAbove(twice, once)
            && (twice != once ==>
                  var k := UsedUp(lots, a);
                  k < |lots| && UsedUp(lots, a + b) == k && Total(lots[..k]) < a && b > 0)
  {
    hide ReduceSpec, Leaves, UsedUp, Cut;
    SplitSell(lots, a, b);
    FifoLeaves(lots, a, proceedsA);
    FifoLeaves(lots, a + b, proceeds);
    FifoLeaves(Leaves(lots, a), b, proceedsB);
  }

  // ---- Proceeds ----

  /** Number of lots a sale touches. */
  function Touched(lots: seq<Lot>, toTake: nat): nat {
    if lots == [] || toTake == 0 then 0 else 1 + Touched(lots[1..], toTake - Min(lots[0].amount, toTake))
  }

  predicate NoTouchedLotExceeds(lots: seq<Lot>, toTake: nat, amount: nat) {
    lots == [] || toTake == 0
    || (lots[0].amount <= amount && NoTouchedLotExceeds(lots[1..], toTake - Min(lots[0].amount, toTake), amount))
  }

  lemma {:induction false} EarnedBounds(lots: seq<Lot>, toTake: nat, amount: nat, proceeds: nat)
    requires amount >= 1 && Positive(lots) && toTake <= Total(lots)
    ensures Consume(lots, toTake, amount, proceeds).Ok?
    ensures var e := Consume(lots, toTake, amount, proceeds).value.earned;
            && 0 <= e && e <= proceeds * toTake / amount
            && (NoTouchedLotExceeds(lots, toTake, amount) && toTake > 0 ==>
                  e >= proceeds * toTake / amount - (Touched(lots, toTake) - 1))
    decreases |lots|
  {
    hide TotalBasis, TruncDiv;
    ConsumeConserves(lots, toTake, amount, proceeds);
    if toTake > 0 {
      var l := lots[0];
      var taken := Min(l.amount, toTake);
      var more := toTake - taken;
      EarnedBounds(lots[1..], more, amount, proceeds);
      ShareBounds(proceeds, taken, Max(l.amount, amount), amount);
      SharesJoin(proceeds, taken, more, amount);
    }
  }

  lemma SharesJoin(proceeds: nat, taken: nat, more: nat, amount: nat)
    requires amount >= 1
    ensures var whole := proceeds * (taken + more) / amount;
            && proceeds * taken / amount + proceeds * more / amount <= whole
            && whole <= proceeds * taken / amount + proceeds * more / amount + 1
            && (more == 0 ==> proceeds * taken / amount == whole && proceeds * more / amount == 0)
  {
    Spread(taken, more, proceeds);
    Division.FloorSum(proceeds * taken, proceeds * more, amount);
  }

  lemma ShareBounds(proceeds: nat, taken: nat, denom: nat, amount: nat)
    requires denom >= amount >= 1
    ensures 0 <= TruncDiv(proceeds * taken, denom) <= proceeds * taken / amount
    ensures denom == amount ==> TruncDiv(proceeds * taken, denom) == proceeds * taken / amount
  {
    var n := proceeds * taken;
    var q := n / denom;
    assert n >= 0;
    Division.DivBounds(n, denom, q);
    Division.DivBounds(n, denom, 0);
    MulLe(amount, denom, q);
    Division.DivBounds(n, amount, q);
  }

  /**
   * FIFO and LIFO never allocate more than the proceeds, and miss at most one lamport per extra lot when no touched
   * lot is larger than the sale. (For a larger lot the allocation is scaled down on purpose.)
   */
  lemma ProceedsAllocation(lots: seq<Lot>, amount: nat, proceeds: nat, m: Method)
    requires Positive(lots) && 1 <= amount <= Total(lots) && m != AvgCost
    ensures ReduceSpec(lots, amount, proceeds, m).Ok?
    ensures var r := ReduceSpec(lots, amount, proceeds, m).value;
            var earned := r.realized + r.costBasis;
            && 0 <= earned <= proceeds
            && (NoTouchedLotExceeds(InOrder(lots, m), amount, amount) ==>
                  earned >= proceeds - (Touched(InOrder(lots, m), amount) - 1))
  {
    hide Consume, Touched, NoTouchedLotExceeds;
    TotalReverse(lots);
    ReduceConserves(lots, amount, proceeds, m);
    EarnedBounds(InOrder(lots, m), amount, amount, proceeds);
    Division.ExactDiv(proceeds, amount);
  }

  /** A sale is flagged exactly when a lot it takes from has no known basis. */
  lemma {:induction false} ConsumeFlags(lots: seq<Lot>, toTake: nat, amount: nat, proceeds: int)
    requires amount >= 1 && Positive(lots)
    ensures Consume(lots, toTake, amount, proceeds).Ok? && Touched(lots, toTake) <= |lots|
    ensures Consume(lots, toTake, amount, proceeds).value.unresolved
            <==> exists i :: 0 <= i < Touched(lots, toTake) && lots[i].unresolved
    decreases |lots|
  {
    hide TruncDiv, Cut;
    if lots != [] && toTake > 0 {
      var rest, left := lots[1..], toTake - Min(lots[0].amount, toTake);
      ConsumeFlags(rest, left, amount, proceeds);
      FlaggedCons(lots, Touched(rest, left));
    }
  }

  lemma FlaggedCons(lots: seq<Lot>, n: nat)
    requires lots != [] && n < |lots|
    ensures (exists i :: 0 <= i < 1 + n && lots[i].unresolved)
            <==> lots[0].unresolved || exists i :: 0 <= i < n && lots[1..][i].unresolved
  {
    assert forall i :: 0 < i < |lots| ==> lots[i] == lots[1..][i - 1];
    assert forall i :: 0 <= i < n ==> lots[1..][i] == lots[i + 1];
  }

  /** What a sale reports beside lots and sums: the proceeds it was given, and whether any basis it used is unknown. */
  lemma ReduceReports(lots: seq<Lot>, amount: nat, proceeds: int, m: Method)
    requires Positive(lots) && 1 <= amount <= Total(lots)
    ensures ReduceSpec(lots, amount, proceeds, m).Ok?
    ensures ReduceSpec(lots, amount, proceeds, m).value.proceeds == proceeds
    ensures Touched(InOrder(lots, m), amount) <= |InOrder(lots, m)| == |lots|
    ensures ReduceSpec(lots, amount, proceeds, m).value.basisUnresolved
            <==> if m == AvgCost then exists i :: 0 <= i < |lots| && lots[i].unresolved
                 else exists i :: 0 <= i < Touched(InOrder(lots, m), amount) && InOrder(lots, m)[i].unresolved
  {
    hide Consume, AvgRemaining, TruncDiv, Touched;
    TotalReverse(lots);
    ConsumeFlags(InOrder(lots, m), amount, amount, proceeds);
    if m != AvgCost {
      ReduceConserves(lots, amount, proceeds, m);
    }
  }

  /** Nothing to sell changes nothing; average cost accepts a sale of an empty position, FIFO and LIFO refuse it. */
  lemma NothingSold(lots: seq<Lot>, amount: int, proceeds: int, m: Method)
    requires Positive(lots)
    ensures amount <= 0 ==> ReduceSpec(lots, amount, proceeds, m) == Ok(Reduced(lots, 0, 0, proceeds, false))
    ensures amount > 0 && lots == [] ==>
              ReduceSpec(lots, amount, proceeds, m)
              == if m == AvgCost then Ok(Reduced([], 0, 0, proceeds, false)) else Err(Insufficient(0))
  {
    hide Consume;
    if m != AvgCost {
      ReduceConserves(lots, amount, proceeds, m);
    }
  }

  /**
   * A first lot larger than the sale is the only one touched, and only its sold fraction of the proceeds is allocated:
   * the rest is never counted as realized.
   */
  lemma LargerLotScalesProceeds(lots: seq<Lot>, amount: nat, proceeds: int, m: Method)
    requires lots != [] && m != AvgCost && 1 <= amount < InOrder(lots, m)[0].amount
    ensures var ordered := InOrder(lots, m);
            var l := ordered[0];
            var share, basis := TruncDiv(proceeds * amount, l.amount), TruncDiv(l.basis * amount, l.amount);
            ReduceSpec(lots, amount, proceeds, m)
            == Ok(Reduced(InOrder([Cut(l, amount)] + ordered[1..], m), share - basis, basis, proceeds, l.unresolved))
  {
    hide TruncDiv, Cut, Consume;
    ConsumeFromOne(InOrder(lots, m), amount, proceeds);
  }

  lemma ConsumeFromOne(lots: seq<Lot>, amount: nat, proceeds: int)
    requires lots != [] && 1 <= amount < lots[0].amount
    ensures var l := lots[0];
            Consume(lots, amount, amount, proceeds)
            == Ok(Taken([Cut(l, amount)] + lots[1..], TruncDiv(l.basis * amount, l.amount),
                        TruncDiv(proceeds * amount, l.amount), l.unresolved, 0))
  {
    hide TruncDiv, Cut;
    assert Consume(lots[1..], 0, amount, proceeds) == Ok(Taken(lots[1..], 0, 0, false, 0));
  }

  // ---- Average cost ----

  /** Tokens the average-cost reduction takes, lot by lot. */
  function AvgTaken(lots: seq<Lot>, amount: nat, total: nat): nat
    requires total >= 1
  {
    if lots == [] then 0 else AvgTake(lots[0], amount, total) + AvgTaken(lots[1..], amount, total)
  }

  lemma {:induction false} AvgTakenBounds(lots: seq<Lot>, amount: nat, total: nat)
    requires total >= 1
    ensures AvgTaken(lots, amount, total) <= Total(lots) * amount / total
    ensures lots != [] ==> AvgTaken(lots, amount, total) >= Total(lots) * amount / total - (|lots| - 1)
    decreases |lots|
  {
    if lots != [] {
      AvgTakenBounds(lots[1..], amount, total);
      var a, b := lots[0].amount, Total(lots[1..]);
      Spread(a, b, amount);
      Division.FloorSum(a * amount, b * amount, total);
      if lots[1..] == [] {
        assert b * amount / total == 0;
      }
    }
  }

  lemma {:induction false} AvgRemainingTotal(lots: seq<Lot>, amount: nat, total: nat)
    requires total >= 1 && amount <= total
    ensures Total(AvgRemaining(lots, amount, total)) == Total(lots) - AvgTaken(lots, amount, total)
    ensures Positive(AvgRemaining(lots, amount, total))
    decreases |lots|
  {
    hide TruncDiv, AvgTake;
    if lots != [] {
      var l := lots[0];
      var take := AvgTake(l, amount, total);
      AvgTakeWithin(l, amount, total);
      AvgRemainingTotal(lots[1..], amount, total);
      var after := if take == 0 then l else Cut(l, take);
      TotalAppend(if after.amount > 0 then [after] else [], AvgRemaining(lots[1..], amount, total));
    }
  }

  lemma AvgTakeWithin(l: Lot, amount: nat, total: nat)
    requires total >= 1 && amount <= total
    ensures AvgTake(l, amount, total) <= l.amount
  {
    TakeWithin(l.amount, amount, total);
  }

  /** The basis of one lot given up is at most its proportional share, in units of `basis * amount / total`. */
  lemma AvgBasisShare(b: nat, n: nat, amount: nat, total: nat)
    requires total >= 1 && amount <= total && n >= 1
    ensures var take := n * amount / total;
            take <= n && 0 <= b * take / n <= b * amount / total
  {
    var take := n * amount / total;
    TakeWithin(n, amount, total);
    Division.DivBounds(n * amount, total, take);
    var q := b * take / n;
    ShareWithin(b, take, n);
    Division.DivBounds(b * take, n, q);
    // q * n <= b * take and take * total <= n * amount, so q * total <= b * amount
    MulLe(q * n, b * take, total);
    MulLe(take * total, n * amount, b);
    Rearrange(q, n, total, b, take, amount);
    MulCancel(q * total, b * amount, n);
    Division.DivBounds(b * amount, total, q);
  }

  lemma Rearrange(q: nat, n: nat, total: nat, b: nat, take: nat, amount: nat)
    ensures (q * n) * total == (q * total) * n
    ensures (b * take) * total == (take * total) * b
    ensures (n * amount) * b == (b * amount) * n
  {
  }

  lemma {:induction false} AvgBasisBound(lots: seq<Lot>, amount: nat, total: nat)
    requires total >= 1 && amount <= total && Positive(lots)
    requires forall i :: 0 <= i < |lots| ==> lots[i].basis >= 0
    ensures TotalBasis(lots) >= 0
    ensures TotalBasis(AvgRemaining(lots, amount, total)) >= TotalBasis(lots) - TotalBasis(lots) * amount / total
    decreases |lots|
  {
    hide AvgTake, TruncDiv;
    if lots != [] {
      AvgBasisBound(lots[1..], amount, total);
      AvgBasisOne(lots[0], amount, total);
      AvgUnfold(lots, amount, total);
      var b, rest := lots[0].basis, TotalBasis(lots[1..]);
      Spread(b, rest, amount);
      Division.FloorSum(b * amount, rest * amount, total);
    }
  }

  /** What one lot keeps after the reduction, dropped or not. */
  function AvgKept(l: Lot, amount: nat, total: nat): int
    requires total >= 1 && amount <= total
  {
    TakeWithin(l.amount, amount, total);
    var take := AvgTake(l, amount, total);
    if take == 0 then l.basis else Cut(l, take).basis
  }

  lemma AvgUnfold(lots: seq<Lot>, amount: nat, total: nat)
    requires total >= 1 && amount <= total && Positive(lots) && lots != []
    ensures TotalBasis(AvgRemaining(lots, amount, total))
            == AvgKept(lots[0], amount, total) + TotalBasis(AvgRemaining(lots[1..], amount, total))
  {
    hide TruncDiv, AvgTake;
    var l := lots[0];
    var take := AvgTake(l, amount, total);
    AvgTakeWithin(l, amount, total);
    var after := if take == 0 then l else Cut(l, take);
    TotalAppend(if after.amount > 0 then [after] else [], AvgRemaining(lots[1..], amount, total));
    if take == l.amount {
      FullShare(l);
    }
  }

  lemma AvgBasisOne(l: Lot, amount: nat, total: nat)
    requires total >= 1 && amount <= total && l.amount >= 1 && l.basis >= 0
    ensures AvgKept(l, amount, total) >= l.basis - l.basis * amount / total
  {
    AvgBasisShare(l.basis, l.amount, amount, total);
    var take := AvgTake(l, amount, total);
    assert l.basis * take >= 0;
    if take == 0 {
      ShareWithin(l.basis, amount, total);
    }
  }

  /**
   * Average cost rounds in the holder's favour: between nothing and one token per extra lot too much stays, and
   * reported plus remaining basis is never below the original, with equality when everything is sold.
   */
  lemma AvgCostBounds(lots: seq<Lot>, amount: nat, proceeds: int)
    requires Positive(lots) && lots != [] && 1 <= amount
    requires forall i :: 0 <= i < |lots| ==> lots[i].basis >= 0
    ensures ReduceSpec(lots, amount, proceeds, AvgCost).Ok? <==> amount <= Total(lots)
    ensures amount <= Total(lots) ==>
              var r := ReduceSpec(lots, amount, proceeds, AvgCost).value;
              && Total(lots) - amount <= Total(r.remaining) <= Total(lots) - amount + |lots| - 1
              && r.costBasis + TotalBasis(r.remaining) >= TotalBasis(lots)
              && r.realized + r.costBasis == proceeds
    ensures amount == Total(lots) ==>
              ReduceSpec(lots, amount, proceeds, AvgCost) ==
              Ok(Reduced([], proceeds - TotalBasis(lots), TotalBasis(lots), proceeds, AnyUnresolved(lots)))
  {
    hide AvgRemaining, AvgTaken, TotalBasis;
    TotalPositive(lots);
    var total := Total(lots);
    if amount <= total {
      AvgRemainingTotal(lots, amount, total);
      AvgTakenBounds(lots, amount, total);
      AvgBasisBound(lots, amount, total);
      Division.ExactDiv(amount, total);
      var basis := TotalBasis(lots);
      assert basis * amount >= 0;
      Division.ExactDiv(basis, total);
      if amount == total {
        AvgTakenAll(lots, total);
        NothingLeft(AvgRemaining(lots, amount, total));
      }
    }
  }

  lemma NothingLeft(lots: seq<Lot>)
    requires Positive(lots) && Total(lots) == 0
    ensures lots == []
  {
    if lots != [] {
      TotalPositive(lots);
    }
  }

  lemma {:induction false} AvgTakenAll(lots: seq<Lot>, total: nat)
    requires total >= 1
    ensures AvgTaken(lots, total, total) == Total(lots)
    decreases |lots|
  {
    if lots != [] {
      AvgTakenAll(lots[1..], total);
      Division.ExactDiv(lots[0].amount, total);
    }
  }
}
