/** The per-wallet trade ledger (applyLandedTrade and withMutex of packages/solana-portfolio/src/store-file.ts). */
module Ledger {
  import opened Wrappers
  import opened Bytes
  import opened Lots
  import opened LotFacts

  datatype Position = Position(mint: string, lots: seq<Lot>, slot: nat)
  datatype WalletData = WalletData(positions: seq<Position>, realized: int, byMint: map<string, int>,
                                   accounting: Option<Method>)

  /** `amount` is the signed token delta, `flow` the signed SOL flow. */
  datatype Trade = Trade(wallet: string, mint: string, amount: int, flow: int, slot: nat, sig: string)

  function EmptyWallet(): WalletData {
    WalletData([], 0, map[], None)
  }

  // ---- One trade ----

  function PosIndex(ps: seq<Position>, mint: string): (i: nat)
    ensures i <= |ps|
    ensures i < |ps| ==> ps[i].mint == mint
  {
    if ps == [] || ps[0].mint == mint then 0 else 1 + PosIndex(ps[1..], mint)
  }

  function PositionOf(d: WalletData, mint: string): Position {
    var i := PosIndex(d.positions, mint);
    if i < |d.positions| then d.positions[i] else Position(mint, [], 0)
  }

  /** Overwrite the mint's position, or append one. */
  function Put(ps: seq<Position>, p: Position): (r: seq<Position>) {
    var i := PosIndex(ps, p.mint);
    if i < |ps| then ps[i := p] else ps + [p]
  }

  function RealizedFor(d: WalletData, mint: string): int {
    if mint in d.byMint then d.byMint[mint] else 0
  }

  function MethodOf(d: WalletData): Method {
    if d.accounting.Some? then d.accounting.value else Fifo
  }

  function LotOf(t: Trade): Lot
    requires t.amount > 0
  {
    Lot(t.amount, if t.flow < 0 then -t.flow else 0, t.slot, t.sig, Source.Trade, false)
  }

  function Proceeds(t: Trade): nat {
    if t.flow > 0 then t.flow else 0
  }

  function Apply(d: WalletData, t: Trade): Result<WalletData, Error> {
    var pos := PositionOf(d, t.mint);
    if t.amount > 0 then
      Ok(d.(positions := Put(d.positions, pos.(lots := pos.lots + [LotOf(t)], slot := t.slot))))
    else if t.amount < 0 then
      var r :- ReduceSpec(pos.lots, -t.amount, Proceeds(t), MethodOf(d));
      Ok(d.(positions := Put(d.positions, pos.(lots := r.remaining, slot := t.slot)),
            realized := d.realized + r.realized,
            byMint := d.byMint[t.mint := RealizedFor(d, t.mint) + r.realized]))
    else Ok(d.(positions := Put(d.positions, pos)))
  }

  /** The critical section: mutate the loaded copy; a throwing reduction leaves before anything is changed. */
  method ApplyTrade(loaded: WalletData, t: Trade) returns (r: Result<WalletData, Error>)
    ensures r == Apply(loaded, t)
  {
    hide ReduceSpec;
    var data := loaded;
    var idx := PosIndex(data.positions, t.mint);
    var pos := if idx < |data.positions| then data.positions[idx] else Position(t.mint, [], 0);
    if t.amount > 0 {
      pos := pos.(lots := pos.lots + [LotOf(t)], slot := t.slot);
    } else if t.amount < 0 {
      var red := ReduceLots(pos.lots, -t.amount, Proceeds(t), MethodOf(data));
      if red.Err? {
        return Err(red.error);
      }
      data := data.(realized := data.realized + red.value.realized);
      data := data.(byMint := data.byMint[t.mint := RealizedFor(data, t.mint) + red.value.realized]);
      pos := pos.(lots := red.value.remaining, slot := t.slot);
    }
    if idx < |data.positions| {
      data := data.(positions := data.positions[idx := pos]);
    } else {
      data := data.(positions := data.positions + [pos]);
    }
    return Ok(data);
  }

  // ---- A wallet's history, applied one by one ----

  /** A `realized-pnl` event. */
  datatype Gain = Gain(mint: string, realized: int)

  /** The wallet after a list of trades: those that applied, the basis their sales consumed and what they realized. */
  datatype History = History(data: WalletData, applied: seq<Trade>, consumed: int, gains: seq<Gain>)

  function CostOf(d: WalletData, t: Trade): int {
    if t.amount >= 0 then 0
    else
      match ReduceSpec(PositionOf(d, t.mint).lots, -t.amount, Proceeds(t), MethodOf(d))
      case Ok(r) => r.costBasis
      case Err(_) => 0
  }

  function RealizedOf(d: WalletData, t: Trade): int {
    if t.amount >= 0 then 0
    else
      match ReduceSpec(PositionOf(d, t.mint).lots, -t.amount, Proceeds(t), MethodOf(d))
      case Ok(r) => r.realized
      case Err(_) => 0
  }

  /** The event a sale emits. */
  function GainOf(d: WalletData, t: Trade): seq<Gain> {
    if t.amount < 0 then [Gain(t.mint, RealizedOf(d, t))] else []
  }

  function Applied(h: History, t: Trade, d: WalletData): History {
    History(d, h.applied + [t], h.consumed + CostOf(h.data, t), h.gains + GainOf(h.data, t))
  }

  function Fold(start: WalletData, ts: seq<Trade>): History {
    if ts == [] then History(start, [], 0, [])
    else
      var before := Fold(start, ts[..|ts| - 1]);
      var t := ts[|ts| - 1];
      match Apply(before.data, t)
      case Err(_) => before
      case Ok(d) => Applied(before, t, d)
  }

  // ---- Conservation ----

  function DeltaSum(ts: seq<Trade>, mint: string): int {
    if ts == [] then 0
    else
      DeltaSum(ts[..|ts| - 1], mint)
      + if ts[|ts| - 1].mint == mint then ts[|ts| - 1].amount else 0
  }

  /** Basis bought: SOL spent on inflows. */
  function BoughtBasis(ts: seq<Trade>): int {
    if ts == [] then 0
    else
      var t := ts[|ts| - 1];
      BoughtBasis(ts[..|ts| - 1]) + if t.amount > 0 && t.flow < 0 then -t.flow else 0
  }

  function OpenBasis(ps: seq<Position>): int {
    if ps == [] then 0 else TotalBasis(ps[0].lots) + OpenBasis(ps[1..])
  }

  function RealizedSum(ps: seq<Position>, byMint: map<string, int>): int {
    if ps == [] then 0
    else (if ps[0].mint in byMint then byMint[ps[0].mint] else 0) + RealizedSum(ps[1..], byMint)
  }

  ghost predicate UniqueMints(ps: seq<Position>) {
    forall i, j :: 0 <= i < j < |ps| ==> ps[i].mint != ps[j].mint
  }

  ghost predicate HasMint(ps: seq<Position>, mint: string) {
    exists i :: 0 <= i < |ps| && ps[i].mint == mint
  }

  ghost predicate AllPositive(ps: seq<Position>) {
    forall i :: 0 <= i < |ps| ==> Positive(ps[i].lots)
  }

  /** The books of a FIFO/LIFO wallet balance against its applied trades. */
  ghost predicate Balanced(h: History) {
    && UniqueMints(h.data.positions) && AllPositive(h.data.positions)
    && MethodOf(h.data) != AvgCost
    && (forall m :: m in h.data.byMint ==> HasMint(h.data.positions, m))
    && (forall m :: Total(PositionOf(h.data, m).lots) == DeltaSum(h.applied, m))
    && h.data.realized == RealizedSum(h.data.positions, h.data.byMint)
    && OpenBasis(h.data.positions) + h.consumed == BoughtBasis(h.applied)
    && Earned(h)
  }

  function GainSum(gains: seq<Gain>, mint: string): int {
    if gains == [] then 0
    else
      GainSum(gains[..|gains| - 1], mint) + if gains[|gains| - 1].mint == mint then gains[|gains| - 1].realized else 0
  }

  function GainTotal(gains: seq<Gain>): int {
    if gains == [] then 0 else GainTotal(gains[..|gains| - 1]) + gains[|gains| - 1].realized
  }

  /** Each mint's realized total is what its sales realized, and there is one exactly for the mints that were sold. */
  ghost predicate Earned(h: History) {
    && h.data.realized == GainTotal(h.gains)
    && (forall m :: RealizedFor(h.data, m) == GainSum(h.gains, m))
    && forall m :: m in h.data.byMint <==> exists i :: 0 <= i < |h.gains| && h.gains[i].mint == m
  }

  lemma {:induction false} PosIndexAt(ps: seq<Position>, i: nat)
    requires UniqueMints(ps) && i < |ps|
    ensures PosIndex(ps, ps[i].mint) == i
  {
    if i > 0 {
      assert ps[1..][i - 1] == ps[i];
      PosIndexAt(ps[1..], i - 1);
    }
  }

  lemma {:induction false} PosIndexNone(ps: seq<Position>, mint: string)
    ensures PosIndex(ps, mint) == |ps| <==> !HasMint(ps, mint)
  {
    if ps != [] {
      PosIndexNone(ps[1..], mint);
      if HasMint(ps[1..], mint) {
        var i :| 0 <= i < |ps[1..]| && ps[1..][i].mint == mint;
        assert ps[i + 1].mint == mint;
      }
      if HasMint(ps, mint) && ps[0].mint != mint {
        var i :| 0 <= i < |ps| && ps[i].mint == mint;
        assert ps[1..][i - 1].mint == mint;
      }
    }
  }

  lemma {:induction false} OpenBasisAppend(a: seq<Position>, b: seq<Position>)
    ensures OpenBasis(a + b) == OpenBasis(a) + OpenBasis(b)
    decreases |a|
  {
    if a == [] {
      assert a + b == b;
    } else {
      OpenBasisAppend(a[1..], b);
      assert (a + b)[1..] == a[1..] + b;
    }
  }

  lemma {:induction false} RealizedSumAppend(a: seq<Position>, b: seq<Position>, byMint: map<string, int>)
    ensures RealizedSum(a + b, byMint) == RealizedSum(a, byMint) + RealizedSum(b, byMint)
    decreases |a|
  {
    if a == [] {
      assert a + b == b;
    } else {
      RealizedSumAppend(a[1..], b, byMint);
      assert (a + b)[1..] == a[1..] + b;
    }
  }

  /** Positions of other mints do not see an update of `mint`'s realized total. */
  lemma {:induction false} RealizedSumOther(ps: seq<Position>, byMint: map<string, int>, mint: string, v: int)
    requires !HasMint(ps, mint)
    ensures RealizedSum(ps, byMint[mint := v]) == RealizedSum(ps, byMint)
    decreases |ps|
  {
    if ps != [] {
      assert ps[0].mint != mint;
      forall i | 0 <= i < |ps[1..]|
        ensures ps[1..][i].mint != mint
      {
        assert ps[i + 1].mint != mint;
      }
      RealizedSumOther(ps[1..], byMint, mint, v);
    }
  }

  /** Replacing one position changes the sums by exactly that position's change. */
  lemma PutSums(d: WalletData, p: Position, v: int)
    requires UniqueMints(d.positions)
    requires forall m :: m in d.byMint ==> HasMint(d.positions, m)
    ensures OpenBasis(Put(d.positions, p))
            == OpenBasis(d.positions) - TotalBasis(PositionOf(d, p.mint).lots) + TotalBasis(p.lots)
    ensures RealizedSum(Put(d.positions, p), d.byMint[p.mint := v])
            == RealizedSum(d.positions, d.byMint) - RealizedFor(d, p.mint) + v
    ensures RealizedSum(Put(d.positions, p), d.byMint) == RealizedSum(d.positions, d.byMint)
  {
    var ps, m := d.positions, p.mint;
    var i := PosIndex(ps, m);
    PosIndexNone(ps, m);
    if i < |ps| {
      var a, b := ps[..i], ps[i + 1..];
      assert !HasMint(a, m) && !HasMint(b, m);
      assert ps == a + [ps[i]] + b && Put(ps, p) == a + [p] + b;
      ThreeParts(a, ps[i], b, d.byMint);
      ThreeParts(a, p, b, d.byMint);
      ThreeParts(a, p, b, d.byMint[m := v]);
      RealizedSumOther(a, d.byMint, m, v);
      RealizedSumOther(b, d.byMint, m, v);
    } else {
      assert m !in d.byMint;
      OpenBasisAppend(ps, [p]);
      RealizedSumAppend(ps, [p], d.byMint);
      RealizedSumAppend(ps, [p], d.byMint[m := v]);
      RealizedSumOther(ps, d.byMint, m, v);
      assert OpenBasis([p]) == TotalBasis(p.lots) + OpenBasis([p][1..]);
      assert RealizedSum([p], d.byMint[m := v]) == v + RealizedSum([p][1..], d.byMint[m := v]);
      assert RealizedSum([p], d.byMint) == 0 + RealizedSum([p][1..], d.byMint);
    }
  }

  lemma ThreeParts(a: seq<Position>, p: Position, b: seq<Position>, byMint: map<string, int>)
    ensures OpenBasis(a + [p] + b) == OpenBasis(a) + TotalBasis(p.lots) + OpenBasis(b)
    ensures RealizedSum(a + [p] + b, byMint)
            == RealizedSum(a, byMint) + (if p.mint in byMint then byMint[p.mint] else 0) + RealizedSum(b, byMint)
  {
    OpenBasisAppend(a + [p], b);
    OpenBasisAppend(a, [p]);
    RealizedSumAppend(a + [p], b, byMint);
    RealizedSumAppend(a, [p], byMint);
    assert OpenBasis([p]) == TotalBasis(p.lots) + OpenBasis([p][1..]);
  }

  /** Put keeps one position per mint and loses none. */
  lemma PutUnique(ps: seq<Position>, p: Position)
    requires UniqueMints(ps)
    ensures UniqueMints(Put(ps, p)) && HasMint(Put(ps, p), p.mint)
    ensures forall m :: HasMint(ps, m) ==> HasMint(Put(ps, p), m)
  {
    var qs := Put(ps, p);
    var i := PosIndex(ps, p.mint);
    PosIndexNone(ps, p.mint);
    assert qs[i] == p;
    assert forall j :: 0 <= j < |ps| && j != i ==> ps[j].mint != p.mint;
    assert forall j :: 0 <= j < |qs| ==> qs[j].mint == if j < |ps| then ps[j].mint else p.mint;
    forall m | HasMint(ps, m)
      ensures HasMint(qs, m)
    {
      var j :| 0 <= j < |ps| && ps[j].mint == m;
      assert qs[j].mint == m;
    }
  }

  /** Put keeps the position list well formed and changes only its own mint. */
  lemma PutPositions(d: WalletData, p: Position)
    requires UniqueMints(d.positions) && AllPositive(d.positions) && Positive(p.lots)
    ensures UniqueMints(Put(d.positions, p)) && AllPositive(Put(d.positions, p))
    ensures HasMint(Put(d.positions, p), p.mint)
    ensures forall m :: HasMint(d.positions, m) ==> HasMint(Put(d.positions, p), m)
    ensures forall m :: PositionOf(d.(positions := Put(d.positions, p)), m).lots
                        == if m == p.mint then p.lots else PositionOf(d, m).lots
  {
    var ps := d.positions;
    var qs := Put(ps, p);
    PutUnique(ps, p);
    forall m
      ensures PositionOf(d.(positions := qs), m).lots == if m == p.mint then p.lots else PositionOf(d, m).lots
    {
      PutLookup(d, p, m);
    }
  }

  lemma PutLookup(d: WalletData, p: Position, m: string)
    requires UniqueMints(d.positions) && UniqueMints(Put(d.positions, p))
    ensures PositionOf(d.(positions := Put(d.positions, p)), m).lots ==
            if m == p.mint then p.lots else PositionOf(d, m).lots
  {
    var ps, qs := d.positions, Put(d.positions, p);
    var i := PosIndex(ps, p.mint);
    PosIndexNone(ps, m);
    PosIndexNone(qs, m);
    if m == p.mint {
      assert qs[i] == p;
      PosIndexAt(qs, i);
    } else if HasMint(ps, m) {
      var j :| 0 <= j < |ps| && ps[j].mint == m;
      assert qs[j] == ps[j];
      PosIndexAt(ps, j);
      PosIndexAt(qs, j);
    } else {
      forall j | 0 <= j < |qs|
        ensures qs[j].mint != m
      {
        if j != i {
          assert qs[j] == ps[j];
        }
      }
    }
  }

  /** One trade on balanced books: rejected exactly when it oversells, otherwise the books stay balanced. */
  lemma ApplyBalanced(h: History, t: Trade)
    requires Balanced(h)
    ensures Apply(h.data, t).Err? <==> t.amount < 0 && -t.amount > DeltaSum(h.applied, t.mint)
    ensures Apply(h.data, t).Ok? ==> Balanced(Applied(h, t, Apply(h.data, t).value))
  {
    hide Balanced, Applied;
    ApplyRejects(h, t);
    if Apply(h.data, t).Ok? {
      ApplyKeeps(h, t);
    }
  }

  lemma ApplyRejects(h: History, t: Trade)
    requires Balanced(h)
    ensures Apply(h.data, t).Err? <==> t.amount < 0 && -t.amount > DeltaSum(h.applied, t.mint)
  {
    hide ReduceSpec, Put, RealizedSum, OpenBasis, Total, TotalBasis, Earned;
    PositionPositive(h.data, t.mint);
    if t.amount < 0 {
      ReduceConserves(PositionOf(h.data, t.mint).lots, -t.amount, Proceeds(t), MethodOf(h.data));
    }
  }

  /** The position a trade leaves. */
  function PositionAfter(d: WalletData, t: Trade): Position
    requires Apply(d, t).Ok?
  {
    var pos := PositionOf(d, t.mint);
    if t.amount > 0 then pos.(lots := pos.lots + [LotOf(t)], slot := t.slot)
    else if t.amount < 0 then
      pos.(lots := ReduceSpec(pos.lots, -t.amount, Proceeds(t), MethodOf(d)).value.remaining, slot := t.slot)
    else pos
  }

  lemma PositionAfterIs(d: WalletData, t: Trade)
    requires AllPositive(d.positions) && MethodOf(d) != AvgCost && Apply(d, t).Ok?
    ensures var p, lots := PositionAfter(d, t), PositionOf(d, t.mint).lots;
            && p.mint == t.mint && Positive(p.lots)
            && Apply(d, t).value.positions == Put(d.positions, p)
            && Total(p.lots) == Total(lots) + t.amount
            && TotalBasis(p.lots) + CostOf(d, t) == TotalBasis(lots) + if t.amount > 0 && t.flow < 0 then -t.flow else 0
  {
    hide ReduceSpec, Put, Total, TotalBasis;
    var pos := PositionOf(d, t.mint);
    PositionPositive(d, t.mint);
    if t.amount < 0 {
      ReduceConserves(pos.lots, -t.amount, Proceeds(t), MethodOf(d));
    } else if t.amount > 0 {
      TotalAppend(pos.lots, [LotOf(t)]);
      OneLot(LotOf(t));
    }
  }

  lemma ApplyKeeps(h: History, t: Trade)
    requires Balanced(h) && Apply(h.data, t).Ok?
    ensures Balanced(Applied(h, t, Apply(h.data, t).value))
  {
    hide Apply, Put, RealizedSum, OpenBasis, Total, TotalBasis, Earned, Applied, PositionAfter, PositionOf, CostOf;
    var d, p := h.data, PositionAfter(h.data, t);
    PositionAfterIs(d, t);
    PutPositions(d, p);
    PutSums(d, p, RealizedFor(d, t.mint) + RealizedOf(d, t));
    BalancedAfter(h, t, p);
  }

  lemma OneLot(l: Lot)
    ensures Total([l]) == l.amount && TotalBasis([l]) == l.basis
  {
  }

  lemma PositionPositive(d: WalletData, mint: string)
    requires AllPositive(d.positions)
    ensures Positive(PositionOf(d, mint).lots)
  {
  }

  lemma AppendSums(ts: seq<Trade>, t: Trade)
    ensures forall m :: DeltaSum(ts + [t], m) == DeltaSum(ts, m) + if t.mint == m then t.amount else 0
    ensures BoughtBasis(ts + [t]) == BoughtBasis(ts) + if t.amount > 0 && t.flow < 0 then -t.flow else 0
  {
    assert (ts + [t])[..|ts|] == ts;
  }

  lemma GainsMore(gains: seq<Gain>, g: Gain)
    ensures GainTotal(gains + [g]) == GainTotal(gains) + g.realized
    ensures forall m :: GainSum(gains + [g], m) == GainSum(gains, m) + if g.mint == m then g.realized else 0
  {
    assert (gains + [g])[..|gains|] == gains;
  }

  lemma EarnedAfter(h: History, t: Trade)
    requires Earned(h) && Apply(h.data, t).Ok?
    ensures Earned(Applied(h, t, Apply(h.data, t).value))
  {
    hide ReduceSpec, Put, PositionOf, GainSum, GainTotal;
    var after := Applied(h, t, Apply(h.data, t).value);
    if t.amount < 0 {
      var g := Gain(t.mint, RealizedOf(h.data, t));
      GainsMore(h.gains, g);
      forall m
        ensures m in after.data.byMint <==> exists i :: 0 <= i < |after.gains| && after.gains[i].mint == m
      {
        assert after.gains[|h.gains|].mint == t.mint;
        assert forall i :: 0 <= i < |h.gains| ==> after.gains[i] == h.gains[i];
      }
    } else {
      assert h.gains + [] == h.gains;
    }
  }

  lemma BalancedAfter(h: History, t: Trade, p: Position)
    requires Balanced(h) && Apply(h.data, t).Ok? && p.mint == t.mint
    requires Apply(h.data, t).value.positions == Put(h.data.positions, p)
    requires UniqueMints(Put(h.data.positions, p)) && AllPositive(Put(h.data.positions, p))
    requires HasMint(Put(h.data.positions, p), p.mint)
    requires forall m :: HasMint(h.data.positions, m) ==> HasMint(Put(h.data.positions, p), m)
    requires forall m :: PositionOf(h.data.(positions := Put(h.data.positions, p)), m).lots
                         == if m == p.mint then p.lots else PositionOf(h.data, m).lots
    requires var v := RealizedFor(h.data, t.mint) + RealizedOf(h.data, t);
             && RealizedSum(Put(h.data.positions, p), h.data.byMint[p.mint := v])
                == RealizedSum(h.data.positions, h.data.byMint) - RealizedFor(h.data, p.mint) + v
             && RealizedSum(Put(h.data.positions, p), h.data.byMint) == RealizedSum(h.data.positions, h.data.byMint)
    requires OpenBasis(Put(h.data.positions, p))
             == OpenBasis(h.data.positions) - TotalBasis(PositionOf(h.data, t.mint).lots) + TotalBasis(p.lots)
    requires Total(p.lots) == Total(PositionOf(h.data, t.mint).lots) + t.amount
    requires TotalBasis(p.lots) + CostOf(h.data, t)
             == TotalBasis(PositionOf(h.data, t.mint).lots) + if t.amount > 0 && t.flow < 0 then -t.flow else 0
    ensures Balanced(Applied(h, t, Apply(h.data, t).value))
  {
    hide Apply, Put, RealizedSum, OpenBasis, Total, TotalBasis, PositionOf, Earned, DeltaSum, BoughtBasis, CostOf;
    EarnedAfter(h, t);
    TokensAfter(h, t, p);
    MoneyAfter(h, t, p);
    SameMethod(h.data, t);
  }

  lemma SameMethod(d: WalletData, t: Trade)
    requires Apply(d, t).Ok?
    ensures MethodOf(Apply(d, t).value) == MethodOf(d)
    ensures forall m :: m in Apply(d, t).value.byMint ==> m in d.byMint || m == t.mint
  {
    hide ReduceSpec, Put;
  }

  lemma TokensAfter(h: History, t: Trade, p: Position)
    requires Apply(h.data, t).Ok? && p.mint == t.mint && Apply(h.data, t).value.positions == Put(h.data.positions, p)
    requires forall m :: Total(PositionOf(h.data, m).lots) == DeltaSum(h.applied, m)
    requires forall m :: PositionOf(h.data.(positions := Put(h.data.positions, p)), m).lots
                         == if m == p.mint then p.lots else PositionOf(h.data, m).lots
    requires Total(p.lots) == Total(PositionOf(h.data, t.mint).lots) + t.amount
    ensures forall m :: Total(PositionOf(Apply(h.data, t).value, m).lots) == DeltaSum(h.applied + [t], m)
  {
    hide Apply, Put, PosIndex, Total, DeltaSum;
    AppendSums(h.applied, t);
    var d := Apply(h.data, t).value;
    forall m
      ensures Total(PositionOf(d, m).lots) == DeltaSum(h.applied + [t], m)
    {
      assert PositionOf(d, m) == PositionOf(h.data.(positions := Put(h.data.positions, p)), m);
    }
  }

  lemma MoneyAfter(h: History, t: Trade, p: Position)
    requires Apply(h.data, t).Ok? && p.mint == t.mint && Apply(h.data, t).value.positions == Put(h.data.positions, p)
    requires h.data.realized == RealizedSum(h.data.positions, h.data.byMint)
    requires OpenBasis(h.data.positions) + h.consumed == BoughtBasis(h.applied)
    requires var v := RealizedFor(h.data, t.mint) + RealizedOf(h.data, t);
             && RealizedSum(Put(h.data.positions, p), h.data.byMint[p.mint := v])
                == RealizedSum(h.data.positions, h.data.byMint) - RealizedFor(h.data, p.mint) + v
             && RealizedSum(Put(h.data.positions, p), h.data.byMint) == RealizedSum(h.data.positions, h.data.byMint)
    requires OpenBasis(Put(h.data.positions, p))
             == OpenBasis(h.data.positions) - TotalBasis(PositionOf(h.data, t.mint).lots) + TotalBasis(p.lots)
    requires TotalBasis(p.lots) + CostOf(h.data, t)
             == TotalBasis(PositionOf(h.data, t.mint).lots) + if t.amount > 0 && t.flow < 0 then -t.flow else 0
    ensures var d := Apply(h.data, t).value;
            && d.realized == RealizedSum(d.positions, d.byMint)
            && OpenBasis(d.positions) + h.consumed + CostOf(h.data, t) == BoughtBasis(h.applied + [t])
  {
    hide ReduceSpec, Put, RealizedSum, OpenBasis, TotalBasis, PosIndex, BoughtBasis;
    AppendSums(h.applied, t);
  }

  /**
   * From an empty FIFO or LIFO wallet, whatever trades arrive: per mint the lots hold the sum of the applied deltas,
   * total realized PnL is the sum over mints, each mint's is what its sales realized, and open plus consumed basis is
   * the basis bought.
   */
  lemma {:induction false} HistoryBalanced(accounting: Option<Method>, ts: seq<Trade>)
    requires accounting != Some(AvgCost)
    ensures Balanced(Fold(EmptyWallet().(accounting := accounting), ts))
    decreases |ts|
  {
    hide Apply, CostOf, GainOf;
    var start := EmptyWallet().(accounting := accounting);
    if ts != [] {
      HistoryBalanced(accounting, ts[..|ts| - 1]);
      ApplyBalanced(Fold(start, ts[..|ts| - 1]), ts[|ts| - 1]);
    } else {
      assert Total([]) == 0;
    }
  }
}
