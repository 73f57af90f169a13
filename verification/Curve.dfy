/**
 * Constant-product trading (packages/pumpfun-protocol/src/curve/math.ts and
 * packages/pumpfun-protocol/src/pumpswap/math.ts).
 * Both floor the new reserve, which favours the trader.
 */
module Curve {
  import opened Division

  const BPS: nat := 10000

  /** The virtual reserves set the price; the real ones play no part in it. */
  datatype CurveReserves = CurveReserves(virtualSol: nat, virtualToken: nat, realSol: nat, realToken: nat)

  datatype PoolReserves = PoolReserves(base: nat, quote: nat)

  // ---- Fees ----

  lemma MulMono(a: int, b: int, c: nat)
    requires a <= b
    ensures a * c <= b * c && c * a <= c * b
  {
  }

  lemma FeeWithin(x: nat, feeBps: nat)
    requires feeBps <= BPS
    ensures 0 <= x * feeBps / BPS <= x
  {
    MulMono(feeBps, BPS, x);
  }

  /** What is left of `x` after the fee. */
  function Net(x: nat, feeBps: nat): nat
    requires feeBps <= BPS
  {
    FeeWithin(x, feeBps);
    x - x * feeBps / BPS
  }

  // ---- The bonding curve; a zero new reserve would be a division by zero ----

  function TokensOutForSolIn(solIn: nat, r: CurveReserves, feeBps: nat): int
    requires feeBps <= BPS && r.virtualSol + Net(solIn, feeBps) >= 1
  {
    var fee := solIn * feeBps / BPS;
    FeeWithin(solIn, feeBps);
    var solInAfterFee := solIn - fee;
    var k := r.virtualSol * r.virtualToken;
    var newVirtualSol := r.virtualSol + solInAfterFee;
    var newVirtualToken := k / newVirtualSol;
    r.virtualToken - newVirtualToken
  }

  function SolOutForTokensIn(tokensIn: nat, r: CurveReserves, feeBps: nat): int
    requires feeBps <= BPS && r.virtualToken + tokensIn >= 1
  {
    var k := r.virtualSol * r.virtualToken;
    var newVirtualToken := r.virtualToken + tokensIn;
    var newVirtualSol := k / newVirtualToken;
    var solOutBeforeFee := r.virtualSol - newVirtualSol;
    var fee := solOutBeforeFee * feeBps / BPS;
    solOutBeforeFee - fee
  }

  // ---- The pool ----

  function AmmTokensOut(quoteIn: nat, r: PoolReserves, feeBps: nat): int
    requires feeBps <= BPS && r.quote + Net(quoteIn, feeBps) >= 1
  {
    var fee := quoteIn * feeBps / BPS;
    FeeWithin(quoteIn, feeBps);
    var quoteInAfterFee := quoteIn - fee;
    var k := r.base * r.quote;
    var newQuote := r.quote + quoteInAfterFee;
    var newBase := k / newQuote;
    r.base - newBase
  }

  function AmmSolOut(tokensIn: nat, r: PoolReserves, feeBps: nat): int
    requires feeBps <= BPS && r.base + tokensIn >= 1
  {
    var k := r.base * r.quote;
    var newBase := r.base + tokensIn;
    var newQuote := k / newBase;
    var quoteOutBeforeFee := r.quote - newQuote;
    var fee := quoteOutBeforeFee * feeBps / BPS;
    quoteOutBeforeFee - fee
  }

  // ---- One swap, whichever way round ----

  /** The reserve paid out of, after the reserve paid into grows to `newIn`. */
  function NewOut(reserveIn: nat, reserveOut: nat, newIn: nat): nat
    requires newIn >= 1
  {
    reserveIn * reserveOut / newIn
  }

  /**
   * The invariant product after a swap: never above `k`, and short of it by less than the reserve paid into.
   */
  lemma ProductAfter(reserveIn: nat, reserveOut: nat, newIn: nat)
    requires newIn >= 1
    ensures var k := reserveIn * reserveOut;
            k - newIn < newIn * NewOut(reserveIn, reserveOut, newIn) <= k
  {
    Recompose(reserveIn * reserveOut, newIn);
  }

  lemma NewOutRange(reserveIn: nat, reserveOut: nat, newIn: nat)
    requires 1 <= newIn && reserveIn <= newIn
    ensures NewOut(reserveIn, reserveOut, newIn) <= reserveOut
  {
    MulMono(reserveIn, newIn, reserveOut);
    DivBounds(reserveIn * reserveOut, newIn, reserveOut);
    assert (reserveOut + 1) * newIn == newIn * reserveOut + newIn;
  }

  /** A larger payment in leaves no more to pay out of. */
  lemma NewOutFalls(reserveIn: nat, reserveOut: nat, newIn: nat, more: nat)
    requires 1 <= newIn <= more
    ensures NewOut(reserveIn, reserveOut, more) <= NewOut(reserveIn, reserveOut, newIn)
  {
    var k, a := reserveIn * reserveOut, NewOut(reserveIn, reserveOut, newIn);
    FloorBrackets(k, newIn);
    MulMono(newIn, more, a + 1);
    DivBounds(k, more, a);
  }

  /** A larger payment leaves at least as much after the fee. */
  lemma NetGrows(x: nat, y: nat, feeBps: nat)
    requires feeBps <= BPS && x <= y
    ensures Net(x, feeBps) <= Net(y, feeBps)
  {
    assert y * feeBps == x * feeBps + (y - x) * feeBps;
    MulMono(feeBps, BPS, y - x);
    DivMonotone(y * feeBps, x * feeBps + (y - x) * BPS, BPS);
    DivModUnique(x * feeBps + (y - x) * BPS, BPS, x * feeBps / BPS + (y - x), x * feeBps % BPS);
  }

  /** A higher fee leaves no more. */
  lemma NetFalls(x: nat, low: nat, high: nat)
    requires low <= high <= BPS
    ensures Net(x, high) <= Net(x, low)
  {
    MulMono(low, high, x);
    DivMonotone(x * low, x * high, BPS);
  }

  // ---- Each of the four in these terms ----

  lemma BuyIs(x: nat, r: CurveReserves, feeBps: nat)
    requires feeBps <= BPS && r.virtualSol + Net(x, feeBps) >= 1
    ensures TokensOutForSolIn(x, r, feeBps)
            == r.virtualToken - NewOut(r.virtualSol, r.virtualToken, r.virtualSol + Net(x, feeBps))
  {
  }

  lemma SellIs(x: nat, r: CurveReserves, feeBps: nat)
    requires feeBps <= BPS && r.virtualToken + x >= 1
    ensures NewOut(r.virtualToken, r.virtualSol, r.virtualToken + x) <= r.virtualSol
    ensures SolOutForTokensIn(x, r, feeBps)
            == Net(r.virtualSol - NewOut(r.virtualToken, r.virtualSol, r.virtualToken + x), feeBps)
  {
    NewOutRange(r.virtualToken, r.virtualSol, r.virtualToken + x);
    assert r.virtualToken * r.virtualSol == r.virtualSol * r.virtualToken;
  }

  /** The curve is the pool with SOL as quote and the token as base. */
  lemma CurveIsPool(x: nat, r: CurveReserves, feeBps: nat)
    requires feeBps <= BPS
    ensures r.virtualSol + Net(x, feeBps) >= 1 ==>
              TokensOutForSolIn(x, r, feeBps) == AmmTokensOut(x, PoolReserves(r.virtualToken, r.virtualSol), feeBps)
    ensures r.virtualToken + x >= 1 ==>
              SolOutForTokensIn(x, r, feeBps) == AmmSolOut(x, PoolReserves(r.virtualToken, r.virtualSol), feeBps)
  {
    assert r.virtualToken * r.virtualSol == r.virtualSol * r.virtualToken;
  }

  /** Without a fee, selling is buying with the reserves' roles swapped. */
  lemma SellIsBuySwapped(x: nat, r: CurveReserves)
    requires r.virtualToken + x >= 1
    ensures SolOutForTokensIn(x, r, 0)
            == TokensOutForSolIn(x, r.(virtualSol := r.virtualToken, virtualToken := r.virtualSol), 0)
  {
    SellIs(x, r, 0);
    BuyIs(x, r.(virtualSol := r.virtualToken, virtualToken := r.virtualSol), 0);
  }

  /** Never negative and never more than the reserve. */
  lemma BuyRange(x: nat, r: CurveReserves, feeBps: nat)
    requires feeBps <= BPS && r.virtualSol + Net(x, feeBps) >= 1
    ensures 0 <= TokensOutForSolIn(x, r, feeBps) <= r.virtualToken
  {
    hide TokensOutForSolIn;
    BuyIs(x, r, feeBps);
    NewOutRange(r.virtualSol, r.virtualToken, r.virtualSol + Net(x, feeBps));
  }

  lemma SellRange(x: nat, r: CurveReserves, feeBps: nat)
    requires feeBps <= BPS && r.virtualToken + x >= 1
    ensures 0 <= SolOutForTokensIn(x, r, feeBps) <= r.virtualSol
  {
    hide SolOutForTokensIn, NewOut, Net;
    SellIs(x, r, feeBps);
    NetWithin(r.virtualSol - NewOut(r.virtualToken, r.virtualSol, r.virtualToken + x), feeBps);
  }

  lemma NetWithin(x: nat, feeBps: nat)
    requires feeBps <= BPS
    ensures Net(x, feeBps) <= x
  {
    FeeWithin(x, feeBps);
  }

  /** More in never pays less out, whatever the fee; a higher fee never pays more. */
  lemma BuyMonotone(x: nat, y: nat, r: CurveReserves, low: nat, high: nat)
    requires x <= y && low <= high <= BPS && r.virtualSol + Net(x, high) >= 1 && r.virtualSol + Net(y, low) >= 1
    ensures TokensOutForSolIn(x, r, high) <= TokensOutForSolIn(y, r, low)
  {
    hide TokensOutForSolIn, NewOut, Net;
    BuyIs(x, r, high);
    BuyIs(y, r, low);
    NetGrows(x, y, high);
    NetFalls(y, low, high);
    NewOutFalls(r.virtualSol, r.virtualToken, r.virtualSol + Net(x, high), r.virtualSol + Net(y, low));
  }

  lemma SellMonotone(x: nat, y: nat, r: CurveReserves, low: nat, high: nat)
    requires x <= y && low <= high <= BPS && r.virtualToken + x >= 1
    ensures SolOutForTokensIn(x, r, high) <= SolOutForTokensIn(y, r, low)
  {
    hide SolOutForTokensIn, NewOut, Net;
    SellIs(x, r, high);
    SellIs(y, r, low);
    NewOutFalls(r.virtualToken, r.virtualSol, r.virtualToken + x, r.virtualToken + y);
    var a := r.virtualSol - NewOut(r.virtualToken, r.virtualSol, r.virtualToken + x);
    var b := r.virtualSol - NewOut(r.virtualToken, r.virtualSol, r.virtualToken + y);
    NetGrows(a, b, high);
    NetFalls(b, low, high);
  }

  // ---- What is paid, exactly ----

  /** `fee` is the share of `x` in hundredths of a percent, rounded down. */
  ghost predicate IsFee(fee: nat, x: nat, feeBps: nat) {
    fee * 10000 <= x * feeBps < (fee + 1) * 10000
  }

  /** `left` is the most that can stay in a reserve without the product growing. */
  ghost predicate IsLeft(left: nat, grown: nat, r: CurveReserves) {
    left * grown <= r.virtualSol * r.virtualToken < (left + 1) * grown
  }

  lemma NetTakesFee(x: nat, feeBps: nat)
    requires feeBps <= BPS
    ensures Net(x, feeBps) <= x && IsFee(x - Net(x, feeBps), x, feeBps)
  {
    FeeWithin(x, feeBps);
    FloorBrackets(x * feeBps, BPS);
  }

  /** A buy: the fee comes off the SOL, and the rest takes out every token the product allows. */
  lemma BuyPays(x: nat, r: CurveReserves, feeBps: nat) returns (fee: nat)
    requires feeBps <= BPS && r.virtualSol + Net(x, feeBps) >= 1
    ensures fee <= x && IsFee(fee, x, feeBps)
    ensures 0 <= TokensOutForSolIn(x, r, feeBps) <= r.virtualToken
    ensures IsLeft(r.virtualToken - TokensOutForSolIn(x, r, feeBps), r.virtualSol + x - fee, r)
  {
    hide TokensOutForSolIn, Net, IsFee;
    NetTakesFee(x, feeBps);
    fee := x - Net(x, feeBps);
    BuyRange(x, r, feeBps);
    BuyIs(x, r, feeBps);
    FloorBrackets(r.virtualSol * r.virtualToken, r.virtualSol + Net(x, feeBps));
  }

  /** A sale: the tokens take out all the SOL the product allows, and the fee comes off that. */
  lemma SellPays(x: nat, r: CurveReserves, feeBps: nat) returns (gross: nat)
    requires feeBps <= BPS && r.virtualToken + x >= 1
    ensures 0 <= SolOutForTokensIn(x, r, feeBps) <= gross <= r.virtualSol
    ensures IsLeft(r.virtualSol - gross, r.virtualToken + x, r)
    ensures IsFee(gross - SolOutForTokensIn(x, r, feeBps), gross, feeBps)
  {
    hide SolOutForTokensIn, Net, IsFee;
    SellIs(x, r, feeBps);
    SellRange(x, r, feeBps);
    NewOutRange(r.virtualToken, r.virtualSol, r.virtualToken + x);
    gross := r.virtualSol - NewOut(r.virtualToken, r.virtualSol, r.virtualToken + x);
    NetTakesFee(gross, feeBps);
    FloorBrackets(r.virtualSol * r.virtualToken, r.virtualToken + x);
  }

  // ---- Runs of trades ----

  /** The reserves after a buy: the fee does not enter them. */
  function Bought(r: CurveReserves, solIn: nat, feeBps: nat): CurveReserves
    requires feeBps <= BPS && r.virtualSol + Net(solIn, feeBps) >= 1
  {
    BuyRange(solIn, r, feeBps);
    r.(virtualSol := r.virtualSol + Net(solIn, feeBps),
       virtualToken := r.virtualToken - TokensOutForSolIn(solIn, r, feeBps))
  }

  /** The reserves after a sell: what leaves them is the output before the fee. */
  function Sold(r: CurveReserves, tokensIn: nat): CurveReserves
    requires r.virtualToken + tokensIn >= 1
  {
    SellRange(tokensIn, r, 0);
    r.(virtualSol := r.virtualSol - SolOutForTokensIn(tokensIn, r, 0), virtualToken := r.virtualToken + tokensIn)
  }

  function Product(r: CurveReserves): nat {
    r.virtualSol * r.virtualToken
  }

  lemma BoughtProduct(r: CurveReserves, x: nat, feeBps: nat)
    requires feeBps <= BPS && r.virtualSol + Net(x, feeBps) >= 1
    ensures var after := Bought(r, x, feeBps);
            && after.virtualSol == r.virtualSol + Net(x, feeBps)
            && Product(r) - after.virtualSol < Product(after) <= Product(r)
  {
    hide TokensOutForSolIn, NewOut, Net;
    BuyIs(x, r, feeBps);
    ProductAfter(r.virtualSol, r.virtualToken, r.virtualSol + Net(x, feeBps));
  }

  lemma SoldProduct(r: CurveReserves, x: nat)
    requires r.virtualToken + x >= 1
    ensures var after := Sold(r, x);
            && after.virtualToken == r.virtualToken + x
            && Product(r) - after.virtualToken < Product(after) <= Product(r)
  {
    hide SolOutForTokensIn, NewOut;
    SellIs(x, r, 0);
    ProductAfter(r.virtualToken, r.virtualSol, r.virtualToken + x);
    assert r.virtualToken * r.virtualSol == Product(r);
    assert Sold(r, x).virtualSol == NewOut(r.virtualToken, r.virtualSol, r.virtualToken + x);
    assert Product(Sold(r, x)) == Sold(r, x).virtualToken * Sold(r, x).virtualSol;
  }

  datatype TradeIn = Buy(solIn: nat) | Sell(tokensIn: nat)

  /** A trade that would leave its own reserve empty divides by zero and is not made. */
  function Traded(r: CurveReserves, t: TradeIn, feeBps: nat): CurveReserves
    requires feeBps <= BPS
  {
    match t
    case Buy(x) => if r.virtualSol + Net(x, feeBps) >= 1 then Bought(r, x, feeBps) else r
    case Sell(x) => if r.virtualToken + x >= 1 then Sold(r, x) else r
  }

  function TradeAll(r: CurveReserves, ts: seq<TradeIn>, feeBps: nat): CurveReserves
    requires feeBps <= BPS
    decreases |ts|
  {
    if ts == [] then r else TradeAll(Traded(r, ts[0], feeBps), ts[1..], feeBps)
  }

  /** Over any run of trades the invariant product never increases. */
  lemma {:induction false} ProductNeverGrows(r: CurveReserves, ts: seq<TradeIn>, feeBps: nat)
    requires feeBps <= BPS
    ensures Product(TradeAll(r, ts, feeBps)) <= Product(r)
    decreases |ts|
  {
    hide Bought, Sold, Product;
    if ts != [] {
      match ts[0] {
        case Buy(x) =>
          if r.virtualSol + Net(x, feeBps) >= 1 {
            BoughtProduct(r, x, feeBps);
          }
        case Sell(x) =>
          if r.virtualToken + x >= 1 {
            SoldProduct(r, x);
          }
      }
      ProductNeverGrows(Traded(r, ts[0], feeBps), ts[1..], feeBps);
    }
  }

  // ---- Splitting a purchase ----

  function Sum(xs: seq<nat>): nat {
    if xs == [] then 0 else xs[0] + Sum(xs[1..])
  }

  /** Fee-free buys one after another: the final reserves. */
  function BuyAll(r: CurveReserves, xs: seq<nat>): (s: CurveReserves)
    requires r.virtualSol >= 1
    ensures s.virtualSol >= 1
    decreases |xs|
  {
    if xs == [] then r else BuyAll(Bought(r, xs[0], 0), xs[1..])
  }

  lemma NetFree(x: nat)
    ensures Net(x, 0) == x
  {
  }

  /** Each buy loses less than the final SOL reserve from the product. */
  lemma {:induction false} BuyAllProduct(r: CurveReserves, xs: seq<nat>)
    requires r.virtualSol >= 1
    ensures var s := BuyAll(r, xs);
            && s.virtualSol == r.virtualSol + Sum(xs) && s.virtualToken <= r.virtualToken
            && Product(r) - |xs| * s.virtualSol <= Product(s) <= Product(r)
            && (xs != [] ==> Product(r) - |xs| * s.virtualSol < Product(s))
    decreases |xs|
  {
    hide TokensOutForSolIn, Product;
    if xs != [] {
      var one := Bought(r, xs[0], 0);
      NetFree(xs[0]);
      BoughtProduct(r, xs[0], 0);
      BuyRange(xs[0], r, 0);
      BuyAllProduct(one, xs[1..]);
      var s := BuyAll(r, xs);
      assert |xs| * s.virtualSol == |xs[1..]| * s.virtualSol + s.virtualSol;
    }
  }

  /** A product within `n` divisors of `k` has a floor within `n - 1`. */
  lemma FloorNear(k: nat, q: nat, t: nat, n: nat)
    requires q >= 1 && t * q <= k < t * q + n * q
    ensures t <= k / q <= t + n - 1
  {
    DivBounds(k, q, t);
    DivBounds(k, q, t + n - 1);
    assert (t + n) * q == t * q + n * q;
  }

  /** Buying in n parts instead of one gains at least nothing and at most n - 1 token units. */
  lemma SplitBuy(r: CurveReserves, xs: seq<nat>)
    requires r.virtualSol >= 1 && xs != []
    ensures var parts := r.virtualToken - BuyAll(r, xs).virtualToken;
            var whole := TokensOutForSolIn(Sum(xs), r, 0);
            whole <= parts <= whole + |xs| - 1
  {
    hide TokensOutForSolIn, BuyAll;
    BuyAllProduct(r, xs);
    BuyIs(Sum(xs), r, 0);
    NetFree(Sum(xs));
    var s := BuyAll(r, xs);
    var q, n := s.virtualSol, |xs|;
    var k := Product(r);
    assert s.virtualToken * q == Product(s);
    FloorNear(k, q, s.virtualToken, n);
  }

  // ---- Buying and selling back ----

  function CeilDiv(a: nat, b: nat): nat
    requires b >= 1
  {
    (a + b - 1) / b
  }

  /**
   * Without fees, buying with `x` and selling the tokens back never loses, and gains at most the new SOL reserve over
   * the token reserve, rounded up.
   */
  lemma RoundTrip(r: CurveReserves, x: nat)
    requires r.virtualSol >= 1 && r.virtualToken >= 1
    ensures var tokens := TokensOutForSolIn(x, r, 0);
            && tokens >= 0 && Bought(r, x, 0).virtualToken + tokens == r.virtualToken
            && x <= SolOutForTokensIn(tokens, Bought(r, x, 0), 0) <= x + CeilDiv(r.virtualSol + x, r.virtualToken)
  {
    hide TokensOutForSolIn, SolOutForTokensIn, NewOut, Product, Net;
    NetFree(x);
    BuyRange(x, r, 0);
    BoughtProduct(r, x, 0);
    var mid := Bought(r, x, 0);
    var tokens := TokensOutForSolIn(x, r, 0);
    SellIs(tokens, mid, 0);
    var left := NewOut(mid.virtualToken, mid.virtualSol, r.virtualToken);
    NetFree(mid.virtualSol - left);
    LeftAfterRoundTrip(r, mid, x, left);
  }

  /** The SOL left in the reserve by the round trip. */
  lemma LeftAfterRoundTrip(r: CurveReserves, mid: CurveReserves, x: nat, left: nat)
    requires r.virtualToken >= 1 && mid.virtualSol == r.virtualSol + x
    requires Product(r) - mid.virtualSol < Product(mid) <= Product(r)
    requires left == NewOut(mid.virtualToken, mid.virtualSol, r.virtualToken)
    ensures r.virtualSol - CeilDiv(mid.virtualSol, r.virtualToken) <= left <= r.virtualSol
  {
    var t, s, c := r.virtualToken, r.virtualSol, CeilDiv(mid.virtualSol, r.virtualToken);
    assert mid.virtualToken * mid.virtualSol == Product(mid);
    DivBounds(Product(mid), t, s);
    assert (s + 1) * t == s * t + t;
    DivBounds(Product(mid), t, s - c);
    Recompose(mid.virtualSol + t - 1, t);
    assert c * t >= mid.virtualSol;
    assert (s - c) * t == s * t - c * t;
  }
}
