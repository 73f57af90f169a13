/** Round-robin fairness, probe spacing and recovery of the endpoint pool. */
module PoolFairness {
  import opened Wrappers
  import opened Bytes
  import opened Pool
  import Division

  // ---- Going round ----

  /** The set positions from `k` on, in order. */
  function Positions(flags: seq<bool>, k: nat): seq<nat>
    requires k <= |flags|
    decreases |flags| - k
  {
    if k == |flags| then [] else (if flags[k] then [k] else []) + Positions(flags, k + 1)
  }

  lemma {:induction false} PositionsAre(flags: seq<bool>, k: nat)
    requires k <= |flags|
    ensures var ps := Positions(flags, k);
            && (forall i :: 0 <= i < |ps| ==> k <= ps[i] < |flags| && flags[ps[i]])
            && (forall i, j :: 0 <= i < j < |ps| ==> ps[i] < ps[j])
            && (forall x :: k <= x < |flags| && flags[x] ==> x in ps)
    decreases |flags| - k
  {
    if k < |flags| {
      PositionsAre(flags, k + 1);
      var ps := Positions(flags, k);
      assert forall x :: x in ps <==> (flags[k] && x == k) || x in Positions(flags, k + 1);
    }
  }

  /** How many are set before `k`. */
  function Count(flags: seq<bool>, k: nat): (n: nat)
    requires k <= |flags|
  {
    if k == 0 then 0 else Count(flags, k - 1) + if flags[k - 1] then 1 else 0
  }

  /** The positions from `k` on are all of them but the first `Count(flags, k)`. */
  lemma {:induction false} PositionsFrom(flags: seq<bool>, k: nat)
    requires k <= |flags|
    ensures Count(flags, k) <= |Positions(flags, 0)|
    ensures Positions(flags, k) == Positions(flags, 0)[Count(flags, k)..]
    decreases k
  {
    hide Positions;
    if k > 0 {
      PositionsFrom(flags, k - 1);
      PositionsCons(flags, k - 1);
      DropOne(Positions(flags, 0), Count(flags, k - 1), Positions(flags, k - 1), Positions(flags, k), flags[k - 1],
              k - 1);
    }
  }

  lemma PositionsCons(flags: seq<bool>, k: nat)
    requires k < |flags|
    ensures Positions(flags, k) == (if flags[k] then [k] else []) + Positions(flags, k + 1)
  {
  }

  lemma DropOne(all: seq<nat>, n: nat, from: seq<nat>, next: seq<nat>, one: bool, x: nat)
    requires n <= |all| && from == all[n..] && from == (if one then [x] else []) + next
    ensures n + (if one then 1 else 0) <= |all| && next == all[n + (if one then 1 else 0)..]
  {
    if one {
      assert next == from[1..];
    }
  }

  /** From the cursor: the next set position, or the first one if there is none. */
  lemma {:induction false} AroundIs(flags: seq<bool>, cursor: nat, i: nat)
    requires cursor < |flags| && i <= |flags|
    requires forall x :: cursor <= x < |flags| && x < cursor + i ==> !flags[x]
    requires forall x :: 0 <= x < cursor + i - |flags| ==> !flags[x]
    ensures var from, all := Positions(flags, cursor), Positions(flags, 0);
            Around(flags, cursor, i) == if from != [] then Some(from[0]) else if all != [] then Some(all[0]) else None
    decreases |flags| - i
  {
    hide Wrap, Positions;
    var n := |flags|;
    if i == n {
      assert forall x :: 0 <= x < n ==> !flags[x];
      HeadIsSet(flags, cursor);
      HeadIsSet(flags, 0);
    } else {
      var idx := Wrap(cursor + i, n);
      if flags[idx] {
        HeadIsSet(flags, cursor);
        FirstPosition(flags, if cursor + i < n then cursor else 0, idx);
      } else {
        AroundIs(flags, cursor, i + 1);
      }
    }
  }

  lemma HeadIsSet(flags: seq<bool>, k: nat)
    requires k <= |flags|
    ensures Positions(flags, k) != [] ==> k <= Positions(flags, k)[0] < |flags| && flags[Positions(flags, k)[0]]
  {
    PositionsAre(flags, k);
  }

  lemma FirstPosition(flags: seq<bool>, k: nat, x: nat)
    requires k <= x < |flags| && flags[x] && forall y :: k <= y < x ==> !flags[y]
    ensures Positions(flags, k) != [] && Positions(flags, k)[0] == x
  {
    PositionsAre(flags, k);
    var ps := Positions(flags, k);
    assert x in ps;
    assert ps[0] <= x;
  }

  /** The choice at a cursor, and the count at the next one: one further in the rotation. */
  lemma Rotates(flags: seq<bool>, cursor: nat)
    requires cursor < |flags| && Positions(flags, 0) != []
    ensures var all, r := Positions(flags, 0), Around(flags, cursor, 0);
            && r.Some? && r.value == all[Wrap(Count(flags, cursor), |all|)]
            && Wrap(Count(flags, Wrap(r.value + 1, |flags|)), |all|) == Wrap(Count(flags, cursor) + 1, |all|)
  {
    hide Around, Wrap, Positions, Count;
    var all := Positions(flags, 0);
    var from, n := Positions(flags, cursor), Count(flags, cursor);
    AroundIs(flags, cursor, 0);
    PositionsFrom(flags, cursor);
    var x := Around(flags, cursor, 0).value;
    var at := if from != [] then n else 0;
    CountAt(flags, x, at);
    if x + 1 == |flags| {
      PositionsFrom(flags, |flags|);
      Ends(flags);
    }
  }

  lemma Ends(flags: seq<bool>)
    ensures Positions(flags, |flags|) == [] && Count(flags, 0) == 0
  {
  }

  /** Just past a set position, its rank and one more are counted. */
  lemma CountAt(flags: seq<bool>, x: nat, at: nat)
    requires x < |flags| && at < |Positions(flags, 0)| && Positions(flags, 0)[at] == x
    ensures Count(flags, x) == at && Count(flags, x + 1) == at + 1
  {
    var all := Positions(flags, 0);
    PositionsAre(flags, 0);
    PositionsFrom(flags, x);
    FirstPosition(flags, x, x);
    assert all[Count(flags, x)] == x;
  }

  /** `m` picks one after another while the flags stay as they are. */
  function Picks(flags: seq<bool>, cursor: nat, m: nat): (ps: seq<nat>)
    requires cursor < |flags|
    decreases m
  {
    if m == 0 then []
    else
      match Around(flags, cursor, 0)
      case None => []
      case Some(x) => [x] + Picks(flags, Wrap(x + 1, |flags|), m - 1)
  }

  /** Consecutive picks walk the set positions in rotation. */
  lemma {:induction false} PicksRotate(flags: seq<bool>, cursor: nat, m: nat, j: nat)
    requires cursor < |flags| && Positions(flags, 0) != [] && j < m
    ensures var all, ps := Positions(flags, 0), Picks(flags, cursor, m);
            |ps| == m && ps[j] == all[(Count(flags, cursor) + j) % |all|]
    decreases m
  {
    hide Around, Positions, Count;
    var all, n := Positions(flags, 0), Count(flags, cursor);
    Rotates(flags, cursor);
    var x := Around(flags, cursor, 0).value;
    var next := Wrap(x + 1, |flags|);
    if j > 0 {
      PicksRotate(flags, next, m - 1, j - 1);
      ModShift(Count(flags, next), n + 1, j - 1, |all|);
    } else if m > 1 {
      PicksRotate(flags, next, m - 1, 0);
    }
  }

  lemma ModShift(a: nat, b: nat, j: nat, m: nat)
    requires m >= 1 && Wrap(a, m) == Wrap(b, m)
    ensures (a + j) % m == (b + j) % m
  {
    Division.Recompose(a, m);
    Division.Recompose(b, m);
    Division.Recompose(b + j, m);
    var q := a / m - b / m;
    assert a - b == q * m;
    assert a + j == ((b + j) / m + q) * m + (b + j) % m;
    Division.DivModUnique(a + j, m, (b + j) / m + q, (b + j) % m);
  }

  lemma PicksAre(flags: seq<bool>, cursor: nat)
    requires cursor < |flags| && Positions(flags, 0) != []
    ensures var all := Positions(flags, 0);
            var ps := Picks(flags, cursor, |all|);
            |ps| == |all| && forall j :: 0 <= j < |all| ==> ps[j] == all[(Count(flags, cursor) + j) % |all|]
  {
    hide Picks, Count, Positions;
    PicksRotate(flags, cursor, |Positions(flags, 0)|, 0);
    forall j | 0 <= j < |Positions(flags, 0)|
      ensures Picks(flags, cursor, |Positions(flags, 0)|)[j]
              == Positions(flags, 0)[(Count(flags, cursor) + j) % |Positions(flags, 0)|]
    {
      PicksRotate(flags, cursor, |Positions(flags, 0)|, j);
    }
  }

  /** Over as many picks as there are set positions, each is picked exactly once. */
  lemma EachOnce(flags: seq<bool>, cursor: nat)
    requires cursor < |flags| && Positions(flags, 0) != []
    ensures var all := Positions(flags, 0);
            var ps := Picks(flags, cursor, |all|);
            && |ps| == |all|
            && (forall x :: x in ps <==> 0 <= x < |flags| && flags[x])
            && (forall i, j :: 0 <= i < j < |ps| ==> ps[i] != ps[j])
  {
    hide Picks, Count, Positions;
    var all, n := Positions(flags, 0), Count(flags, cursor);
    var ps := Picks(flags, cursor, |all|);
    PicksAre(flags, cursor);
    PositionsAre(flags, 0);
    RotationOnce(all, n, ps);
    assert forall x :: x in all <==> 0 <= x < |flags| && flags[x];
  }

  /** A rotation of a list without repeats has the same members, without repeats. */
  lemma RotationOnce(all: seq<nat>, n: nat, ps: seq<nat>)
    requires all != [] && |ps| == |all| && forall j :: 0 <= j < |all| ==> ps[j] == all[(n + j) % |all|]
    requires forall i, j :: 0 <= i < j < |all| ==> all[i] < all[j]
    ensures forall x :: x in ps <==> x in all
    ensures forall i, j :: 0 <= i < j < |ps| ==> ps[i] != ps[j]
  {
    var m := |all|;
    forall i, j | 0 <= i < j < m
      ensures ps[i] != ps[j]
    {
      ModApart(n, i, j, m);
    }
    forall x | x in all
      ensures x in ps
    {
      var k :| 0 <= k < m && all[k] == x;
      var j := ModReach(n, k, m);
      assert ps[j] == x;
    }
  }

  lemma ModApart(n: nat, i: nat, j: nat, m: nat)
    requires i < j < m
    ensures (n + i) % m != (n + j) % m
  {
    Division.Recompose(n + i, m);
    Division.Recompose(n + j, m);
    var q := (n + j) / m - (n + i) / m;
    if (n + i) % m == (n + j) % m {
      assert j - i == q * m;
      if q >= 1 {
        Division.MulAtLeast(q, m);
      }
    }
  }

  lemma ModReach(n: nat, k: nat, m: nat) returns (j: nat)
    requires k < m
    ensures j < m && (n + j) % m == k
  {
    Division.Recompose(n, m);
    var r := n % m;
    j := if k >= r then k - r else k + m - r;
    Division.DivModUnique(n + j, m, if k >= r then n / m else n / m + 1, k);
  }

  // ---- Fairness of the pool ----

  /** The endpoints picks go to: the healthy ones, or without any the degraded ones. */
  function Tier(p: Pooled): seq<bool> {
    var healthy := Where(p.endpoints, Healthy);
    if Positions(healthy, 0) != [] then healthy else Where(p.endpoints, Degraded)
  }

  /** The picks made at the given times, health being left alone between them. */
  function PickAll(p: Pooled, nows: seq<int>): seq<Option<nat>>
    requires Sized(p)
    decreases |nows|
  {
    if nows == [] then []
    else
      var q := Picked(p, nows[0]);
      [Choice(p, nows[0])] + PickAll(q, nows[1..])
  }

  lemma PickInTier(p: Pooled, now: int)
    requires Sized(p) && Positions(Tier(p), 0) != []
    ensures var q := Picked(p, now);
            && Choice(p, now) == Around(Tier(p), p.cursor, 0) && Choice(p, now).Some?
            && Sized(q) && q.endpoints == p.endpoints && q.cursor == Wrap(Choice(p, now).value + 1, |p.endpoints|)
  {
    hide Around, Positions, Wrap;
    var healthy, degraded := Where(p.endpoints, Healthy), Where(p.endpoints, Degraded);
    AroundIs(healthy, p.cursor, 0);
    AroundIs(degraded, p.cursor, 0);
    NoneAnywhere(healthy, p.cursor);
    var r := Choice(p, now);
    assert Probed(p.endpoints[r.value], now) == p.endpoints[r.value];
  }

  lemma NoneAnywhere(flags: seq<bool>, k: nat)
    requires k <= |flags|
    ensures Positions(flags, 0) == [] ==> Positions(flags, k) == []
  {
    PositionsFrom(flags, k);
  }

  lemma SameTier(p: Pooled, q: Pooled)
    requires p.endpoints == q.endpoints
    ensures Tier(p) == Tier(q) && |Tier(p)| == |p.endpoints|
  {
  }

  lemma {:induction false} PickAllIs(p: Pooled, nows: seq<int>)
    requires Sized(p) && Positions(Tier(p), 0) != []
    ensures var all, ps := PickAll(p, nows), Picks(Tier(p), p.cursor, |nows|);
            |all| == |ps| == |nows| && forall j :: 0 <= j < |nows| ==> all[j] == Some(ps[j])
    decreases |nows|
  {
    hide Around, Positions, Choice, Picked, Wrap, Tier;
    if nows != [] {
      PickInTier(p, nows[0]);
      var q := Picked(p, nows[0]);
      SameTier(p, q);
      PickAllIs(q, nows[1..]);
      assert PickAll(p, nows) == [Choice(p, nows[0])] + PickAll(q, nows[1..]);
      assert Picks(Tier(p), p.cursor, |nows|) == [Choice(p, nows[0]).value] + Picks(Tier(p), q.cursor, |nows| - 1);
    }
  }

  /**
   * While health does not change, any m consecutive picks over the m endpoints of the tier in use return each of them
   * exactly once, wherever the cursor starts.
   */
  lemma Fair(p: Pooled, nows: seq<int>)
    requires Sized(p) && |nows| == |Positions(Tier(p), 0)| >= 1
    ensures var all := PickAll(p, nows);
            && |all| == |nows|
            && (forall x: nat :: Some(x) in all <==> x < |p.endpoints| && Tier(p)[x])
            && (forall i, j :: 0 <= i < j < |all| ==> all[i] != all[j])
  {
    hide PickAll, Picks, Positions, Tier;
    PickAllIs(p, nows);
    TierSize(p);
    EachOnce(Tier(p), p.cursor);
    var all, ps := PickAll(p, nows), Picks(Tier(p), p.cursor, |nows|);
    forall x: nat | x < |p.endpoints| && Tier(p)[x]
      ensures Some(x) in all
    {
      var j :| 0 <= j < |ps| && ps[j] == x;
      assert all[j] == Some(x);
    }
    forall x: nat | Some(x) in all
      ensures x < |p.endpoints| && Tier(p)[x]
    {
      var j :| 0 <= j < |all| && all[j] == Some(x);
      assert ps[j] in ps;
    }
  }

  lemma TierSize(p: Pooled)
    ensures |Tier(p)| == |p.endpoints|
  {
  }

  /** How a call on an endpoint ended, for its health; a method error is an answer. */
  datatype Report = Answered | TransportFailed | RateLimited

  function Told(s: Status, report: Report, now: int): Status {
    match report
    case Answered => Success(s)
    case TransportFailed => Error(s, now)
    case RateLimited => RateLimit(s)
  }

  /** Whatever the picked endpoint reports, the next pick goes elsewhere while another one is healthy. */
  lemma RetryGoesElsewhere(p: Pooled, now: int, report: Report, later: int, other: nat, again: int)
    requires Sized(p) && Choice(p, now).Some? && other < |p.endpoints| && p.endpoints[other].health == Healthy
    requires other != Choice(p, now).value
    ensures var x, q := Choice(p, now).value, Picked(p, now);
            var after := q.(endpoints := q.endpoints[x := Told(q.endpoints[x], report, later)]);
            Sized(after) && Choice(after, again).Some? && Choice(after, again).value != x
  {
    hide Around, Positions, Wrap;
    var x, q := Choice(p, now).value, Picked(p, now);
    var after := q.(endpoints := q.endpoints[x := Told(q.endpoints[x], report, later)]);
    var flags := Where(after.endpoints, Healthy);
    assert flags[other];
    var all := Positions(flags, 0);
    PositionsAre(flags, 0);
    PositionsAre(flags, after.cursor);
    assert other in all;
    AroundIs(flags, after.cursor, 0);
    var from := Positions(flags, after.cursor);
    if x + 1 < |flags| {
      if from == [] {
        assert all[0] <= other < x + 1;
        FromEmpty(flags, x + 1, other);
      }
    } else {
      assert other < x;
      assert all[0] <= other;
      assert from == all;
    }
  }

  lemma FromEmpty(flags: seq<bool>, k: nat, other: nat)
    requires k <= |flags| && Positions(flags, k) == [] && other < |flags| && flags[other]
    ensures other < k && Positions(flags, 0) != [] && Positions(flags, 0)[0] <= other
  {
    PositionsAre(flags, 0);
    PositionsAre(flags, k);
    assert other in Positions(flags, 0);
  }

  // ---- Whose turn it is ----

  /** The endpoint `j` places after the cursor, going round. */
  function Place(cursor: nat, j: nat, n: nat): (x: nat)
    requires n >= 1
    ensures x < n
  {
    (cursor + j) % n
  }

  lemma WrapIsPlace(cursor: nat, j: nat, n: nat)
    requires n >= 1
    ensures Wrap(cursor + j, n) == Place(cursor, j, n)
  {
  }

  /** The search goes round from the cursor and stops at the first set flag. */
  lemma {:induction false} AroundTurn(flags: seq<bool>, cursor: nat, i: nat) returns (k: nat)
    requires cursor < |flags| && i <= |flags| && Around(flags, cursor, i).Some?
    ensures i <= k < |flags| && Around(flags, cursor, i) == Some(Place(cursor, k, |flags|))
    ensures forall j: nat :: i <= j < k ==> !flags[Place(cursor, j, |flags|)]
    decreases |flags| - i
  {
    hide Wrap, Place;
    WrapIsPlace(cursor, i, |flags|);
    if flags[Place(cursor, i, |flags|)] {
      k := i;
    } else {
      k := AroundTurn(flags, cursor, i + 1);
    }
  }

  /** The endpoints a pick may turn to are those of one kind: of this health, and with a probe due if unhealthy. */
  ghost predicate Eligible(s: Status, h: Health, now: int) {
    s.health == h && (h == Unhealthy ==> now >= s.probeAt)
  }

  /** Every tier takes turns: the pick is the first of its kind from the cursor on, which then moves just past it. */
  lemma TakesTurns(p: Pooled, now: int) returns (k: nat)
    requires Sized(p) && Choice(p, now).Some?
    ensures var n, x := |p.endpoints|, Choice(p, now).value;
            && k < n && x == Place(p.cursor, k, n) && Picked(p, now).cursor == Place(x, 1, n)
            && Eligible(p.endpoints[x], p.endpoints[x].health, now)
            && forall j: nat :: j < k ==>
                 !Eligible(p.endpoints[Place(p.cursor, j, n)], p.endpoints[x].health, now)
  {
    hide Around, Wrap, Place;
    var x, n := Choice(p, now).value, |p.endpoints|;
    var healthy, degraded, due := Where(p.endpoints, Healthy), Where(p.endpoints, Degraded), DueAt(p.endpoints, now);
    var flags := if Around(healthy, p.cursor, 0).Some? then healthy
                 else if Around(degraded, p.cursor, 0).Some? then degraded else due;
    assert Around(flags, p.cursor, 0) == Some(x);
    k := AroundTurn(flags, p.cursor, 0);
    WrapIsPlace(x, 1, n);
    assert forall i :: 0 <= i < n ==> flags[i] == Eligible(p.endpoints[i], p.endpoints[x].health, now);
  }

  // ---- Runs: picks and reports in any order ----

  datatype Step = Pick(now: int) | Tell(i: nat, report: Report, now: int)

  /** `claims[i]` are the times endpoint i's probe was claimed. */
  datatype World = World(pool: Pooled, claims: seq<seq<int>>)

  function Next(w: World, e: Step): World
    requires Sized(w.pool) && |w.claims| == |w.pool.endpoints|
  {
    match e
    case Pick(now) =>
      var r := Choice(w.pool, now);
      World(Picked(w.pool, now),
            if r.Some? && w.pool.endpoints[r.value].health == Unhealthy
            then w.claims[r.value := w.claims[r.value] + [now]] else w.claims)
    case Tell(i, report, now) =>
      if i < |w.pool.endpoints|
      then w.(pool := w.pool.(endpoints := w.pool.endpoints[i := Told(w.pool.endpoints[i], report, now)])) else w
  }

  function Begin(n: nat): World {
    World(Pooled(seq(n, _ => Fresh()), 0), seq(n, _ => []))
  }

  function Run(n: nat, es: seq<Step>): (w: World)
    requires n >= 1
    ensures Sized(w.pool) && |w.claims| == |w.pool.endpoints| == n
  {
    if es == [] then Begin(n) else Next(Run(n, es[..|es| - 1]), es[|es| - 1])
  }

  ghost predicate Monotone(es: seq<Step>) {
    forall i, j :: 0 <= i < j < |es| ==> es[i].now <= es[j].now
  }

  ghost predicate Spaced(claims: seq<int>) {
    forall i, j :: 0 <= i < j < |claims| ==> claims[j] - claims[i] >= PROBE_COOLDOWN_MS
  }

  /** Health follows the error count, and the next probe is neither too soon nor out of reach. */
  ghost predicate Sane(s: Status, claims: seq<int>, clock: Option<int>) {
    && (s.health == Healthy <==> s.errors < DEGRADE_THRESHOLD)
    && (s.health == Unhealthy
        ==> s.errors >= UNHEALTHY_THRESHOLD && clock.Some? && s.probeAt <= clock.value + MAX_PROBE_COOLDOWN_MS)
    && PROBE_COOLDOWN_MS <= s.cooldownMs <= MAX_PROBE_COOLDOWN_MS
    && Spaced(claims)
    && (claims != [] ==> clock.Some? && claims[|claims| - 1] <= clock.value
                         && s.probeAt >= claims[|claims| - 1] + PROBE_COOLDOWN_MS)
  }

  lemma ToldSane(s: Status, claims: seq<int>, clock: Option<int>, report: Report, now: int)
    requires Sane(s, claims, clock) && (clock.Some? ==> clock.value <= now)
    ensures Sane(Told(s, report, now), claims, Some(now))
  {
  }

  lemma ClaimSane(s: Status, claims: seq<int>, clock: Option<int>, now: int)
    requires Sane(s, claims, clock) && (clock.Some? ==> clock.value <= now)
    ensures Sane(s, claims, Some(now))
    ensures ProbeDue(s, now) ==> Sane(Probed(s, now), claims + [now], Some(now))
  {
    if claims != [] && ProbeDue(s, now) {
      forall i | 0 <= i < |claims|
        ensures now - claims[i] >= PROBE_COOLDOWN_MS
      {
        assert claims[i] <= claims[|claims| - 1];
      }
    }
  }

  ghost predicate AllSane(w: World, clock: Option<int>) {
    |w.claims| == |w.pool.endpoints|
    && forall i :: 0 <= i < |w.claims| ==> Sane(w.pool.endpoints[i], w.claims[i], clock)
  }

  lemma StepSane(w: World, e: Step, clock: Option<int>)
    requires Sized(w.pool) && AllSane(w, clock) && (clock.Some? ==> clock.value <= e.now)
    ensures AllSane(Next(w, e), Some(e.now))
  {
    hide Choice, Sane, Told;
    forall i | 0 <= i < |w.claims|
      ensures Sane(Next(w, e).pool.endpoints[i], Next(w, e).claims[i], Some(e.now))
    {
      var s := w.pool.endpoints[i];
      ClaimSane(s, w.claims[i], clock, e.now);
      match e {
        case Pick(now) => Tiers(w.pool, now);
        case Tell(k, report, now) => ToldSane(s, w.claims[i], clock, report, now);
      }
    }
  }

  function Clock(es: seq<Step>): Option<int> {
    if es == [] then None else Some(es[|es| - 1].now)
  }

  /**
   * Over any run under a clock that never goes back: one endpoint's probe claims are at least 5000 ms apart, and an
   * endpoint is healthy exactly below five errors in a row and unhealthy only from ten.
   */
  lemma {:induction false} RunSane(n: nat, es: seq<Step>)
    requires n >= 1 && Monotone(es)
    ensures AllSane(Run(n, es), Clock(es))
    decreases |es|
  {
    hide Next, Sane;
    if es != [] {
      RunSane(n, es[..|es| - 1]);
      StepSane(Run(n, es[..|es| - 1]), es[|es| - 1], Clock(es[..|es| - 1]));
    } else {
      assert Sane(Fresh(), [], None) by {
        FreshSane();
      }
    }
  }

  lemma FreshSane()
    ensures Sane(Fresh(), [], None)
  {
  }

  /** The pool is never down for good: sixty seconds after anything happened, some endpoint is callable. */
  lemma NeverDownForGood(n: nat, es: seq<Step>, now: int)
    requires n >= 1 && Monotone(es) && (es != [] ==> now >= es[|es| - 1].now + MAX_PROBE_COOLDOWN_MS)
    ensures Choice(Run(n, es).pool, now).Some?
  {
    hide Choice, Run;
    RunSane(n, es);
    var w := Run(n, es);
    Tiers(w.pool, now);
    assert Sane(w.pool.endpoints[0], w.claims[0], Clock(es));
  }

  // ---- Health from the reports ----

  /** The failures reported on endpoint `i` since it last answered. */
  function Streak(es: seq<Step>, i: nat): seq<Report> {
    if es == [] then []
    else
      var before, e := Streak(es[..|es| - 1], i), es[|es| - 1];
      if e.Tell? && e.i == i then (if e.report.Answered? then [] else before + [e.report]) else before
  }

  /** Some transport failure comes tenth in a row or later. */
  predicate TenthBroke(failures: seq<Report>) {
    exists k :: 9 <= k < |failures| && failures[k] == TransportFailed
  }

  ghost predicate FollowsStreak(s: Status, failures: seq<Report>) {
    && s.errors == |failures|
    && (s.health == Healthy <==> |failures| < 5)
    && (s.health == Unhealthy <==> TenthBroke(failures))
  }

  lemma ToldFollows(s: Status, failures: seq<Report>, report: Report, now: int)
    requires FollowsStreak(s, failures)
    ensures FollowsStreak(Told(s, report, now), if report.Answered? then [] else failures + [report])
  {
    hide TenthBroke;
    TenthBrokeMore(failures, report);
    NoneBroke();
    TenthIsLong(failures);
  }

  /**
   * After any run, whatever the clock: an endpoint is healthy exactly below five failures in a row, and unhealthy
   * exactly when a transport failure came tenth in a row or later; rate limits count but never tip it over.
   */
  lemma {:induction false} HealthIs(n: nat, es: seq<Step>, i: nat)
    requires i < n
    ensures FollowsStreak(Run(n, es).pool.endpoints[i], Streak(es, i))
    decreases |es|
  {
    hide FollowsStreak, Told, Choice;
    if es == [] {
      FreshFollows();
    } else {
      var last, e := es[..|es| - 1], es[|es| - 1];
      HealthIs(n, last, i);
      match e {
        case Pick(now) => PickedFollows(Run(n, last).pool, now, i, Streak(last, i));
        case Tell(k, report, now) => ToldFollows(Run(n, last).pool.endpoints[i], Streak(last, i), report, now);
      }
    }
  }

  lemma FreshFollows()
    ensures FollowsStreak(Fresh(), [])
  {
  }

  lemma PickedFollows(p: Pooled, now: int, i: nat, failures: seq<Report>)
    requires Sized(p) && i < |p.endpoints| && FollowsStreak(p.endpoints[i], failures)
    ensures i < |Picked(p, now).endpoints| && FollowsStreak(Picked(p, now).endpoints[i], failures)
  {
    hide Choice;
  }

  /**
   * The step that makes an endpoint unhealthy is a transport failure with at least nine failures in a row before it.
   */
  lemma TurnsUnhealthy(n: nat, es: seq<Step>, e: Step, i: nat)
    requires i < n && Run(n, es).pool.endpoints[i].health != Unhealthy
    ensures Run(n, es + [e]).pool.endpoints[i].health == Unhealthy
            <==> e.Tell? && e.i == i && e.report == TransportFailed && |Streak(es, i)| >= UNHEALTHY_THRESHOLD - 1
  {
    hide Run, Told, TenthBroke;
    HealthIs(n, es, i);
    HealthIs(n, es + [e], i);
    assert (es + [e])[..|es|] == es;
    if e.Tell? && e.i == i {
      TenthBrokeMore(Streak(es, i), e.report);
    }
    NoneBroke();
  }

  lemma TenthIsLong(failures: seq<Report>)
    ensures TenthBroke(failures) ==> |failures| >= UNHEALTHY_THRESHOLD
  {
  }

  lemma NoneBroke()
    ensures !TenthBroke([])
  {
  }

  lemma TenthBrokeMore(failures: seq<Report>, report: Report)
    ensures TenthBroke(failures + [report])
            <==> TenthBroke(failures) || (report == TransportFailed && |failures| >= 9)
  {
    var more := failures + [report];
    assert more[|failures|] == report;
    if TenthBroke(failures) {
      var k :| 9 <= k < |failures| && failures[k] == TransportFailed;
      assert more[k] == TransportFailed;
    }
  }

  // ---- Cooldown from the reports ----

  /** Transport failures that came while the endpoint was already unhealthy. */
  function Repeats(failures: seq<Report>): nat {
    if failures == [] then 0
    else
      var front := failures[..|failures| - 1];
      Repeats(front)
      + if failures[|failures| - 1] == TransportFailed && TenthBroke(front) then 1 else 0
  }

  /** 5 s, then doubled for each repeat up to a minute. */
  function CooldownAfter(repeats: nat): nat {
    match repeats
    case 0 => 5000
    case 1 => 10000
    case 2 => 20000
    case 3 => 40000
    case _ => 60000
  }

  lemma RepeatsMore(failures: seq<Report>, report: Report)
    ensures Repeats(failures + [report])
            == Repeats(failures) + if report == TransportFailed && TenthBroke(failures) then 1 else 0
  {
    assert (failures + [report])[..|failures|] == failures;
  }

  lemma ToldCools(s: Status, failures: seq<Report>, report: Report, now: int)
    requires FollowsStreak(s, failures) && s.cooldownMs == CooldownAfter(Repeats(failures))
    ensures var t := Told(s, report, now);
            && t.cooldownMs == CooldownAfter(Repeats(if report.Answered? then [] else failures + [report]))
            && (report == TransportFailed && t.health == Unhealthy ==> t.probeAt == now + t.cooldownMs)
            && (report != TransportFailed ==> t.probeAt == s.probeAt)
  {
    hide TenthBroke, Repeats;
    RepeatsMore(failures, report);
    NoRepeats();
    TenthIsLong(failures);
  }

  lemma NoRepeats()
    ensures Repeats([]) == 0
  {
  }

  /**
   * After any run, an endpoint's cooldown is five seconds, doubled once for each transport failure reported while it
   * was unhealthy since it last answered, and never above a minute.
   */
  lemma {:induction false} CooldownIs(n: nat, es: seq<Step>, i: nat)
    requires i < n
    ensures Run(n, es).pool.endpoints[i].cooldownMs == CooldownAfter(Repeats(Streak(es, i)))
    decreases |es|
  {
    hide FollowsStreak, Told, Choice, Repeats;
    if es == [] {
      NoRepeats();
    } else {
      var last, e := es[..|es| - 1], es[|es| - 1];
      CooldownIs(n, last, i);
      HealthIs(n, last, i);
      match e {
        case Pick(now) => PickedCools(Run(n, last).pool, now, i);
        case Tell(k, report, now) => ToldCools(Run(n, last).pool.endpoints[i], Streak(last, i), report, now);
      }
    }
  }

  /** A pick moves nothing but the claimed endpoint's next probe, to one cooldown from now. */
  lemma PickedCools(p: Pooled, now: int, i: nat)
    requires Sized(p) && i < |p.endpoints|
    ensures i < |Picked(p, now).endpoints|
    ensures var claimed := Choice(p, now) == Some(i) && p.endpoints[i].health == Unhealthy;
            Picked(p, now).endpoints[i]
            == if claimed then p.endpoints[i].(probeAt := now + p.endpoints[i].cooldownMs) else p.endpoints[i]
  {
    Tiers(p, now);
    hide Choice;
  }

  /** When an endpoint may be probed again: a failure that leaves it unhealthy puts it one cooldown off. */
  lemma ProbeAfterFailure(n: nat, es: seq<Step>, i: nat, now: int)
    requires i < n
    ensures var t := Run(n, es + [Tell(i, TransportFailed, now)]).pool.endpoints[i];
            t.health == Unhealthy ==> t.probeAt == now + CooldownAfter(Repeats(Streak(es, i) + [TransportFailed]))
  {
    hide Run, Told, FollowsStreak, Repeats;
    var e := Tell(i, TransportFailed, now);
    HealthIs(n, es, i);
    CooldownIs(n, es, i);
    assert (es + [e])[..|es|] == es;
    RunMore(n, es, e);
    ToldCools(Run(n, es).pool.endpoints[i], Streak(es, i), TransportFailed, now);
  }

  lemma RunMore(n: nat, es: seq<Step>, e: Step)
    requires n >= 1
    ensures Run(n, es + [e]) == Next(Run(n, es), e)
  {
    assert (es + [e])[..|es|] == es;
  }

  // ---- One call ----

  function ReportOf(a: Answer): Report {
    match a
    case Result => Answered
    case MethodError => Answered
    case Limited => RateLimited
    case Broken => TransportFailed
  }

  /** The pool steps of one call: each pick is followed by one report on the endpoint picked. */
  function StepsOf(p: Pooled, tries: seq<Try>): seq<Step>
    requires Sized(p)
    decreases |tries|
  {
    if tries == [] then []
    else
      var t := tries[0];
      var x := Choice(p, t.pickedAt);
      if x.None? then [Pick(t.pickedAt)]
      else
        [Pick(t.pickedAt), Tell(x.value, ReportOf(t.answer), t.doneAt)]
        + if t.answer.Result? || t.answer.MethodError? then []
          else StepsOf(Heard(Picked(p, t.pickedAt), x.value, t), tries[1..])
  }

  function After(w: World, es: seq<Step>): World
    requires Sized(w.pool) && |w.claims| == |w.pool.endpoints|
    decreases |es|
  {
    if es == [] then w else After(Next(w, es[0]), es[1..])
  }

  /** A call does to the pool what those steps do, so what holds of every run holds with calls in it. */
  lemma {:induction false} CallIsSteps(w: World, tries: seq<Try>, last: Option<Answer>)
    requires Sized(w.pool) && |w.claims| == |w.pool.endpoints|
    ensures After(w, StepsOf(w.pool, tries)).pool == CallSpec(w.pool, tries, last).0
    decreases |tries|
  {
    hide Choice, Picked;
    if tries != [] {
      var t := tries[0];
      var x := Choice(w.pool, t.pickedAt);
      if x.None? {
        NothingPicked(w.pool, t.pickedAt);
        assert After(w, [Pick(t.pickedAt)]) == After(Next(w, Pick(t.pickedAt)), []);
      } else {
        var one := Next(w, Pick(t.pickedAt));
        PickedSized(w.pool, t.pickedAt);
        var e := Tell(x.value, ReportOf(t.answer), t.doneAt);
        var two := Next(one, e);
        assert two.pool == Heard(Picked(w.pool, t.pickedAt), x.value, t);
        var rest := StepsOf(w.pool, tries)[2..];
        assert StepsOf(w.pool, tries)[1..] == [e] + rest && ([e] + rest)[1..] == rest;
        assert After(w, StepsOf(w.pool, tries)) == After(one, [e] + rest) == After(two, rest);
        if !(t.answer.Result? || t.answer.MethodError?) {
          CallIsSteps(two, tries[1..], Some(t.answer));
        }
      }
    }
  }

  lemma PickedSized(p: Pooled, now: int)
    requires Sized(p)
    ensures Sized(Picked(p, now)) && |Picked(p, now).endpoints| == |p.endpoints|
  {
  }

  /**
   * A call ends with the first answer that is a result or a method error, all before it having failed; without one it
   * reports the last failure of its budget. One that finds nothing callable met a pool of unhealthy endpoints, none due
   * a probe, on its last pick.
   */
  lemma {:induction false} CallOutcome(p: Pooled, tries: seq<Try>, last: Option<Answer>)
    requires Sized(p)
    ensures var (q, r) := CallSpec(p, tries, last);
            && Sized(q)
            && (r == Returned ==> exists k :: 0 <= k < |tries| && tries[k].answer == Result
                                              && forall j :: 0 <= j < k ==>
                                                   tries[j].answer == Limited || tries[j].answer == Broken)
            && (r == MethodFailed ==> exists k :: 0 <= k < |tries| && tries[k].answer == MethodError
                                                  && forall j :: 0 <= j < k ==>
                                                       tries[j].answer == Limited || tries[j].answer == Broken)
            && (r == NothingCallable ==> exists k :: 0 <= k < |tries|
                                              && forall i :: 0 <= i < |q.endpoints| ==>
                                                   q.endpoints[i].health == Unhealthy
                                                   && tries[k].pickedAt < q.endpoints[i].probeAt)
            && (r.Exhausted? ==> forall j :: 0 <= j < |tries| ==>
                                   tries[j].answer == Limited || tries[j].answer == Broken)
            && (r.Exhausted? ==> r.last == if tries == [] then last else Some(tries[|tries| - 1].answer))
    decreases |tries|
  {
    hide Choice, Picked;
    if tries != [] {
      var t := tries[0];
      var x := Choice(p, t.pickedAt);
      Tiers(p, t.pickedAt);
      PickedSized(p, t.pickedAt);
      if x.Some? && !(t.answer.Result? || t.answer.MethodError?) {
        CallOutcome(Heard(Picked(p, t.pickedAt), x.value, t), tries[1..], Some(t.answer));
      } else {
        assert tries[0].answer == t.answer;
      }
    }
  }
}
