/**
 * Endpoint health and endpoint selection (packages/solana-connectivity/src/health-state.ts and
 * packages/solana-connectivity/src/rpc-pool.ts).
 */
module Pool {
  import opened Wrappers
  import opened Bytes
  import Division

  const DEGRADE_THRESHOLD: nat := 5
  const UNHEALTHY_THRESHOLD: nat := 10
  const PROBE_COOLDOWN_MS: nat := 5000
  const MAX_PROBE_COOLDOWN_MS: nat := 60000

  datatype Health = Healthy | Degraded | Unhealthy

  datatype Status = Status(errors: nat, health: Health, cooldownMs: nat, probeAt: int)

  function Fresh(): Status {
    Status(0, Healthy, PROBE_COOLDOWN_MS, 0)
  }

  // ---- One endpoint ----

  function Success(s: Status): Status {
    s.(errors := 0, health := Healthy, cooldownMs := PROBE_COOLDOWN_MS)
  }

  function Error(s: Status, now: int): Status {
    var t := s.(errors := s.errors + 1);
    if t.errors >= UNHEALTHY_THRESHOLD then
      var cooldown := if s.health == Unhealthy then Min(s.cooldownMs * 2, MAX_PROBE_COOLDOWN_MS) else s.cooldownMs;
      t.(cooldownMs := cooldown, probeAt := now + cooldown, health := Unhealthy)
    else if t.errors >= DEGRADE_THRESHOLD then t.(health := Degraded)
    else t
  }

  function RateLimit(s: Status): Status {
    var t := s.(errors := s.errors + 1);
    if s.health == Healthy && t.errors >= DEGRADE_THRESHOLD then t.(health := Degraded) else t
  }

  predicate ProbeDue(s: Status, now: int) {
    s.health == Unhealthy && now >= s.probeAt
  }

  function Probed(s: Status, now: int): Status {
    if ProbeDue(s, now) then s.(probeAt := now + s.cooldownMs) else s
  }

  class HealthState {
    var consecutiveErrors: nat
    var state: Health
    var cooldownMs: nat
    var probeAt: int

    function View(): Status
      reads this
    {
      Status(consecutiveErrors, state, cooldownMs, probeAt)
    }

    constructor ()
      ensures View() == Fresh()
    {
      consecutiveErrors, state, cooldownMs, probeAt := 0, Healthy, PROBE_COOLDOWN_MS, 0;
    }

    method RecordSuccess()
      modifies this
      ensures View() == Success(old(View()))
    {
      consecutiveErrors := 0;
      state := Healthy;
      cooldownMs := PROBE_COOLDOWN_MS;
    }

    method RecordError(now: int)
      modifies this
      ensures View() == Error(old(View()), now)
    {
      consecutiveErrors := consecutiveErrors + 1;
      if consecutiveErrors >= UNHEALTHY_THRESHOLD {
        if state == Unhealthy {
          cooldownMs := Min(cooldownMs * 2, MAX_PROBE_COOLDOWN_MS);
        }
        probeAt := now + cooldownMs;
        state := Unhealthy;
      } else if consecutiveErrors >= DEGRADE_THRESHOLD {
        state := Degraded;
      }
    }

    method RecordRateLimit()
      modifies this
      ensures View() == RateLimit(old(View()))
    {
      consecutiveErrors := consecutiveErrors + 1;
      if state == Healthy && consecutiveErrors >= DEGRADE_THRESHOLD {
        state := Degraded;
      }
    }

    method TakeProbe(now: int) returns (taken: bool)
      modifies this
      ensures taken == ProbeDue(old(View()), now)
      ensures View() == Probed(old(View()), now)
    {
      if state != Unhealthy || now < probeAt {
        return false;
      }
      probeAt := now + cooldownMs;
      return true;
    }
  }

  // ---- Selection ----

  /** A position counted round the list. */
  function Wrap(x: nat, n: nat): (r: nat)
    requires n >= 1
    ensures r < n
    ensures x < n ==> r == x
    ensures n <= x < 2 * n ==> r == x - n
  {
    assert x < n ==> x % n == x by {
      if x < n {
        Division.DivModUnique(x, n, 0, x);
      }
    }
    assert n <= x < 2 * n ==> x % n == x - n by {
      if n <= x < 2 * n {
        Division.DivModUnique(x, n, 1, x - n);
      }
    }
    x % n
  }

  /** The first position at or after the cursor, going round, whose flag is set. */
  function Around(flags: seq<bool>, cursor: nat, i: nat): (r: Option<nat>)
    requires cursor < |flags| && i <= |flags|
    ensures r.Some? ==> r.value < |flags| && flags[r.value]
    decreases |flags| - i
  {
    if i == |flags| then None
    else
      var idx := Wrap(cursor + i, |flags|);
      if flags[idx] then Some(idx) else Around(flags, cursor, i + 1)
  }

  datatype Pooled = Pooled(endpoints: seq<Status>, cursor: nat)

  predicate Sized(p: Pooled) {
    p.cursor < |p.endpoints|
  }

  function Where(es: seq<Status>, h: Health): seq<bool> {
    seq(|es|, i requires 0 <= i < |es| => es[i].health == h)
  }

  function DueAt(es: seq<Status>, now: int): seq<bool> {
    seq(|es|, i requires 0 <= i < |es| => ProbeDue(es[i], now))
  }

  /** Healthy first, then degraded, then an unhealthy one whose probe is due. */
  function Choice(p: Pooled, now: int): (r: Option<nat>)
    requires Sized(p)
    ensures r.Some? ==> r.value < |p.endpoints|
  {
    var healthy := Around(Where(p.endpoints, Healthy), p.cursor, 0);
    if healthy.Some? then healthy
    else
      var degraded := Around(Where(p.endpoints, Degraded), p.cursor, 0);
      if degraded.Some? then degraded else Around(DueAt(p.endpoints, now), p.cursor, 0)
  }

  /** The cursor moves past the chosen endpoint, and a chosen unhealthy one has its probe claimed. */
  function Picked(p: Pooled, now: int): Pooled
    requires Sized(p)
  {
    var r := Choice(p, now);
    if r.None? then p
    else
      Pooled(p.endpoints[r.value := Probed(p.endpoints[r.value], now)], Wrap(r.value + 1, |p.endpoints|))
  }

  // ---- The attempt loop of a call ----

  /** How one attempt ended: a result, a JSON-RPC method error, a 429, or any other failure. */
  datatype Answer = Result | MethodError | Limited | Broken

  /** One attempt of the budget: when an endpoint is picked, what it would answer, and when that is known. */
  datatype Try = Try(pickedAt: int, answer: Answer, doneAt: int)

  datatype Outcome = Returned | MethodFailed | NothingCallable | Exhausted(last: Option<Answer>)

  /** The picked endpoint's health after its answer; a method error is an answer like any other. */
  function Heard(p: Pooled, x: nat, t: Try): Pooled
    requires x < |p.endpoints|
  {
    var s := p.endpoints[x];
    p.(endpoints := p.endpoints[x := match t.answer
                                     case Result => Success(s)
                                     case MethodError => Success(s)
                                     case Limited => RateLimit(s)
                                     case Broken => Error(s, t.doneAt)])
  }

  function CallSpec(p: Pooled, tries: seq<Try>, last: Option<Answer>): (Pooled, Outcome)
    requires Sized(p)
    decreases |tries|
  {
    if tries == [] then (p, Exhausted(last))
    else
      var t := tries[0];
      var x := Choice(p, t.pickedAt);
      if x.None? then (p, NothingCallable)
      else
        var q := Heard(Picked(p, t.pickedAt), x.value, t);
        match t.answer
        case Result => (q, Returned)
        case MethodError => (q, MethodFailed)
        case _ => CallSpec(q, tries[1..], Some(t.answer))
  }

  lemma NothingPicked(p: Pooled, now: int)
    requires Sized(p) && Choice(p, now).None?
    ensures Picked(p, now) == p
  {
  }

  class RpcPool {
    const states: seq<HealthState>
    var cursor: nat

    ghost predicate Valid()
      reads this
    {
      cursor < |states| && forall i, j :: 0 <= i < j < |states| ==> states[i] != states[j]
    }

    ghost function View(): Pooled
      reads this, states
    {
      Pooled(seq(|states|, i requires 0 <= i < |states| reads states => states[i].View()), cursor)
    }

    /** The source refuses an empty list of endpoints. */
    constructor (count: nat)
      requires count >= 1
      ensures Valid() && fresh(states) && |states| == count && cursor == 0
      ensures View() == Pooled(seq(count, _ => Fresh()), 0)
    {
      var made: seq<HealthState> := [];
      while |made| < count
        invariant |made| <= count && fresh(made)
        invariant forall i, j :: 0 <= i < j < |made| ==> made[i] != made[j]
        invariant forall i :: 0 <= i < |made| ==> made[i].View() == Fresh()
      {
        var s := new HealthState();
        made := made + [s];
      }
      states := made;
      cursor := 0;
    }

    method FirstWithHealth(h: Health) returns (r: Option<nat>)
      requires Valid()
      ensures r == Around(Where(View().endpoints, h), cursor, 0)
    {
      var i := 0;
      while i < |states|
        invariant 0 <= i <= |states|
        invariant Around(Where(View().endpoints, h), cursor, 0) == Around(Where(View().endpoints, h), cursor, i)
      {
        var idx := Wrap(cursor + i, |states|);
        if states[idx].state == h {
          return Some(idx);
        }
        i := i + 1;
      }
      return None;
    }

    method FirstProbe(now: int) returns (r: Option<nat>)
      requires Valid()
      modifies states
      ensures r == Around(DueAt(old(View()).endpoints, now), cursor, 0)
      ensures View() == if r.None? then old(View())
                        else var es := old(View()).endpoints;
                             old(View()).(endpoints := es[r.value := Probed(es[r.value], now)])
    {
      ghost var before := View();
      var i := 0;
      while i < |states|
        invariant 0 <= i <= |states| && View() == before
        invariant Around(DueAt(before.endpoints, now), cursor, 0) == Around(DueAt(before.endpoints, now), cursor, i)
      {
        var idx := Wrap(cursor + i, |states|);
        var taken := states[idx].TakeProbe(now);
        if taken {
          return Some(idx);
        }
        i := i + 1;
      }
      return None;
    }

    method PickEndpoint(now: int) returns (r: Option<nat>)
      requires Valid()
      modifies this, states
      ensures Valid()
      ensures r == Choice(old(View()), now) && View() == Picked(old(View()), now)
    {
      r := FirstWithHealth(Healthy);
      if r.None? {
        r := FirstWithHealth(Degraded);
        if r.None? {
          r := FirstProbe(now);
        }
      }
      if r.Some? {
        cursor := Wrap(r.value + 1, |states|);
      }
    }

    /** One call, no other call moving the pool meanwhile. */
    method Call(tries: seq<Try>) returns (r: Outcome)
      requires Valid()
      modifies this, states
      ensures Valid() && (View(), r) == CallSpec(old(View()), tries, None)
    {
      hide Choice, Picked, Heard;
      var attempt := 0;
      var last := None;
      assert tries[0..] == tries;
      while attempt < |tries|
        invariant 0 <= attempt <= |tries| && Valid()
        invariant CallSpec(old(View()), tries, None) == CallSpec(View(), tries[attempt..], last)
      {
        var t := tries[attempt];
        assert tries[attempt..][1..] == tries[attempt + 1..];
        ghost var before := View();
        var x := PickEndpoint(t.pickedAt);
        if x.None? {
          NothingPicked(before, t.pickedAt);
          return NothingCallable;
        }
        Hear(x.value, t);
        if t.answer.Result? {
          return Returned;
        }
        if t.answer.MethodError? {
          return MethodFailed;
        }
        last := Some(t.answer);
        attempt := attempt + 1;
      }
      return Exhausted(last);
    }

    method Hear(x: nat, t: Try)
      requires Valid() && x < |states|
      modifies states[x]
      ensures Valid() && View() == Heard(old(View()), x, t)
    {
      match t.answer {
        case Result => states[x].RecordSuccess();
        case MethodError => states[x].RecordSuccess();
        case Limited => states[x].RecordRateLimit();
        case Broken => states[x].RecordError(t.doneAt);
      }
    }
  }

  // ---- Tiers ----

  /** Going round reaches every position. */
  lemma {:induction false} AroundMisses(flags: seq<bool>, cursor: nat, i: nat, j: nat)
    requires cursor < |flags| && i <= j < |flags| && Around(flags, cursor, i).None?
    ensures !flags[Wrap(cursor + j, |flags|)]
    decreases |flags| - i
  {
    hide Wrap;
    if i < j {
      AroundMisses(flags, cursor, i + 1, j);
    }
  }

  /** Nothing is found exactly when no flag is set. */
  lemma AroundNone(flags: seq<bool>, cursor: nat)
    requires cursor < |flags|
    ensures Around(flags, cursor, 0).None? <==> forall k :: 0 <= k < |flags| ==> !flags[k]
  {
    hide Wrap, Around;
    if Around(flags, cursor, 0).None? {
      forall k | 0 <= k < |flags|
        ensures !flags[k]
      {
        AroundMisses(flags, cursor, 0, if k >= cursor then k - cursor else k + |flags| - cursor);
      }
    }
  }

  /** A worse tier is used only when every better one is empty; nothing is returned only when nothing is callable. */
  lemma Tiers(p: Pooled, now: int)
    requires Sized(p)
    ensures var r := Choice(p, now);
            && (r.Some? && p.endpoints[r.value].health == Degraded ==>
                  forall k :: 0 <= k < |p.endpoints| ==> p.endpoints[k].health != Healthy)
            && (r.Some? && p.endpoints[r.value].health == Unhealthy ==>
                  && ProbeDue(p.endpoints[r.value], now)
                  && forall k :: 0 <= k < |p.endpoints| ==> p.endpoints[k].health == Unhealthy)
            && (r.None? <==>
                  forall k :: 0 <= k < |p.endpoints| ==>
                    p.endpoints[k].health == Unhealthy && now < p.endpoints[k].probeAt)
  {
    hide Around;
    var healthy, degraded, due := Where(p.endpoints, Healthy), Where(p.endpoints, Degraded), DueAt(p.endpoints, now);
    AroundNone(healthy, p.cursor);
    AroundNone(degraded, p.cursor);
    AroundNone(due, p.cursor);
    assert forall k :: 0 <= k < |p.endpoints| ==>
      healthy[k] == (p.endpoints[k].health == Healthy) && degraded[k] == (p.endpoints[k].health == Degraded)
      && due[k] == ProbeDue(p.endpoints[k], now);
  }
}
