/** The signal queue: deduplication, bounded buffer, in-order dispatch (packages/solana-signals/src/signal-queue.ts). */
module SignalQueue {
  import opened Wrappers
  import opened Bytes
  import opened DropOldest

  datatype Signal = Signal(id: string, payload: nat)

  datatype Config = Config(capacity: nat, dedupWindow: nat, dedupTtlMs: nat)

  /** A key of the dedup map, which iterates in insertion order. */
  datatype Seen = Seen(id: string, expires: int)

  /** A subscriber; `serial` numbers the keys of the subscriber map in insertion order. */
  datatype Sub = Sub(name: string, serial: nat)

  datatype Delivery = Delivery(name: string, serial: nat, number: nat)

  /** The dispatch loop awaits the handler of `sub`. */
  datatype Round = Round(signal: Signal, sub: Sub)

  datatype Event = Dup(id: string) | Overflow

  /** `accepted` (with expiry times `seen`), `taken` (numbers and signals `used`) and `log` are history. */
  datatype State = State(buffer: seq<Signal>, subs: seq<Sub>, serials: nat, dedup: seq<Seen>, dispatching: bool,
                         at: Option<Round>, events: seq<Event>,
                         accepted: seq<Signal>, seen: seq<Seen>, taken: seq<nat>, used: seq<Signal>, log: seq<Delivery>)

  function Empty(): State {
    State([], [], 0, [], false, None, [], [], [], [], [], [])
  }

  // ---- Dedup ----

  /** The sweep stops at the first key that has not expired. */
  function Sweep(dedup: seq<Seen>, now: int): seq<Seen> {
    if dedup != [] && dedup[0].expires <= now then Sweep(dedup[1..], now) else dedup
  }

  predicate Has(dedup: seq<Seen>, id: string) {
    exists i :: 0 <= i < |dedup| && dedup[i].id == id
  }

  /** A new key goes last, and past the window the first key goes. */
  function Remember(c: Config, dedup: seq<Seen>, s: Seen): seq<Seen> {
    var more := dedup + [s];
    if |more| > c.dedupWindow then more[1..] else more
  }

  // ---- Dispatch ----

  /** The next subscriber of the round: the map iterator skips deleted keys and sees added ones. */
  function NextSub(subs: seq<Sub>, serial: int): (s: Option<Sub>)
    ensures s.Some? ==> s.value in subs && s.value.serial > serial
  {
    if subs == [] then None
    else if subs[0].serial > serial then Some(subs[0])
    else NextSub(subs[1..], serial)
  }

  /** The number of the signal in hand. */
  function Current(taken: seq<nat>): nat {
    if taken == [] then 0 else taken[|taken| - 1]
  }

  /** From the loop head to the next handler await. */
  function Head(s: State): State {
    if s.buffer == [] || s.subs == [] then s.(dispatching := false, at := None)
    else
      var number := if |s.accepted| >= |s.buffer| then |s.accepted| - |s.buffer| else 0;
      s.(buffer := s.buffer[1..], taken := s.taken + [number], used := s.used + [s.buffer[0]],
         at := Some(Round(s.buffer[0], s.subs[0])),
         log := s.log + [Delivery(s.subs[0].name, s.subs[0].serial, number)])
  }

  function Dispatch(s: State): State {
    if s.dispatching then s else Head(s.(dispatching := true))
  }

  /** `now` and `later` are the two clock readings of a push. */
  function Push(c: Config, s: State, x: Signal, now: int, later: int): State {
    var dedup := Sweep(s.dedup, now);
    if Has(dedup, x.id) then s.(dedup := dedup, events := s.events + [Dup(x.id)])
    else
      var entry := Seen(x.id, later + c.dedupTtlMs);
      Dispatch(s.(dedup := Remember(c, dedup, entry), buffer := Added(c.capacity, s.buffer, x),
                  events := if |s.buffer| >= c.capacity then s.events + [Overflow] else s.events,
                  accepted := s.accepted + [x], seen := s.seen + [entry]))
  }

  function Without(subs: seq<Sub>, name: string): seq<Sub> {
    if subs == [] then [] else (if subs[0].name == name then [] else [subs[0]]) + Without(subs[1..], name)
  }

  predicate Named(subs: seq<Sub>, name: string) {
    exists i :: 0 <= i < |subs| && subs[i].name == name
  }

  /** Setting an existing key keeps its place. */
  function Subscribe(s: State, name: string): State {
    Dispatch(if Named(s.subs, name) then s
             else s.(subs := s.subs + [Sub(name, s.serials)], serials := s.serials + 1))
  }

  function Unsubscribe(s: State, name: string): State {
    s.(subs := Without(s.subs, name))
  }

  /** The awaited handler settles, whether it throws or not. */
  function HandlerDone(s: State): State {
    if s.at.None? then s
    else
      var r := s.at.value;
      var next := NextSub(s.subs, r.sub.serial);
      if next.Some? then
        s.(at := Some(r.(sub := next.value)),
           log := s.log + [Delivery(next.value.name, next.value.serial, Current(s.taken))])
      else Head(s)
  }

  // ---- The queue object ----

  class Queue {
    const config: Config
    var buffer: seq<Signal>
    var subscribers: seq<Sub>
    var serials: nat
    var dedup: seq<Seen>
    var dispatching: bool
    var at: Option<Round>
    var events: seq<Event>
    ghost var accepted: seq<Signal>
    ghost var seen: seq<Seen>
    ghost var taken: seq<nat>
    ghost var used: seq<Signal>
    ghost var log: seq<Delivery>

    ghost function View(): State
      reads this
    {
      State(buffer, subscribers, serials, dedup, dispatching, at, events, accepted, seen, taken, used, log)
    }

    constructor (config: Config)
      ensures View() == Empty() && this.config == config
    {
      this.config := config;
      buffer, subscribers, serials, dedup, dispatching, at, events := [], [], 0, [], false, None, [];
      accepted, seen, taken, used, log := [], [], [], [], [];
    }

    method EvictExpiredDedup(now: int)
      modifies this`dedup
      ensures dedup == Sweep(old(dedup), now)
    {
      while |dedup| > 0
        invariant Sweep(dedup, now) == Sweep(old(dedup), now)
        decreases |dedup|
      {
        if dedup[0].expires <= now {
          dedup := dedup[1..];
        } else {
          break;
        }
      }
    }

    method PushSignal(signal: Signal, now: int, later: int)
      modifies this
      ensures View() == Push(config, old(View()), signal, now, later)
    {
      EvictExpiredDedup(now);
      if Has(dedup, signal.id) {
        events := events + [Dup(signal.id)];
        return;
      }
      Accept(signal, later);
      DispatchLoop();
    }

    method Accept(signal: Signal, later: int)
      modifies this`dedup, this`buffer, this`events, this`accepted, this`seen
      ensures dedup == Remember(config, old(dedup), Seen(signal.id, later + config.dedupTtlMs))
      ensures buffer == Added(config.capacity, old(buffer), signal)
      ensures events == if |old(buffer)| >= config.capacity then old(events) + [Overflow] else old(events)
      ensures accepted == old(accepted) + [signal] && seen == old(seen) + [Seen(signal.id, later + config.dedupTtlMs)]
    {
      dedup := dedup + [Seen(signal.id, later + config.dedupTtlMs)];
      if |dedup| > config.dedupWindow {
        dedup := dedup[1..];
      }
      if |buffer| >= config.capacity {
        if |buffer| > 0 {
          buffer := buffer[1..];
        }
        events := events + [Overflow];
      }
      buffer := buffer + [signal];
      accepted := accepted + [signal];
      seen := seen + [Seen(signal.id, later + config.dedupTtlMs)];
    }

    method DispatchLoop()
      modifies this
      ensures View() == Dispatch(old(View()))
    {
      if !dispatching {
        dispatching := true;
        DispatchHead();
      }
    }

    /** The top of the dispatch loop, as far as its first await. */
    method DispatchHead()
      modifies this
      ensures View() == Head(old(View()))
    {
      if |buffer| == 0 || |subscribers| == 0 {
        dispatching, at := false, None;
        return;
      }
      var sig, sub := buffer[0], subscribers[0];
      ghost var number: nat := if |accepted| >= |buffer| then |accepted| - |buffer| else 0;
      buffer := buffer[1..];
      taken, used := taken + [number], used + [sig];
      log := log + [Delivery(sub.name, sub.serial, number)];
      at := Some(Round(sig, sub));
    }

    /** The awaited handler settles: the next subscriber of the round, or the next signal. */
    method HandlerSettled()
      modifies this
      ensures View() == HandlerDone(old(View()))
    {
      if at.None? {
        return;
      }
      var next := NextSub(subscribers, at.value.sub.serial);
      if next.Some? {
        log := log + [Delivery(next.value.name, next.value.serial, Current(taken))];
        at := Some(Round(at.value.signal, next.value));
      } else {
        DispatchHead();
      }
    }

    method Add(name: string)
      modifies this
      ensures View() == Subscribe(old(View()), name)
    {
      if !Named(subscribers, name) {
        subscribers := subscribers + [Sub(name, serials)];
        serials := serials + 1;
      }
      DispatchLoop();
    }

    method Remove(name: string)
      modifies this`subscribers
      ensures View() == Unsubscribe(old(View()), name)
    {
      subscribers := Without(subscribers, name);
    }
  }

  // ---- Runs ----

  datatype Step =
    | Pushing(x: Signal, now: int, later: int)
    | Subscribing(name: string)
    | Unsubscribing(name: string)
    | Settling

  function Next(c: Config, s: State, e: Step): State {
    match e
    case Pushing(x, now, later) => Push(c, s, x, now, later)
    case Subscribing(name) => Subscribe(s, name)
    case Unsubscribing(name) => Unsubscribe(s, name)
    case Settling => HandlerDone(s)
  }

  function Run(c: Config, es: seq<Step>): State {
    if es == [] then Empty() else Next(c, Run(c, es[..|es| - 1]), es[|es| - 1])
  }

  /** The last clock reading of a run, if it read the clock. */
  function Clock(es: seq<Step>): Option<int> {
    if es == [] then None
    else if es[|es| - 1].Pushing? then Some(es[|es| - 1].later) else Clock(es[..|es| - 1])
  }

  /** The clock never goes back. */
  ghost predicate Monotone(es: seq<Step>) {
    es == []
    || (Monotone(es[..|es| - 1])
        && (es[|es| - 1].Pushing? ==>
              es[|es| - 1].now <= es[|es| - 1].later
              && (Clock(es[..|es| - 1]).Some? ==> Clock(es[..|es| - 1]).value <= es[|es| - 1].now)))
  }

  // ---- Dedup against the history of accepted signals ----

  /** How many accepted ids the window covers. */
  function Window(c: Config, seen: seq<Seen>): (n: nat)
    ensures n <= |seen|
  {
    Min(c.dedupWindow, |seen|)
  }

  function Unexpired(seen: seq<Seen>, now: int): seq<Seen> {
    if seen == [] then []
    else (if seen[0].expires > now then [seen[0]] else []) + Unexpired(seen[1..], now)
  }

  /** Expired keys come before live ones. */
  ghost predicate ExpiredFirst(keys: seq<Seen>, now: int) {
    forall i, j :: 0 <= i < j < |keys| && keys[j].expires <= now ==> keys[i].expires <= now
  }

  ghost predicate DistinctIds(keys: seq<Seen>) {
    forall i, j :: 0 <= i < j < |keys| ==> keys[i].id != keys[j].id
  }

  /**
   * Whatever the clock did: the dedup keys are the accepted signals of the window but for a front part, and what left
   * the window's front had expired at a reading no later than `high`.
   */
  ghost predicate Remembers(c: Config, s: State, high: int) {
    && |s.seen| == |s.accepted|
    && (forall i :: 0 <= i < |s.seen| ==> s.seen[i].id == s.accepted[i].id)
    && DistinctIds(s.dedup)
    && |s.dedup| <= Window(c, s.seen)
    && s.dedup == s.seen[|s.seen| - |s.dedup|..]
    && forall i :: |s.seen| - Window(c, s.seen) <= i < |s.seen| - |s.dedup| ==> s.seen[i].expires <= high
  }

  /** Stopping at the first live key is a full filter exactly when no expired key stands behind a live one. */
  lemma {:induction false} SweepIsFilter(dedup: seq<Seen>, now: int)
    ensures Sweep(dedup, now) == Unexpired(dedup, now) <==> ExpiredFirst(dedup, now)
    decreases |dedup|
  {
    hide ExpiredFirst;
    ExpiredFirstOpen(dedup, now);
    if dedup != [] {
      if dedup[0].expires <= now {
        SweepIsFilter(dedup[1..], now);
      } else if ExpiredFirst(dedup, now) {
        AllUnexpired(dedup, now);
      } else {
        SomeExpired(dedup, now);
      }
    }
  }

  /** An expired first key says nothing about the rest; a live one allows no expired key. */
  lemma ExpiredFirstOpen(dedup: seq<Seen>, now: int)
    ensures dedup == [] ==> ExpiredFirst(dedup, now)
    ensures dedup != [] && dedup[0].expires <= now ==> (ExpiredFirst(dedup, now) <==> ExpiredFirst(dedup[1..], now))
    ensures dedup != [] && dedup[0].expires > now ==>
              (ExpiredFirst(dedup, now) <==> forall i :: 0 <= i < |dedup| ==> dedup[i].expires > now)
  {
    if dedup != [] {
      assert forall i :: 0 < i < |dedup| ==> dedup[i] == dedup[1..][i - 1];
      assert forall i :: 0 <= i < |dedup[1..]| ==> dedup[1..][i] == dedup[i + 1];
    }
  }

  lemma SomeExpired(dedup: seq<Seen>, now: int)
    requires exists i :: 0 <= i < |dedup| && dedup[i].expires <= now
    ensures Unexpired(dedup, now) != dedup
  {
    UnexpiredAre(dedup, now);
    hide Unexpired;
    var i :| 0 <= i < |dedup| && dedup[i].expires <= now;
    assert dedup[i] in dedup && dedup[i] !in Unexpired(dedup, now);
  }

  lemma {:induction false} UnexpiredAre(seen: seq<Seen>, now: int)
    ensures forall e :: e in Unexpired(seen, now) <==> e in seen && e.expires > now
    decreases |seen|
  {
    if seen != [] {
      UnexpiredAre(seen[1..], now);
      assert forall e :: e in seen <==> e == seen[0] || e in seen[1..];
    }
  }

  lemma {:induction false} AllUnexpired(dedup: seq<Seen>, now: int)
    requires forall i :: 0 <= i < |dedup| ==> dedup[i].expires > now
    ensures Unexpired(dedup, now) == dedup
    decreases |dedup|
  {
    if dedup != [] {
      AllUnexpired(dedup[1..], now);
    }
  }

  /** A sweep leaves a suffix, and what it took off has expired. */
  lemma {:induction false} SweepSuffix(dedup: seq<Seen>, now: int)
    ensures var kept := Sweep(dedup, now);
            && |kept| <= |dedup| && kept == dedup[|dedup| - |kept|..]
            && (forall i :: 0 <= i < |dedup| - |kept| ==> dedup[i].expires <= now)
            && (kept != [] ==> kept[0].expires > now)
    decreases |dedup|
  {
    if dedup != [] && dedup[0].expires <= now {
      SweepSuffix(dedup[1..], now);
    }
  }

  lemma SweepRemembers(c: Config, s: State, now: int, high: int)
    requires Remembers(c, s, high) && now <= high
    ensures Remembers(c, s.(dedup := Sweep(s.dedup, now)), high)
  {
    SweepSuffix(s.dedup, now);
    var kept := Sweep(s.dedup, now);
    var n := |s.seen| - |s.dedup|;
    assert forall i :: 0 <= i < |s.dedup| ==> s.dedup[i] == s.seen[n + i];
    assert kept == s.seen[|s.seen| - |kept|..];
    forall i | |s.seen| - Window(c, s.seen) <= i < |s.seen| - |kept|
      ensures s.seen[i].expires <= high
    {
      if i >= n {
        assert s.seen[i] == s.dedup[i - n];
      }
    }
  }

  lemma RememberMore(c: Config, s: State, x: Signal, expires: int, high: int)
    requires Remembers(c, s, high) && !Has(s.dedup, x.id)
    ensures var e := Seen(x.id, expires);
            Remembers(c, s.(dedup := Remember(c, s.dedup, e), accepted := s.accepted + [x], seen := s.seen + [e]), high)
  {
    var e := Seen(x.id, expires);
    var seen, dedup := s.seen + [e], Remember(c, s.dedup, e);
    assert dedup == seen[|seen| - |dedup|..];
    assert |s.dedup| == c.dedupWindow ==> |dedup| == Window(c, seen);
  }

  /** What dispatching never touches. */
  lemma DispatchRest(s: State)
    ensures var t := Dispatch(s);
            && t.dedup == s.dedup && t.seen == s.seen && t.accepted == s.accepted && t.subs == s.subs
            && t.serials == s.serials && t.events == s.events
  {
  }

  lemma HeadRest(s: State)
    ensures var t := Head(s);
            && t.dedup == s.dedup && t.seen == s.seen && t.accepted == s.accepted && t.subs == s.subs
            && t.serials == s.serials
  {
  }

  /** What a push does to the memory of accepted signals: dispatching plays no part in it. */
  lemma PushMemory(c: Config, s: State, x: Signal, now: int, later: int)
    ensures var t, kept, e := Push(c, s, x, now, later), Sweep(s.dedup, now), Seen(x.id, later + c.dedupTtlMs);
            if Has(kept, x.id) then
              t.dedup == kept && t.seen == s.seen && t.accepted == s.accepted && t.events == s.events + [Dup(x.id)]
            else
              t.dedup == Remember(c, kept, e) && t.seen == s.seen + [e] && t.accepted == s.accepted + [x]
  {
    hide Sweep, Has, Head, Dispatch, Remember;
    var e := Seen(x.id, later + c.dedupTtlMs);
    DispatchRest(s.(dedup := Remember(c, Sweep(s.dedup, now), e), buffer := Added(c.capacity, s.buffer, x),
                    events := if |s.buffer| >= c.capacity then s.events + [Overflow] else s.events,
                    accepted := s.accepted + [x], seen := s.seen + [e]));
  }

  /** No other step touches it. */
  lemma OtherMemory(c: Config, s: State, e: Step)
    requires !e.Pushing?
    ensures var t := Next(c, s, e); t.dedup == s.dedup && t.seen == s.seen && t.accepted == s.accepted
  {
    hide Head, Dispatch;
    match e {
      case Subscribing(name) =>
        DispatchRest(if Named(s.subs, name) then s
                     else s.(subs := s.subs + [Sub(name, s.serials)], serials := s.serials + 1));
      case Unsubscribing(name) =>
      case Settling => HeadRest(s);
      case Pushing(_, _, _) =>
    }
  }

  /** No push of the run read the clock after `high`. */
  ghost predicate NotAfter(es: seq<Step>, high: int) {
    forall i :: 0 <= i < |es| && es[i].Pushing? ==> es[i].now <= high
  }

  lemma {:induction false} RunRemembers(c: Config, es: seq<Step>, high: int)
    requires NotAfter(es, high)
    ensures Remembers(c, Run(c, es), high)
    decreases |es|
  {
    hide Remembers, Next, Push, Sweep, Has, Remember;
    if es == [] {
      NothingSeen(c, high);
    } else {
      var front, e := es[..|es| - 1], es[|es| - 1];
      RunRemembers(c, front, high);
      var s := Run(c, front);
      if e.Pushing? {
        var kept := s.(dedup := Sweep(s.dedup, e.now));
        SweepRemembers(c, s, e.now, high);
        PushMemory(c, s, e.x, e.now, e.later);
        var t := Next(c, s, e);
        assert t == Push(c, s, e.x, e.now, e.later) by {
          PushIsNext(c, s, e);
        }
        if Has(kept.dedup, e.x.id) {
          SameMemory(c, kept, t, high);
        } else {
          var entry := Seen(e.x.id, e.later + c.dedupTtlMs);
          RememberMore(c, kept, e.x, e.later + c.dedupTtlMs, high);
          SameMemory(c, kept.(dedup := Remember(c, kept.dedup, entry), accepted := s.accepted + [e.x],
                              seen := s.seen + [entry]), t, high);
        }
      } else {
        OtherMemory(c, s, e);
        SameMemory(c, s, Next(c, s, e), high);
      }
    }
  }

  lemma PushIsNext(c: Config, s: State, e: Step)
    requires e.Pushing?
    ensures Next(c, s, e) == Push(c, s, e.x, e.now, e.later)
  {
  }

  lemma NothingSeen(c: Config, high: int)
    ensures Remembers(c, Empty(), high)
  {
    NoneRemembered(c, Empty(), high);
  }

  lemma NoneRemembered(c: Config, s: State, high: int)
    requires s.seen == [] && s.dedup == [] && s.accepted == []
    ensures Remembers(c, s, high)
  {
    hide Window, DistinctIds;
    NoIds();
    assert |s.seen| == 0 && |s.dedup| == 0;
  }

  lemma NoIds()
    ensures DistinctIds([])
  {
  }

  lemma SameMemory(c: Config, s: State, t: State, high: int)
    ensures s.dedup == t.dedup && s.seen == t.seen && s.accepted == t.accepted ==>
              (Remembers(c, s, high) <==> Remembers(c, t, high))
  {
  }

  /** The id is among the last `dedupWindow` accepted ids, and that acceptance has not expired. */
  ghost predicate Recent(c: Config, s: State, id: string, now: int) {
    exists i :: |s.seen| - Window(c, s.seen) <= i < |s.seen| && s.seen[i].id == id && s.seen[i].expires > now
  }

  /** With nothing live lost from the front, the recent ids are those of the unexpired keys. */
  lemma RecentIsUnexpired(c: Config, s: State, id: string, now: int)
    requires Remembers(c, s, now)
    ensures Recent(c, s, id, now) <==> Has(Unexpired(s.dedup, now), id)
  {
    hide Recent, Has, Remembers;
    if Recent(c, s, id, now) {
      RecentIsLive(c, s, id, now);
    }
    if Has(Unexpired(s.dedup, now), id) {
      LiveIsRecent(c, s, id, now);
    }
  }

  lemma RecentIsLive(c: Config, s: State, id: string, now: int)
    requires Remembers(c, s, now) && Recent(c, s, id, now)
    ensures Has(Unexpired(s.dedup, now), id)
  {
    hide Unexpired;
    UnexpiredAre(s.dedup, now);
    var i :| |s.seen| - Window(c, s.seen) <= i < |s.seen| && s.seen[i].id == id && s.seen[i].expires > now;
    assert s.dedup[i - (|s.seen| - |s.dedup|)] in Unexpired(s.dedup, now);
  }

  lemma LiveIsRecent(c: Config, s: State, id: string, now: int)
    requires Remembers(c, s, now) && Has(Unexpired(s.dedup, now), id)
    ensures Recent(c, s, id, now)
  {
    hide Unexpired;
    UnexpiredAre(s.dedup, now);
    var live := Unexpired(s.dedup, now);
    var k :| 0 <= k < |live| && live[k].id == id;
    assert live[k] in live;
    KeySeen(c, s, live[k]);
  }

  lemma KeySeen(c: Config, s: State, e: Seen)
    requires |s.dedup| <= Window(c, s.seen) && s.dedup == s.seen[|s.seen| - |s.dedup|..] && e in s.dedup
    ensures exists i :: |s.seen| - Window(c, s.seen) <= i < |s.seen| && s.seen[i] == e
  {
    var i :| 0 <= i < |s.dedup| && s.dedup[i] == e;
    assert s.seen[|s.seen| - |s.dedup| + i] == e;
  }

  /** The swept keys have the ids of the unexpired ones exactly when they are the unexpired ones. */
  lemma SameIds(dedup: seq<Seen>, now: int)
    requires DistinctIds(dedup)
    ensures (forall id :: Has(Sweep(dedup, now), id) <==> Has(Unexpired(dedup, now), id)) <==> ExpiredFirst(dedup, now)
  {
    hide Sweep, Has, Unexpired, DistinctIds, ExpiredFirst;
    SweepIsFilter(dedup, now);
    if forall id :: Has(Sweep(dedup, now), id) <==> Has(Unexpired(dedup, now), id) {
      SameIdsOrder(dedup, now);
    }
  }

  lemma SameIdsOrder(dedup: seq<Seen>, now: int)
    requires DistinctIds(dedup) && forall id :: Has(Sweep(dedup, now), id) <==> Has(Unexpired(dedup, now), id)
    ensures ExpiredFirst(dedup, now)
  {
    hide Sweep, Unexpired;
    SweepSuffix(dedup, now);
    LiveIds(dedup, now);
    var kept := Sweep(dedup, now);
    var n := |dedup| - |kept|;
    assert forall j :: n <= j < |dedup| ==> kept[j - n] == dedup[j];
    forall j | n <= j < |dedup|
      ensures dedup[j].expires > now
    {
      assert kept[j - n].id == dedup[j].id;
      assert Has(kept, dedup[j].id);
    }
  }

  /** An id of the unexpired keys belongs to a live key only. */
  lemma LiveIds(dedup: seq<Seen>, now: int)
    requires DistinctIds(dedup)
    ensures forall j :: 0 <= j < |dedup| && Has(Unexpired(dedup, now), dedup[j].id) ==> dedup[j].expires > now
  {
    UnexpiredAre(dedup, now);
    var live := Unexpired(dedup, now);
    forall j | 0 <= j < |dedup| && Has(live, dedup[j].id)
      ensures dedup[j].expires > now
    {
      var k :| 0 <= k < |live| && live[k].id == dedup[j].id;
      assert live[k] in dedup;
    }
  }

  /**
   * Over any run, at a reading not before any earlier one: dropping exactly the recent ids comes down to no expired
   * key standing behind a live one.
   */
  lemma DedupAgreesWithHistory(c: Config, es: seq<Step>, now: int)
    requires NotAfter(es, now)
    ensures var s := Run(c, es);
            && |s.seen| == |s.accepted| && (forall i :: 0 <= i < |s.seen| ==> s.seen[i].id == s.accepted[i].id)
            && ((forall id :: Has(Sweep(s.dedup, now), id) <==> Recent(c, s, id, now)) <==> ExpiredFirst(s.dedup, now))
  {
    hide Run, Sweep, Has, Unexpired, Recent, ExpiredFirst;
    RunRemembers(c, es, now);
    var s := Run(c, es);
    SameIds(s.dedup, now);
    forall id
      ensures Recent(c, s, id, now) <==> Has(Unexpired(s.dedup, now), id)
    {
      RecentIsUnexpired(c, s, id, now);
    }
  }

  // ---- A clock that never goes back ----

  ghost predicate Ordered(seen: seq<Seen>) {
    forall i, j :: 0 <= i < j < |seen| ==> seen[i].expires <= seen[j].expires
  }

  ghost predicate Stamped(c: Config, s: State, clock: Option<int>) {
    && Ordered(s.seen)
    && (s.seen != [] ==> clock.Some? && s.seen[|s.seen| - 1].expires <= clock.value + c.dedupTtlMs)
  }

  lemma {:induction false} ForwardClock(c: Config, es: seq<Step>)
    requires Monotone(es)
    ensures Stamped(c, Run(c, es), Clock(es))
    ensures Clock(es).Some? ==> NotAfter(es, Clock(es).value)
    ensures Clock(es).None? ==> forall i :: 0 <= i < |es| ==> !es[i].Pushing?
    decreases |es|
  {
    hide Push, Next;
    if es != [] {
      var front, e := es[..|es| - 1], es[|es| - 1];
      ForwardClock(c, front);
      assert forall i :: 0 <= i < |front| ==> es[i] == front[i];
      if e.Pushing? {
        PushIsNext(c, Run(c, front), e);
        PushMemory(c, Run(c, front), e.x, e.now, e.later);
      } else {
        OtherMemory(c, Run(c, front), e);
      }
    }
  }

  /** Under such a clock a push is dropped as a duplicate exactly when its id is recent; otherwise it is accepted. */
  lemma PushFollowsHistory(c: Config, es: seq<Step>, x: Signal, now: int, later: int)
    requires Monotone(es + [Pushing(x, now, later)])
    ensures var s, t := Run(c, es), Run(c, es + [Pushing(x, now, later)]);
            && t.accepted == (if Recent(c, s, x.id, now) then s.accepted else s.accepted + [x])
            && t.seen == (if Recent(c, s, x.id, now) then s.seen else s.seen + [Seen(x.id, later + c.dedupTtlMs)])
            && (Recent(c, s, x.id, now) ==> t.events == s.events + [Dup(x.id)])
  {
    hide Push, Next, Sweep, Has, Recent;
    var more := es + [Pushing(x, now, later)];
    assert more[..|more| - 1] == es;
    ForwardClock(c, es);
    DedupAgreesWithHistory(c, es, now);
    var s := Run(c, es);
    RunRemembers(c, es, now);
    assert forall i :: 0 <= i < |s.dedup| ==> s.dedup[i] == s.seen[|s.seen| - |s.dedup| + i];
    PushIsNext(c, s, more[|more| - 1]);
    PushMemory(c, s, x, now, later);
  }

  /** With a clock that goes back, an expired id stands behind a live one and a push is dropped for it. */
  lemma ClockGoesBack()
    ensures var c := Config(10, 10, 100);
            var a, b := Signal("a", 0), Signal("b", 0);
            var s := Run(c, [Pushing(a, 1000, 1000), Pushing(b, 0, 0)]);
            var t := Run(c, [Pushing(a, 1000, 1000), Pushing(b, 0, 0), Pushing(b, 500, 500)]);
            && s.seen == [Seen("a", 1100), Seen("b", 100)] && !Recent(c, s, "b", 500)
            && t.accepted == s.accepted == [a, b] && t.events == s.events + [Dup("b")]
  {
    hide Dispatch, Push, Head;
    var c := Config(10, 10, 100);
    var a, b := Signal("a", 0), Signal("b", 0);
    var es := [Pushing(a, 1000, 1000), Pushing(b, 0, 0), Pushing(b, 500, 500)];
    assert es[..2] == [Pushing(a, 1000, 1000), Pushing(b, 0, 0)];
    assert es[..2][..1] == [Pushing(a, 1000, 1000)] && es[..1][..0] == [];
    assert a.id != b.id;
    PushMemory(c, Empty(), a, 1000, 1000);
    var s1 := Run(c, es[..1]);
    assert s1 == Push(c, Empty(), a, 1000, 1000) by {
      assert Run(c, es[..1][..0]) == Empty();
    }
    assert s1.dedup == [Seen("a", 1100)];
    PushMemory(c, s1, b, 0, 0);
    var s2 := Run(c, es[..2]);
    assert es[..2][..1] == es[..1];
    assert s2 == Push(c, s1, b, 0, 0);
    assert s2.dedup == [Seen("a", 1100), Seen("b", 100)];
    PushMemory(c, s2, b, 500, 500);
    assert Run(c, es) == Push(c, s2, b, 500, 500);
    assert Sweep(s2.dedup, 500) == s2.dedup && s2.dedup[1].id == "b";
  }

  // ---- Delivery ----

  function Overflows(es: seq<Event>): nat {
    if es == [] then 0 else Overflows(es[..|es| - 1]) + if es[|es| - 1].Overflow? then 1 else 0
  }

  ghost predicate SubsOrdered(subs: seq<Sub>, serials: nat) {
    && (forall i :: 0 <= i < |subs| ==> subs[i].serial < serials)
    && (forall i, j :: 0 <= i < j < |subs| ==> subs[i].serial < subs[j].serial && subs[i].name != subs[j].name)
  }

  /** Deliveries go up by signal, and within a signal by subscriber: in order, and no one gets a signal twice. */
  ghost predicate LogOrdered(log: seq<Delivery>) {
    forall i, j :: 0 <= i < j < |log| ==>
      log[i].number < log[j].number || (log[i].number == log[j].number && log[i].serial < log[j].serial)
  }

  /** In the round in progress, every current subscriber up to the one being awaited has had the signal. */
  ghost predicate RoundSoFar(s: State) {
    s.at.Some? ==>
      && s.taken != [] && s.used != [] && s.used[|s.used| - 1] == s.at.value.signal
      && s.log != [] && s.log[|s.log| - 1] == Delivery(s.at.value.sub.name, s.at.value.sub.serial, Current(s.taken))
      && s.at.value.sub.serial < s.serials
      && forall x :: x in s.subs && x.serial <= s.at.value.sub.serial ==>
           Delivery(x.name, x.serial, Current(s.taken)) in s.log
  }

  /**
   * The buffer is the newest accepted signals; every earlier one was dispatched, in order, or evicted oldest first (and
   * counted, when the capacity is at least one); and dispatch does not sleep while there is something to deliver.
   */
  ghost predicate Delivers(c: Config, s: State) {
    && Kept(c.capacity, s.buffer, s.accepted, s.taken, s.used)
    && (c.capacity >= 1 ==> Overflows(s.events) == DroppedOf(s.buffer, s.accepted, s.taken))
    && (s.dispatching <==> s.at.Some?)
    && (!s.dispatching ==> s.buffer == [] || s.subs == [])
    && SubsOrdered(s.subs, s.serials)
    && LogOrdered(s.log) && (forall d :: d in s.log ==> d.number in s.taken)
    && RoundSoFar(s)
  }

  lemma {:induction false} NextSubFirst(subs: seq<Sub>, serials: nat, serial: int)
    requires SubsOrdered(subs, serials)
    ensures var next := NextSub(subs, serial);
            forall x :: x in subs && x.serial > serial
              ==> next.Some? && (x == next.value || x.serial > next.value.serial)
    decreases |subs|
  {
    if subs != [] {
      assert forall i :: 0 <= i < |subs[1..]| ==> subs[1..][i] == subs[i + 1];
      NextSubFirst(subs[1..], serials, serial);
    }
  }

  lemma OverflowsMore(es: seq<Event>, e: Event)
    ensures Overflows(es + [e]) == Overflows(es) + if e.Overflow? then 1 else 0
  {
    assert (es + [e])[..|es|] == es;
  }

  lemma LogMore(log: seq<Delivery>, d: Delivery)
    requires LogOrdered(log)
    requires log != [] ==> var last := log[|log| - 1];
                           last.number < d.number || (last.number == d.number && last.serial < d.serial)
    ensures LogOrdered(log + [d])
  {
  }

  /** Everything but what the loop is doing right now. */
  ghost predicate BetweenRounds(c: Config, s: State) {
    && Kept(c.capacity, s.buffer, s.accepted, s.taken, s.used)
    && (c.capacity >= 1 ==> Overflows(s.events) == DroppedOf(s.buffer, s.accepted, s.taken))
    && SubsOrdered(s.subs, s.serials)
    && LogOrdered(s.log) && (forall d :: d in s.log ==> d.number in s.taken)
  }

  lemma HeadDelivers(c: Config, s: State)
    requires BetweenRounds(c, s) && s.dispatching
    ensures Delivers(c, Head(s))
  {
    hide LogOrdered, Overflows;
    if s.buffer != [] && s.subs != [] {
      KeptTake(c.capacity, s.buffer, s.accepted, s.taken, s.used);
      var number := |s.accepted| - |s.buffer|;
      var d := Delivery(s.subs[0].name, s.subs[0].serial, number);
      if s.log != [] {
        assert s.log[|s.log| - 1].number in s.taken;
      }
      LogMore(s.log, d);
      var t := Head(s);
      forall x | x in t.subs && x.serial <= s.subs[0].serial
        ensures x == s.subs[0]
      {
      }
    }
  }

  lemma DispatchDelivers(c: Config, s: State)
    requires BetweenRounds(c, s) && (s.dispatching <==> s.at.Some?) && RoundSoFar(s)
    ensures Delivers(c, Dispatch(s))
  {
    hide BetweenRounds, Head, RoundSoFar;
    if !s.dispatching {
      SameRest(c, s);
      HeadDelivers(c, s.(dispatching := true));
    } else {
      assert BetweenRounds(c, s) ==> Delivers(c, s) by {
        RestDelivers(c, s);
      }
    }
  }

  lemma SameRest(c: Config, s: State)
    ensures BetweenRounds(c, s) ==> BetweenRounds(c, s.(dispatching := true))
  {
  }

  lemma RestDelivers(c: Config, s: State)
    ensures BetweenRounds(c, s) && s.dispatching && s.at.Some? && RoundSoFar(s) ==> Delivers(c, s)
  {
  }

  lemma PushDelivers(c: Config, s: State, x: Signal, now: int, later: int)
    requires Delivers(c, s)
    ensures Delivers(c, Push(c, s, x, now, later))
  {
    hide Kept, LogOrdered, Overflows, Head, Sweep, Has, Remember, Dispatch, SubsOrdered;
    OverflowsMore(s.events, Dup(x.id));
    OverflowsMore(s.events, Overflow);
    KeptArrival(c.capacity, s.buffer, s.accepted, s.taken, s.used, x);
    var dedup := Sweep(s.dedup, now);
    if !Has(dedup, x.id) {
      var entry := Seen(x.id, later + c.dedupTtlMs);
      DispatchDelivers(c, s.(dedup := Remember(c, dedup, entry), buffer := Added(c.capacity, s.buffer, x),
                             events := if |s.buffer| >= c.capacity then s.events + [Overflow] else s.events,
                             accepted := s.accepted + [x], seen := s.seen + [entry]));
    }
  }

  lemma HandlerDelivers(c: Config, s: State)
    requires Delivers(c, s)
    ensures Delivers(c, HandlerDone(s))
  {
    hide Kept, LogOrdered, Overflows, Head, NextSub;
    if s.at.Some? {
      var r := s.at.value;
      var next := NextSub(s.subs, r.sub.serial);
      NextSubFirst(s.subs, s.serials, r.sub.serial);
      if next.Some? {
        LogMore(s.log, Delivery(next.value.name, next.value.serial, Current(s.taken)));
      } else {
        HeadDelivers(c, s);
      }
    }
  }

  lemma {:induction false} WithoutSubs(subs: seq<Sub>, name: string, serials: nat)
    requires SubsOrdered(subs, serials)
    ensures SubsOrdered(Without(subs, name), serials)
    ensures forall x :: x in Without(subs, name) <==> x in subs && x.name != name
    decreases |subs|
  {
    if subs != [] {
      var rest := subs[1..];
      assert forall i :: 0 <= i < |rest| ==> rest[i] == subs[i + 1];
      WithoutSubs(rest, name, serials);
      assert forall x :: x in rest ==> x.serial > subs[0].serial && x.name != subs[0].name;
      OneMoreSub(subs[0], Without(rest, name), serials);
      assert forall x :: x in subs <==> x == subs[0] || x in rest;
    }
  }

  lemma OneMoreSub(first: Sub, rest: seq<Sub>, serials: nat)
    requires SubsOrdered(rest, serials) && first.serial < serials
    requires forall x :: x in rest ==> x.serial > first.serial && x.name != first.name
    ensures SubsOrdered([first] + rest, serials)
  {
  }

  lemma StepDelivers(c: Config, s: State, e: Step)
    requires Delivers(c, s)
    ensures Delivers(c, Next(c, s, e))
  {
    hide Kept, LogOrdered, Overflows, Head, Push, HandlerDone, Dispatch;
    match e {
      case Pushing(x, now, later) => PushDelivers(c, s, x, now, later);
      case Subscribing(name) =>
        DispatchDelivers(c, if Named(s.subs, name) then s
                            else s.(subs := s.subs + [Sub(name, s.serials)], serials := s.serials + 1));
      case Unsubscribing(name) =>
        WithoutSubs(s.subs, name, s.serials);
      case Settling => HandlerDelivers(c, s);
    }
  }

  /** Over any interleaving of pushes, subscriptions and handler completions. */
  lemma {:induction false} RunDelivers(c: Config, es: seq<Step>)
    ensures Delivers(c, Run(c, es))
    decreases |es|
  {
    hide Next;
    if es != [] {
      RunDelivers(c, es[..|es| - 1]);
      StepDelivers(c, Run(c, es[..|es| - 1]), es[|es| - 1]);
    }
  }

  /** When the loop goes on to the next signal, every current subscriber has had the one in hand. */
  lemma RoundComplete(c: Config, es: seq<Step>, x: Sub)
    requires var s := Run(c, es);
             s.at.Some? && NextSub(s.subs, s.at.value.sub.serial).None? && x in s.subs
    ensures var s := Run(c, es);
            Delivery(x.name, x.serial, Current(s.taken)) in s.log && s.used != []
              && s.used[|s.used| - 1] == s.at.value.signal
  {
    hide Run;
    RunDelivers(c, es);
    var s := Run(c, es);
    NextSubFirst(s.subs, s.serials, s.at.value.sub.serial);
  }
}
