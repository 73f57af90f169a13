/** Grouping signed transactions into bundles (packages/solana-executor/src/bundle-accumulator.ts). */
module Bundles {
  import opened Wrappers
  import opened Bytes

  /** An entry as added: `number` counts the calls of add. */
  datatype Entry = Entry(number: nat, group: string, signedTx: seq<byte>)

  datatype Accumulator = Accumulator(entries: seq<Entry>, timer: Option<nat>)

  /** A call of onFlush: pending, resolved with signatures, or rejected. */
  datatype Phase = Pending | Resolved(sigs: seq<string>) | Rejected(error: string)

  datatype Flight = Flight(group: string, entries: seq<Entry>, phase: Phase)

  /** How an entry's promise settles. */
  datatype Settlement = Signed(sig: string) | Failed(error: string)

  datatype Config = Config(maxPerBundle: nat)

  /** `timers` are the timeouts that have neither fired nor been cleared; `added` is history. */
  datatype State = State(groups: map<string, Accumulator>, timers: map<nat, string>, nextTimer: nat,
                         flights: seq<Flight>,
                         settled: seq<(nat, Settlement)>, added: seq<Entry>)

  function Empty(): State {
    State(map[], map[], 0, [], [], [])
  }

  function Cleared(timers: map<nat, string>, timer: Option<nat>): map<nat, string> {
    if timer.Some? then timers - {timer.value} else timers
  }

  /** The group leaves the map, its timer is cleared, and onFlush is called. */
  function Flush(s: State, group: string): State {
    if group !in s.groups || s.groups[group].entries == [] then s
    else
      var acc := s.groups[group];
      s.(groups := s.groups - {group}, timers := Cleared(s.timers, acc.timer),
         flights := s.flights + [Flight(group, acc.entries, Pending)])
  }

  function Add(c: Config, s: State, group: string, tx: seq<byte>): State {
    var before := if group in s.groups then s.groups[group] else Accumulator([], None);
    var e := Entry(|s.added|, group, tx);
    var acc := before.(entries := before.entries + [e]);
    var t := s.(groups := s.groups[group := acc], added := s.added + [e]);
    if |acc.entries| >= c.maxPerBundle then Flush(t.(timers := Cleared(s.timers, acc.timer)), group)
    else if acc.timer.None? then
      t.(groups := s.groups[group := acc.(timer := Some(s.nextTimer))], timers := s.timers[s.nextTimer := group],
         nextTimer := s.nextTimer + 1)
    else t
  }

  /** A timeout runs its callback, which names the group and not the accumulator. */
  function Fire(s: State, timer: nat): State {
    if timer !in s.timers then s else Flush(s.(timers := s.timers - {timer}), s.timers[timer])
  }

  function SettleAll(entries: seq<Entry>, phase: Phase, i: nat): seq<(nat, Settlement)>
    requires !phase.Pending?
    decreases |entries| - i
  {
    if i >= |entries| then []
    else
      [(entries[i].number,
        if phase.Rejected? then Failed(phase.error) else Signed(if i < |phase.sigs| then phase.sigs[i] else ""))]
      + SettleAll(entries, phase, i + 1)
  }

  /** onFlush settles: every promise of the flight does, in order. */
  function Land(s: State, k: nat, phase: Phase): State
    requires !phase.Pending?
  {
    if k >= |s.flights| || !s.flights[k].phase.Pending? then s
    else
      s.(flights := s.flights[k := s.flights[k].(phase := phase)],
         settled := s.settled + SettleAll(s.flights[k].entries, phase, 0))
  }

  // ---- The accumulator object ----

  class BundleAccumulator {
    const opts: Config
    var groups: map<string, Accumulator>
    var timers: map<nat, string>
    var nextTimer: nat
    var flights: seq<Flight>
    var settled: seq<(nat, Settlement)>
    var added: seq<Entry>

    function View(): State
      reads this
    {
      State(groups, timers, nextTimer, flights, settled, added)
    }

    constructor (opts: Config)
      ensures View() == Empty() && this.opts == opts
    {
      this.opts := opts;
      groups, timers, nextTimer, flights, settled, added := map[], map[], 0, [], [], [];
    }

    method ClearTimer(timer: Option<nat>)
      modifies this`timers
      ensures timers == Cleared(old(timers), timer)
    {
      if timer.Some? {
        timers := timers - {timer.value};
      }
    }

    method AddEntry(group: string, signedTx: seq<byte>)
      modifies this
      ensures View() == Add(opts, old(View()), group, signedTx)
    {
      var acc := if group in groups then groups[group] else Accumulator([], None);
      var e := Entry(|added|, group, signedTx);
      added := added + [e];
      acc := acc.(entries := acc.entries + [e]);
      if |acc.entries| >= opts.maxPerBundle {
        groups := groups[group := acc];
        ClearTimer(acc.timer);
        FlushGroup(group);
      } else {
        if acc.timer.None? {
          acc := acc.(timer := Some(nextTimer));
          timers := timers[nextTimer := group];
          nextTimer := nextTimer + 1;
        }
        groups := groups[group := acc];
      }
    }

    method FlushGroup(group: string)
      modifies this
      ensures View() == Flush(old(View()), group)
    {
      if group !in groups || |groups[group].entries| == 0 {
        return;
      }
      var acc := groups[group];
      groups := groups - {group};
      ClearTimer(acc.timer);
      flights := flights + [Flight(group, acc.entries, Pending)];
    }

    method TimerFires(timer: nat)
      modifies this
      ensures View() == Fire(old(View()), timer)
    {
      if timer in timers {
        var group := timers[timer];
        timers := timers - {timer};
        FlushGroup(group);
      }
    }

    method FlushSettles(k: nat, phase: Phase)
      requires !phase.Pending?
      modifies this
      ensures View() == Land(old(View()), k, phase)
    {
      if k >= |flights| || !flights[k].phase.Pending? {
        return;
      }
      var entries := flights[k].entries;
      flights := flights[k := flights[k].(phase := phase)];
      ghost var before := settled;
      var i := 0;
      while i < |entries|
        invariant 0 <= i <= |entries|
        invariant before + SettleAll(entries, phase, 0) == settled + SettleAll(entries, phase, i)
        modifies this`settled
      {
        var one := (entries[i].number,
                    if phase.Rejected? then Failed(phase.error)
                    else Signed(if i < |phase.sigs| then phase.sigs[i] else ""));
        assert settled + ([one] + SettleAll(entries, phase, i + 1))
          == settled + [one] + SettleAll(entries, phase, i + 1);
        settled := settled + [one];
        i := i + 1;
      }
    }
  }

  // ---- Runs ----

  datatype Step = Adding(group: string, tx: seq<byte>) | Firing(timer: nat) | Landing(k: nat, phase: Phase)

  function Next(c: Config, s: State, e: Step): State {
    match e
    case Adding(group, tx) => Add(c, s, group, tx)
    case Firing(timer) => Fire(s, timer)
    case Landing(k, phase) => if phase.Pending? then s else Land(s, k, phase)
  }

  function Run(c: Config, es: seq<Step>): State {
    if es == [] then Empty() else Next(c, Run(c, es[..|es| - 1]), es[|es| - 1])
  }

  // ---- Every entry in exactly one flush ----

  function AddedTo(added: seq<Entry>, g: string): seq<Entry> {
    if added == [] then []
    else AddedTo(added[..|added| - 1], g) + if added[|added| - 1].group == g then [added[|added| - 1]] else []
  }

  /** The entries flushed for one group, flight after flight. */
  function FlushedFor(flights: seq<Flight>, g: string): seq<Entry> {
    if flights == [] then []
    else
      FlushedFor(flights[..|flights| - 1], g)
      + if flights[|flights| - 1].group == g then flights[|flights| - 1].entries else []
  }

  function Waiting(s: State, g: string): seq<Entry> {
    if g in s.groups then s.groups[g].entries else []
  }

  ghost predicate SizedFlight(c: Config, f: Flight) {
    1 <= |f.entries| <= Max(1, c.maxPerBundle) && forall i :: 0 <= i < |f.entries| ==> f.entries[i].group == f.group
  }

  /** A group in the map has a live timer of its own and has not reached the maximum. */
  ghost predicate Armed(c: Config, s: State, g: string)
    requires g in s.groups
  {
    var acc := s.groups[g];
    && 1 <= |acc.entries| < c.maxPerBundle
    && acc.timer.Some? && acc.timer.value in s.timers && s.timers[acc.timer.value] == g
    && forall i :: 0 <= i < |acc.entries| ==> acc.entries[i].group == g
  }

  /** The promises settled so far are those of the flights that landed, in some order, each with its own outcome. */
  function Landed(flights: seq<Flight>): multiset<(nat, Settlement)> {
    if flights == [] then multiset{}
    else
      var f := flights[|flights| - 1];
      Landed(flights[..|flights| - 1])
        + if f.phase.Pending? then multiset{} else multiset(SettleAll(f.entries, f.phase, 0))
  }

  ghost predicate Sound(c: Config, s: State) {
    && (forall i :: 0 <= i < |s.added| ==> s.added[i].number == i)
    && (forall g :: FlushedFor(s.flights, g) + Waiting(s, g) == AddedTo(s.added, g))
    && (forall f :: f in s.flights ==> SizedFlight(c, f))
    && (forall g :: g in s.groups ==> Armed(c, s, g))
    && (forall t :: t in s.timers ==>
          t < s.nextTimer && s.timers[t] in s.groups && s.groups[s.timers[t]].timer == Some(t))
    && multiset(s.settled) == Landed(s.flights)
  }

  lemma AddedMore(added: seq<Entry>, e: Entry, g: string)
    ensures AddedTo(added + [e], g) == AddedTo(added, g) + if e.group == g then [e] else []
  {
    assert (added + [e])[..|added|] == added;
  }

  lemma FlightMore(flights: seq<Flight>, f: Flight, g: string)
    ensures FlushedFor(flights + [f], g) == FlushedFor(flights, g) + if f.group == g then f.entries else []
    ensures Landed(flights + [f]) == Landed(flights)
            + if f.phase.Pending? then multiset{} else multiset(SettleAll(f.entries, f.phase, 0))
  {
    assert (flights + [f])[..|flights|] == flights;
  }

  lemma {:induction false} LandMore(flights: seq<Flight>, k: nat, phase: Phase, g: string)
    requires k < |flights| && flights[k].phase.Pending? && !phase.Pending?
    ensures FlushedFor(flights[k := flights[k].(phase := phase)], g) == FlushedFor(flights, g)
    decreases |flights|
  {
    var n := |flights| - 1;
    var after := flights[k := flights[k].(phase := phase)];
    if k < n {
      LandMore(flights[..n], k, phase, g);
      assert after[..n] == flights[..n][k := flights[k].(phase := phase)];
    } else {
      assert after[..n] == flights[..n];
    }
  }

  lemma {:induction false} LandedMore(flights: seq<Flight>, k: nat, phase: Phase)
    requires k < |flights| && flights[k].phase.Pending? && !phase.Pending?
    ensures Landed(flights[k := flights[k].(phase := phase)])
            == Landed(flights) + multiset(SettleAll(flights[k].entries, phase, 0))
    decreases |flights|
  {
    hide SettleAll;
    var n := |flights| - 1;
    var after := flights[k := flights[k].(phase := phase)];
    if k < n {
      LandedMore(flights[..n], k, phase);
      assert after[..n] == flights[..n][k := flights[k].(phase := phase)];
      assert after[n] == flights[n];
    } else {
      assert after[..n] == flights[..n];
    }
  }

  /** Everything but what concerns the timer of `g`. */
  ghost predicate Conserved(c: Config, s: State, g: string) {
    && (forall i :: 0 <= i < |s.added| ==> s.added[i].number == i)
    && (forall h :: FlushedFor(s.flights, h) + Waiting(s, h) == AddedTo(s.added, h))
    && (forall f :: f in s.flights ==> SizedFlight(c, f))
    && (forall h :: h in s.groups && h != g ==> Armed(c, s, h))
    && (forall t :: t in s.timers && s.timers[t] != g ==>
          t < s.nextTimer && s.timers[t] in s.groups && s.groups[s.timers[t]].timer == Some(t))
    && multiset(s.settled) == Landed(s.flights)
  }

  /** What waited in the flushed group has moved to its flight. */
  lemma FlushConserves(s: State, g: string)
    requires g in s.groups && s.groups[g].entries != []
    requires forall h :: FlushedFor(s.flights, h) + Waiting(s, h) == AddedTo(s.added, h)
    ensures var t := Flush(s, g); forall h :: FlushedFor(t.flights, h) + Waiting(t, h) == AddedTo(t.added, h)
  {
    hide FlushedFor, AddedTo;
    var t, f := Flush(s, g), Flight(g, s.groups[g].entries, Pending);
    forall h
      ensures FlushedFor(t.flights, h) + Waiting(t, h) == AddedTo(t.added, h)
    {
      FlightMore(s.flights, f, h);
      var had := FlushedFor(s.flights, h);
      assert had + Waiting(s, h) == AddedTo(s.added, h);
      if h == g {
        assert Waiting(t, h) == [] && Waiting(s, h) == f.entries;
        assert FlushedFor(t.flights, h) + [] == FlushedFor(t.flights, h);
      } else {
        assert had + [] == had;
        assert Waiting(t, h) == Waiting(s, h);
      }
    }
  }

  /** Flushing a group of fit size whose timer is its accumulator's or gone. */
  lemma FlushSound(c: Config, s: State, g: string)
    requires Conserved(c, s, g) && g in s.groups
    requires SizedFlight(c, Flight(g, s.groups[g].entries, Pending))
    requires forall t :: t in s.timers && s.timers[t] == g ==> s.groups[g].timer == Some(t)
    requires s.groups[g].timer.Some? && s.groups[g].timer.value in s.timers ==> s.timers[s.groups[g].timer.value] == g
    ensures Sound(c, Flush(s, g))
  {
    hide FlushedFor, AddedTo, Landed, SizedFlight, Waiting;
    var t := Flush(s, g);
    var f := Flight(g, s.groups[g].entries, Pending);
    assert s.groups[g].entries != [] by {
      NotEmpty(c, f);
    }
    FlushConserves(s, g);
    FlightMore(s.flights, f, g);
    forall h | h in t.groups
      ensures Armed(c, t, h)
    {
      assert Armed(c, s, h);
    }
  }

  lemma NotEmpty(c: Config, f: Flight)
    requires SizedFlight(c, f)
    ensures f.entries != []
  {
  }

  /** A new entry waits in its group, behind the others. */
  lemma AddConserves(s: State, t: State, e: Entry, g: string)
    requires forall h :: FlushedFor(s.flights, h) + Waiting(s, h) == AddedTo(s.added, h)
    requires e.group == g && t.added == s.added + [e] && t.flights == s.flights && g in t.groups
    requires t.groups[g].entries == (if g in s.groups then s.groups[g].entries else []) + [e]
    requires forall h :: h != g ==> (h in t.groups <==> h in s.groups) && (h in s.groups ==> t.groups[h] == s.groups[h])
    ensures forall h :: FlushedFor(t.flights, h) + Waiting(t, h) == AddedTo(t.added, h)
  {
    hide FlushedFor, AddedTo;
    forall h
      ensures FlushedFor(t.flights, h) + Waiting(t, h) == AddedTo(t.added, h)
    {
      AddedMore(s.added, e, h);
      assert FlushedFor(s.flights, h) + Waiting(s, h) == AddedTo(s.added, h);
      assert FlushedFor(s.flights, g) + (Waiting(s, g) + [e]) == FlushedFor(s.flights, g) + Waiting(s, g) + [e];
      assert AddedTo(s.added, h) + [] == AddedTo(s.added, h);
    }
  }

  lemma AddSound(c: Config, s: State, g: string, tx: seq<byte>)
    requires Sound(c, s)
    ensures Sound(c, Add(c, s, g, tx))
  {
    hide FlushedFor, AddedTo, Landed, Flush, Waiting;
    var before := if g in s.groups then s.groups[g] else Accumulator([], None);
    var e := Entry(|s.added|, g, tx);
    var acc := before.(entries := before.entries + [e]);
    assert g in s.groups ==> Armed(c, s, g);
    if |acc.entries| >= c.maxPerBundle {
      var u := s.(groups := s.groups[g := acc], added := s.added + [e], timers := Cleared(s.timers, acc.timer));
      AddConserves(s, u, e, g);
      FullSound(c, s, u, g);
    } else {
      AddConserves(s, Add(c, s, g, tx), e, g);
      AddArmed(c, s, Add(c, s, g, tx), g);
    }
  }

  /** The branch that flushes: the group has the maximum, its timer is cleared. */
  lemma FullSound(c: Config, s: State, u: State, g: string)
    requires Sound(c, s) && g in u.groups && u.flights == s.flights && u.settled == s.settled
    requires forall i :: 0 <= i < |u.added| ==> u.added[i].number == i
    requires forall h :: FlushedFor(u.flights, h) + Waiting(u, h) == AddedTo(u.added, h)
    requires forall h :: h != g ==> (h in u.groups <==> h in s.groups) && (h in s.groups ==> u.groups[h] == s.groups[h])
    requires u.groups[g].timer == if g in s.groups then s.groups[g].timer else None
    requires u.timers == Cleared(s.timers, u.groups[g].timer) && u.nextTimer == s.nextTimer
    requires SizedFlight(c, Flight(g, u.groups[g].entries, Pending))
    ensures Sound(c, Flush(u, g))
  {
    hide FlushedFor, AddedTo, Landed, Flush, Waiting, SizedFlight;
    assert g in s.groups ==> Armed(c, s, g);
    OthersArmed(c, s, u, g);
    FlushSound(c, u, g);
  }

  /** Clearing the timer of `g` and changing its accumulator leaves every other group as it was. */
  lemma OthersArmed(c: Config, s: State, u: State, g: string)
    requires Sound(c, s)
    requires forall h :: h != g ==> (h in u.groups <==> h in s.groups) && (h in s.groups ==> u.groups[h] == s.groups[h])
    requires forall t :: t in s.timers && s.timers[t] != g ==> t in u.timers && u.timers[t] == s.timers[t]
    requires forall t :: t in u.timers && u.timers[t] != g ==> t in s.timers && s.timers[t] == u.timers[t]
    requires s.nextTimer <= u.nextTimer
    ensures forall h :: h in u.groups && h != g ==> Armed(c, u, h)
    ensures forall t :: t in u.timers && u.timers[t] != g ==>
              t < u.nextTimer && u.timers[t] in u.groups && u.groups[u.timers[t]].timer == Some(t)
  {
    forall h | h in u.groups && h != g
      ensures Armed(c, u, h)
    {
      assert Armed(c, s, h);
    }
  }

  /** The branch that leaves the group in the map: it had a live timer, or gets one now. */
  lemma AddArmed(c: Config, s: State, u: State, g: string)
    requires Sound(c, s) && g in u.groups && u.flights == s.flights && u.settled == s.settled
    requires (forall i :: 0 <= i < |u.added| ==> u.added[i].number == i)
    requires forall h :: FlushedFor(u.flights, h) + Waiting(u, h) == AddedTo(u.added, h)
    requires forall h :: h != g ==> (h in u.groups <==> h in s.groups) && (h in s.groups ==> u.groups[h] == s.groups[h])
    requires Armed(c, u, g)
    requires if g in s.groups then
               u.timers == s.timers && u.nextTimer == s.nextTimer && u.groups[g].timer == s.groups[g].timer
             else
               && u.timers == s.timers[s.nextTimer := g] && u.nextTimer == s.nextTimer + 1
               && u.groups[g].timer == Some(s.nextTimer)
    ensures Sound(c, u)
  {
    hide FlushedFor, AddedTo, Landed, SizedFlight;
    forall h | h in u.groups && h != g
      ensures Armed(c, u, h)
    {
      assert Armed(c, s, h);
    }
  }

  lemma FireSound(c: Config, s: State, timer: nat)
    requires Sound(c, s)
    ensures Sound(c, Fire(s, timer))
  {
    hide FlushedFor, AddedTo, Landed, Flush;
    if timer in s.timers {
      var g := s.timers[timer];
      var u := s.(timers := s.timers - {timer});
      assert Armed(c, s, g);
      OthersArmed(c, s, u, g);
      assert forall h :: Waiting(u, h) == Waiting(s, h);
      FlushSound(c, u, g);
    }
  }

  lemma LandSound(c: Config, s: State, k: nat, phase: Phase)
    requires Sound(c, s) && !phase.Pending?
    ensures Sound(c, Land(s, k, phase))
  {
    hide FlushedFor, AddedTo, Landed, SettleAll;
    if k < |s.flights| && s.flights[k].phase.Pending? {
      var t := Land(s, k, phase);
      forall g
        ensures FlushedFor(t.flights, g) + Waiting(t, g) == AddedTo(t.added, g)
      {
        LandMore(s.flights, k, phase, g);
        assert Waiting(t, g) == Waiting(s, g);
      }
      LandedMore(s.flights, k, phase);
      forall f | f in t.flights
        ensures SizedFlight(c, f)
      {
        assert SizedFlight(c, s.flights[k]);
      }
      forall g | g in t.groups
        ensures Armed(c, t, g)
      {
        assert Armed(c, s, g);
      }
    }
  }

  /**
   * Over any interleaving of adds, timer firings and settling flushes: for each group the flushes and what waits are
   * exactly what was added, in order; flushes hold 1 to `maxPerBundle` entries (one, if the maximum is zero); a group
   * left in the map has a live timer and fewer than the maximum; and the promises settled are those of landed flushes.
   */
  lemma {:induction false} RunSound(c: Config, es: seq<Step>)
    ensures Sound(c, Run(c, es))
    decreases |es|
  {
    hide Next;
    if es != [] {
      var s, e := Run(c, es[..|es| - 1]), es[|es| - 1];
      RunSound(c, es[..|es| - 1]);
      StepSound(c, s, e);
    }
  }

  lemma StepSound(c: Config, s: State, e: Step)
    requires Sound(c, s)
    ensures Sound(c, Next(c, s, e))
  {
    hide Add, Fire, Land, Sound;
    match e {
      case Adding(g, tx) => AddSound(c, s, g, tx);
      case Firing(timer) => FireSound(c, s, timer);
      case Landing(k, phase) =>
        if !phase.Pending? {
          LandSound(c, s, k, phase);
        }
    }
  }

  // ---- Each entry once ----

  function CountOf(es: seq<Entry>, n: nat): nat {
    if es == [] then 0 else CountOf(es[..|es| - 1], n) + if es[|es| - 1].number == n then 1 else 0
  }

  function CountFlights(flights: seq<Flight>, n: nat, landedOnly: bool): nat {
    if flights == [] then 0
    else
      var f := flights[|flights| - 1];
      CountFlights(flights[..|flights| - 1], n, landedOnly)
        + if landedOnly && f.phase.Pending? then 0 else CountOf(f.entries, n)
  }

  function CountSettled(ss: seq<(nat, Settlement)>, n: nat): nat {
    if ss == [] then 0 else (if ss[0].0 == n then 1 else 0) + CountSettled(ss[1..], n)
  }

  lemma {:induction false} CountAppend(a: seq<Entry>, b: seq<Entry>, n: nat)
    ensures CountOf(a + b, n) == CountOf(a, n) + CountOf(b, n)
    decreases |b|
  {
    if b == [] {
      assert a + b == a;
    } else {
      assert (a + b)[..|a + b| - 1] == a + b[..|b| - 1];
      CountAppend(a, b[..|b| - 1], n);
    }
  }

  /** Among the entries added to its group, each number occurs once, and in no other group. */
  lemma {:induction false} CountAdded(added: seq<Entry>, g: string, n: nat)
    requires forall i :: 0 <= i < |added| ==> added[i].number == i
    ensures CountOf(AddedTo(added, g), n) == if n < |added| && added[n].group == g then 1 else 0
    decreases |added|
  {
    if added != [] {
      var front, e := added[..|added| - 1], added[|added| - 1];
      CountAdded(front, g, n);
      CountAppend(AddedTo(front, g), if e.group == g then [e] else [], n);
      if e.group == g {
        assert [e][..0] == [];
      }
    }
  }

  /** A number counted in the flights of its group is counted in all the flights. */
  lemma {:induction false} CountFlushed(flights: seq<Flight>, g: string, n: nat)
    requires forall f :: f in flights && f.group != g ==> CountOf(f.entries, n) == 0
    ensures CountFlights(flights, n, false) == CountOf(FlushedFor(flights, g), n)
    decreases |flights|
  {
    if flights != [] {
      var front, f := flights[..|flights| - 1], flights[|flights| - 1];
      CountFlushed(front, g, n);
      CountAppend(FlushedFor(front, g), if f.group == g then f.entries else [], n);
    }
  }

  lemma {:induction false} CountWithin(flights: seq<Flight>, k: nat, n: nat)
    requires k < |flights|
    ensures CountOf(flights[k].entries, n) <= CountOf(FlushedFor(flights, flights[k].group), n)
    decreases |flights|
  {
    var front, f, g := flights[..|flights| - 1], flights[|flights| - 1], flights[k].group;
    CountAppend(FlushedFor(front, g), if f.group == g then f.entries else [], n);
    if k < |front| {
      CountWithin(front, k, n);
    }
  }

  /** Every entry is in exactly one flush, once, or still waits in its group. */
  lemma InExactlyOneFlush(c: Config, es: seq<Step>, n: nat)
    requires n < |Run(c, es).added|
    ensures var s := Run(c, es);
            CountFlights(s.flights, n, false) + CountOf(Waiting(s, s.added[n].group), n) == 1
  {
    hide Run, FlushedFor, CountOf, AddedTo, CountFlights;
    RunSound(c, es);
    var s := Run(c, es);
    var g := s.added[n].group;
    forall f | f in s.flights && f.group != g
      ensures CountOf(f.entries, n) == 0
    {
      var k :| 0 <= k < |s.flights| && s.flights[k] == f;
      CountWithin(s.flights, k, n);
      CountAppend(FlushedFor(s.flights, f.group), Waiting(s, f.group), n);
      CountAdded(s.added, f.group, n);
      assert FlushedFor(s.flights, f.group) + Waiting(s, f.group) == AddedTo(s.added, f.group);
    }
    CountFlushed(s.flights, g, n);
    CountAppend(FlushedFor(s.flights, g), Waiting(s, g), n);
    CountAdded(s.added, g, n);
    assert FlushedFor(s.flights, g) + Waiting(s, g) == AddedTo(s.added, g);
  }

  lemma {:induction false} SettledAppend(a: seq<(nat, Settlement)>, b: seq<(nat, Settlement)>, n: nat)
    ensures CountSettled(a + b, n) == CountSettled(a, n) + CountSettled(b, n)
    decreases |a|
  {
    if a == [] {
      assert a + b == b;
    } else {
      assert (a + b)[1..] == a[1..] + b;
      SettledAppend(a[1..], b, n);
    }
  }

  lemma {:induction false} SettleCounts(entries: seq<Entry>, phase: Phase, i: nat, n: nat)
    requires !phase.Pending? && i <= |entries|
    ensures CountSettled(SettleAll(entries, phase, i), n) == CountOf(entries[i..], n)
    decreases |entries| - i
  {
    if i < |entries| {
      SettleCounts(entries, phase, i + 1, n);
      assert entries[i..] == [entries[i]] + entries[i + 1..];
      CountAppend([entries[i]], entries[i + 1..], n);
      assert [entries[i]][..0] == [];
      assert CountOf([entries[i]], n) == if entries[i].number == n then 1 else 0;
    }
  }

  lemma {:induction false} LandCounts(flights: seq<Flight>, k: nat, phase: Phase, n: nat)
    requires k < |flights| && flights[k].phase.Pending? && !phase.Pending?
    ensures CountFlights(flights[k := flights[k].(phase := phase)], n, true)
            == CountFlights(flights, n, true) + CountOf(flights[k].entries, n)
    decreases |flights|
  {
    var m := |flights| - 1;
    var after := flights[k := flights[k].(phase := phase)];
    if k < m {
      LandCounts(flights[..m], k, phase, n);
      assert after[..m] == flights[..m][k := flights[k].(phase := phase)];
    } else {
      assert after[..m] == flights[..m];
    }
  }

  lemma FlushCounts(s: State, g: string, n: nat)
    ensures CountFlights(Flush(s, g).flights, n, true) == CountFlights(s.flights, n, true)
            && Flush(s, g).settled == s.settled
  {
    if g in s.groups && s.groups[g].entries != [] {
      var more := s.flights + [Flight(g, s.groups[g].entries, Pending)];
      assert more[..|more| - 1] == s.flights;
    }
  }

  /** Promises settle once per landed occurrence. */
  lemma {:induction false} RunCounts(c: Config, es: seq<Step>, n: nat)
    ensures CountSettled(Run(c, es).settled, n) == CountFlights(Run(c, es).flights, n, true)
    decreases |es|
  {
    hide CountSettled, CountFlights, Flush, SettleAll;
    if es != [] {
      var s, e := Run(c, es[..|es| - 1]), es[|es| - 1];
      RunCounts(c, es[..|es| - 1], n);
      match e {
        case Adding(g, tx) =>
          var before := if g in s.groups then s.groups[g] else Accumulator([], None);
          var entry := Entry(|s.added|, g, tx);
          var acc := before.(entries := before.entries + [entry]);
          FlushCounts(s.(groups := s.groups[g := acc], added := s.added + [entry],
                         timers := Cleared(s.timers, acc.timer)), g, n);
        case Firing(timer) =>
          if timer in s.timers {
            FlushCounts(s.(timers := s.timers - {timer}), s.timers[timer], n);
          }
        case Landing(k, phase) =>
          if !phase.Pending? && k < |s.flights| && s.flights[k].phase.Pending? {
            var entries := s.flights[k].entries;
            LandCounts(s.flights, k, phase, n);
            SettleCounts(entries, phase, 0, n);
            assert entries[0..] == entries;
            SettledAppend(s.settled, SettleAll(entries, phase, 0), n);
          }
      }
    } else {
      NothingCounted(n);
    }
  }

  lemma NothingCounted(n: nat)
    ensures CountSettled([], n) == 0 && CountFlights([], n, true) == 0
  {
  }

  lemma {:induction false} LandedWithin(flights: seq<Flight>, n: nat)
    ensures CountFlights(flights, n, true) <= CountFlights(flights, n, false)
    ensures (forall f :: f in flights ==> !f.phase.Pending?)
            ==> CountFlights(flights, n, true) == CountFlights(flights, n, false)
    decreases |flights|
  {
    if flights != [] {
      LandedWithin(flights[..|flights| - 1], n);
    }
  }

  /** A promise settles at most once; once nothing waits and every flush has landed, exactly once. */
  lemma SettlesOnce(c: Config, es: seq<Step>, n: nat)
    requires n < |Run(c, es).added|
    ensures var s := Run(c, es);
            && CountSettled(s.settled, n) <= 1
            && (Waiting(s, s.added[n].group) == [] && (forall f :: f in s.flights ==> !f.phase.Pending?) ==>
                  CountSettled(s.settled, n) == 1)
  {
    hide Run, CountSettled, CountFlights;
    InExactlyOneFlush(c, es, n);
    RunCounts(c, es, n);
    LandedWithin(Run(c, es).flights, n);
  }

  // ---- Which outcome a promise gets ----

  /** Promise `i` of a landed flight: its own signature, an empty one past the last, or the flight's error. */
  function OutcomeAt(phase: Phase, i: nat): Settlement {
    match phase
    case Resolved(sigs) => if i < |sigs| then Signed(sigs[i]) else Signed("")
    case Rejected(error) => Failed(error)
    case Pending => Failed("")
  }

  /** Entry by entry, in order. */
  lemma {:induction false} SettleAllAt(entries: seq<Entry>, phase: Phase, i: nat, j: nat)
    requires !phase.Pending? && i <= j < |entries|
    ensures |SettleAll(entries, phase, i)| == |entries| - i
    ensures SettleAll(entries, phase, i)[j - i] == (entries[j].number, OutcomeAt(phase, j))
    decreases j - i
  {
    SettleAllLength(entries, phase, i);
    if i < j {
      SettleAllAt(entries, phase, i + 1, j);
    }
  }

  lemma {:induction false} SettleAllLength(entries: seq<Entry>, phase: Phase, i: nat)
    requires !phase.Pending? && i <= |entries|
    ensures |SettleAll(entries, phase, i)| == |entries| - i
    decreases |entries| - i
  {
    if i < |entries| {
      SettleAllLength(entries, phase, i + 1);
    }
  }

  lemma SettleAllHas(entries: seq<Entry>, phase: Phase, p: (nat, Settlement))
    requires !phase.Pending?
    ensures p in SettleAll(entries, phase, 0)
            <==> exists i :: 0 <= i < |entries| && p == (entries[i].number, OutcomeAt(phase, i))
  {
    hide SettleAll, OutcomeAt;
    SettleAllLength(entries, phase, 0);
    forall i: nat | i < |entries|
      ensures SettleAll(entries, phase, 0)[i] == (entries[i].number, OutcomeAt(phase, i))
    {
      SettleAllAt(entries, phase, 0, i);
    }
  }

  ghost predicate SettledAs(flights: seq<Flight>, p: (nat, Settlement)) {
    exists k, i :: 0 <= k < |flights| && !flights[k].phase.Pending? && 0 <= i < |flights[k].entries|
                   && p == (flights[k].entries[i].number, OutcomeAt(flights[k].phase, i))
  }

  lemma {:induction false} LandedAre(flights: seq<Flight>, p: (nat, Settlement))
    ensures p in Landed(flights) <==> SettledAs(flights, p)
    decreases |flights|
  {
    hide SettledAs, SettleAll, OutcomeAt;
    if flights == [] {
      NoneLanded(p);
    } else {
      var n := |flights| - 1;
      var f := flights[n];
      LandedAre(flights[..n], p);
      if !f.phase.Pending? {
        SettleAllHas(f.entries, f.phase, p);
        assert p in SettleAll(f.entries, f.phase, 0) <==> p in multiset(SettleAll(f.entries, f.phase, 0));
      }
      LastSettled(flights, p);
    }
  }

  lemma NoneLanded(p: (nat, Settlement))
    ensures !SettledAs([], p)
  {
  }

  lemma LastSettled(flights: seq<Flight>, p: (nat, Settlement))
    requires flights != []
    ensures var n := |flights| - 1;
            SettledAs(flights, p)
            <==> SettledAs(flights[..n], p)
                 || (!flights[n].phase.Pending?
                     && exists i :: 0 <= i < |flights[n].entries|
                                    && p == (flights[n].entries[i].number, OutcomeAt(flights[n].phase, i)))
  {
    hide OutcomeAt;
    var n := |flights| - 1;
    assert forall k :: 0 <= k < n ==> flights[..n][k] == flights[k];
  }

  lemma {:induction false} CountedTwice(ss: seq<(nat, Settlement)>, i: nat, j: nat)
    requires i < j < |ss| && ss[i].0 == ss[j].0
    ensures CountSettled(ss, ss[i].0) >= 2
    decreases i
  {
    if i > 0 {
      CountedTwice(ss[1..], i - 1, j - 1);
    } else {
      CountedOnce(ss[1..], j - 1);
    }
  }

  lemma {:induction false} CountedOnce(ss: seq<(nat, Settlement)>, j: nat)
    requires j < |ss|
    ensures CountSettled(ss, ss[j].0) >= 1
    decreases j
  {
    if j > 0 {
      CountedOnce(ss[1..], j - 1);
    }
  }

  lemma {:induction false} SettledNumbers(flights: seq<Flight>, added: nat, k: nat, i: nat)
    requires forall g :: forall e :: e in FlushedFor(flights, g) ==> e.number < added
    requires k < |flights| && i < |flights[k].entries|
    ensures flights[k].entries[i].number < added
    decreases |flights|
  {
    var n := |flights| - 1;
    var front, f := flights[..n], flights[n];
    assert forall g :: forall e :: e in FlushedFor(front, g) ==> e in FlushedFor(flights, g);
    if k < n {
      assert front[k] == flights[k];
      SettledNumbers(front, added, k, i);
    } else {
      assert f.entries[i] in FlushedFor(flights, f.group);
    }
  }

  lemma {:induction false} AddedNumbers(added: seq<Entry>, g: string)
    requires forall i :: 0 <= i < |added| ==> added[i].number == i
    ensures forall e :: e in AddedTo(added, g) ==> e.number < |added|
    decreases |added|
  {
    if added != [] {
      AddedNumbers(added[..|added| - 1], g);
    }
  }

  /**
   * Over any run: the promise of entry `i` of flight `k` settles exactly when the flight has landed, once, and with its
   * own signature, an empty one if the flight had fewer, or the flight's error.
   */
  lemma SettledByIndex(c: Config, es: seq<Step>, k: nat, i: nat, x: Settlement)
    requires k < |Run(c, es).flights| && i < |Run(c, es).flights[k].entries|
    ensures var s := Run(c, es);
            var f := s.flights[k];
            && CountSettled(s.settled, f.entries[i].number) == (if f.phase.Pending? then 0 else 1)
            && ((f.entries[i].number, x) in s.settled <==> !f.phase.Pending? && x == OutcomeAt(f.phase, i))
  {
    hide Run, CountSettled, CountFlights, CountOf, Landed, FlushedFor, AddedTo, OutcomeAt;
    var s := Run(c, es);
    var f := s.flights[k];
    var n := f.entries[i].number;
    RunSound(c, es);
    NumberIsAdded(c, s, k, i);
    SettlesOnce(c, es, n);
    var mine := (n, OutcomeAt(f.phase, i));
    LandedAre(s.flights, mine);
    InLanded(s, mine);
    if f.phase.Pending? {
      NotYetSettled(c, es, k, i);
      if p: nat :| p < |s.settled| && s.settled[p].0 == n {
        CountedOnce(s.settled, p);
      }
    } else {
      var p :| 0 <= p < |s.settled| && s.settled[p] == mine;
      CountedOnce(s.settled, p);
      if q: nat :| q < |s.settled| && s.settled[q] == (n, x) {
        if q < p {
          CountedTwice(s.settled, q, p);
        } else if p < q {
          CountedTwice(s.settled, p, q);
        }
      }
    }
  }

  lemma InLanded(s: State, p: (nat, Settlement))
    requires multiset(s.settled) == Landed(s.flights)
    ensures p in s.settled <==> p in Landed(s.flights)
  {
    hide Landed;
    assert p in s.settled <==> p in multiset(s.settled);
  }

  lemma NumberIsAdded(c: Config, s: State, k: nat, i: nat)
    requires Sound(c, s) && k < |s.flights| && i < |s.flights[k].entries|
    ensures s.flights[k].entries[i].number < |s.added|
  {
    hide Landed, FlushedFor, AddedTo;
    forall g
      ensures forall e :: e in FlushedFor(s.flights, g) ==> e.number < |s.added|
    {
      AddedNumbers(s.added, g);
      assert FlushedFor(s.flights, g) + Waiting(s, g) == AddedTo(s.added, g);
      assert forall e :: e in FlushedFor(s.flights, g) ==> e in AddedTo(s.added, g);
    }
    SettledNumbers(s.flights, |s.added|, k, i);
  }

  /** An entry of a pending flight is in no landed one. */
  lemma NotYetSettled(c: Config, es: seq<Step>, k: nat, i: nat)
    requires k < |Run(c, es).flights| && i < |Run(c, es).flights[k].entries| && Run(c, es).flights[k].phase.Pending?
    ensures CountSettled(Run(c, es).settled, Run(c, es).flights[k].entries[i].number) == 0
  {
    hide Run, CountSettled, CountFlights, CountOf, Landed;
    var s := Run(c, es);
    var n := s.flights[k].entries[i].number;
    RunSound(c, es);
    NumberIsAdded(c, s, k, i);
    InExactlyOneFlush(c, es, n);
    RunCounts(c, es, n);
    CountAt(s.flights[k].entries, i);
    PendingApart(s.flights, k, n);
  }

  lemma {:induction false} CountAt(entries: seq<Entry>, i: nat)
    requires i < |entries|
    ensures CountOf(entries, entries[i].number) >= 1
    decreases |entries|
  {
    if i < |entries| - 1 {
      CountAt(entries[..|entries| - 1], i);
    }
  }

  lemma {:induction false} PendingApart(flights: seq<Flight>, k: nat, n: nat)
    requires k < |flights| && flights[k].phase.Pending?
    ensures CountFlights(flights, n, true) + CountOf(flights[k].entries, n) <= CountFlights(flights, n, false)
    decreases |flights|
  {
    hide CountOf;
    var m := |flights| - 1;
    if k < m {
      PendingApart(flights[..m], k, n);
    } else {
      LandedWithin(flights[..m], n);
    }
  }

  // ---- Nothing waits forever ----

  lemma RunMore(c: Config, es: seq<Step>, e: Step)
    ensures Run(c, es + [e]) == Next(c, Run(c, es), e)
  {
    assert (es + [e])[..|es|] == es;
  }

  /**
   * Whatever happened before, a group that waits has a live timer; when it fires, everything waiting goes out in one
   * flight, in order, and when that resolves each promise has its own signature.
   */
  lemma WaitingGetsOut(c: Config, es: seq<Step>, g: string, sigs: seq<string>)
    requires Waiting(Run(c, es), g) != []
    ensures g in Run(c, es).groups && Run(c, es).groups[g].timer.Some?
    ensures var s := Run(c, es);
            var fired := Run(c, es + [Firing(s.groups[g].timer.value)]);
            Waiting(fired, g) == [] && fired.flights == s.flights + [Flight(g, Waiting(s, g), Pending)]
    ensures var s := Run(c, es);
            var done := Run(c, es + [Firing(s.groups[g].timer.value)] + [Landing(|s.flights|, Resolved(sigs))]);
            && done.flights == s.flights + [Flight(g, Waiting(s, g), Resolved(sigs))]
            && forall i :: 0 <= i < |Waiting(s, g)| ==>
                 (Waiting(s, g)[i].number, if i < |sigs| then Signed(sigs[i]) else Signed("")) in done.settled
  {
    hide Run, SettleAll;
    RunSound(c, es);
    var s := Run(c, es);
    assert Armed(c, s, g);
    var e := Firing(s.groups[g].timer.value);
    RunMore(c, es, e);
    RunMore(c, es + [e], Landing(|s.flights|, Resolved(sigs)));
    var entries := Waiting(s, g);
    forall i | 0 <= i < |entries|
      ensures (entries[i].number, if i < |sigs| then Signed(sigs[i]) else Signed(""))
              in SettleAll(entries, Resolved(sigs), 0)
    {
      SettleAllHas(entries, Resolved(sigs), (entries[i].number, OutcomeAt(Resolved(sigs), i)));
    }
  }
}
