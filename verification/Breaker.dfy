/** The HTTP client's circuit breaker (packages/solana-core/src/http-client.ts). */
module Breaker {
  import opened Wrappers
  import opened Bytes

  datatype Circuit = Shut | Open | HalfOpen

  datatype Policy = Policy(failureThreshold: nat, recoveryMs: nat)

  /**
   * An admitted request: when, in which half-open spell if it opened one, and how often the circuit had opened before.
   */
  datatype Admission = Admission(at: int, spell: Option<nat>, openings: nat)

  /**
   * The last five fields are history: requests in flight by number, admissions, openings, spells, outcomes since shut.
   */
  datatype State = State(circuit: Circuit, consecutiveFailures: nat, openedAt: int, probing: bool, events: seq<Circuit>,
                         inflight: set<nat>, log: seq<Admission>, openings: seq<int>, spells: nat, since: seq<bool>)

  function Initial(): State {
    State(Shut, 0, 0, false, [], {}, [], [], 0, [])
  }

  function To(s: State, next: Circuit): State {
    if s.circuit == next then s else s.(circuit := next, events := s.events + [next])
  }

  // ---- The three entry points ----

  /** Whether a request is let through at time `now`. */
  predicate Allows(p: Policy, s: State, now: int) {
    match s.circuit
    case Shut => true
    case HalfOpen => !s.probing
    case Open => now - s.openedAt >= p.recoveryMs
  }

  function PreCheck(p: Policy, s: State, now: int): State {
    if !Allows(p, s, now) then s
    else
      var spell := match s.circuit
                   case Shut => None
                   case Open => Some(s.spells)
                   case HalfOpen => if s.spells > 0 then Some(s.spells - 1) else None;
      var t := if s.circuit == Open then To(s, HalfOpen).(spells := s.spells + 1) else s;
      t.(probing := if s.circuit == Shut then s.probing else true,
         inflight := s.inflight + {|s.log|},
         log := s.log + [Admission(now, spell, |s.openings|)])
  }

  function RecordSuccess(s: State): State {
    var t := if s.circuit == HalfOpen then To(s, Shut) else s;
    t.(consecutiveFailures := 0, probing := false,
       since := if s.circuit == HalfOpen then [] else s.since + [true])
  }

  function RecordFailure(p: Policy, s: State, now: int): State {
    if s.circuit == HalfOpen then
      To(s.(openedAt := now), Open).(consecutiveFailures := 0, probing := false, openings := s.openings + [now])
    else
      var n := s.consecutiveFailures + 1;
      var t := s.(consecutiveFailures := n, since := s.since + [false]);
      var u := if s.circuit == Shut && n >= p.failureThreshold
               then To(t.(openedAt := now), Open).(openings := s.openings + [now]) else t;
      u.(probing := false)
  }

  // ---- The client object ----

  class HttpClient {
    const breaker: Policy
    var state: Circuit
    var consecutiveFailures: nat
    var openedAt: int
    var inflightHalfOpenProbe: bool
    var events: seq<Circuit>
    ghost var inflight: set<nat>
    ghost var log: seq<Admission>
    ghost var openings: seq<int>
    ghost var spells: nat
    ghost var since: seq<bool>

    ghost function View(): State
      reads this
    {
      State(state, consecutiveFailures, openedAt, inflightHalfOpenProbe, events, inflight, log, openings, spells, since)
    }

    constructor (breaker: Policy)
      ensures View() == Initial() && this.breaker == breaker
    {
      this.breaker := breaker;
      state, consecutiveFailures, openedAt, inflightHalfOpenProbe, events := Shut, 0, 0, false, [];
      inflight, log, openings, spells, since := {}, [], [], 0, [];
    }

    method TransitionTo(next: Circuit)
      modifies this`state, this`events
      ensures View() == To(old(View()), next)
    {
      if state == next {
        return;
      }
      state := next;
      events := events + [next];
    }

    method BreakerPreCheck(now: int) returns (allow: bool)
      modifies this
      ensures allow == Allows(breaker, old(View()), now)
      ensures View() == PreCheck(breaker, old(View()), now)
    {
      ghost var before := View();
      if state == Shut {
        allow := true;
      } else if state == HalfOpen {
        if inflightHalfOpenProbe {
          return false;
        }
        inflightHalfOpenProbe := true;
        allow := true;
      } else if now - openedAt >= breaker.recoveryMs {
        TransitionTo(HalfOpen);
        inflightHalfOpenProbe := true;
        allow := true;
      } else {
        return false;
      }
      inflight := inflight + {|log|};
      ghost var after := PreCheck(breaker, before, now);
      log := after.log;
      spells := after.spells;
    }

    method Succeeded()
      modifies this
      ensures View() == RecordSuccess(old(View()))
    {
      since := if state == HalfOpen then [] else since + [true];
      if state == HalfOpen {
        TransitionTo(Shut);
      }
      consecutiveFailures := 0;
      inflightHalfOpenProbe := false;
    }

    method Failed(now: int)
      modifies this
      ensures View() == RecordFailure(breaker, old(View()), now)
    {
      if state == HalfOpen {
        openedAt := now;
        openings := openings + [now];
        TransitionTo(Open);
        consecutiveFailures := 0;
        inflightHalfOpenProbe := false;
        return;
      }
      consecutiveFailures := consecutiveFailures + 1;
      since := since + [false];
      if state == Shut && consecutiveFailures >= breaker.failureThreshold {
        openedAt := now;
        openings := openings + [now];
        TransitionTo(Open);
      }
      inflightHalfOpenProbe := false;
    }
  }

  // ---- Runs: requests start and complete in any order ----

  datatype Step = Start(now: int) | Done(id: nat, ok: bool, now: int)

  /** A completion of a request that is not in flight does not happen. */
  function Next(p: Policy, s: State, e: Step): State {
    match e
    case Start(now) => PreCheck(p, s, now)
    case Done(id, ok, now) =>
      if id !in s.inflight then s
      else
        var t := s.(inflight := s.inflight - {id});
        if ok then RecordSuccess(t) else RecordFailure(p, t, now)
  }

  function Run(p: Policy, es: seq<Step>): State {
    if es == [] then Initial() else Next(p, Run(p, es[..|es| - 1]), es[|es| - 1])
  }

  ghost predicate Monotone(es: seq<Step>) {
    forall i, j :: 0 <= i < j < |es| ==> es[i].now <= es[j].now
  }

  /** The spells of the admissions that opened or joined one. */
  function ProbeSpells(log: seq<Admission>): seq<nat> {
    if log == [] then []
    else ProbeSpells(log[..|log| - 1]) + if log[|log| - 1].spell.Some? then [log[|log| - 1].spell.value] else []
  }

  function TrailingFailures(outcomes: seq<bool>): nat {
    if outcomes == [] || outcomes[|outcomes| - 1] then 0 else 1 + TrailingFailures(outcomes[..|outcomes| - 1])
  }

  function Naturals(n: nat): seq<nat> {
    seq(n, i requires 0 <= i < n => i)
  }

  /** No admission at a time earlier than the latest opening before it plus the recovery window. */
  ghost predicate Rested(p: Policy, openings: seq<int>, log: seq<Admission>) {
    forall a :: a in log
      ==> a.openings <= |openings| && (a.openings > 0 ==> a.at - openings[a.openings - 1] >= p.recoveryMs)
  }

  ghost predicate Safe(p: Policy, s: State, clock: Option<int>) {
    && (s.probing <==> s.circuit == HalfOpen)
    && (s.circuit == Shut ==> s.consecutiveFailures == TrailingFailures(s.since))
    && (s.circuit == Shut && p.failureThreshold >= 1 ==> s.consecutiveFailures < p.failureThreshold)
    && ProbeSpells(s.log) == Naturals(s.spells)
    && (s.circuit == Open ==> s.openings != [])
    && (s.openings != [] ==> s.openedAt == s.openings[|s.openings| - 1] && clock.Some? && s.openedAt <= clock.value)
    && (s.openings != [] && s.circuit != Open ==> clock.value - s.openedAt >= p.recoveryMs)
    && Rested(p, s.openings, s.log)
    && forall id :: id in s.inflight ==> id < |s.log|
  }

  lemma ProbeMore(log: seq<Admission>, a: Admission)
    ensures ProbeSpells(log + [a]) == ProbeSpells(log) + if a.spell.Some? then [a.spell.value] else []
  {
    assert (log + [a])[..|log|] == log;
  }

  lemma FailuresMore(outcomes: seq<bool>, ok: bool)
    ensures TrailingFailures(outcomes + [ok]) == if ok then 0 else TrailingFailures(outcomes) + 1
  {
    assert (outcomes + [ok])[..|outcomes|] == outcomes;
  }

  lemma StepSafe(p: Policy, s: State, e: Step, clock: Option<int>)
    requires Safe(p, s, clock) && (clock.Some? ==> clock.value <= e.now)
    ensures Safe(p, Next(p, s, e), Some(e.now))
  {
    hide ProbeSpells, TrailingFailures;
    match e {
      case Start(now) =>
        if Allows(p, s, now) {
          var t := PreCheck(p, s, now);
          ProbeMore(s.log, t.log[|s.log|]);
          assert s.circuit == Open ==> Naturals(s.spells + 1) == Naturals(s.spells) + [s.spells];
        }
      case Done(id, ok, now) =>
        FailuresMore(s.since, ok);
        assert TrailingFailures([]) == 0 by {
          NoFailures();
        }
    }
  }

  lemma NoFailures()
    ensures TrailingFailures([]) == 0
  {
  }

  /**
   * Over any interleaving of request starts and completions: the probe flag is set exactly while half-open; each
   * half-open spell admitted exactly one request; nothing was admitted within `recoveryMs` of an opening; and the
   * circuit is shut only while fewer outcomes than the threshold, in a row, have been failures.
   */
  lemma {:induction false} RunSafe(p: Policy, es: seq<Step>)
    requires Monotone(es)
    ensures Safe(p, Run(p, es), if es == [] then None else Some(es[|es| - 1].now))
    decreases |es|
  {
    hide Next;
    if es != [] {
      var front := es[..|es| - 1];
      RunSafe(p, front);
      StepSafe(p, Run(p, front), es[|es| - 1], if front == [] then None else Some(front[|front| - 1].now));
    } else {
      assert Naturals(0) == [];
    }
  }

  /** The circuit opens exactly on the failure that completes a streak of the threshold, or ends a half-open spell. */
  lemma OpensExactly(p: Policy, es: seq<Step>, id: nat, ok: bool, now: int)
    requires Monotone(es) && p.failureThreshold >= 1 && id in Run(p, es).inflight
    ensures var s := Run(p, es);
            var t := Next(p, s, Done(id, ok, now));
            && (s.circuit == HalfOpen ==> t.circuit == (if ok then Shut else Open))
            && (s.circuit == Open ==> t.circuit == Open)
            && (s.circuit == Shut
                ==> (t.circuit == Open <==> !ok && TrailingFailures(s.since) + 1 == p.failureThreshold))
  {
    hide TrailingFailures, ProbeSpells;
    RunSafe(p, es);
  }

  // ---- Probes in flight ----

  predicate IsProbe(s: State, id: nat) {
    id < |s.log| && s.log[id].spell.Some?
  }

  /** Admitted requests that opened a half-open spell and have not completed. */
  function Probes(s: State): set<nat> {
    set id | id in s.inflight && IsProbe(s, id)
  }

  /** The probe of the spell in progress: the last request admitted. */
  predicate Current(s: State, id: nat) {
    s.circuit == HalfOpen && id + 1 == |s.log|
  }

  /** A probe in flight whose own spell is over. */
  predicate Outlives(s: State, id: nat) {
    id in Probes(s) && !Current(s, id)
  }

  /**
   * While a spell lasts its probe is in flight, and it is the newest admission; admissions in flight are in the log.
   */
  ghost predicate Tracked(s: State) {
    && (forall id :: id in s.inflight ==> id < |s.log|)
    && (s.probing <==> s.circuit == HalfOpen)
    && (s.circuit == HalfOpen
        ==> s.log != [] && |s.log| - 1 in s.inflight && s.log[|s.log| - 1].spell == Some(s.spells - 1) && s.spells >= 1)
  }

  lemma StepTracked(p: Policy, s: State, e: Step)
    requires Tracked(s)
    ensures Tracked(Next(p, s, e))
  {
  }

  lemma {:induction false} RunTracked(p: Policy, es: seq<Step>)
    ensures Tracked(Run(p, es))
    decreases |es|
  {
    hide Next;
    if es != [] {
      RunTracked(p, es[..|es| - 1]);
      StepTracked(p, Run(p, es[..|es| - 1]), es[|es| - 1]);
    }
  }

  /** Which probes a step leaves in flight: a start adds one exactly when it opens a spell. */
  lemma StepProbes(p: Policy, s: State, e: Step)
    requires Tracked(s)
    ensures Probes(Next(p, s, e)) ==
            match e
            case Start(now) => if s.circuit == Open && Allows(p, s, now) then Probes(s) + {|s.log|} else Probes(s)
            case Done(id, _, _) => Probes(s) - {id}
  {
    var t := Next(p, s, e);
    assert forall id: nat :: id < |s.log| ==> t.log[id] == s.log[id];
    match e {
      case Start(now) =>
        assert forall id ::
            id in Probes(t) <==> id in Probes(s) || (id == |s.log| && s.circuit == Open && Allows(p, s, now));
      case Done(id, _, _) =>
        assert forall k :: k in Probes(t) <==> k in Probes(s) && k != id;
    }
  }

  /**
   * A probe outlives its spell exactly when some other request in flight, a straggler, completes while half-open: after
   * any step, the probes that have outlived theirs are those that had, less one that completed, and the spell's own
   * probe if a straggler ended the spell.
   */
  lemma OutlivesExactly(p: Policy, es: seq<Step>, e: Step, k: nat)
    ensures var s := Run(p, es);
            Outlives(Next(p, s, e), k)
            <==> (Outlives(s, k) && !(e.Done? && e.id == k))
                 || (Current(s, k) && e.Done? && e.id in s.inflight && e.id != k)
  {
    RunTracked(p, es);
    var s := Run(p, es);
    var t := Next(p, s, e);
    StepProbes(p, s, e);
    StepTracked(p, s, e);
    match e {
      case Start(now) =>
        if s.circuit == HalfOpen {
          assert t == s;
        }
      case Done(id, ok, now) =>
        if id in s.inflight {
          assert t.circuit != HalfOpen && t.log == s.log;
        } else {
          assert t == s;
        }
    }
  }

  /** Whether some step of the run was a straggler completing while another request's spell lasted. */
  ghost predicate StragglerEnds(p: Policy, es: seq<Step>, k: nat) {
    exists i :: 0 <= i < |es|
                && Current(Run(p, es[..i]), k)
                && es[i].Done? && es[i].id in Run(p, es[..i]).inflight && es[i].id != k
  }

  /** Over a whole run: a probe has outlived its spell exactly when it is in flight and a straggler ended the spell. */
  lemma {:induction false} OutlivesIff(p: Policy, es: seq<Step>, k: nat)
    ensures Outlives(Run(p, es), k) <==> k in Run(p, es).inflight && StragglerEnds(p, es, k)
    decreases |es|
  {
    hide Next, Outlives, Current;
    if es == [] {
      NothingOutlives(k);
    } else {
      var front, e := es[..|es| - 1], es[|es| - 1];
      OutlivesIff(p, front, k);
      OutlivesExactly(p, front, e, k);
      InFlightAfter(p, front, e, k);
      StragglerMore(p, es, k);
    }
  }

  lemma NothingOutlives(k: nat)
    ensures !Outlives(Initial(), k) && k !in Initial().inflight
  {
  }

  lemma StragglerMore(p: Policy, es: seq<Step>, k: nat)
    requires es != []
    ensures var front, e := es[..|es| - 1], es[|es| - 1];
            StragglerEnds(p, es, k)
            <==> StragglerEnds(p, front, k)
                 || (Current(Run(p, front), k) && e.Done? && e.id in Run(p, front).inflight && e.id != k)
  {
    hide Run, Current;
    var front := es[..|es| - 1];
    assert forall i :: 0 <= i < |front| ==> front[i] == es[i] && front[..i] == es[..i];
  }

  /** A request in flight stays so until it completes; a new one was never a probe before. */
  lemma InFlightAfter(p: Policy, es: seq<Step>, e: Step, k: nat)
    ensures var s := Run(p, es);
            && (k in s.inflight && !(e.Done? && e.id == k) ==> k in Next(p, s, e).inflight)
            && (k in Next(p, s, e).inflight && k !in s.inflight
                ==> e.Start? && k == |s.log| && !StragglerEnds(p, es, k))
            && (Outlives(Next(p, s, e), k) ==> k in Next(p, s, e).inflight)
            && (e.Done? && e.id == k ==> k !in Next(p, s, e).inflight)
            && (Current(s, k) ==> k in s.inflight)
  {
    hide StragglerEnds, Run;
    RunTracked(p, es);
    NotYetCurrent(p, es);
  }

  lemma LogGrows(p: Policy, s: State, e: Step)
    ensures |s.log| <= |Next(p, s, e).log|
  {
  }

  /** No run has the request still to come as its current probe. */
  lemma {:induction false} NotYetCurrent(p: Policy, es: seq<Step>)
    ensures !StragglerEnds(p, es, |Run(p, es).log|)
    ensures forall i :: 0 <= i <= |es| ==> |Run(p, es[..i]).log| <= |Run(p, es).log|
    decreases |es|
  {
    hide Next;
    assert es[..|es|] == es;
    if es != [] {
      var front := es[..|es| - 1];
      NotYetCurrent(p, front);
      LogGrows(p, Run(p, front), es[|es| - 1]);
      assert forall i :: 0 <= i <= |front| ==> front[..i] == es[..i];
    }
  }

  /**
   * A start puts a second probe in flight exactly when it opens a spell while the probe of an earlier spell is still in
   * flight.
   */
  lemma SecondProbe(p: Policy, es: seq<Step>, now: int)
    ensures var s := Run(p, es);
            var t := Next(p, s, Start(now));
            && |Probes(s)| <= |Probes(t)| <= |Probes(s)| + 1
            && (|Probes(t)| > |Probes(s)| && |Probes(t)| >= 2
                <==> s.circuit == Open && Allows(p, s, now) && exists k :: Outlives(s, k))
  {
    RunTracked(p, es);
    var s := Run(p, es);
    StepProbes(p, s, Start(now));
    assert |s.log| !in Probes(s);
    if s.circuit == Open {
      assert forall k :: Outlives(s, k) <==> k in Probes(s);
      if Probes(s) != {} {
        var k :| k in Probes(s);
        assert Outlives(s, k);
      }
    }
  }

  /** Some start of the run opened a spell while an earlier spell's probe was in flight. */
  ghost predicate OpensBesides(p: Policy, es: seq<Step>) {
    exists i :: 0 <= i < |es| && OpensBesidesAt(p, es, i)
  }

  ghost predicate OpensBesidesAt(p: Policy, es: seq<Step>, i: nat)
    requires i < |es|
  {
    var s := Run(p, es[..i]);
    es[i].Start? && s.circuit == Open && Allows(p, s, es[i].now) && exists k :: Outlives(s, k)
  }

  ghost predicate EverTwo(p: Policy, es: seq<Step>) {
    exists i :: 0 <= i <= |es| && ProbeCount(p, es[..i]) >= 2
  }

  function ProbeCount(p: Policy, es: seq<Step>): nat {
    |Probes(Run(p, es))|
  }

  lemma EverTwoLast(p: Policy, es: seq<Step>)
    requires es != []
    ensures EverTwo(p, es) <==> EverTwo(p, es[..|es| - 1]) || ProbeCount(p, es) >= 2
  {
    hide ProbeCount;
    var front := es[..|es| - 1];
    assert es[..|es|] == es;
    assert forall i :: 0 <= i <= |front| ==> front[..i] == es[..i];
  }

  lemma OpensLast(p: Policy, es: seq<Step>)
    requires es != []
    ensures OpensBesides(p, es) <==> OpensBesides(p, es[..|es| - 1]) || OpensBesidesAt(p, es, |es| - 1)
  {
    hide Run, Outlives, Allows;
    var front := es[..|es| - 1];
    assert forall i :: 0 <= i < |front| ==> front[i] == es[i] && front[..i] == es[..i];
    assert forall i :: 0 <= i < |front| ==> (OpensBesidesAt(p, es, i) <==> OpensBesidesAt(p, front, i));
  }

  /** A run ever has two probes in flight exactly when such a start happened. */
  lemma {:induction false} EverTwoProbes(p: Policy, es: seq<Step>)
    ensures EverTwo(p, es) <==> OpensBesides(p, es)
    decreases |es|
  {
    hide Next, Probes, Allows, Outlives, EverTwo, OpensBesides;
    if es == [] {
      NoProbes(p);
    } else {
      var front, e := es[..|es| - 1], es[|es| - 1];
      EverTwoProbes(p, front);
      EverTwoLast(p, es);
      OpensLast(p, es);
      NowTwo(p, front);
      match e {
        case Start(now) => SecondProbe(p, front, now);
        case Done(id, ok, now) =>
          RunTracked(p, front);
          StepProbes(p, Run(p, front), e);
          FewerProbes(Probes(Run(p, front)), id);
      }
    }
  }

  lemma NowTwo(p: Policy, es: seq<Step>)
    ensures ProbeCount(p, es) >= 2 ==> EverTwo(p, es)
  {
    assert es[..|es|] == es;
  }

  lemma NoProbes(p: Policy)
    ensures !EverTwo(p, []) && !OpensBesides(p, [])
  {
    assert forall i :: 0 <= i <= 0 ==> Run(p, [][..i]) == Initial();
    assert Probes(Initial()) == {};
  }

  lemma FewerProbes(ks: set<nat>, id: nat)
    ensures |ks - {id}| <= |ks|
  {
    if id in ks {
      assert ks == (ks - {id}) + {id};
    } else {
      assert ks - {id} == ks;
    }
  }

  /** With no straggler completing during a spell there is never more than one probe in flight. */
  lemma {:induction false} OneProbe(p: Policy, es: seq<Step>)
    requires forall k :: !StragglerEnds(p, es, k)
    ensures |Probes(Run(p, es))| <= 1
  {
    hide StragglerEnds;
    RunTracked(p, es);
    var s := Run(p, es);
    forall k | k in Probes(s)
      ensures k == |s.log| - 1
    {
      OutlivesIff(p, es, k);
    }
    AtMostOne(Probes(s), |s.log| - 1);
  }

  lemma AtMostOne(ks: set<nat>, x: int)
    requires forall k :: k in ks ==> k == x
    ensures |ks| <= 1
  {
    if ks != {} {
      var k :| k in ks;
      assert ks == {k};
    }
  }

  /**
   * A straggler, admitted while shut, ends a half-open spell early, and then two probes are in flight at once: the
   * flag is not one probe in flight ever.
   */
  lemma TwoProbesInFlight()
    ensures var p := Policy(1, 100);
            var es := [Start(0), Start(0), Done(0, false, 0), Start(100), Done(1, false, 100), Start(200)];
            Monotone(es) && Probes(Run(p, es)) == {2, 3}
  {
    var p := Policy(1, 100);
    var es := [Start(0), Start(0), Done(0, false, 0), Start(100), Done(1, false, 100), Start(200)];
    var s1 := Next(p, Initial(), es[0]);
    var s2 := Next(p, s1, es[1]);
    var s3 := Next(p, s2, es[2]);
    var s4 := Next(p, s3, es[3]);
    var s5 := Next(p, s4, es[4]);
    var s6 := Next(p, s5, es[5]);
    assert s2.inflight == {0, 1};
    assert s4.inflight == {1, 2};
    assert s6.inflight == {2, 3} && s6.log[2].spell == Some(0) && s6.log[3].spell == Some(1);
    RunSteps(p, es, s1, s2, s3, s4, s5);
  }

  lemma RunSteps(p: Policy, es: seq<Step>, s1: State, s2: State, s3: State, s4: State, s5: State)
    requires |es| == 6
    requires s1 == Next(p, Initial(), es[0]) && s2 == Next(p, s1, es[1]) && s3 == Next(p, s2, es[2])
    requires s4 == Next(p, s3, es[3]) && s5 == Next(p, s4, es[4])
    ensures Run(p, es) == Next(p, s5, es[5])
  {
    hide Next;
    assert es[..5][..4] == es[..4] && es[..4][..3] == es[..3] && es[..3][..2] == es[..2] && es[..2][..1] == es[..1];
    assert es[..1][..0] == [];
    assert Run(p, es[..1]) == s1;
    assert Run(p, es[..2]) == s2;
    assert Run(p, es[..3]) == s3;
    assert Run(p, es[..4]) == s4;
    assert Run(p, es[..5]) == s5;
  }

  // ---- The retry loop of one request ----

  /** What one attempt came back with. */
  datatype Attempt = Status(code: nat) | TimedOut | NetworkError

  predicate Retryable(code: nat) {
    500 <= code <= 599 || code == 429
  }

  /** The attempt after which the loop stops retrying. */
  predicate Final(a: Attempt) {
    a.Status? && !Retryable(a.code)
  }

  predicate Succeeds(a: Attempt) {
    a.Status? && 200 <= a.code <= 299
  }

  /** The response that settles the request, if an attempt within the budget does. */
  function Settling(answers: seq<Attempt>): (k: Option<nat>)
    ensures k.Some? ==> k.value < |answers|
  {
    if answers == [] then None
    else if Final(answers[0]) then Some(0)
    else
      var rest := Settling(answers[1..]);
      if rest.Some? then Some(rest.value + 1) else None
  }

  lemma RejectKeeps(p: Policy, s: State, now: int)
    requires !Allows(p, s, now)
    ensures PreCheck(p, s, now) == s
  {
  }

  /**
   * `answers` is what each attempt of the budget would come back with. A request records exactly one outcome, whatever
   * it took to get there.
   */
  method Request(client: HttpClient, answers: seq<Attempt>, now: int, later: int) returns (ok: bool, retries: nat)
    modifies client
    ensures var s := old(client.View());
            var t := PreCheck(client.breaker, s, now);
            var stop := Settling(answers);
            if !Allows(client.breaker, s, now) then !ok && client.View() == s
            else
              && ok == (stop.Some? && Succeeds(answers[stop.value]))
              && retries == (if stop.Some? then stop.value else if answers == [] then 0 else |answers| - 1)
              && client.View() == if ok then RecordSuccess(t) else RecordFailure(client.breaker, t, later)
  {
    hide PreCheck, RecordSuccess, RecordFailure;
    ok, retries := false, 0;
    var allow := client.BreakerPreCheck(now);
    if !allow {
      RejectKeeps(client.breaker, old(client.View()), now);
      return;
    }
    var attempt := 0;
    while attempt < |answers|
      invariant 0 <= attempt <= |answers| && !ok
      invariant forall k :: 0 <= k < attempt ==> !Final(answers[k])
      invariant attempt < |answers| ==> retries == attempt
      invariant answers == [] ==> retries == 0
      invariant attempt == |answers| > 0 ==> retries == attempt - 1
      invariant client.View() == PreCheck(client.breaker, old(client.View()), now)
    {
      var a := answers[attempt];
      if Final(a) {
        FirstFinal(answers, attempt);
        if Succeeds(a) {
          client.Succeeded();
          return true, retries;
        }
        client.Failed(later);
        return false, retries;
      }
      if attempt + 1 < |answers| {
        retries := attempt + 1;
      }
      attempt := attempt + 1;
    }
    NoneFinal(answers);
    client.Failed(later);
  }

  lemma {:induction false} FirstFinal(answers: seq<Attempt>, k: nat)
    requires k < |answers| && Final(answers[k]) && forall j :: 0 <= j < k ==> !Final(answers[j])
    ensures Settling(answers) == Some(k)
    decreases k
  {
    if k > 0 {
      FirstFinal(answers[1..], k - 1);
    }
  }

  lemma {:induction false} NoneFinal(answers: seq<Attempt>)
    requires forall j :: 0 <= j < |answers| ==> !Final(answers[j])
    ensures Settling(answers) == None
    decreases |answers|
  {
    if answers != [] {
      NoneFinal(answers[1..]);
    }
  }

  /** A request stops at its first answer that is neither 429, nor 5xx, nor an error; only a 2xx there is a success. */
  lemma SettlingIs(answers: seq<Attempt>, k: nat)
    ensures Settling(answers) == Some(k)
            <==> && k < |answers| && Stops(answers[k])
                 && forall j :: 0 <= j < k ==> !Stops(answers[j])
    ensures Settling(answers) == None <==> forall j :: 0 <= j < |answers| ==> !Stops(answers[j])
    ensures k < |answers| ==> (Succeeds(answers[k]) <==> answers[k].Status? && answers[k].code / 100 == 2)
    ensures forall j :: 0 <= j < |answers| && Succeeds(answers[j]) ==> Stops(answers[j])
  {
    hide Settling;
    assert forall j :: 0 <= j < |answers| ==> (Stops(answers[j]) <==> Final(answers[j]));
    if i: nat :| i < |answers| && Final(answers[i]) {
      var f := FirstOf(answers, i);
      FirstFinal(answers, f);
    } else {
      NoneFinal(answers);
    }
  }

  predicate Stops(a: Attempt) {
    a.Status? && (a.code < 429 || 429 < a.code < 500 || a.code >= 600)
  }

  lemma {:induction false} FirstOf(answers: seq<Attempt>, i: nat) returns (k: nat)
    requires i < |answers| && Final(answers[i])
    ensures k <= i && Final(answers[k]) && forall j :: 0 <= j < k ==> !Final(answers[j])
    decreases i
  {
    if j: nat :| j < i && Final(answers[j]) {
      k := FirstOf(answers, j);
    } else {
      k := i;
    }
  }

  // ---- What listeners see ----

  ghost predicate Alternates(s: State) {
    && (forall i :: 0 < i < |s.events| ==> s.events[i] != s.events[i - 1])
    && (s.events == [] ==> s.circuit == Shut)
    && (s.events != [] ==> s.events[0] != Shut && s.events[|s.events| - 1] == s.circuit)
  }

  lemma ToAlternates(s: State, next: Circuit)
    requires Alternates(s)
    ensures Alternates(To(s, next)) && To(s, next).circuit == next
  {
  }

  lemma StepAlternates(p: Policy, s: State, e: Step)
    requires Alternates(s)
    ensures Alternates(Next(p, s, e))
  {
  }

  /** Over any run the state events alternate: none repeats the one before, and the last is the state. */
  lemma {:induction false} EventsAlternate(p: Policy, es: seq<Step>)
    ensures Alternates(Run(p, es))
    decreases |es|
  {
    hide Next, Alternates;
    if es == [] {
      NoEvents();
    } else {
      EventsAlternate(p, es[..|es| - 1]);
      StepAlternates(p, Run(p, es[..|es| - 1]), es[|es| - 1]);
    }
  }

  lemma NoEvents()
    ensures Alternates(Initial())
  {
  }
}
