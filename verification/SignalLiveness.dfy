/** Who is subscribed to the signal queue, and that it drains (packages/solana-signals/src/signal-queue.ts). */
module SignalLiveness {
  import opened Wrappers
  import opened Bytes
  import opened SignalQueue

  // ---- Who is subscribed ----

  /** The last word on `name` was a subscription. */
  ghost predicate Subscribed(es: seq<Step>, name: string) {
    exists i :: 0 <= i < |es| && es[i] == Subscribing(name)
                && forall j :: i < j < |es| ==> es[j] != Unsubscribing(name)
  }

  lemma SubscribedMore(es: seq<Step>, e: Step, name: string)
    ensures Subscribed(es + [e], name)
            <==> e == Subscribing(name) || (Subscribed(es, name) && e != Unsubscribing(name))
  {
    var all := es + [e];
    assert all[|es|] == e;
    if Subscribed(es, name) && e != Unsubscribing(name) {
      var i :| 0 <= i < |es| && es[i] == Subscribing(name) && forall j :: i < j < |es| ==> es[j] != Unsubscribing(name);
      assert all[i] == Subscribing(name);
    }
    if Subscribed(all, name) && e != Subscribing(name) {
      var i :| 0 <= i < |all| && all[i] == Subscribing(name)
               && forall j :: i < j < |all| ==> all[j] != Unsubscribing(name);
      assert es[i] == Subscribing(name);
      assert forall j :: 0 <= j < |es| ==> es[j] == all[j];
    }
  }

  lemma {:induction false} WithoutNames(subs: seq<Sub>, name: string, other: string)
    ensures Named(Without(subs, name), other) <==> Named(subs, other) && other != name
    decreases |subs|
  {
    if subs != [] {
      WithoutNames(subs[1..], name, other);
      NamedCons(subs, other);
      var rest := Without(subs[1..], name);
      if subs[0].name != name {
        assert Without(subs, name) == [subs[0]] + rest;
        NamedCons(Without(subs, name), other);
        assert Without(subs, name)[1..] == rest;
      } else {
        assert Without(subs, name) == rest;
      }
    }
  }

  lemma NamedCons(subs: seq<Sub>, name: string)
    requires subs != []
    ensures Named(subs, name) <==> subs[0].name == name || Named(subs[1..], name)
  {
    assert forall i :: 0 < i < |subs| ==> subs[i] == subs[1..][i - 1];
    assert forall i :: 0 <= i < |subs[1..]| ==> subs[1..][i] == subs[i + 1];
  }

  lemma NamedAppend(subs: seq<Sub>, s: Sub, name: string)
    ensures Named(subs + [s], name) <==> Named(subs, name) || s.name == name
  {
    var all := subs + [s];
    assert all[|subs|] == s;
    assert forall i :: 0 <= i < |subs| ==> all[i] == subs[i];
  }

  /** Only subscribing and unsubscribing change the subscribers. */
  lemma SubsAfter(c: Config, s: State, e: Step)
    ensures Next(c, s, e).subs
            == match e
               case Subscribing(name) => if Named(s.subs, name) then s.subs else s.subs + [Sub(name, s.serials)]
               case Unsubscribing(name) => Without(s.subs, name)
               case _ => s.subs
  {
  }

  /** After any run exactly the names whose last word was a subscription are subscribed, each once. */
  lemma {:induction false} SubscribedIff(c: Config, es: seq<Step>, name: string)
    ensures Named(Run(c, es).subs, name) <==> Subscribed(es, name)
    ensures forall i, j :: 0 <= i < j < |Run(c, es).subs| ==> Run(c, es).subs[i].name != Run(c, es).subs[j].name
    decreases |es|
  {
    hide Next, Named, Without, Subscribed;
    RunDelivers(c, es);
    if es == [] {
      NobodyYet(name);
    } else {
      var last, e := es[..|es| - 1], es[|es| - 1];
      assert es == last + [e];
      SubscribedIff(c, last, name);
      SubscribedMore(last, e, name);
      var s := Run(c, last);
      SubsAfter(c, s, e);
      match e {
        case Subscribing(n) => NamedAppend(s.subs, Sub(n, s.serials), name);
        case Unsubscribing(n) => WithoutNames(s.subs, n, name);
        case _ =>
      }
    }
  }

  lemma NobodyYet(name: string)
    ensures !Named([], name) && !Subscribed([], name)
  {
  }

  // ---- The queue drains ----

  function Settles(n: nat): seq<Step> {
    if n == 0 then [] else Settles(n - 1) + [Settling]
  }

  /** Subscribers still to come in the round. */
  function Ahead(subs: seq<Sub>, serial: int): nat {
    if subs == [] then 0 else (if subs[0].serial > serial then 1 else 0) + Ahead(subs[1..], serial)
  }

  lemma {:induction false} AheadFalls(subs: seq<Sub>, serial: int, x: Sub)
    requires x in subs && x.serial > serial
    ensures Ahead(subs, x.serial) < Ahead(subs, serial)
    decreases |subs|
  {
    if x in subs[1..] {
      AheadFalls(subs[1..], serial, x);
    } else {
      AheadMonotone(subs[1..], serial, x.serial);
    }
  }

  lemma {:induction false} AheadMonotone(subs: seq<Sub>, a: int, b: int)
    requires a <= b
    ensures Ahead(subs, b) <= Ahead(subs, a)
    decreases |subs|
  {
    if subs != [] {
      AheadMonotone(subs[1..], a, b);
    }
  }

  lemma {:induction false} SettlesFirst(n: nat)
    ensures Settles(n + 1) == [Settling] + Settles(n)
  {
    if n > 0 {
      SettlesFirst(n - 1);
      assert [Settling] + (Settles(n - 1) + [Settling]) == ([Settling] + Settles(n - 1)) + [Settling];
    }
  }

  lemma RunMore(c: Config, es: seq<Step>, e: Step)
    ensures Run(c, es + [e]) == Next(c, Run(c, es), e)
  {
    assert (es + [e])[..|es|] == es;
  }

  /** One settled handler brings the next subscriber, the next signal, or rest. */
  lemma SettledBrings(s: State)
    requires s.at.Some?
    ensures var t := HandlerDone(s);
            && t.subs == s.subs && |t.buffer| <= |s.buffer|
            && (t.at.None? ==> t.buffer == s.buffer && (s.buffer == [] || s.subs == []))
            && (t.at.Some? && |t.buffer| == |s.buffer| ==>
                  Ahead(t.subs, t.at.value.sub.serial) < Ahead(s.subs, s.at.value.sub.serial))
  {
    var next := NextSub(s.subs, s.at.value.sub.serial);
    if next.Some? {
      AheadFalls(s.subs, s.at.value.sub.serial, next.value);
    }
  }

  /**
   * From any state a run reaches, finitely many settled handlers bring the queue to rest, with nothing buffered unless
   * nobody is subscribed.
   */
  lemma {:induction false} Drains(c: Config, es: seq<Step>) returns (n: nat)
    ensures var t := Run(c, es + Settles(n));
            t.at.None? && (t.buffer == [] || t.subs == []) && t.subs == Run(c, es).subs
    decreases |Run(c, es).buffer|,
              if Run(c, es).at.Some? then 1 + Ahead(Run(c, es).subs, Run(c, es).at.value.sub.serial) else 0
  {
    hide Run, HandlerDone, Ahead;
    RunDelivers(c, es);
    var s := Run(c, es);
    if s.at.None? {
      n := 0;
      assert es + Settles(0) == es;
    } else {
      SettledBrings(s);
      RunMore(c, es, Settling);
      var m := Drains(c, es + [Settling]);
      n := m + 1;
      SettlesFirst(m);
      assert es + [Settling] + Settles(m) == es + ([Settling] + Settles(m));
    }
  }
}
