/** Backfilling the gaps of a stream (gapBackfill of packages/solana-connectivity/src/historical-backfill.ts). */
module GapRecovery {
  import opened Wrappers
  import opened Bytes
  import opened Backfill
  import opened Geyser
  import opened GeyserRuns

  /** What a decoder makes of a transaction. */
  datatype Decoding<E> = Threw(reason: string) | Results(events: seq<E>)

  datatype Found<E> = Recovered(event: E) | Unknown(signature: string, slot: nat, reason: string)

  function Wrap<E>(events: seq<E>): seq<Found<E>> {
    if events == [] then [] else [Recovered(events[0])] + Wrap(events[1..])
  }

  /** Errored signatures and transactions the node does not have yield nothing. */
  function EventsOf<T, E>(sig: Sig, txs: map<string, T>, decoder: T -> Decoding<E>): seq<Found<E>> {
    if sig.err || sig.signature !in txs then []
    else
      match decoder(txs[sig.signature])
      case Threw(reason) => [Unknown(sig.signature, sig.slot, reason)]
      case Results(events) => Wrap(events)
  }

  function EventsAlong<T, E>(sigs: seq<Sig>, txs: map<string, T>, decoder: T -> Decoding<E>): seq<Found<E>> {
    if sigs == [] then [] else EventsOf(sigs[0], txs, decoder) + EventsAlong(sigs[1..], txs, decoder)
  }

  /** The signatures of a range, oldest first. */
  function RangeSigs(listing: seq<Sig>, from: int, to: int): seq<Sig> {
    if to < from then [] else Reverse(Walked(listing, from, to))
  }

  method FetchEventsForProgram<T, E>(listing: seq<Sig>, txs: map<string, T>, decoder: T -> Decoding<E>,
                                     from: int, to: int)
    returns (events: seq<Found<E>>)
    requires Distinct(listing)
    ensures events == EventsAlong(RangeSigs(listing, from, to), txs, decoder)
  {
    events := [];
    if to < from {
      return;
    }
    var inRange := WalkRange(listing, from, to);
    var sigs := Reverse(inRange);
    var k := 0;
    assert sigs[0..] == sigs;
    while k < |sigs|
      invariant 0 <= k <= |sigs|
      invariant EventsAlong(sigs, txs, decoder) == events + EventsAlong(sigs[k..], txs, decoder)
    {
      hide Walked, Reverse, Wrap, EventsAlong;
      var sig := sigs[k];
      ghost var had := events;
      if !sig.err && sig.signature in txs {
        match decoder(txs[sig.signature]) {
          case Threw(reason) => events := events + [Unknown(sig.signature, sig.slot, reason)];
          case Results(produced) => events := events + Wrap(produced);
        }
      }
      assert events == had + EventsOf(sig, txs, decoder);
      AlongStep(had, sigs, k, txs, decoder);
      k := k + 1;
    }
  }

  lemma AlongStep<T, E>(had: seq<Found<E>>, sigs: seq<Sig>, k: nat, txs: map<string, T>, decoder: T -> Decoding<E>)
    requires k < |sigs|
    ensures had + EventsAlong(sigs[k..], txs, decoder)
            == had + EventsOf(sigs[k], txs, decoder) + EventsAlong(sigs[k + 1..], txs, decoder)
  {
    hide EventsOf;
    var rest := EventsAlong(sigs[k + 1..], txs, decoder);
    assert sigs[k..][1..] == sigs[k + 1..];
    assert had + (EventsOf(sigs[k], txs, decoder) + rest) == had + EventsOf(sigs[k], txs, decoder) + rest;
  }

  /** What gapBackfill delivers, program by program. */
  function Delivered<T, E>(programs: seq<seq<Sig>>, txs: map<string, T>, decoder: T -> Decoding<E>, from: int, to: int)
    : seq<Found<E>>
  {
    if programs == [] then []
    else
      EventsAlong(RangeSigs(programs[0], from, to - 1), txs, decoder)
      + Delivered(programs[1..], txs, decoder, from, to)
  }

  method GapBackfill<T, E>(programs: seq<seq<Sig>>, txs: map<string, T>, decoder: T -> Decoding<E>, from: int, to: int)
    returns (delivered: seq<Found<E>>)
    requires forall k :: 0 <= k < |programs| ==> Distinct(programs[k])
    ensures delivered == Delivered(programs, txs, decoder, from, to)
  {
    hide Distinct, EventsAlong, RangeSigs;
    delivered := [];
    var k := 0;
    assert programs[0..] == programs;
    while k < |programs|
      invariant 0 <= k <= |programs|
      invariant Delivered(programs, txs, decoder, from, to)
                == delivered + Delivered(programs[k..], txs, decoder, from, to)
    {
      var events := FetchEventsForProgram(programs[k], txs, decoder, from, to - 1);
      assert programs[k..][1..] == programs[k + 1..];
      ghost var rest := Delivered(programs[k + 1..], txs, decoder, from, to);
      assert delivered + (events + rest) == delivered + events + rest;
      delivered := delivered + events;
      k := k + 1;
    }
  }

  // ---- All the gaps of a stream ----

  predicate GapSlot(marks: seq<Mark>, slot: nat) {
    exists i :: 0 <= i < |marks| && marks[i].Gap? && In(marks[i], slot)
  }

  /** The signatures whose slot fell in some gap. */
  function Missed(listing: seq<Sig>, marks: seq<Mark>): seq<Sig> {
    if listing == [] then []
    else (if GapSlot(marks, listing[0].slot) then [listing[0]] else []) + Missed(listing[1..], marks)
  }

  /** One program's signatures fetched by the gap handler over a stream's gaps, in the order the gaps were reported. */
  function Refetched(listing: seq<Sig>, marks: seq<Mark>): seq<Sig> {
    if marks == [] then []
    else
      var m := marks[|marks| - 1];
      Refetched(listing, marks[..|marks| - 1]) + if m.Gap? then RangeSigs(listing, m.from, m.to - 1) else []
  }

  lemma GapSlotLast(marks: seq<Mark>, slot: nat)
    requires marks != []
    ensures var m := marks[|marks| - 1];
            GapSlot(marks, slot) <==> GapSlot(marks[..|marks| - 1], slot) || (m.Gap? && In(m, slot))
  {
    var front := marks[..|marks| - 1];
    if GapSlot(front, slot) {
      var i :| 0 <= i < |front| && front[i].Gap? && In(front[i], slot);
      assert marks[i] == front[i];
    }
    if GapSlot(marks, slot) && !(marks[|marks| - 1].Gap? && In(marks[|marks| - 1], slot)) {
      var i :| 0 <= i < |marks| && marks[i].Gap? && In(marks[i], slot);
      assert marks[i] == front[i];
    }
  }

  /** The slots of a tiling's front lie below what follows it. */
  lemma GapSlotBelow(start: int, marks: seq<Mark>, tip: int, slot: nat)
    requires Tiles(start, marks, tip) && GapSlot(marks, slot)
    ensures slot <= tip
  {
    TiledOnce(start, marks, tip);
    assert Marked(marks, slot);
  }

  /** Newest first, what the last gap missed comes before what the earlier ones did. */
  lemma {:induction false} MissedSplits(listing: seq<Sig>, start: int, marks: seq<Mark>, tip: int)
    requires NewestFirst(listing) && Tiles(start, marks, tip) && marks != [] && marks[|marks| - 1].Gap?
    ensures var m := marks[|marks| - 1];
            Missed(listing, marks) == InRange(listing, m.from, m.to - 1) + Missed(listing, marks[..|marks| - 1])
    decreases |listing|
  {
    hide Tiles, GapSlot, NewestFirst, Missed, InRange;
    var m, front := marks[|marks| - 1], marks[..|marks| - 1];
    Unfold(listing, marks, m.from, m.to - 1);
    Unfold(listing, front, m.from, m.to - 1);
    if listing != [] {
      var x, rest := listing[0], listing[1..];
      OlderTail(listing);
      MissedSplits(rest, start, marks, tip);
      GapSlotLast(marks, x.slot);
      if x.slot < m.from {
        NoneInRange(listing, m.from, m.to - 1);
        NoneInRange(rest, m.from, m.to - 1);
      } else {
        NotBelow(start, marks, tip, x.slot);
        assert Missed(listing, front) == Missed(rest, front);
      }
    }
  }

  lemma Unfold(listing: seq<Sig>, marks: seq<Mark>, from: int, to: int)
    ensures listing == [] ==> Missed(listing, marks) == [] && InRange(listing, from, to) == []
    ensures listing != [] ==>
              && Missed(listing, marks)
                 == (if GapSlot(marks, listing[0].slot) then [listing[0]] else []) + Missed(listing[1..], marks)
              && InRange(listing, from, to)
                 == (if from <= listing[0].slot <= to then [listing[0]] else []) + InRange(listing[1..], from, to)
  {
    hide GapSlot;
  }

  lemma OlderTail(listing: seq<Sig>)
    requires NewestFirst(listing) && listing != []
    ensures NewestFirst(listing[1..])
    ensures forall i :: 0 <= i < |listing| ==> listing[i].slot <= listing[0].slot
    ensures forall i :: 0 <= i < |listing[1..]| ==> listing[1..][i].slot <= listing[0].slot
  {
    assert forall i :: 0 <= i < |listing[1..]| ==> listing[1..][i] == listing[i + 1];
  }

  lemma NotBelow(start: int, marks: seq<Mark>, tip: int, slot: nat)
    requires Tiles(start, marks, tip) && marks != [] && marks[|marks| - 1].Gap? && slot >= marks[|marks| - 1].from
    ensures !GapSlot(marks[..|marks| - 1], slot)
  {
    var m := marks[|marks| - 1];
    if GapSlot(marks[..|marks| - 1], slot) {
      GapSlotBelow(start, marks[..|marks| - 1], m.from - 1, slot);
    }
  }

  lemma {:induction false} MissedSame(listing: seq<Sig>, marks: seq<Mark>)
    requires marks != [] && marks[|marks| - 1].Advanced?
    ensures Missed(listing, marks) == Missed(listing, marks[..|marks| - 1])
    decreases |listing|
  {
    if listing != [] {
      MissedSame(listing[1..], marks);
      GapSlotLast(marks, listing[0].slot);
    }
  }

  lemma {:induction false} NothingMissed(listing: seq<Sig>)
    ensures Missed(listing, []) == []
    decreases |listing|
  {
    if listing != [] {
      NothingMissed(listing[1..]);
    }
  }

  lemma RefetchedLast(listing: seq<Sig>, marks: seq<Mark>)
    requires NewestFirst(listing)
    ensures marks == [] ==> Refetched(listing, marks) == []
    ensures marks != [] ==>
              var m, front := marks[|marks| - 1], marks[..|marks| - 1];
              Refetched(listing, marks) == Refetched(listing, front)
                                           + if m.Gap? && m.from < m.to
                                             then Reverse(InRange(listing, m.from, m.to - 1)) else []
  {
    hide InRange, Walked, NewestFirst;
    if marks != [] && marks[|marks| - 1].Gap? {
      WalkedIsInRange(listing, marks[|marks| - 1].from, marks[|marks| - 1].to - 1);
    }
  }

  /** Against a fixed newest-first listing, the gaps together refetch what they missed: each once, oldest first. */
  lemma {:induction false} RefetchedIsMissed(listing: seq<Sig>, start: int, marks: seq<Mark>, tip: int)
    requires NewestFirst(listing) && Tiles(start, marks, tip)
    ensures Refetched(listing, marks) == Reverse(Missed(listing, marks))
    decreases |marks|
  {
    hide NewestFirst, Missed, InRange, Refetched, Reverse;
    RefetchedLast(listing, marks);
    if marks == [] {
      NothingMissed(listing);
      assert Reverse<Sig>([]) == [];
    } else {
      var m, front := marks[|marks| - 1], marks[..|marks| - 1];
      if m.Gap? {
        RefetchedIsMissed(listing, start, front, m.from - 1);
        MissedSplits(listing, start, marks, tip);
        ReverseConcat(InRange(listing, m.from, m.to - 1), Missed(listing, front));
      } else {
        RefetchedIsMissed(listing, start, front, m.slot - 1);
        MissedSame(listing, marks);
        assert Refetched(listing, front) + [] == Refetched(listing, front);
      }
    }
  }

  lemma ReverseConcat(a: seq<Sig>, b: seq<Sig>)
    ensures Reverse(a + b) == Reverse(b) + Reverse(a)
  {
  }

  /** The missed signatures are those of the listing whose slot is in a gap, in listing order. */
  lemma {:induction false} MissedMembers(listing: seq<Sig>, marks: seq<Mark>)
    requires Distinct(listing) && NewestFirst(listing)
    ensures forall s :: s in Missed(listing, marks) <==> s in listing && GapSlot(marks, s.slot)
    ensures Distinct(Missed(listing, marks)) && NewestFirst(Missed(listing, marks))
    decreases |listing|
  {
    hide GapSlot, Distinct, NewestFirst;
    if listing == [] {
      NoneMissed();
    } else {
      var head, rest := listing[0], listing[1..];
      HeadApart(listing);
      MissedMembers(rest, marks);
      HeadBefore(head, Missed(rest, marks));
      assert listing == [head] + rest && [] + Missed(rest, marks) == Missed(rest, marks);
      forall s
        ensures s in Missed(listing, marks) <==> s in listing && GapSlot(marks, s.slot)
      {
        assert s in listing <==> s == head || s in rest;
        assert s in Missed(listing, marks) <==> (GapSlot(marks, head.slot) && s == head) || s in Missed(rest, marks);
      }
    }
  }

  lemma NoneMissed()
    ensures Distinct([]) && NewestFirst([])
  {
  }

  /** The first of a newest-first listing against the rest. */
  lemma HeadApart(listing: seq<Sig>)
    requires listing != [] && Distinct(listing) && NewestFirst(listing)
    ensures Distinct(listing[1..]) && NewestFirst(listing[1..])
    ensures forall s :: s in listing[1..] ==> s.signature != listing[0].signature && s.slot <= listing[0].slot
  {
  }

  lemma HeadBefore(head: Sig, rest: seq<Sig>)
    requires Distinct(rest) && NewestFirst(rest)
    requires forall s :: s in rest ==> s.signature != head.signature && s.slot <= head.slot
    ensures Distinct([head] + rest) && NewestFirst([head] + rest)
  {
  }

  /**
   * Any run, any subscription of it, any listing: a signature after the first known slot and up to the last was either
   * in a slot the stream showed live, or is refetched exactly once, oldest first, by that subscription's gaps.
   */
  lemma StreamRecovered(c: Config, store: Option<Checkpoint>, ms: seq<Move>, s: Span, listing: seq<Sig>)
    requires Accepted(c) && s in Spans(Run(c, store, ms)) && Distinct(listing) && NewestFirst(listing)
    ensures var again := Refetched(listing, s.marks);
            && again == Reverse(Missed(listing, s.marks))
            && (forall i, j :: 0 <= i < j < |again| ==>
                  again[i].signature != again[j].signature && again[i].slot <= again[j].slot)
            && (forall sig :: sig in listing && s.start < sig.slot <= s.tip ==>
                  (sig in again <==> Advanced(sig.slot) !in s.marks))
            && (forall sig :: sig in again ==> sig in listing && s.start < sig.slot <= s.tip)
  {
    hide Run, Missed, Refetched, Tiles;
    SpanTiles(c, store, ms, s);
    RefetchedIsMissed(listing, s.start, s.marks, s.tip);
    MissedMembers(listing, s.marks);
    var missed, again := Missed(listing, s.marks), Refetched(listing, s.marks);
    SameMembers(missed);
    forall sig | sig in listing && s.start < sig.slot <= s.tip
      ensures GapSlot(s.marks, sig.slot) <==> Advanced(sig.slot) !in s.marks
    {
      LiveOrGap(s.start, s.marks, s.tip, sig.slot);
    }
    forall sig | sig in again
      ensures s.start < sig.slot <= s.tip
    {
      TiledOnce(s.start, s.marks, s.tip);
      assert Marked(s.marks, sig.slot);
    }
  }

  lemma SpanTiles(c: Config, store: Option<Checkpoint>, ms: seq<Move>, s: Span)
    requires Accepted(c) && s in Spans(Run(c, store, ms))
    ensures Tiles(s.start, s.marks, s.tip)
  {
    hide Run, Queued, Tiles;
    RunKeeps(c, store, ms);
  }

  lemma SameMembers(a: seq<Sig>)
    ensures forall s :: s in a <==> s in Reverse(a)
  {
    forall s | s in a
      ensures s in Reverse(a)
    {
      var i :| 0 <= i < |a| && a[i] == s;
      assert Reverse(a)[|a| - 1 - i] == s;
    }
  }

  /** Exactly one of the two. */
  lemma LiveOrGap(start: int, marks: seq<Mark>, tip: int, x: nat)
    requires Tiles(start, marks, tip) && start < x <= tip
    ensures GapSlot(marks, x) <==> Advanced(x) !in marks
  {
    hide Tiles;
    TiledOnce(start, marks, tip);
    assert Marked(marks, x);
    var i :| 0 <= i < |marks| && In(marks[i], x);
    if Advanced(x) in marks {
      var j :| 0 <= j < |marks| && marks[j] == Advanced(x);
      assert In(marks[j], x);
    }
  }
}
