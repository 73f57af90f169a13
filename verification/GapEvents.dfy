/** Which events a gap's backfill delivers, one by one (packages/solana-connectivity/src/historical-backfill.ts). */
module GapEvents {
  import opened Wrappers
  import opened Bytes
  import opened Backfill
  import opened GapRecovery

  /** What one signature delivers: its transaction's events, or one unknown event for a decoder that threw. */
  ghost predicate Delivers<T, E>(sig: Sig, txs: map<string, T>, decoder: T -> Decoding<E>, es: seq<Found<E>>) {
    if sig.err || sig.signature !in txs then es == []
    else
      match decoder(txs[sig.signature])
      case Threw(reason) => es == [Unknown(sig.signature, sig.slot, reason)]
      case Results(events) => |es| == |events| && forall j :: 0 <= j < |es| ==> es[j] == Recovered(events[j])
  }

  /** Positions of the listing, oldest first: exactly those whose slot lies in the gap. */
  ghost predicate OldestFirst(listing: seq<Sig>, from: int, to: int, at: seq<nat>) {
    && (forall j, k :: 0 <= j < k < |at| ==> at[j] > at[k])
    && forall i: nat :: i in at <==> i < |listing| && from <= listing[i].slot < to
  }

  /** One program's share of a gap. */
  ghost predicate Share<T, E>(listing: seq<Sig>, txs: map<string, T>, decoder: T -> Decoding<E>, from: int, to: int,
                              at: seq<nat>, blocks: seq<seq<Found<E>>>) {
    && OldestFirst(listing, from, to, at) && |blocks| == |at|
    && forall k :: 0 <= k < |at| ==> at[k] < |listing| && Delivers(listing[at[k]], txs, decoder, blocks[k])
  }

  lemma {:induction false} WrapAt<E>(events: seq<E>)
    ensures |Wrap(events)| == |events| && forall j :: 0 <= j < |events| ==> Wrap(events)[j] == Recovered(events[j])
    decreases |events|
  {
    if events != [] {
      WrapAt(events[1..]);
      assert forall j :: 0 < j < |events| ==> Wrap(events)[j] == Wrap(events[1..])[j - 1];
    }
  }

  lemma EventsDeliver<T, E>(sig: Sig, txs: map<string, T>, decoder: T -> Decoding<E>)
    ensures Delivers(sig, txs, decoder, EventsOf(sig, txs, decoder))
  {
    if !sig.err && sig.signature in txs && decoder(txs[sig.signature]).Results? {
      WrapAt(decoder(txs[sig.signature]).events);
    }
  }

  lemma {:induction false} AlongBlocks<T, E>(sigs: seq<Sig>, txs: map<string, T>, decoder: T -> Decoding<E>)
    returns (blocks: seq<seq<Found<E>>>)
    ensures |blocks| == |sigs| && Flatten(blocks) == EventsAlong(sigs, txs, decoder)
    ensures forall k :: 0 <= k < |sigs| ==> Delivers(sigs[k], txs, decoder, blocks[k])
    decreases |sigs|
  {
    hide EventsOf, Delivers;
    if sigs == [] {
      blocks := [];
    } else {
      var rest := AlongBlocks(sigs[1..], txs, decoder);
      EventsDeliver(sigs[0], txs, decoder);
      blocks := [EventsOf(sigs[0], txs, decoder)] + rest;
      assert blocks[1..] == rest;
      forall k | 0 <= k < |sigs|
        ensures Delivers(sigs[k], txs, decoder, blocks[k])
      {
        if k > 0 {
          assert Delivers(sigs[1..][k - 1], txs, decoder, rest[k - 1]);
        }
      }
    }
  }

  ghost predicate MembersIn(listing: seq<Sig>, from: int, to: int, at: seq<nat>) {
    forall i: nat :: i in at <==> i < |listing| && from <= listing[i].slot <= to
  }

  /** The positions are those of the range, and members of it in the same order. */
  ghost predicate Aligned(listing: seq<Sig>, sigs: seq<Sig>, at: seq<nat>) {
    && |at| == |sigs|
    && (forall k :: 0 <= k < |at| ==> at[k] < |listing| && listing[at[k]] == sigs[k])
    && forall j, k :: 0 <= j < k < |at| ==> at[j] < at[k]
  }

  /** Where the signatures of a range stand in a listing, ascending. */
  ghost predicate Positions(listing: seq<Sig>, from: int, to: int, at: seq<nat>) {
    Aligned(listing, InRange(listing, from, to), at) && MembersIn(listing, from, to, at)
  }

  lemma {:induction false} RangePositions(listing: seq<Sig>, from: int, to: int) returns (at: seq<nat>)
    ensures Positions(listing, from, to, at)
    decreases |listing|
  {
    hide InRange, Positions;
    if listing == [] {
      at := [];
      NoPositions(from, to);
    } else {
      var front := listing[..|listing| - 1];
      var before := RangePositions(front, from, to);
      at := PositionsMore(front, listing[|front|], from, to, before);
      assert front + [listing[|front|]] == listing;
    }
  }

  lemma NoPositions(from: int, to: int)
    ensures Positions([], from, to, [])
  {
  }

  lemma RangeStep(listing: seq<Sig>, from: int, to: int)
    ensures listing == [] ==> InRange(listing, from, to) == []
    ensures listing != [] ==>
              InRange(listing, from, to)
              == (if from <= listing[0].slot <= to then [listing[0]] else []) + InRange(listing[1..], from, to)
  {
  }

  lemma {:induction false} RangeMore(listing: seq<Sig>, x: Sig, from: int, to: int)
    ensures InRange(listing + [x], from, to) == InRange(listing, from, to) + if from <= x.slot <= to then [x] else []
    decreases |listing|
  {
    hide InRange;
    var last := if from <= x.slot <= to then [x] else [];
    RangeStep(listing, from, to);
    RangeStep(listing + [x], from, to);
    if listing == [] {
      RangeStep([], from, to);
      assert listing + [x] == [x] && [x][1..] == [] && last + [] == last && [] + last == last;
    } else {
      RangeMore(listing[1..], x, from, to);
      assert (listing + [x])[1..] == listing[1..] + [x];
      var first := if from <= listing[0].slot <= to then [listing[0]] else [];
      assert first + (InRange(listing[1..], from, to) + last) == first + InRange(listing[1..], from, to) + last;
    }
  }

  lemma MembersMore(listing: seq<Sig>, x: Sig, from: int, to: int, at: seq<nat>)
    requires MembersIn(listing, from, to, at)
    ensures MembersIn(listing + [x], from, to, if from <= x.slot <= to then at + [|listing|] else at)
  {
    var all, more := listing + [x], if from <= x.slot <= to then at + [|listing|] else at;
    forall i: nat
      ensures i in more <==> i < |all| && from <= all[i].slot <= to
    {
      assert i in at <==> i < |listing| && from <= listing[i].slot <= to;
      assert i in more <==> i in at || (i == |listing| && from <= x.slot <= to);
    }
  }

  lemma AlignedMore(listing: seq<Sig>, sigs: seq<Sig>, at: seq<nat>, x: Sig)
    requires Aligned(listing, sigs, at)
    ensures Aligned(listing + [x], sigs, at) && Aligned(listing + [x], sigs + [x], at + [|listing|])
  {
  }

  lemma PositionsMore(listing: seq<Sig>, x: Sig, from: int, to: int, before: seq<nat>) returns (at: seq<nat>)
    requires Positions(listing, from, to, before)
    ensures Positions(listing + [x], from, to, at)
  {
    hide InRange, Aligned, MembersIn;
    RangeMore(listing, x, from, to);
    at := if from <= x.slot <= to then before + [|listing|] else before;
    MembersMore(listing, x, from, to, before);
    AlignedMore(listing, InRange(listing, from, to), before, x);
    assert InRange(listing, from, to) + [] == InRange(listing, from, to);
  }

  /** Read backwards. */
  lemma Turned(up: seq<nat>) returns (at: seq<nat>)
    ensures |at| == |up| && (forall k :: 0 <= k < |at| ==> at[k] == up[|up| - 1 - k])
    ensures forall i: nat :: i in at <==> i in up
  {
    at := seq(|up|, k requires 0 <= k < |up| => up[|up| - 1 - k]);
    forall i: nat
      ensures i in at <==> i in up
    {
      if i in up {
        var k :| 0 <= k < |up| && up[k] == i;
        assert at[|up| - 1 - k] == i;
      }
    }
  }

  /** The signatures fetched, as positions of the listing. */
  lemma FetchedAt(listing: seq<Sig>, from: int, to: int) returns (at: seq<nat>)
    requires NewestFirst(listing)
    ensures OldestFirst(listing, from, to, at) && |at| == |RangeSigs(listing, from, to - 1)|
    ensures forall k :: 0 <= k < |at| ==> at[k] < |listing| && listing[at[k]] == RangeSigs(listing, from, to - 1)[k]
  {
    hide Walked, InRange, NewestFirst;
    var up: seq<nat> := [];
    if from <= to - 1 {
      up := RangePositions(listing, from, to - 1);
      WalkedIsInRange(listing, from, to - 1);
    }
    at := Turned(up);
  }

  lemma ProgramShare<T, E>(listing: seq<Sig>, txs: map<string, T>, decoder: T -> Decoding<E>, from: int, to: int)
    returns (at: seq<nat>, blocks: seq<seq<Found<E>>>)
    requires NewestFirst(listing)
    ensures Flatten(blocks) == EventsAlong(RangeSigs(listing, from, to - 1), txs, decoder)
    ensures Share(listing, txs, decoder, from, to, at, blocks)
  {
    hide RangeSigs, OldestFirst, Delivers, EventsAlong, NewestFirst, Flatten;
    blocks := AlongBlocks(RangeSigs(listing, from, to - 1), txs, decoder);
    at := FetchedAt(listing, from, to);
  }

  /**
   * Everything a gap delivers: program by program in the order given, for each the signatures of the gap's slots in its
   * listing, oldest first, and for each of these what its transaction decodes to.
   */
  lemma {:induction false} DeliveredAre<T, E>(programs: seq<seq<Sig>>, txs: map<string, T>, decoder: T -> Decoding<E>,
                                              from: int, to: int)
    returns (ats: seq<seq<nat>>, shares: seq<seq<seq<Found<E>>>>, parts: seq<seq<Found<E>>>)
    requires forall p :: 0 <= p < |programs| ==> NewestFirst(programs[p])
    ensures |ats| == |shares| == |parts| == |programs| && Delivered(programs, txs, decoder, from, to) == Flatten(parts)
    ensures forall p :: 0 <= p < |programs| ==>
              && parts[p] == Flatten(shares[p])
              && Share(programs[p], txs, decoder, from, to, ats[p], shares[p])
    decreases |programs|
  {
    hide Share, NewestFirst, EventsAlong, RangeSigs;
    if programs == [] {
      ats, shares, parts := [], [], [];
    } else {
      assert forall p :: 0 <= p < |programs[1..]| ==> programs[1..][p] == programs[p + 1];
      var ats0, shares0, parts0 := DeliveredAre(programs[1..], txs, decoder, from, to);
      var at, blocks := ProgramShare(programs[0], txs, decoder, from, to);
      ats, shares, parts := [at] + ats0, [blocks] + shares0, [Flatten(blocks)] + parts0;
      assert parts[1..] == parts0;
      forall p | 0 <= p < |programs|
        ensures parts[p] == Flatten(shares[p]) && Share(programs[p], txs, decoder, from, to, ats[p], shares[p])
      {
        if p > 0 {
          assert Share(programs[1..][p - 1], txs, decoder, from, to, ats0[p - 1], shares0[p - 1]);
        }
      }
    }
  }
}
