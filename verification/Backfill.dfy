/**
 * Historical backfill of a slot range (packages/solana-connectivity/src/historical-backfill.ts), against a fixed
 * newest-first signature listing.
 */
module Backfill {
  import opened Wrappers
  import opened Bytes

  datatype Sig = Sig(signature: string, slot: nat, err: bool)

  /** fetchEventsForProgram pages by the default limit. */
  const SIG_LIMIT: nat := 1000

  ghost predicate Distinct(listing: seq<Sig>) {
    forall i, j :: 0 <= i < j < |listing| ==> listing[i].signature != listing[j].signature
  }

  ghost predicate NewestFirst(listing: seq<Sig>) {
    forall i, j :: 0 <= i < j < |listing| ==> listing[i].slot >= listing[j].slot
  }

  function IndexOf(listing: seq<Sig>, signature: string): (i: nat)
    ensures i <= |listing|
    ensures i < |listing| ==> listing[i].signature == signature
  {
    if listing == [] || listing[0].signature == signature then 0 else 1 + IndexOf(listing[1..], signature)
  }

  /** What is older than `before`. */
  function After(listing: seq<Sig>, before: Option<string>): seq<Sig> {
    if before.None? then listing
    else
      var i := IndexOf(listing, before.value);
      if i < |listing| then listing[i + 1..] else []
  }

  /** One answer of getSignaturesForAddress. */
  function Page(listing: seq<Sig>, limit: nat, before: Option<string>): seq<Sig> {
    var rest := After(listing, before);
    rest[..Min(limit, |rest|)]
  }

  lemma {:induction false} IndexOfAt(listing: seq<Sig>, i: nat)
    requires Distinct(listing) && i < |listing|
    ensures IndexOf(listing, listing[i].signature) == i
    decreases |listing|
  {
    if i > 0 {
      assert listing[1..][i - 1] == listing[i];
      IndexOfAt(listing[1..], i - 1);
    }
  }

  /** What is older than the cursor is the end of the listing. */
  lemma AfterIsSuffix(listing: seq<Sig>, cursor: Option<string>)
    ensures |After(listing, cursor)| <= |listing|
    ensures After(listing, cursor) == listing[|listing| - |After(listing, cursor)|..]
  {
    hide IndexOf;
  }

  lemma AfterAt(listing: seq<Sig>, i: nat)
    requires Distinct(listing) && i < |listing|
    ensures After(listing, Some(listing[i].signature)) == listing[i + 1..]
  {
    hide IndexOf, Distinct;
    IndexOfAt(listing, i);
  }

  /** The cursor taken from a page leads to what the page left out. */
  lemma NextPage(listing: seq<Sig>, limit: nat, cursor: Option<string>)
    requires Distinct(listing)
    ensures var page, rest := Page(listing, limit, cursor), After(listing, cursor);
            && |page| == Min(limit, |rest|) && page <= rest
            && (page != [] ==> rest == page + After(listing, Some(page[|page| - 1].signature)))
  {
    hide After, Distinct;
    var page, rest := Page(listing, limit, cursor), After(listing, cursor);
    AfterIsSuffix(listing, cursor);
    if page != [] {
      var last := |listing| - |rest| + |page| - 1;
      AfterAt(listing, last);
      assert page[|page| - 1] == listing[last];
      assert rest[|page|..] == listing[last + 1..];
      assert rest == page + rest[|page|..];
    }
  }

  /**
   * iterateSignaturesForAddress drained to the end: everything older than `before`, in order and each once, unless the
   * page budget runs out first, on a page boundary.
   */
  method IterateSignatures(listing: seq<Sig>, limit: nat, maxPages: Option<nat>, before: Option<string>)
    returns (yielded: seq<Sig>, pages: nat)
    requires Distinct(listing) && limit >= 1
    ensures yielded <= After(listing, before)
    ensures maxPages.Some? ==> pages <= maxPages.value
    ensures yielded == After(listing, before)
            || (maxPages.Some? && pages == maxPages.value && |yielded| == pages * limit)
  {
    hide After, Page;
    var cursor := before;
    yielded, pages := [], 0;
    while maxPages.None? || pages < maxPages.value
      invariant maxPages.Some? ==> pages <= maxPages.value
      invariant After(listing, before) == yielded + After(listing, cursor)
      invariant |yielded| == pages * limit
      decreases |After(listing, cursor)|
    {
      var sigs := Page(listing, limit, cursor);
      NextPage(listing, limit, cursor);
      pages := pages + 1;
      if |sigs| == 0 {
        return;
      }
      ghost var had := yielded;
      yielded := yielded + sigs;
      if |sigs| < limit {
        return;
      }
      assert |had| + limit == (pages - 1) * limit + limit == pages * limit;
      cursor := Some(sigs[|sigs| - 1].signature);
      assert had + (sigs + After(listing, cursor)) == yielded + After(listing, cursor);
    }
  }

  // ---- The range walk ----

  /** The walk skips newer slots and stops for good at the first older one. */
  function Walked(listing: seq<Sig>, from: int, to: int): seq<Sig> {
    if listing == [] then []
    else if listing[0].slot > to then Walked(listing[1..], from, to)
    else if listing[0].slot < from then []
    else [listing[0]] + Walked(listing[1..], from, to)
  }

  function InRange(listing: seq<Sig>, from: int, to: int): seq<Sig> {
    if listing == [] then []
    else (if from <= listing[0].slot <= to then [listing[0]] else []) + InRange(listing[1..], from, to)
  }

  /** Against a newest-first listing, stopping early loses nothing. */
  lemma {:induction false} WalkedIsInRange(listing: seq<Sig>, from: int, to: int)
    requires NewestFirst(listing)
    ensures Walked(listing, from, to) == InRange(listing, from, to)
    decreases |listing|
  {
    if listing != [] {
      assert forall i :: 0 <= i < |listing[1..]| ==> listing[1..][i] == listing[i + 1];
      WalkedIsInRange(listing[1..], from, to);
      if listing[0].slot < from {
        NoneInRange(listing, from, to);
      }
    }
  }

  lemma {:induction false} NoneInRange(listing: seq<Sig>, from: int, to: int)
    requires forall i :: 0 <= i < |listing| ==> listing[i].slot < from
    ensures InRange(listing, from, to) == []
    decreases |listing|
  {
    if listing != [] {
      NoneInRange(listing[1..], from, to);
    }
  }

  /** The walk goes on past these. */
  predicate Passes(sigs: seq<Sig>, from: int, to: int) {
    forall i :: 0 <= i < |sigs| ==> sigs[i].slot > to || sigs[i].slot >= from
  }

  lemma {:induction false} WalkedOn(a: seq<Sig>, b: seq<Sig>, from: int, to: int)
    ensures Walked(a + b, from, to) == Walked(a, from, to) + if Passes(a, from, to) then Walked(b, from, to) else []
    decreases |a|
  {
    if a == [] {
      assert a + b == b;
    } else {
      assert (a + b)[1..] == a[1..] + b;
      WalkedOn(a[1..], b, from, to);
      assert Passes(a, from, to) <==> (a[0].slot > to || a[0].slot >= from) && Passes(a[1..], from, to) by {
        assert forall i :: 0 < i < |a| ==> a[i] == a[1..][i - 1];
      }
    }
  }

  /** One page of the walk, and whether it reached a slot older than the range. */
  method WalkPage(sigs: seq<Sig>, from: int, to: int) returns (inRange: seq<Sig>, stop: bool)
    ensures inRange == Walked(sigs, from, to)
    ensures stop <==> !Passes(sigs, from, to)
  {
    inRange, stop := [], false;
    var k := 0;
    assert sigs[0..] == sigs;
    while k < |sigs|
      invariant 0 <= k <= |sigs| && Passes(sigs[..k], from, to)
      invariant Walked(sigs, from, to) == inRange + Walked(sigs[k..], from, to)
    {
      var sig := sigs[k];
      assert sigs[k..][1..] == sigs[k + 1..];
      if sig.slot <= to {
        if sig.slot < from {
          stop := true;
          assert !(sigs[k].slot > to || sigs[k].slot >= from);
          return;
        }
        inRange := inRange + [sig];
      }
      k := k + 1;
    }
    assert sigs[..k] == sigs;
  }

  /** The first loop of fetchEventsForProgram, pulling pages only as it needs them. */
  method WalkRange(listing: seq<Sig>, from: int, to: int) returns (inRange: seq<Sig>)
    requires Distinct(listing)
    ensures inRange == Walked(listing, from, to)
  {
    hide After, Page, Walked, Passes;
    var cursor: Option<string> := None;
    inRange := [];
    AfterNothing(listing);
    while true
      invariant Walked(listing, from, to) == inRange + Walked(After(listing, cursor), from, to)
      decreases |After(listing, cursor)|
    {
      var sigs := Page(listing, SIG_LIMIT, cursor);
      NextPage(listing, SIG_LIMIT, cursor);
      if |sigs| == 0 {
        WalkedNothing(from, to);
        return;
      }
      var found, stop := WalkPage(sigs, from, to);
      var next := Some(sigs[|sigs| - 1].signature);
      WalkedOn(sigs, After(listing, next), from, to);
      ghost var had := inRange;
      inRange := inRange + found;
      assert stop ==> Walked(listing, from, to) == had + (found + []) == inRange;
      assert !stop ==>
          had + (found + Walked(After(listing, next), from, to)) == inRange + Walked(After(listing, next), from, to);
      if stop {
        return;
      }
      if |sigs| < SIG_LIMIT {
        assert After(listing, cursor) == sigs;
        assert After(listing, next) == [];
        WalkedNothing(from, to);
        return;
      }
      cursor := next;
    }
  }

  lemma AfterNothing(listing: seq<Sig>)
    ensures After(listing, None) == listing
  {
  }

  lemma WalkedNothing(from: int, to: int)
    ensures Walked([], from, to) == []
  {
  }
}
