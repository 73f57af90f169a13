/** Which events an invocation gives, one by one (packages/solana-events/src/registry.ts). */
module RegistryFacts {
  import opened Wrappers
  import opened Bytes
  import opened LogTypes
  import opened Logs
  import opened LogFacts
  import opened Registry

  /** What one decoder result becomes: fields a record leaves out are the chunk's. */
  ghost predicate Becomes<D>(c: Node, d: Decoding<D>, e: Event<D>) {
    match d
    case Plain(data) => e == Decoded(c.rec.programId, data)
    case Unrecognised(id, reason, raw) =>
      && e.Unknown? && e.reason == reason
      && e.programId == (if id == "" then c.rec.programId else id)
      && (raw.Some? ==> e.rawLines == raw.value) && (raw.None? ==> e.rawLines == c.rec.rawLines)
  }

  /** The events of one chunk: one a result, or one unknown event for a missing or throwing decoder. */
  ghost predicate BlockOf<D(!new)>(decoders: map<string, Decoder<D>>, c: Node, es: seq<Event<D>>) {
    var id := c.rec.programId;
    if id !in decoders then es == [Unknown(id, "no decoder registered", c.rec.rawLines)]
    else
      match decoders[id](c)
      case Threw(message) => es == [Unknown(id, "decoder threw: " + message, c.rec.rawLines)]
      case Results(results) => |es| == |results| && forall j :: 0 <= j < |es| ==> Becomes(c, results[j], es[j])
  }

  lemma {:induction false} ResolvedBlock<D(!new)>(c: Node, ds: seq<Decoding<D>>)
    ensures |ResolveAll(c, ds)| == |ds| && forall j :: 0 <= j < |ds| ==> Becomes(c, ds[j], ResolveAll(c, ds)[j])
    decreases |ds|
  {
    hide Becomes, Resolve;
    if ds != [] {
      ResolvedBlock(c, ds[1..]);
      OneBecomes(c, ds[0]);
      forall j | 0 <= j < |ds|
        ensures Becomes(c, ds[j], ResolveAll(c, ds)[j])
      {
        if j > 0 {
          assert Becomes(c, ds[1..][j - 1], ResolveAll(c, ds[1..])[j - 1]);
        }
      }
    }
  }

  lemma OneBecomes<D(!new)>(c: Node, d: Decoding<D>)
    ensures Becomes(c, d, Resolve(c, d))
  {
  }

  lemma EventsAreBlock<D(!new)>(decoders: map<string, Decoder<D>>, c: Node)
    ensures BlockOf(decoders, c, EventsOf(decoders, c))
  {
    hide Becomes;
    if c.rec.programId in decoders {
      var attempt := decoders[c.rec.programId](c);
      if attempt.Results? {
        ResolvedBlock(c, attempt.results);
      }
    }
  }

  lemma {:induction false} Blocks<D(!new)>(decoders: map<string, Decoder<D>>, cs: seq<Node>)
    returns (blocks: seq<seq<Event<D>>>)
    ensures |blocks| == |cs| && Flatten(blocks) == EventsAlong(decoders, cs)
    ensures forall k :: 0 <= k < |cs| ==> BlockOf(decoders, cs[k], blocks[k])
    decreases |cs|
  {
    hide EventsOf, BlockOf;
    if cs == [] {
      blocks := [];
    } else {
      var rest := Blocks(decoders, cs[1..]);
      EventsAreBlock(decoders, cs[0]);
      blocks := [EventsOf(decoders, cs[0])] + rest;
      assert blocks[1..] == rest;
      forall k | 0 <= k < |cs|
        ensures BlockOf(decoders, cs[k], blocks[k])
      {
        if k > 0 {
          assert BlockOf(decoders, cs[1..][k - 1], rest[k - 1]);
        }
      }
    }
  }

  /**
   * On any parsed lines the events are one block per invocation, in order of invocation; each block is what the decoder
   * registered for the invoked program makes of that invocation's chunk.
   */
  lemma EventsByInvocation<D(!new)>(decoders: map<string, Decoder<D>>, lines: seq<Line>)
    returns (blocks: seq<seq<Event<D>>>)
    ensures var chunks := Chunks(Parse(lines).chunks);
            && |blocks| == |chunks| == |Invokes(lines)|
            && Flatten(blocks) == EventsAlong(decoders, chunks)
            && forall k :: 0 <= k < |chunks| ==>
                 && chunks[k].rec.programId == lines[InvokeAt(lines, k)].programId
                 && BlockOf(decoders, chunks[k], blocks[k])
  {
    hide Parse, Invokes, Chunks, BlockOf, EventsAlong, Life, Steps, InvokeAt;
    var chunks := Chunks(Parse(lines).chunks);
    blocks := Blocks(decoders, chunks);
    PreorderIsInvokes(lines);
    forall k | 0 <= k < |Invokes(lines)|
      ensures |chunks| == |Invokes(lines)| && chunks[k].rec.programId == lines[InvokeAt(lines, k)].programId
    {
      WalkFollowsTrace(lines, k);
      Outcomes(lines, k);
    }
    SameCount(lines);
  }

  lemma SameCount(lines: seq<Line>)
    ensures |Chunks(Parse(lines).chunks)| == |Invokes(lines)|
  {
    hide Parse, Invokes, Chunks;
    PreorderIsInvokes(lines);
  }

  /** The positions of the unknown events, in order. */
  ghost predicate UnknownAt<D>(es: seq<Event<D>>, at: seq<nat>) {
    && |at| == |Unknowns(es)|
    && (forall j :: 0 <= j < |at| ==> at[j] < |es| && Unknowns(es)[j] == es[at[j]] && es[at[j]].Unknown?)
    && (forall i, j :: 0 <= i < j < |at| ==> at[i] < at[j])
    && forall i :: 0 <= i < |es| && es[i].Unknown? ==> i in at
  }

  /** The unknown events are exactly those among the events, in their order. */
  lemma {:induction false} UnknownsAre<D>(es: seq<Event<D>>) returns (at: seq<nat>)
    ensures UnknownAt(es, at)
    decreases |es|
  {
    hide Unknowns, UnknownAt;
    if es == [] {
      at := [];
      NoUnknowns<D>();
    } else {
      var front, e := es[..|es| - 1], es[|es| - 1];
      assert es == front + [e];
      var before := UnknownsAre(front);
      at := if e.Unknown? then before + [|front|] else before;
      UnknownAtMore(front, e, before);
    }
  }

  lemma UnknownAtMore<D>(es: seq<Event<D>>, e: Event<D>, at: seq<nat>)
    requires UnknownAt(es, at)
    ensures UnknownAt(es + [e], if e.Unknown? then at + [|es|] else at)
  {
    hide Unknowns;
    UnknownsAppend(es, [e]);
    OneUnknown(e);
    var all, more := es + [e], if e.Unknown? then at + [|es|] else at;
    forall i | 0 <= i < |all| && all[i].Unknown?
      ensures i in more
    {
      if i < |es| {
        assert es[i] == all[i] && i in at;
      } else {
        assert more[|more| - 1] == i;
      }
    }
  }

  lemma NoUnknowns<D>()
    ensures UnknownAt<D>([], [])
  {
  }
}
