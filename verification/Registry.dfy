/**
 * The event decoder registry's walk over a parsed log (packages/solana-events/src/registry.ts), and the invocation
 * walk (packages/solana-events/src/cpi-decoder.ts).
 */
module Registry {
  import opened Wrappers
  import opened LogTypes
  import opened Logs
  import opened LogFacts

  /** One result of a decoder: data, or its own record of something it does not know. */
  datatype Decoding<D> = Plain(data: D) | Unrecognised(programId: string, reason: string, rawLines: Option<seq<Line>>)

  /** What a decoder does with a chunk. */
  datatype Attempt<D> = Threw(message: string) | Results(results: seq<Decoding<D>>)

  type Decoder<!D> = Node -> Attempt<D>

  datatype Event<D> =
    | Decoded(programId: string, data: D)
    | Unknown(programId: string, reason: string, rawLines: seq<Line>)

  datatype Stream<D> = Stream(events: seq<Event<D>>, unknown: seq<Event<D>>, parseErrors: seq<ParseError>)

  const NO_DECODER := "no decoder registered"
  const DECODER_THREW := "decoder threw: "

  // ---- Pre-order over whole chunks ----

  function Chunks(ns: seq<Node>): (cs: seq<Node>)
    ensures |cs| == Size(ns)
  {
    if ns == [] then [] else [ns[0]] + Chunks(ns[0].children) + Chunks(ns[1..])
  }

  /** A step of walkInvocations: the chunk and the programs from its root down to it. */
  datatype WalkStep = WalkStep(chunk: Node, depth: nat, path: seq<string>)

  function Steps(ns: seq<Node>, above: seq<string>): (ss: seq<WalkStep>)
    ensures |ss| == Size(ns)
  {
    if ns == [] then []
    else
      var path := above + [ns[0].rec.programId];
      [WalkStep(ns[0], ns[0].rec.depth, path)] + Steps(ns[0].children, path) + Steps(ns[1..], above)
  }

  function WalkInvocations(log: TransactionLog): seq<WalkStep> {
    Steps(log.chunks, [])
  }

  // ---- Decoding ----

  function Resolve<D>(c: Node, d: Decoding<D>): Event<D> {
    match d
    case Plain(data) => Decoded(c.rec.programId, data)
    case Unrecognised(id, reason, raw) =>
      Unknown(if id != "" then id else c.rec.programId, reason, if raw.Some? then raw.value else c.rec.rawLines)
  }

  function ResolveAll<D>(c: Node, ds: seq<Decoding<D>>): seq<Event<D>> {
    if ds == [] then [] else [Resolve(c, ds[0])] + ResolveAll(c, ds[1..])
  }

  function EventsOf<D>(decoders: map<string, Decoder<D>>, c: Node): seq<Event<D>> {
    if c.rec.programId !in decoders then [Unknown(c.rec.programId, NO_DECODER, c.rec.rawLines)]
    else
      match decoders[c.rec.programId](c)
      case Threw(message) => [Unknown(c.rec.programId, DECODER_THREW + message, c.rec.rawLines)]
      case Results(results) => ResolveAll(c, results)
  }

  function EventsAlong<D>(decoders: map<string, Decoder<D>>, cs: seq<Node>): seq<Event<D>> {
    if cs == [] then [] else EventsOf(decoders, cs[0]) + EventsAlong(decoders, cs[1..])
  }

  function Unknowns<D>(es: seq<Event<D>>): seq<Event<D>> {
    if es == [] then [] else (if es[0].Unknown? then [es[0]] else []) + Unknowns(es[1..])
  }

  lemma {:induction false} AlongAppend<D>(decoders: map<string, Decoder<D>>, a: seq<Node>, b: seq<Node>)
    ensures EventsAlong(decoders, a + b) == EventsAlong(decoders, a) + EventsAlong(decoders, b)
    decreases |a|
  {
    hide EventsOf;
    if a == [] {
      assert a + b == b;
    } else {
      assert (a + b)[1..] == a[1..] + b;
      AlongAppend(decoders, a[1..], b);
      var x, y, z := EventsOf(decoders, a[0]), EventsAlong(decoders, a[1..]), EventsAlong(decoders, b);
      assert x + (y + z) == x + y + z;
    }
  }

  lemma {:induction false} UnknownsAppend<D>(a: seq<Event<D>>, b: seq<Event<D>>)
    ensures Unknowns(a + b) == Unknowns(a) + Unknowns(b)
    decreases |a|
  {
    if a == [] {
      assert a + b == b;
    } else {
      assert (a + b)[1..] == a[1..] + b && (a + b)[0] == a[0];
      UnknownsAppend(a[1..], b);
      var head := if a[0].Unknown? then [a[0]] else [];
      assert head + (Unknowns(a[1..]) + Unknowns(b)) == (head + Unknowns(a[1..])) + Unknowns(b);
    }
  }

  lemma OneUnknown<D>(e: Event<D>)
    ensures Unknowns([e]) == if e.Unknown? then [e] else []
  {
  }

  class EventDecoderRegistry<D> {
    var decoders: map<string, Decoder<D>>

    constructor ()
      ensures decoders == map[]
    {
      decoders := map[];
    }

    /** Replaces any decoder already registered for the program. */
    method Register(programId: string, decoder: Decoder<D>)
      modifies this
      ensures decoders == old(decoders)[programId := decoder]
    {
      decoders := decoders[programId := decoder];
    }

    /** One chunk's own events, appended to both lists. */
    method Visit(chunk: Node, events: seq<Event<D>>, unknown: seq<Event<D>>)
      returns (events': seq<Event<D>>, unknown': seq<Event<D>>)
      requires unknown == Unknowns(events)
      ensures events' == events + EventsOf(decoders, chunk) && unknown' == Unknowns(events')
    {
      events', unknown' := events, unknown;
      if chunk.rec.programId !in decoders {
        var u: Event<D> := Unknown(chunk.rec.programId, NO_DECODER, chunk.rec.rawLines);
        UnknownsAppend(events, [u]);
        return events + [u], unknown + [u];
      }
      match decoders[chunk.rec.programId](chunk) {
        case Threw(message) =>
          var u: Event<D> := Unknown(chunk.rec.programId, DECODER_THREW + message, chunk.rec.rawLines);
          UnknownsAppend(events, [u]);
          return events + [u], unknown + [u];
        case Results(results) =>
          events', unknown' := VisitResults(chunk, results, events, unknown);
      }
    }

    method VisitResults(chunk: Node, results: seq<Decoding<D>>, events: seq<Event<D>>, unknown: seq<Event<D>>)
      returns (events': seq<Event<D>>, unknown': seq<Event<D>>)
      requires unknown == Unknowns(events)
      ensures events' == events + ResolveAll(chunk, results) && unknown' == Unknowns(events')
    {
      hide Resolve, Unknowns;
      events', unknown' := events, unknown;
      var k := 0;
      while k < |results|
        invariant 0 <= k <= |results|
        invariant events + ResolveAll(chunk, results) == events' + ResolveAll(chunk, results[k..])
        invariant unknown' == Unknowns(events')
      {
        var e := Resolve(chunk, results[k]);
        assert results[k..][1..] == results[k + 1..];
        assert events' + ([e] + ResolveAll(chunk, results[k + 1..]))
          == events' + [e] + ResolveAll(chunk, results[k + 1..]);
        UnknownsAppend(events', [e]);
        OneUnknown(e);
        events' := events' + [e];
        if e.Unknown? {
          unknown' := unknown' + [e];
        }
        k := k + 1;
      }
    }

    /** The recursive walk: a chunk, then its children in order. */
    method WalkChunk(chunk: Node, events: seq<Event<D>>, unknown: seq<Event<D>>)
      returns (events': seq<Event<D>>, unknown': seq<Event<D>>)
      requires unknown == Unknowns(events)
      ensures events' == events + EventsAlong(decoders, Chunks([chunk])) && unknown' == Unknowns(events')
      decreases chunk
    {
      hide EventsOf, EventsAlong, Chunks, Unknowns;
      events', unknown' := Visit(chunk, events, unknown);
      ghost var own := EventsOf(decoders, chunk);
      NoChunks(decoders);
      assert events + own + [] == events + own;
      var k := 0;
      while k < |chunk.children|
        invariant 0 <= k <= |chunk.children|
        invariant events' == events + own + EventsAlong(decoders, Chunks(chunk.children[..k]))
        invariant unknown' == Unknowns(events')
      {
        events', unknown' := WalkChunk(chunk.children[k], events', unknown');
        MoreChunks(decoders, chunk.children, k);
        ghost var seen, next :=
          EventsAlong(decoders, Chunks(chunk.children[..k])), EventsAlong(decoders, Chunks([chunk.children[k]]));
        assert events + own + seen + next == events + own + (seen + next);
        k := k + 1;
      }
      assert chunk.children[..k] == chunk.children;
      OneChunk(decoders, chunk);
      ghost var below := EventsAlong(decoders, Chunks(chunk.children));
      assert events + own + below == events + (own + below);
    }

    /** Every chunk of the log in pre-order, and the unknown events among them. */
    method Decode(log: TransactionLog) returns (r: Stream<D>)
      ensures r.events == EventsAlong(decoders, Chunks(log.chunks))
      ensures r.unknown == Unknowns(r.events) && r.parseErrors == log.parseErrors
    {
      var events, unknown := [], [];
      var k := 0;
      while k < |log.chunks|
        invariant 0 <= k <= |log.chunks|
        invariant events == EventsAlong(decoders, Chunks(log.chunks[..k]))
        invariant unknown == Unknowns(events)
      {
        events, unknown := WalkChunk(log.chunks[k], events, unknown);
        MoreChunks(decoders, log.chunks, k);
        k := k + 1;
      }
      assert log.chunks[..k] == log.chunks;
      r := Stream(events, unknown, log.parseErrors);
    }
  }

  lemma {:induction false} ChunksAppend(a: seq<Node>, b: seq<Node>)
    ensures Chunks(a + b) == Chunks(a) + Chunks(b)
    decreases |a|
  {
    hide Size;
    if a == [] {
      assert a + b == b;
    } else {
      assert (a + b)[1..] == a[1..] + b;
      ChunksAppend(a[1..], b);
      var x, y, z := [a[0]] + Chunks(a[0].children), Chunks(a[1..]), Chunks(b);
      assert x + (y + z) == x + y + z;
    }
  }

  lemma MoreChunks<D>(decoders: map<string, Decoder<D>>, ns: seq<Node>, k: nat)
    requires k < |ns|
    ensures EventsAlong(decoders, Chunks(ns[..k + 1]))
            == EventsAlong(decoders, Chunks(ns[..k])) + EventsAlong(decoders, Chunks([ns[k]]))
  {
    hide EventsOf, Chunks, EventsAlong;
    assert ns[..k + 1] == ns[..k] + [ns[k]];
    ChunksAppend(ns[..k], [ns[k]]);
    AlongAppend(decoders, Chunks(ns[..k]), Chunks([ns[k]]));
  }

  lemma NoChunks<D>(decoders: map<string, Decoder<D>>)
    ensures EventsAlong(decoders, Chunks([])) == []
  {
  }

  lemma OneChunk<D>(decoders: map<string, Decoder<D>>, c: Node)
    ensures EventsAlong(decoders, Chunks([c])) == EventsOf(decoders, c) + EventsAlong(decoders, Chunks(c.children))
  {
    hide EventsOf;
    assert [c][1..] == [];
    assert Chunks([c]) == [c] + Chunks(c.children);
    assert Chunks([c])[1..] == Chunks(c.children);
  }

  // ---- The walks agree with the trace ----

  /** The `k`-th chunk of a pre-order is the first tree's root, one below it, or one of the later trees. */
  lemma Places(ns: seq<Node>, parent: Option<nat>, at: nat, above: seq<string>, k: nat)
    requires ns != [] && k < Size(ns)
    ensures var m, path := Size(ns[0].children), above + [ns[0].rec.programId];
            && Size(ns) == 1 + m + Size(ns[1..])
            && Walk(ns, parent, at)[k] == (if k == 0 then Flat(ns[0].rec, parent)
                                           else if k <= m then Walk(ns[0].children, Some(at), at + 1)[k - 1]
                                           else Walk(ns[1..], parent, at + 1 + m)[k - 1 - m])
            && Chunks(ns)[k] == (if k == 0 then ns[0]
                                 else if k <= m then Chunks(ns[0].children)[k - 1] else Chunks(ns[1..])[k - 1 - m])
            && Steps(ns, above)[k] == (if k == 0 then WalkStep(ns[0], ns[0].rec.depth, path)
                                       else if k <= m then Steps(ns[0].children, path)[k - 1]
                                       else Steps(ns[1..], above)[k - 1 - m])
  {
    hide Walk, Chunks, Steps, Size;
    var m, path := Size(ns[0].children), above + [ns[0].rec.programId];
    WalkCons(ns, parent, at);
    ChunksCons(ns);
    StepsCons(ns, above);
  }

  lemma ChunksCons(ns: seq<Node>)
    requires ns != []
    ensures Chunks(ns) == [ns[0]] + Chunks(ns[0].children) + Chunks(ns[1..])
  {
  }

  lemma StepsCons(ns: seq<Node>, above: seq<string>)
    requires ns != []
    ensures var path := above + [ns[0].rec.programId];
            Steps(ns, above)
            == [WalkStep(ns[0], ns[0].rec.depth, path)] + Steps(ns[0].children, path) + Steps(ns[1..], above)
  {
  }

  /** The three pre-orders visit the same chunks. */
  lemma {:induction false} SameOrder(ns: seq<Node>, parent: Option<nat>, at: nat, above: seq<string>, k: nat)
    requires k < Size(ns)
    ensures Chunks(ns)[k].rec == Walk(ns, parent, at)[k].rec
    ensures Steps(ns, above)[k].chunk == Chunks(ns)[k]
    ensures Steps(ns, above)[k].depth == Chunks(ns)[k].rec.depth
    decreases ns
  {
    hide Walk, Chunks, Steps;
    var m := Size(ns[0].children);
    Places(ns, parent, at, above, k);
    if 1 <= k <= m {
      SameOrder(ns[0].children, Some(at), at + 1, above + [ns[0].rec.programId], k - 1);
    } else if k > m {
      SameOrder(ns[1..], parent, at + 1 + m, above, k - 1 - m);
    }
  }

  /** The path of a step is its parent's path and its own program. */
  lemma {:induction false} Paths(ns: seq<Node>, parent: Option<nat>, at: nat, above: seq<string>, k: nat)
    requires k < Size(ns) && (parent.Some? ==> parent.value < at)
    ensures var up, steps := Walk(ns, parent, at)[k].parent, Steps(ns, above);
            && (up == parent || (up.Some? && at <= up.value < at + k))
            && steps[k].path == (if up == parent then above else steps[up.value - at].path)
               + [steps[k].chunk.rec.programId]
    decreases ns
  {
    hide Walk, Chunks, Steps;
    var m := Size(ns[0].children);
    var path := above + [ns[0].rec.programId];
    Places(ns, parent, at, above, k);
    var up := Walk(ns, parent, at)[k].parent;
    if 1 <= k <= m {
      Paths(ns[0].children, Some(at), at + 1, path, k - 1);
      Places(ns, parent, at, above, up.value - at);
    } else if k > m {
      Paths(ns[1..], parent, at + 1 + m, above, k - 1 - m);
      if up != parent {
        Places(ns, parent, at, above, up.value - at);
      }
    }
  }

  /** The k-th step of a whole walk. */
  lemma RootStep(ns: seq<Node>, k: nat)
    requires k < Size(ns)
    ensures var up, steps := Walk(ns, None, 0)[k].parent, Steps(ns, []);
            && steps[k].chunk == Chunks(ns)[k] && steps[k].chunk.rec == Walk(ns, None, 0)[k].rec
            && steps[k].depth == steps[k].chunk.rec.depth
            && (up.Some? ==> up.value < k)
            && steps[k].path == (if up.Some? then steps[up.value].path else []) + [steps[k].chunk.rec.programId]
  {
    hide Walk, Chunks, Steps, Size;
    SameOrder(ns, None, 0, [], k);
    Paths(ns, None, 0, [], k);
  }

  /**
   * Over any parsed lines, walkInvocations and the registry both see the invocations in order, one each; the path of
   * a step is the path of the latest invocation still open, and its own program.
   */
  lemma WalkFollowsTrace(lines: seq<Line>, k: nat)
    requires k < |Invokes(lines)|
    ensures var log := Parse(lines);
            var steps, p := WalkInvocations(log), InvokeAt(lines, k);
            && |steps| == |Chunks(log.chunks)| == |Invokes(lines)| == |Preorder(lines)|
            && steps[k].chunk == Chunks(log.chunks)[k]
            && steps[k].chunk.rec == Life(Opened(lines[p]), lines[p + 1..], 0)
            && steps[k].depth == lines[p].depth
            && var parent := Preorder(lines)[k].parent;
               (parent.Some? ==> parent.value < k)
               && steps[k].path == (if parent.Some? then steps[parent.value].path else []) + [lines[p].programId]
  {
    hide Life, Parse, Invokes, InvokeAt, Steps, Chunks, Walk, EndOf, Size;
    PreorderIsInvokes(lines);
    var ns := Parse(lines).chunks;
    RootStep(ns, k);
    Outcomes(lines, k);
  }
}
