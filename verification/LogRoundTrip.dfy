/** Parsing the log the runtime prints for a forest of invocations. */
module LogRoundTrip {
  import opened Wrappers
  import opened Bytes
  import opened LogTypes
  import opened Logs

  /** What a program does while it runs, in order. */
  datatype Item =
    | Text(text: string)
    | Payload(slices: seq<seq<byte>>)
    | Units(units: nat, limit: nat)
    | Returns(bytes: seq<byte>)
    | Remaining(units: nat)
    | Call(invocation: Invocation)

  datatype Invocation = Invocation(programId: string, depth: nat, body: seq<Item>, failure: Option<string>)

  // ---- The printed log ----

  function First(inv: Invocation): Line {
    Invoke(inv.programId, inv.depth)
  }

  function Last(inv: Invocation): Line {
    if inv.failure.None? then Success(inv.programId) else Failed(inv.programId, inv.failure.value)
  }

  function Print(inv: Invocation): seq<Line>
    decreases inv
  {
    [First(inv)] + PrintBody(inv.body, inv.programId) + [Last(inv)]
  }

  function PrintBody(body: seq<Item>, programId: string): seq<Line>
    decreases body
  {
    if body == [] then [] else PrintItem(body[0], programId) + PrintBody(body[1..], programId)
  }

  function PrintItem(item: Item, programId: string): seq<Line>
    decreases item
  {
    if item.Call? then Print(item.invocation) else [Own(item, programId)]
  }

  function Own(item: Item, programId: string): Line
    requires !item.Call?
  {
    match item
    case Text(text) => Log(text)
    case Payload(slices) => Data(seq(|slices|, k requires 0 <= k < |slices| => Raw(slices[k])))
    case Units(units, limit) => Consumed(programId, units, limit)
    case Returns(bytes) => Return(programId, Raw(bytes))
    case Remaining(units) => Consumption(units)
  }

  function PrintAll(forest: seq<Invocation>): seq<Line> {
    if forest == [] then [] else Print(forest[0]) + PrintAll(forest[1..])
  }

  // ---- What the parser should report for it ----

  function Texts(body: seq<Item>): seq<string> {
    if body == [] then [] else (if body[0].Text? then [body[0].text] else []) + Texts(body[1..])
  }

  function Payloads(body: seq<Item>): seq<seq<byte>> {
    if body == [] then [] else (if body[0].Payload? then [Flatten(body[0].slices)] else []) + Payloads(body[1..])
  }

  function LastUnits(body: seq<Item>, before: Option<(nat, nat)>): Option<(nat, nat)> {
    if body == [] then before
    else LastUnits(body[1..], if body[0].Units? then Some((body[0].units, body[0].limit)) else before)
  }

  function LastReturned(body: seq<Item>, before: Option<seq<byte>>): Option<seq<byte>> {
    if body == [] then before
    else LastReturned(body[1..], if body[0].Returns? then Some(body[0].bytes) else before)
  }

  /** Own lines, and only the first and last line of each call made. */
  function RawOf(body: seq<Item>, programId: string): seq<Line> {
    if body == [] then []
    else
      (if body[0].Call? then [First(body[0].invocation), Last(body[0].invocation)] else [Own(body[0], programId)])
      + RawOf(body[1..], programId)
  }

  function Tree(inv: Invocation): Node
    decreases inv
  {
    Node(Rec(inv.programId, inv.depth, inv.failure.None?, inv.failure, Texts(inv.body), Payloads(inv.body),
             LastUnits(inv.body, None), LastReturned(inv.body, None),
             [First(inv)] + RawOf(inv.body, inv.programId) + [Last(inv)]),
         Calls(inv.body))
  }

  function Calls(body: seq<Item>): seq<Node>
    decreases body
  {
    if body == [] then [] else CallOf(body[0]) + Calls(body[1..])
  }

  function CallOf(item: Item): seq<Node>
    decreases item
  {
    if item.Call? then [Tree(item.invocation)] else []
  }

  function Trees(forest: seq<Invocation>): seq<Node> {
    if forest == [] then [] else [Tree(forest[0])] + Trees(forest[1..])
  }

  // ---- Running the parser over printed lines ----

  lemma {:induction false} RunAppend(s: State, i: nat, a: seq<Line>, b: seq<Line>)
    ensures Run(s, i, a + b) == Run(Run(s, i, a), i + |a|, b)
    decreases |a|
  {
    hide Step;
    if a == [] {
      assert a + b == b;
    } else {
      assert (a + b)[0] == a[0] && (a + b)[1..] == a[1..] + b;
      RunAppend(Step(s, i, a[0]), i + 1, a[1..], b);
    }
  }

  lemma RunOne(s: State, i: nat, line: Line)
    ensures Run(s, i, [line]) == Step(s, i, line)
  {
    hide Step;
    assert [line][1..] == [];
    assert Run(Step(s, i, line), i + 1, []) == Step(s, i, line);
  }

  lemma {:induction false} JoinedRaw(slices: seq<seq<byte>>)
    ensures Joined(seq(|slices|, k requires 0 <= k < |slices| => Raw(slices[k]))) == Ok(Flatten(slices))
    decreases |slices|
  {
    var raw := seq(|slices|, k requires 0 <= k < |slices| => Raw(slices[k]));
    if slices != [] {
      JoinedRaw(slices[1..]);
      assert raw[1..] == seq(|slices[1..]|, k requires 0 <= k < |slices[1..]| => Raw(slices[1..][k]));
    }
  }

  /** The innermost open chunk after it has run `body`. */
  function Grown(n: Node, body: seq<Item>): Node {
    Node(n.rec.(logs := n.rec.logs + Texts(body), payloads := n.rec.payloads + Payloads(body),
                units := LastUnits(body, n.rec.units), returned := LastReturned(body, n.rec.returned),
                rawLines := n.rec.rawLines + RawOf(body, n.rec.programId)),
         n.children + Calls(body))
  }

  function TopNode(s: State): Node
    requires s.stack != []
  {
    s.stack[|s.stack| - 1]
  }

  function SetTop(s: State, n: Node): State
    requires s.stack != []
  {
    s.(stack := s.stack[|s.stack| - 1 := n])
  }

  /** A whole invocation adds one finished tree and, in the chunk that made it, two raw lines. */
  function Adopted(s: State, inv: Invocation): State {
    if s.stack == [] then s.(roots := s.roots + [Tree(inv)])
    else
      var n := TopNode(s);
      SetTop(s, Node(n.rec.(rawLines := n.rec.rawLines + [First(inv), Last(inv)]), n.children + [Tree(inv)]))
  }

  lemma OwnStep(s: State, i: nat, item: Item)
    requires s.stack != [] && !item.Call?
    ensures Step(s, i, Own(item, TopNode(s).rec.programId)) == SetTop(s, Grown(TopNode(s), [item]))
  {
    hide Recorded, ErrorOf, Texts, Payloads, LastUnits, LastReturned, RawOf, Calls;
    OwnRecord(TopNode(s), item);
  }

  lemma OwnRecord(n: Node, item: Item)
    requires !item.Call?
    ensures var line := Own(item, n.rec.programId);
            Grown(n, [item]) == Node(Recorded(n.rec, line), n.children) && ErrorOf(Some(n.rec), line) == None
  {
    hide Texts, Payloads, LastUnits, LastReturned, RawOf, Calls, Joined, Flatten;
    if item.Payload? {
      JoinedRaw(item.slices);
    }
    GrownOne(n, item);
    assert n.rec.logs + [] == n.rec.logs && n.rec.payloads + [] == n.rec.payloads && n.children + [] == n.children;
  }

  lemma GrownOne(n: Node, item: Item)
    ensures var id := n.rec.programId;
            && Texts([item]) == (if item.Text? then [item.text] else [])
            && Payloads([item]) == (if item.Payload? then [Flatten(item.slices)] else [])
            && LastUnits([item], n.rec.units) == (if item.Units? then Some((item.units, item.limit)) else n.rec.units)
            && LastReturned([item], n.rec.returned) == (if item.Returns? then Some(item.bytes) else n.rec.returned)
            && RawOf([item], id)
               == (if item.Call? then [First(item.invocation), Last(item.invocation)] else [Own(item, id)])
            && Calls([item]) == CallOf(item)
  {
    hide Tree, Own, CallOf;
    assert [item][1..] == [];
    assert Calls([]) == [] && CallOf(item) + [] == CallOf(item);
  }

  lemma FirstThenRest(body: seq<Item>, n: Node)
    requires body != []
    ensures var one, rest, id := [body[0]], body[1..], n.rec.programId;
            && Texts(body) == Texts(one) + Texts(rest) && Payloads(body) == Payloads(one) + Payloads(rest)
            && LastUnits(body, n.rec.units) == LastUnits(rest, LastUnits(one, n.rec.units))
            && LastReturned(body, n.rec.returned) == LastReturned(rest, LastReturned(one, n.rec.returned))
            && RawOf(body, id) == RawOf(one, id) + RawOf(rest, id) && Calls(body) == Calls(one) + Calls(rest)
  {
    hide Own, CallOf, Tree, Flatten;
    GrownOne(n, body[0]);
  }

  /** Growing is item by item. */
  lemma GrownCons(n: Node, body: seq<Item>)
    requires body != []
    ensures Grown(Grown(n, [body[0]]), body[1..]) == Grown(n, body)
  {
    hide Texts, Payloads, LastUnits, LastReturned, RawOf, Calls;
    FirstThenRest(body, n);
    var one, rest, id := [body[0]], body[1..], n.rec.programId;
    assert n.rec.logs + Texts(one) + Texts(rest) == n.rec.logs + Texts(body);
    assert n.rec.payloads + Payloads(one) + Payloads(rest) == n.rec.payloads + Payloads(body);
    assert n.rec.rawLines + RawOf(one, id) + RawOf(rest, id) == n.rec.rawLines + RawOf(body, id);
    assert n.children + Calls(one) + Calls(rest) == n.children + Calls(body);
  }

  lemma {:induction false} BodyRun(body: seq<Item>, s: State, i: nat)
    requires s.stack != []
    ensures Run(s, i, PrintBody(body, TopNode(s).rec.programId)) == SetTop(s, Grown(TopNode(s), body))
    decreases body
  {
    hide Step, Grown, PrintItem, Run;
    var n := TopNode(s);
    if body == [] {
      GrownNone(n);
      assert Run(s, i, []) == s by {
        RunNothing(s, i);
      }
    } else {
      var lines, rest := PrintItem(body[0], n.rec.programId), PrintBody(body[1..], n.rec.programId);
      ItemRun(body[0], s, i);
      RunAppend(s, i, lines, rest);
      GrownCons(n, body);
      GrownId(n, [body[0]]);
      BodyRun(body[1..], SetTop(s, Grown(n, [body[0]])), i + |lines|);
    }
  }

  lemma RunNothing(s: State, i: nat)
    ensures Run(s, i, []) == s
  {
  }

  lemma {:induction false} ItemRun(item: Item, s: State, i: nat)
    requires s.stack != []
    ensures Run(s, i, PrintItem(item, TopNode(s).rec.programId)) == SetTop(s, Grown(TopNode(s), [item]))
    decreases item
  {
    hide Step, Run, Grown;
    if item.Call? {
      CallRun(item.invocation, s, i);
      CallGrows(s, item.invocation);
    } else {
      OwnStep(s, i, item);
      RunOne(s, i, Own(item, TopNode(s).rec.programId));
    }
  }

  lemma GrownNone(n: Node)
    ensures Grown(n, []) == n
  {
  }

  lemma GrownId(n: Node, body: seq<Item>)
    ensures Grown(n, body).rec.programId == n.rec.programId
  {
  }

  lemma CallGrows(s: State, inv: Invocation)
    requires s.stack != []
    ensures Adopted(s, inv) == SetTop(s, Grown(TopNode(s), [Call(inv)]))
  {
    hide Tree;
    var n := TopNode(s);
    GrownOne(n, Call(inv));
    assert n.rec.logs + [] == n.rec.logs && n.rec.payloads + [] == n.rec.payloads;
  }

  lemma {:induction false} CallRun(inv: Invocation, s: State, i: nat)
    ensures Run(s, i, Print(inv)) == Adopted(s, inv)
    decreases inv
  {
    hide Step, Grown, PrintBody, Tree;
    var body := PrintBody(inv.body, inv.programId);
    assert Print(inv) == [First(inv)] + (body + [Last(inv)]);
    RunAppend(s, i, [First(inv)], body + [Last(inv)]);
    RunOne(s, i, First(inv));
    var inside := Step(s, i, First(inv));
    OpenStep(s, i, inv);
    RunAppend(inside, i + 1, body, [Last(inv)]);
    BodyRun(inv.body, inside, i + 1);
    var ran := SetTop(inside, Grown(TopNode(inside), inv.body));
    RunOne(ran, i + 1 + |body|, Last(inv));
    CloseStep(s, i + 1 + |body|, inv, ran);
  }

  /** The state inside a call that has just begun. */
  function Inside(s: State, inv: Invocation): State {
    var below := if s.stack == [] then [] else SetTop(s, TopNode(s).(rec := Noted(TopNode(s).rec, First(inv)))).stack;
    s.(stack := below + [Node(Opened(First(inv)), [])])
  }

  lemma OpenStep(s: State, i: nat, inv: Invocation)
    ensures Step(s, i, First(inv)) == Inside(s, inv)
    ensures TopNode(Inside(s, inv)).rec.programId == inv.programId
  {
  }

  lemma CloseStep(s: State, i: nat, inv: Invocation, ran: State)
    requires ran == SetTop(Inside(s, inv), Grown(TopNode(Inside(s, inv)), inv.body))
    ensures Step(ran, i, Last(inv)) == Adopted(s, inv)
  {
    hide Tree, Texts, Payloads, LastUnits, LastReturned, RawOf, Calls;
    var n := TopNode(ran);
    assert n == Grown(Node(Opened(First(inv)), []), inv.body);
    EndedIsTree(inv);
    NoMismatch(n.rec, Last(inv));
    assert ran.stack[..|s.stack|] == Inside(s, inv).stack[..|s.stack|];
    if s.stack != [] {
      var below := ran.stack[|s.stack| - 1];
      assert below.rec.rawLines + [Last(inv)] == TopNode(s).rec.rawLines + [First(inv), Last(inv)];
    }
  }

  lemma NoMismatch(r: Rec, line: Line)
    requires Terminator(line) && line.programId == r.programId
    ensures ErrorOf(Some(r), line) == None
  {
  }

  lemma EndedIsTree(inv: Invocation)
    ensures var n := Grown(Node(Opened(First(inv)), []), inv.body);
            n.rec.programId == inv.programId && Node(Ended(n.rec, Last(inv)), n.children) == Tree(inv)
  {
    hide Texts, Payloads, LastUnits, LastReturned, RawOf, Calls;
    var n := Grown(Node(Opened(First(inv)), []), inv.body);
    assert [] + Texts(inv.body) == Texts(inv.body);
    assert [] + Payloads(inv.body) == Payloads(inv.body);
    assert [] + Calls(inv.body) == Calls(inv.body);
  }

  lemma TreesCons(roots: seq<Node>, forest: seq<Invocation>)
    requires forest != []
    ensures roots + [Tree(forest[0])] + Trees(forest[1..]) == roots + Trees(forest)
  {
    hide Tree;
    assert roots + ([Tree(forest[0])] + Trees(forest[1..])) == roots + [Tree(forest[0])] + Trees(forest[1..]);
  }

  lemma {:induction false} ForestRun(forest: seq<Invocation>, s: State, i: nat)
    requires s.stack == []
    ensures Run(s, i, PrintAll(forest)) == s.(roots := s.roots + Trees(forest))
    decreases |forest|
  {
    hide Step, Tree, Print, Run;
    if forest == [] {
      RunNothing(s, i);
      assert s.roots + [] == s.roots;
    } else {
      var lines := Print(forest[0]);
      RunAppend(s, i, lines, PrintAll(forest[1..]));
      CallRun(forest[0], s, i);
      ForestRun(forest[1..], Adopted(s, forest[0]), i + |lines|);
      TreesCons(s.roots, forest);
    }
  }

  /** Parsing undoes printing: the whole forest comes back, with no error and nothing truncated. */
  lemma ParsePrint(forest: seq<Invocation>)
    ensures Parse(PrintAll(forest)) == TransactionLog(Trees(forest), [], false)
  {
    ForestRun(forest, Start(), 0);
    assert [] + Trees(forest) == Trees(forest);
  }
}
