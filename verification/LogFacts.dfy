/** What the parsed tree says about an arbitrary list of lines. */
module LogFacts {
  import opened Wrappers
  import opened Bytes
  import opened LogTypes
  import opened Logs

  // ---- Pre-order ----

  /** A chunk of the pre-order walk, with the walk position of its parent. */
  datatype Flat = Flat(rec: Rec, parent: Option<nat>)

  function Size(ns: seq<Node>): nat {
    if ns == [] then 0 else 1 + Size(ns[0].children) + Size(ns[1..])
  }

  /** Parent before children, children in order; `at` is the walk position of the first chunk. */
  function Walk(ns: seq<Node>, parent: Option<nat>, at: nat): (fs: seq<Flat>)
    ensures |fs| == Size(ns)
  {
    if ns == [] then []
    else
      [Flat(ns[0].rec, parent)] + Walk(ns[0].children, Some(at), at + 1)
      + Walk(ns[1..], parent, at + 1 + Size(ns[0].children))
  }

  /** The programs of an arbitrary trace, in order of invocation. */
  function Invokes(lines: seq<Line>): seq<Line> {
    if lines == [] then [] else (if lines[0].Invoke? then [lines[0]] else []) + Invokes(lines[1..])
  }

  /** The line index of the `k`-th invocation. */
  function InvokeAt(lines: seq<Line>, k: nat): (p: nat)
    requires k < |Invokes(lines)|
    ensures p < |lines| && lines[p].Invoke? && lines[p] == Invokes(lines)[k]
  {
    if !lines[0].Invoke? then 1 + InvokeAt(lines[1..], k)
    else if k == 0 then 0 else 1 + InvokeAt(lines[1..], k - 1)
  }

  // ---- One invocation on its own: bracket matching from its invoke line ----

  /** The line that ends an invocation, `d` nested invocations being open inside it. */
  function EndOf(rest: seq<Line>, d: nat): (e: Option<Line>)
    ensures e.Some? ==> Terminator(e.value)
  {
    if rest == [] then None
    else if rest[0].Invoke? then EndOf(rest[1..], d + 1)
    else if !Terminator(rest[0]) then EndOf(rest[1..], d)
    else if d == 0 then Some(rest[0]) else EndOf(rest[1..], d - 1)
  }

  /**
   * The record of one invocation: its own lines, the invoke and terminator lines of its direct children in its raw
   * trace, and the terminator that matches it, wherever the rest of the trace goes.
   */
  function Life(r: Rec, rest: seq<Line>, d: nat): Rec
    decreases |rest|
  {
    if rest == [] then Cut(r)
    else
      var line := rest[0];
      if line.Invoke? then Life(if d == 0 then Noted(r, line) else r, rest[1..], d + 1)
      else if !Terminator(line) then Life(if d == 0 then Recorded(r, line) else r, rest[1..], d)
      else if d == 0 then Ended(r, line)
      else Life(if d == 1 then Noted(r, line) else r, rest[1..], d - 1)
  }

  // ---- The walk, kept line by line ----

  /** `open` are the walk positions of the open chunks, outermost first. */
  datatype Arena = Arena(flats: seq<Flat>, open: seq<nat>)

  ghost predicate Sound(a: Arena) {
    && (forall j :: 0 <= j < |a.open| ==> a.open[j] < |a.flats|)
    && (forall i, j :: 0 <= i < j < |a.open| ==> a.open[i] < a.open[j])
  }

  function Write(a: Arena, r: Rec): Arena
    requires a.open != [] && a.open[|a.open| - 1] < |a.flats|
  {
    var k := a.open[|a.open| - 1];
    a.(flats := a.flats[k := Flat(r, a.flats[k].parent)])
  }

  function TopRec(a: Arena): Rec
    requires a.open != [] && a.open[|a.open| - 1] < |a.flats|
  {
    a.flats[a.open[|a.open| - 1]].rec
  }

  function LastOpen(open: seq<nat>): Option<nat> {
    if open == [] then None else Some(open[|open| - 1])
  }

  function ArenaPop(a: Arena): Arena
    requires a.open != []
  {
    a.(open := a.open[..|a.open| - 1])
  }

  function ArenaStep(a: Arena, line: Line): Arena
    requires Sound(a)
  {
    if line.Invoke? then
      var b := if a.open == [] then a else Write(a, Noted(TopRec(a), line));
      Arena(b.flats + [Flat(Opened(line), LastOpen(a.open))], a.open + [|a.flats|])
    else if a.open == [] then a
    else if Terminator(line) then
      var b := ArenaPop(Write(a, Ended(TopRec(a), line)));
      if b.open == [] then b else Write(b, Noted(TopRec(b), line))
    else Write(a, Recorded(TopRec(a), line))
  }

  lemma StepSound(a: Arena, line: Line)
    requires Sound(a)
    ensures Sound(ArenaStep(a, line)) && |ArenaStep(a, line).flats| == |a.flats| + if line.Invoke? then 1 else 0
  {
  }

  function ArenaRun(a: Arena, lines: seq<Line>): Arena
    requires Sound(a)
    decreases |lines|
  {
    if lines == [] then a
    else
      StepSound(a, lines[0]);
      ArenaRun(ArenaStep(a, lines[0]), lines[1..])
  }

  function CutOpen(a: Arena): (b: Arena)
    requires Sound(a)
    ensures |b.flats| == |a.flats|
    decreases |a.open|
  {
    if a.open == [] then a else CutOpen(ArenaPop(Write(a, Cut(TopRec(a)))))
  }

  // ---- The stack of trees, flattened ----

  function Flats(stack: seq<Node>, parent: Option<nat>, at: nat): (fs: seq<Flat>)
    ensures |fs| == Span(stack)
  {
    if stack == [] then []
    else
      [Flat(stack[0].rec, parent)] + Walk(stack[0].children, Some(at), at + 1)
      + Flats(stack[1..], Some(at), at + 1 + Size(stack[0].children))
  }

  function Span(stack: seq<Node>): nat {
    if stack == [] then 0 else 1 + Size(stack[0].children) + Span(stack[1..])
  }

  function Opens(stack: seq<Node>, at: nat): (open: seq<nat>)
    ensures |open| == |stack|
    ensures forall j :: 0 <= j < |open| ==> at <= open[j] < at + Span(stack)
    ensures forall i, j :: 0 <= i < j < |open| ==> open[i] < open[j]
  {
    if stack == [] then [] else [at] + Opens(stack[1..], at + 1 + Size(stack[0].children))
  }

  function ArenaOf(s: State): (a: Arena)
    ensures Sound(a)
  {
    var n := Size(s.roots);
    Arena(Walk(s.roots, None, 0) + Flats(s.stack, None, n), Opens(s.stack, n))
  }

  lemma {:induction false} SizeAppend(a: seq<Node>, b: seq<Node>)
    ensures Size(a + b) == Size(a) + Size(b)
    decreases |a|
  {
    if a == [] {
      assert a + b == b;
    } else {
      assert (a + b)[1..] == a[1..] + b;
      SizeAppend(a[1..], b);
    }
  }

  lemma {:induction false} WalkAppend(a: seq<Node>, b: seq<Node>, parent: Option<nat>, at: nat)
    ensures Walk(a + b, parent, at) == Walk(a, parent, at) + Walk(b, parent, at + Size(a))
    decreases |a|
  {
    hide Walk, Size;
    if a == [] {
      assert a + b == b;
      WalkNothing(parent, at);
    } else {
      assert (a + b)[1..] == a[1..] + b;
      var next := at + 1 + Size(a[0].children);
      WalkAppend(a[1..], b, parent, next);
      WalkCons(a, parent, at);
      WalkCons(a + b, parent, at);
      var head := [Flat(a[0].rec, parent)] + Walk(a[0].children, Some(at), at + 1);
      assert Walk(a + b, parent, at) == head + (Walk(a[1..], parent, next) + Walk(b, parent, at + Size(a)));
    }
  }

  lemma WalkNothing(parent: Option<nat>, at: nat)
    ensures Walk([], parent, at) == [] && Size([]) == 0
  {
  }

  lemma WalkCons(ns: seq<Node>, parent: Option<nat>, at: nat)
    requires ns != []
    ensures Walk(ns, parent, at) == [Flat(ns[0].rec, parent)] + Walk(ns[0].children, Some(at), at + 1)
                                    + Walk(ns[1..], parent, at + 1 + Size(ns[0].children))
    ensures Size(ns) == 1 + Size(ns[0].children) + Size(ns[1..])
  {
  }

  lemma {:induction false} SpanAppend(a: seq<Node>, b: seq<Node>, at: nat)
    ensures Span(a + b) == Span(a) + Span(b)
    ensures Opens(a + b, at) == Opens(a, at) + Opens(b, at + Span(a))
    decreases |a|
  {
    if a == [] {
      assert a + b == b;
    } else {
      assert (a + b)[1..] == a[1..] + b;
      SpanAppend(a[1..], b, at + 1 + Size(a[0].children));
    }
  }

  function Above(stack: seq<Node>, parent: Option<nat>, at: nat): Option<nat> {
    if stack == [] then parent else LastOpen(Opens(stack, at))
  }

  lemma AboveTail(a: seq<Node>, parent: Option<nat>, at: nat)
    requires a != []
    ensures Above(a, parent, at) == Above(a[1..], Some(at), at + 1 + Size(a[0].children))
  {
    hide Size;
  }

  lemma {:induction false} FlatsAppend(a: seq<Node>, b: seq<Node>, parent: Option<nat>, at: nat)
    ensures Flats(a + b, parent, at) == Flats(a, parent, at) + Flats(b, Above(a, parent, at), at + Span(a))
    decreases |a|
  {
    hide Size, Walk, Opens, Above, Flats;
    if a == [] {
      assert a + b == b;
      NothingAbove(parent, at);
    } else {
      assert (a + b)[1..] == a[1..] + b;
      AboveTail(a, parent, at);
      var next := at + 1 + Size(a[0].children);
      FlatsAppend(a[1..], b, Some(at), next);
      FlatsCons(a, parent, at);
      FlatsCons(a + b, parent, at);
      var head := [Flat(a[0].rec, parent)] + Walk(a[0].children, Some(at), at + 1);
      var p, q := Flats(a[1..], Some(at), next), Flats(b, Above(a, parent, at), at + Span(a));
      assert head + (p + q) == (head + p) + q;
    }
  }

  lemma FlatsCons(stack: seq<Node>, parent: Option<nat>, at: nat)
    requires stack != []
    ensures var kids := stack[0].children;
            && Flats(stack, parent, at) == [Flat(stack[0].rec, parent)] + Walk(kids, Some(at), at + 1)
                                           + Flats(stack[1..], Some(at), at + 1 + Size(kids))
            && Span(stack) == 1 + Size(kids) + Span(stack[1..])
  {
  }

  lemma NothingAbove(parent: Option<nat>, at: nat)
    ensures Above([], parent, at) == parent && Flats([], parent, at) == [] && Span([]) == 0
  {
  }

  /** One frame. */
  lemma FlatsOne(n: Node, parent: Option<nat>, at: nat)
    ensures Flats([n], parent, at) == [Flat(n.rec, parent)] + Walk(n.children, Some(at), at + 1)
    ensures Opens([n], at) == [at] && Span([n]) == 1 + Size(n.children)
  {
    assert [n][1..] == [];
    assert Flats([], Some(at), at + 1 + Size(n.children)) == [];
    assert Opens([], at + 1 + Size(n.children)) == [];
  }

  /** Everything below the innermost frame, and the frame. */
  lemma FlatsLast(stack: seq<Node>, at: nat)
    requires stack != []
    ensures var below, n := stack[..|stack| - 1], stack[|stack| - 1];
            && Flats(stack, None, at) == Flats(below, None, at) + [Flat(n.rec, Above(below, None, at))]
                                         + Walk(n.children, Some(at + Span(below)), at + Span(below) + 1)
            && Opens(stack, at) == Opens(below, at) + [at + Span(below)]
            && Span(stack) == Span(below) + 1 + Size(n.children)
  {
    hide Flats, Opens, Walk, Size, Span, Above;
    var below, n := stack[..|stack| - 1], stack[|stack| - 1];
    assert stack == below + [n];
    FlatsAppend(below, [n], None, at);
    SpanAppend(below, [n], at);
    FlatsOne(n, Above(below, None, at), at + Span(below));
    var p, q := [Flat(n.rec, Above(below, None, at))], Walk(n.children, Some(at + Span(below)), at + Span(below) + 1);
    assert Flats(below, None, at) + (p + q) == Flats(below, None, at) + p + q;
  }

  /** Rewriting the innermost frame's record rewrites one chunk of the walk. */
  lemma WriteFlat(s: State, r: Rec)
    requires s.stack != []
    ensures ArenaOf(WithTop(s, r)) == Write(ArenaOf(s), r)
    ensures TopRec(ArenaOf(s)) == Top(s.stack).value
  {
    hide Flats, Opens, Span, Walk, Size;
    var n := Size(s.roots);
    FlatsLast(s.stack, n);
    var after := OnTop(s.stack, r);
    FlatsLast(after, n);
    assert after[..|after| - 1] == s.stack[..|s.stack| - 1];
    assert ArenaOf(WithTop(s, r)).flats == Write(ArenaOf(s), r).flats;
  }

  lemma PushFlat(s: State, r: Rec)
    ensures var a := ArenaOf(s);
            ArenaOf(s.(stack := s.stack + [Node(r, [])]))
            == Arena(a.flats + [Flat(r, LastOpen(a.open))], a.open + [|a.flats|])
  {
    hide Flats, Opens, Span, Walk;
    var n := Size(s.roots);
    var after := s.stack + [Node(r, [])];
    FlatsLast(after, n);
    assert after[..|s.stack|] == s.stack;
    assert Walk([], Some(n + Span(s.stack)), n + Span(s.stack) + 1) == [];
  }

  /** Ending a chunk moves it under its parent and leaves the walk as it was. */
  lemma CloseFlat(s: State, r: Rec)
    requires s.stack != []
    ensures ArenaOf(Close(s, r)) == ArenaPop(ArenaOf(WithTop(s, r)))
  {
    if |s.stack| == 1 {
      CloseRoot(s, r);
    } else {
      CloseChild(s, r);
    }
  }

  lemma CloseRoot(s: State, r: Rec)
    requires |s.stack| == 1
    ensures ArenaOf(Close(s, r)) == ArenaPop(ArenaOf(WithTop(s, r)))
  {
    hide Flats, Opens, Span, Walk, Size;
    var m := Size(s.roots);
    var node := Node(r, s.stack[0].children);
    assert OnTop(s.stack, r) == [node];
    FlatsOne(node, None, m);
    WalkOne(node, None, m);
    WalkAppend(s.roots, [node], None, 0);
    SizeAppend(s.roots, [node]);
    NoFrames(Size(s.roots + [node]));
    assert ArenaOf(Close(s, r)).flats == ArenaOf(WithTop(s, r)).flats;
  }

  lemma CloseChild(s: State, r: Rec)
    requires |s.stack| >= 2
    ensures ArenaOf(Close(s, r)) == ArenaPop(ArenaOf(WithTop(s, r)))
  {
    hide Flats, Opens, Span, Walk, Size;
    var n, m := |s.stack|, Size(s.roots);
    var low, below := s.stack[..n - 2], s.stack[n - 2];
    var node := Node(r, s.stack[n - 1].children);
    var at := m + Span(low);
    var above := Above(low, None, m);
    var kids := Walk(below.children, Some(at), at + 1);
    var last := Walk(node.children, Some(at + 1 + Size(below.children)), at + 2 + Size(below.children));

    var open := OnTop(s.stack, r);
    FlatsLast(open, m);
    assert open[..n - 1] == s.stack[..n - 1];
    FlatsLast(s.stack[..n - 1], m);
    assert s.stack[..n - 1][..n - 2] == low;
    assert Flats(open, None, m)
           == Flats(low, None, m) + [Flat(below.rec, above)] + kids + [Flat(r, Some(at))] + last by {
      AboveLast(s.stack[..n - 1], m);
    }

    var kept := low + [below.(children := below.children + [node])];
    FlatsLast(kept, m);
    assert kept[..n - 2] == low;
    WalkAppend(below.children, [node], Some(at), at + 1);
    WalkOne(node, Some(at), at + 1 + Size(below.children));
    assert Flats(kept, None, m)
           == Flats(low, None, m) + [Flat(below.rec, above)] + (kids + ([Flat(r, Some(at))] + last));
    assert Flats(kept, None, m) == Flats(open, None, m);
    assert Close(s, r).stack == kept;
  }

  lemma AboveLast(stack: seq<Node>, at: nat)
    requires stack != []
    ensures Above(stack, None, at) == Some(at + Span(stack[..|stack| - 1]))
  {
    hide Flats, Opens, Span, Walk, Size;
    FlatsLast(stack, at);
  }

  lemma NoFrames(at: nat)
    ensures Flats([], None, at) == [] && Opens([], at) == [] && Span([]) == 0
  {
  }

  lemma WalkOne(n: Node, parent: Option<nat>, at: nat)
    ensures Walk([n], parent, at) == [Flat(n.rec, parent)] + Walk(n.children, Some(at), at + 1)
    ensures Size([n]) == 1 + Size(n.children)
  {
    assert [n][1..] == [];
    assert Walk([], parent, at + 1 + Size(n.children)) == [];
  }

  // ---- The parser refines the line-by-line walk ----

  lemma ArenaIgnoresReports(s: State, t: State)
    requires s.roots == t.roots && s.stack == t.stack
    ensures ArenaOf(s) == ArenaOf(t)
  {
  }

  lemma StepRefines(s: State, i: nat, line: Line)
    ensures ArenaOf(Step(s, i, line)) == ArenaStep(ArenaOf(s), line)
  {
    hide ErrorOf, ArenaOf, Close, Recorded, Ended, Noted, Opened, Write, TopRec;
    var t := Reported(s, i, line);
    ArenaIgnoresReports(s, t);
    OpenIffStack(s);
    if line.Invoke? {
      if s.stack == [] {
        PushFlat(t, Opened(line));
        assert t.(stack := [] + [Node(Opened(line), [])]) == Step(s, i, line);
      } else {
        var noted := WithTop(t, Noted(Top(s.stack).value, line));
        WriteFlat(t, Noted(Top(s.stack).value, line));
        PushFlat(noted, Opened(line));
        assert Step(s, i, line) == noted.(stack := noted.stack + [Node(Opened(line), [])]);
        WriteShape(ArenaOf(t), Noted(Top(s.stack).value, line));
      }
    } else if s.stack != [] {
      if Terminator(line) {
        var ended := Ended(Top(s.stack).value, line);
        WriteFlat(t, ended);
        CloseFlat(t, ended);
        var u := Close(t, ended);
        OpenIffStack(u);
        if u.stack != [] {
          WriteFlat(u, Noted(Top(u.stack).value, line));
        }
      } else {
        WriteFlat(t, Recorded(Top(s.stack).value, line));
      }
    }
  }

  lemma OpenIffStack(s: State)
    ensures |ArenaOf(s).open| == |s.stack|
  {
  }

  lemma WriteShape(a: Arena, r: Rec)
    requires Sound(a) && a.open != []
    ensures Write(a, r).open == a.open && |Write(a, r).flats| == |a.flats| && Sound(Write(a, r))
  {
  }

  lemma {:induction false} RunRefines(s: State, i: nat, lines: seq<Line>)
    ensures ArenaOf(Run(s, i, lines)) == ArenaRun(ArenaOf(s), lines)
    decreases |lines|
  {
    hide Step, ArenaStep, ArenaOf;
    if lines != [] {
      StepSound(ArenaOf(s), lines[0]);
      StepRefines(s, i, lines[0]);
      RunRefines(Step(s, i, lines[0]), i + 1, lines[1..]);
    }
  }

  lemma {:induction false} CloseAllRefines(s: State)
    ensures ArenaOf(CloseAll(s)) == CutOpen(ArenaOf(s))
    ensures CloseAll(s).stack == [] && CloseAll(s).errors == s.errors && CloseAll(s).truncated == s.truncated
    decreases |s.stack|
  {
    hide ArenaOf, Cut;
    OpenIffStack(s);
    if s.stack != [] {
      var cut := Cut(Top(s.stack).value);
      WriteFlat(s, cut);
      CloseFlat(s, cut);
      CloseAllRefines(Close(s, cut));
    }
  }

  function Trace(lines: seq<Line>): Arena {
    ArenaRun(Arena([], []), lines)
  }

  /** The pre-order walk of the parsed tree. */
  function Preorder(lines: seq<Line>): seq<Flat> {
    Walk(Parse(lines).chunks, None, 0)
  }

  lemma PreorderIsTrace(lines: seq<Line>)
    ensures Sound(Trace(lines))
    ensures Preorder(lines) == CutOpen(Trace(lines)).flats
  {
    hide Flats, Walk, Size, Opens;
    var s := Run(Start(), 0, lines);
    RunRefines(Start(), 0, lines);
    NoFrames(0);
    assert Walk([], None, 0) == [] by {
      WalkNothing(None, 0);
    }
    assert ArenaOf(Start()) == Arena([], []);
    CloseAllRefines(s);
    var done := CloseAll(s);
    NoFrames(Size(done.roots));
    assert ArenaOf(done).flats == Walk(done.roots, None, 0);
  }

  // ---- Each invocation on its own ----

  lemma {:induction false} CutOpenKeeps(a: Arena, k: nat)
    requires Sound(a) && k < |a.flats|
    ensures CutOpen(a).flats[k] == if k in a.open then Flat(Cut(a.flats[k].rec), a.flats[k].parent) else a.flats[k]
    decreases |a.open|
  {
    if a.open != [] {
      var n := |a.open|;
      var b := ArenaPop(Write(a, Cut(TopRec(a))));
      CutOpenKeeps(b, k);
      assert a.open == b.open + [a.open[n - 1]];
    }
  }

  /** A chunk that has ended is never touched again. */
  lemma {:induction false} EndedStays(a: Arena, lines: seq<Line>, k: nat)
    requires Sound(a) && k < |a.flats| && k !in a.open
    ensures Sound(ArenaRun(a, lines)) && k < |ArenaRun(a, lines).flats| && k !in ArenaRun(a, lines).open
    ensures ArenaRun(a, lines).flats[k] == a.flats[k]
    decreases |lines|
  {
    if lines != [] {
      StepSound(a, lines[0]);
      StepElsewhere(a, lines[0], k);
      EndedStays(ArenaStep(a, lines[0]), lines[1..], k);
    }
  }

  lemma StepElsewhere(a: Arena, line: Line, k: nat)
    requires Sound(a) && k < |a.flats| && k !in a.open
    ensures k !in ArenaStep(a, line).open && ArenaStep(a, line).flats[k] == a.flats[k]
  {
    hide Recorded, Noted, Ended, Opened;
  }

  /** What one line does to an open chunk under which `|open| - 1 - j` others are open. */
  lemma StepOnOpen(a: Arena, line: Line, j: nat)
    requires Sound(a) && j < |a.open|
    ensures var k, d, b := a.open[j], |a.open| - 1 - j, ArenaStep(a, line);
            && b.flats[k].parent == a.flats[k].parent
            && (Terminator(line) && d == 0 ==> k !in b.open && b.flats[k].rec == Ended(a.flats[k].rec, line))
            && (!(Terminator(line) && d == 0) ==>
                  && j < |b.open| && b.open[j] == k
                  && |b.open| - 1 - j == d + (if line.Invoke? then 1 else if Terminator(line) then -1 else 0)
                  && b.flats[k].rec == (if line.Invoke?
                                        then (if d == 0 then Noted(a.flats[k].rec, line) else a.flats[k].rec)
                                        else if Terminator(line)
                                          then (if d == 1 then Noted(a.flats[k].rec, line) else a.flats[k].rec)
                                        else if d == 0 then Recorded(a.flats[k].rec, line) else a.flats[k].rec))
  {
    hide Recorded, Noted, Ended, Opened;
  }

  /** An open chunk's record, when the lines have run out, is its life from here on. */
  lemma {:induction false} LifeOfOpen(a: Arena, lines: seq<Line>, j: nat)
    requires Sound(a) && j < |a.open|
    ensures var k, b := a.open[j], ArenaRun(a, lines);
            && Sound(b) && k < |b.flats|
            && (k in b.open <==> EndOf(lines, |a.open| - 1 - j).None?)
            && CutOpen(b).flats[k] == Flat(Life(a.flats[k].rec, lines, |a.open| - 1 - j), a.flats[k].parent)
    decreases |lines|
  {
    hide Recorded, Noted, Ended, ArenaStep, CutOpen;
    var k, d := a.open[j], |a.open| - 1 - j;
    if lines == [] {
      CutOpenKeeps(a, k);
    } else {
      var line := lines[0];
      StepSound(a, line);
      StepOnOpen(a, line, j);
      var b := ArenaStep(a, line);
      if Terminator(line) && d == 0 {
        EndedStays(b, lines[1..], k);
        CutOpenKeeps(ArenaRun(b, lines[1..]), k);
      } else {
        LifeOfOpen(b, lines[1..], j);
      }
    }
  }

  lemma {:induction false} RunCounts(a: Arena, lines: seq<Line>)
    requires Sound(a)
    ensures Sound(ArenaRun(a, lines)) && |ArenaRun(a, lines).flats| == |a.flats| + |Invokes(lines)|
    decreases |lines|
  {
    hide ArenaStep, CutOpen;
    if lines != [] {
      StepSound(a, lines[0]);
      RunCounts(ArenaStep(a, lines[0]), lines[1..]);
    }
  }

  /** The `q`-th invocation of the remaining lines. */
  lemma {:induction false} LifeOfNew(a: Arena, lines: seq<Line>, q: nat)
    requires Sound(a) && q < |Invokes(lines)|
    ensures var p, k := InvokeAt(lines, q), |a.flats| + q;
            && Sound(ArenaRun(a, lines)) && k < |CutOpen(ArenaRun(a, lines)).flats| == |ArenaRun(a, lines).flats|
            && Sound(ArenaRun(a, lines[..p]))
            && (k in ArenaRun(a, lines).open <==> EndOf(lines[p + 1..], 0).None?)
            && CutOpen(ArenaRun(a, lines)).flats[k]
               == Flat(Life(Opened(lines[p]), lines[p + 1..], 0), LastOpen(ArenaRun(a, lines[..p]).open))
    decreases |lines|
  {
    hide CutOpen, Opened, Life, EndOf, ArenaStep;
    RunCounts(a, lines);
    var line, rest := lines[0], lines[1..];
    var p := InvokeAt(lines, q);
    RunCounts(a, lines[..p]);
    StepSound(a, line);
    var b := ArenaStep(a, line);
    if line.Invoke? && q == 0 {
      assert lines[..p] == [] && lines[p + 1..] == rest;
      InvokeStep(a, line);
      LifeOfOpen(b, rest, |b.open| - 1);
    } else {
      var q' := if line.Invoke? then q - 1 else q;
      LifeOfNew(b, rest, q');
      assert lines[p + 1..] == rest[InvokeAt(rest, q') + 1..];
      assert lines[..p][0] == line && lines[..p][1..] == rest[..InvokeAt(rest, q')];
    }
  }

  lemma InvokeStep(a: Arena, line: Line)
    requires Sound(a) && line.Invoke?
    ensures var b := ArenaStep(a, line);
            && b.open == a.open + [|a.flats|] && |b.flats| == |a.flats| + 1
            && b.flats[|a.flats|] == Flat(Opened(line), LastOpen(a.open))
  {
  }

  /**
   * On any lines whatever, the walk of the tree is the invocations in order, one chunk each, and each chunk is what
   * bracket matching from its own invoke line says.
   */
  lemma PreorderIsInvokes(lines: seq<Line>)
    ensures |Preorder(lines)| == |Invokes(lines)|
    ensures forall k :: 0 <= k < |Invokes(lines)| ==>
              var p := InvokeAt(lines, k);
              Preorder(lines)[k].rec == Life(Opened(lines[p]), lines[p + 1..], 0)
  {
    hide Life, Opened, Preorder, InvokeAt, Invokes, CutOpen, ArenaRun, EndOf;
    PreorderIsTrace(lines);
    RunCounts(Arena([], []), lines);
    forall k | 0 <= k < |Invokes(lines)|
      ensures var p := InvokeAt(lines, k);
              Preorder(lines)[k].rec == Life(Opened(lines[p]), lines[p + 1..], 0)
    {
      LifeOfNew(Arena([], []), lines, k);
    }
  }

  lemma InvokeAtCons(lines: seq<Line>, k: nat)
    requires k < |Invokes(lines)|
    ensures |Invokes(lines)| == |Invokes(lines[1..])| + if lines[0].Invoke? then 1 else 0
    ensures InvokeAt(lines, k) ==
            if !lines[0].Invoke? then 1 + InvokeAt(lines[1..], k)
            else if k == 0 then 0 else 1 + InvokeAt(lines[1..], k - 1)
  {
  }

  /** The invocations before line `InvokeAt(lines, k)` are the first `k`. */
  lemma {:induction false} InvokesBefore(lines: seq<Line>, k: nat)
    requires k < |Invokes(lines)|
    ensures var front := lines[..InvokeAt(lines, k)];
            && |Invokes(front)| == k
            && forall j :: 0 <= j < k ==> InvokeAt(front, j) == InvokeAt(lines, j) < InvokeAt(lines, k)
    decreases |lines|
  {
    hide InvokeAt;
    var p, rest := InvokeAt(lines, k), lines[1..];
    var front := lines[..p];
    InvokeAtCons(lines, k);
    if lines[0].Invoke? && k == 0 {
      assert front == [];
    } else {
      var q := if lines[0].Invoke? then k - 1 else k;
      InvokesBefore(rest, q);
      assert front[0] == lines[0] && front[1..] == rest[..InvokeAt(rest, q)];
      forall j | 0 <= j < k
        ensures InvokeAt(front, j) == InvokeAt(lines, j) < p
      {
        InvokeAtCons(front, j);
        InvokeAtCons(lines, j);
      }
    }
  }

  /** Invocation `j` was made before line `p` and nothing before that line ends it. */
  ghost predicate OpenAt(lines: seq<Line>, j: nat, p: nat)
    requires p <= |lines|
  {
    j < |Invokes(lines)| && InvokeAt(lines, j) < p && EndOf(lines[InvokeAt(lines, j) + 1..p], 0).None?
  }

  /** The parent of a chunk is the latest invocation still open when it was invoked. */
  lemma ParentIsInnermostOpen(lines: seq<Line>, k: nat)
    requires k < |Invokes(lines)|
    ensures |Preorder(lines)| == |Invokes(lines)|
    ensures var parent, p := Preorder(lines)[k].parent, InvokeAt(lines, k);
            && (parent.Some? ==> parent.value < k && OpenAt(lines, parent.value, p))
            && forall j :: 0 <= j < k && OpenAt(lines, j, p) ==> parent.Some? && j <= parent.value
  {
    hide Preorder, Life, EndOf, CutOpen, ArenaStep, Invokes, InvokeAt, ArenaRun, OpenAt;
    PreorderIsInvokes(lines);
    PreorderIsTrace(lines);
    LifeOfNew(Arena([], []), lines, k);
    var p := InvokeAt(lines, k);
    InvokesBefore(lines, k);
    RunCounts(Arena([], []), lines[..p]);
    forall j | 0 <= j < k
      ensures j in Trace(lines[..p]).open <==> OpenAt(lines, j, p)
    {
      OpenBefore(lines, k, j);
    }
  }

  lemma OpenBefore(lines: seq<Line>, k: nat, j: nat)
    requires j < k < |Invokes(lines)|
    ensures var p := InvokeAt(lines, k);
            Sound(Trace(lines[..p])) && (j in Trace(lines[..p]).open <==> OpenAt(lines, j, p))
  {
    hide Life, EndOf, CutOpen, ArenaStep, Invokes, InvokeAt, ArenaRun;
    var p := InvokeAt(lines, k);
    var front := lines[..p];
    InvokesBefore(lines, k);
    LifeOfNew(Arena([], []), front, j);
    assert front[InvokeAt(front, j) + 1..] == lines[InvokeAt(lines, j) + 1..p];
  }

  // ---- Consequences ----

  /** What a life keeps, and how it ends. */
  lemma {:induction false} LifeEnds(r: Rec, rest: seq<Line>, d: nat)
    ensures var f, e := Life(r, rest, d), EndOf(rest, d);
            && f.programId == r.programId && f.depth == r.depth
            && (e.None? ==> !f.success && f.failureReason == Some(TRUNCATED))
            && (e.Some? && e.value.Failed? ==> !f.success && f.failureReason == Some(e.value.reason))
            && (e.Some? && e.value.Success? ==> f.success && f.failureReason == r.failureReason)
    decreases |rest|
  {
    if rest != [] {
      var line := rest[0];
      if line.Invoke? {
        LifeEnds(if d == 0 then Noted(r, line) else r, rest[1..], d + 1);
      } else if !Terminator(line) {
        LifeEnds(if d == 0 then Recorded(r, line) else r, rest[1..], d);
      } else if d > 0 {
        LifeEnds(if d == 1 then Noted(r, line) else r, rest[1..], d - 1);
      }
    }
  }

  /** Program, depth and outcome of every chunk; the truncated ones are those no terminator matches. */
  lemma Outcomes(lines: seq<Line>, k: nat)
    requires k < |Invokes(lines)|
    ensures |Preorder(lines)| == |Invokes(lines)|
    ensures var r, p := Preorder(lines)[k].rec, InvokeAt(lines, k);
            var e := EndOf(lines[p + 1..], 0);
            && r.programId == Invokes(lines)[k].programId && r.depth == Invokes(lines)[k].depth
            && (r.success <==> e.Some? && e.value.Success?)
            && (!r.success && r.failureReason == Some(TRUNCATED)
                <==> e.None? || (e.value.Failed? && e.value.reason == TRUNCATED))
            && (e.Some? && e.value.Failed? ==> r.failureReason == Some(e.value.reason))
  {
    hide Preorder, Life, EndOf, InvokeAt, Invokes;
    PreorderIsInvokes(lines);
    var p := InvokeAt(lines, k);
    LifeEnds(Opened(lines[p]), lines[p + 1..], 0);
  }

  /** Two lines of one invocation's own lifetime decide which lines its raw trace keeps. */
  function OwnRaw(rest: seq<Line>, d: nat): seq<Line> {
    if rest == [] then []
    else
      var line := rest[0];
      if line.Invoke? then (if d == 0 then [line] else []) + OwnRaw(rest[1..], d + 1)
      else if !Terminator(line) then
        (if d == 0 && !(line.Data? && Joined(line.slices).Err?) then [line] else []) + OwnRaw(rest[1..], d)
      else if d == 0 then [line]
      else (if d == 1 then [line] else []) + OwnRaw(rest[1..], d - 1)
  }

  function OwnLogs(rest: seq<Line>, d: nat): seq<string> {
    if rest == [] then []
    else
      var line := rest[0];
      if line.Invoke? then OwnLogs(rest[1..], d + 1)
      else if !Terminator(line) then (if d == 0 && line.Log? then [line.text] else []) + OwnLogs(rest[1..], d)
      else if d == 0 then []
      else OwnLogs(rest[1..], d - 1)
  }

  function OwnPayloads(rest: seq<Line>, d: nat): seq<seq<byte>> {
    if rest == [] then []
    else
      var line := rest[0];
      if line.Invoke? then OwnPayloads(rest[1..], d + 1)
      else if !Terminator(line) then
        (if d == 0 && line.Data? && Joined(line.slices).Ok? then [Joined(line.slices).value] else [])
          + OwnPayloads(rest[1..], d)
      else if d == 0 then []
      else OwnPayloads(rest[1..], d - 1)
  }

  lemma RecordedKeeps(r: Rec, line: Line)
    requires !line.Invoke? && !Terminator(line)
    ensures var f := Recorded(r, line);
            && f.rawLines == r.rawLines + (if line.Data? && Joined(line.slices).Err? then [] else [line])
            && f.logs == r.logs + (if line.Log? then [line.text] else [])
            && f.payloads == r.payloads
               + (if line.Data? && Joined(line.slices).Ok? then [Joined(line.slices).value] else [])
  {
    hide Joined;
  }

  lemma {:induction false} LifeRaw(r: Rec, rest: seq<Line>, d: nat)
    ensures Life(r, rest, d).rawLines == r.rawLines + OwnRaw(rest, d)
    decreases |rest|
  {
    hide Joined, Recorded;
    if rest != [] {
      var line := rest[0];
      if line.Invoke? {
        LifeRaw(if d == 0 then Noted(r, line) else r, rest[1..], d + 1);
      } else if !Terminator(line) {
        RecordedKeeps(r, line);
        LifeRaw(if d == 0 then Recorded(r, line) else r, rest[1..], d);
      } else if d > 0 {
        LifeRaw(if d == 1 then Noted(r, line) else r, rest[1..], d - 1);
      }
    }
  }

  lemma {:induction false} LifeLogs(r: Rec, rest: seq<Line>, d: nat)
    ensures Life(r, rest, d).logs == r.logs + OwnLogs(rest, d)
    decreases |rest|
  {
    hide Joined, Recorded;
    if rest != [] {
      var line := rest[0];
      if line.Invoke? {
        LifeLogs(if d == 0 then Noted(r, line) else r, rest[1..], d + 1);
      } else if !Terminator(line) {
        RecordedKeeps(r, line);
        LifeLogs(if d == 0 then Recorded(r, line) else r, rest[1..], d);
      } else if d > 0 {
        LifeLogs(if d == 1 then Noted(r, line) else r, rest[1..], d - 1);
      }
    }
  }

  lemma {:induction false} LifePayloads(r: Rec, rest: seq<Line>, d: nat)
    ensures Life(r, rest, d).payloads == r.payloads + OwnPayloads(rest, d)
    decreases |rest|
  {
    hide Joined, Recorded;
    if rest != [] {
      var line := rest[0];
      if line.Invoke? {
        LifePayloads(if d == 0 then Noted(r, line) else r, rest[1..], d + 1);
      } else if !Terminator(line) {
        RecordedKeeps(r, line);
        LifePayloads(if d == 0 then Recorded(r, line) else r, rest[1..], d);
      } else if d > 0 {
        LifePayloads(if d == 1 then Noted(r, line) else r, rest[1..], d - 1);
      }
    }
  }

  /**
   * The raw trace of a chunk is its own lines and the first and last lines of its direct children only; logs and
   * payloads are its own.
   */
  lemma Contents(lines: seq<Line>, k: nat)
    requires k < |Invokes(lines)|
    ensures |Preorder(lines)| == |Invokes(lines)|
    ensures var r, p := Preorder(lines)[k].rec, InvokeAt(lines, k);
            && r.rawLines == [lines[p]] + OwnRaw(lines[p + 1..], 0)
            && r.logs == OwnLogs(lines[p + 1..], 0)
            && r.payloads == OwnPayloads(lines[p + 1..], 0)
  {
    hide Preorder, Life, OwnRaw, OwnLogs, OwnPayloads;
    PreorderIsInvokes(lines);
    var p := InvokeAt(lines, k);
    LifeRaw(Opened(lines[p]), lines[p + 1..], 0);
    LifeLogs(Opened(lines[p]), lines[p + 1..], 0);
    LifePayloads(Opened(lines[p]), lines[p + 1..], 0);
  }

  // ---- When a raw trace is complete ----

  /** Every line up to and including the terminator that matches. */
  function Window(rest: seq<Line>, d: nat): seq<Line> {
    if rest == [] then []
    else
      var line := rest[0];
      if line.Invoke? then [line] + Window(rest[1..], d + 1)
      else if !Terminator(line) then [line] + Window(rest[1..], d)
      else if d == 0 then [line]
      else [line] + Window(rest[1..], d - 1)
  }

  /** No own data line is undecodable, and every direct child ends, or the trace does, right after its invoke line. */
  predicate Shallow(rest: seq<Line>, inChild: bool) {
    rest == []
    || if inChild then Terminator(rest[0]) && Shallow(rest[1..], false)
       else if rest[0].Invoke? then Shallow(rest[1..], true)
       else Terminator(rest[0]) || (!(rest[0].Data? && Joined(rest[0].slices).Err?) && Shallow(rest[1..], false))
  }

  /** Inside grandchildren and inside a child's body lines are left out. */
  lemma {:induction false} RawShorter(rest: seq<Line>, d: nat)
    ensures |OwnRaw(rest, d)| <= |Window(rest, d)|
    ensures d >= 1 && rest != [] && !(Terminator(rest[0]) && d == 1) ==> |OwnRaw(rest, d)| < |Window(rest, d)|
    decreases |rest|
  {
    hide Joined;
    if rest != [] {
      var line := rest[0];
      RawShorter(rest[1..],
                 if line.Invoke? then d + 1 else if !Terminator(line) then d else if d == 0 then 0 else d - 1);
    }
  }

  lemma {:induction false} RawIsWindow(rest: seq<Line>, inChild: bool)
    ensures OwnRaw(rest, if inChild then 1 else 0) == Window(rest, if inChild then 1 else 0) <==> Shallow(rest, inChild)
    decreases |rest|
  {
    hide Joined;
    RawShorter(rest, if inChild then 1 else 0);
    if rest != [] {
      var line, tail := rest[0], rest[1..];
      if inChild {
        if Terminator(line) {
          RawIsWindow(tail, false);
          assert OwnRaw(rest, 1)[1..] == OwnRaw(tail, 0) && Window(rest, 1)[1..] == Window(tail, 0);
        }
      } else if line.Invoke? {
        RawIsWindow(tail, true);
        assert OwnRaw(rest, 0)[1..] == OwnRaw(tail, 1) && Window(rest, 0)[1..] == Window(tail, 1);
      } else if !Terminator(line) {
        RawIsWindow(tail, false);
        RawShorter(tail, 0);
        assert Window(rest, 0)[1..] == Window(tail, 0);
        if !(line.Data? && Joined(line.slices).Err?) {
          assert OwnRaw(rest, 0)[1..] == OwnRaw(tail, 0);
        } else {
          assert OwnRaw(rest, 0) == OwnRaw(tail, 0);
        }
      }
    }
  }

  /**
   * A chunk's raw trace is every line of its execution exactly when its own data lines all decode and its direct
   * children did nothing at all.
   */
  lemma RawCompleteIff(lines: seq<Line>, k: nat)
    requires k < |Invokes(lines)|
    ensures |Preorder(lines)| == |Invokes(lines)|
    ensures var p := InvokeAt(lines, k);
            (Preorder(lines)[k].rec.rawLines == [lines[p]] + Window(lines[p + 1..], 0)
             <==> Shallow(lines[p + 1..], false))
  {
    hide Preorder, OwnRaw, Window, Shallow, InvokeAt, Invokes, OwnLogs, OwnPayloads;
    Contents(lines, k);
    var p := InvokeAt(lines, k);
    RawIsWindow(lines[p + 1..], false);
    var own, whole := OwnRaw(lines[p + 1..], 0), Window(lines[p + 1..], 0);
    assert ([lines[p]] + own)[1..] == own && ([lines[p]] + whole)[1..] == whole;
  }

  /** What a child logs and calls is missing from its parent's raw trace. */
  lemma ChildLinesMissing(outer: string, child: string, inner: string, text: string)
    ensures var lines := [Invoke(outer, 1), Invoke(child, 2), Log(text), Invoke(inner, 3), Success(inner),
                          Success(child), Success(outer)];
            Preorder(lines) != []
            && Preorder(lines)[0].rec.rawLines == [Invoke(outer, 1), Invoke(child, 2), Success(child), Success(outer)]
  {
    hide Preorder;
    var rest := [Invoke(child, 2), Log(text), Invoke(inner, 3), Success(inner), Success(child), Success(outer)];
    var lines := [Invoke(outer, 1)] + rest;
    assert lines[1..] == rest;
    assert Invokes(lines) == [lines[0]] + Invokes(rest);
    Contents(lines, 0);
    assert OwnRaw(rest, 0) == [Invoke(child, 2)] + OwnRaw(rest[1..], 1);
    assert OwnRaw(rest[1..], 1) == OwnRaw(rest[2..], 1);
    assert OwnRaw(rest[2..], 1) == OwnRaw(rest[3..], 2);
    assert OwnRaw(rest[3..], 2) == OwnRaw(rest[4..], 1);
    assert OwnRaw(rest[4..], 1) == [Success(child)] + OwnRaw(rest[5..], 0);
    assert OwnRaw(rest[5..], 0) == [Success(outer)];
    assert lines == [Invoke(outer, 1), Invoke(child, 2), Log(text), Invoke(inner, 3), Success(inner), Success(child),
                     Success(outer)];
  }
}
