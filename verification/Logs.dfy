/**
 * The transaction log parser (packages/solana-events/src/parse-logs.ts), over lines already classified by its regular
 * expressions.
 */
module LogTypes {
  import opened Wrappers
  import opened Bytes

  /** One base64 field of a data or return line: decoded, or why decodeBase64Data throws. */
  datatype Slice = Raw(bytes: seq<byte>) | BadInput | BadPadding

  datatype Line =
    | Invoke(programId: string, depth: nat)
    | Success(programId: string)
    | Failed(programId: string, reason: string)
    | Log(text: string)
    | Data(slices: seq<Slice>)
    | Consumed(programId: string, units: nat, limit: nat)
    | Return(programId: string, payload: Slice)
    | Consumption(remaining: nat)
    | LogTruncated
    | Other(text: string)

  datatype Reason =
    | SuccessWithoutInvoke | SuccessMismatch(expected: string, got: string)
    | FailedWithoutInvoke | FailedMismatch(expected: string, got: string)
    | LogOutside | DataOutside | BadData(why: Slice)
    | UnitsElsewhere | ReturnElsewhere | BadReturn(why: Slice)
    | Unrecognized

  datatype ParseError = ParseError(lineIndex: nat, line: Line, reason: Reason)

  /** Everything a chunk holds except its children. */
  datatype Rec = Rec(programId: string, depth: nat, success: bool, failureReason: Option<string>, logs: seq<string>,
                     payloads: seq<seq<byte>>, units: Option<(nat, nat)>, returned: Option<seq<byte>>,
                     rawLines: seq<Line>)

  /** The value of a chunk tree. */
  datatype Node = Node(rec: Rec, children: seq<Node>)

  datatype TransactionLog = TransactionLog(chunks: seq<Node>, parseErrors: seq<ParseError>, logTruncated: bool)
}

module Logs {
  import opened Wrappers
  import opened Bytes
  import opened LogTypes

  const TRUNCATED := "truncated"

  // ---- What one line does ----

  predicate Terminator(line: Line) {
    line.Success? || line.Failed?
  }

  function Opened(line: Line): Rec
    requires line.Invoke?
  {
    Rec(line.programId, line.depth, false, None, [], [], None, None, [line])
  }

  function Noted(r: Rec, line: Line): Rec {
    r.(rawLines := r.rawLines + [line])
  }

  function Ended(r: Rec, line: Line): Rec
    requires Terminator(line)
  {
    if line.Success? then Noted(r, line).(success := true)
    else Noted(r, line).(success := false, failureReason := Some(line.reason))
  }

  function Cut(r: Rec): Rec {
    r.(success := false, failureReason := Some(TRUNCATED))
  }

  /** The slices of a data line, decoded left to right and joined; the first bad one wins. */
  function Joined(slices: seq<Slice>): Result<seq<byte>, Slice> {
    if slices == [] then Ok([])
    else if !slices[0].Raw? then Err(slices[0])
    else
      var rest :- Joined(slices[1..]);
      Ok(slices[0].bytes + rest)
  }

  /** A line that neither opens nor ends an invocation, seen by the innermost open chunk. */
  function Recorded(r: Rec, line: Line): Rec {
    match line
    case Log(text) => Noted(r, line).(logs := r.logs + [text])
    case Data(slices) =>
      if Joined(slices).Ok? then Noted(r, line).(payloads := r.payloads + [Joined(slices).value]) else r
    case Consumed(id, units, limit) =>
      if id == r.programId then Noted(r, line).(units := Some((units, limit))) else Noted(r, line)
    case Return(id, payload) =>
      if id == r.programId && payload.Raw? then Noted(r, line).(returned := Some(payload.bytes)) else Noted(r, line)
    case _ => Noted(r, line)
  }

  function ErrorOf(current: Option<Rec>, line: Line): Option<Reason> {
    match line
    case Invoke(_, _) => None
    case Success(id) =>
      if current.None? then Some(SuccessWithoutInvoke)
      else if current.value.programId != id then Some(SuccessMismatch(current.value.programId, id)) else None
    case Failed(id, _) =>
      if current.None? then Some(FailedWithoutInvoke)
      else if current.value.programId != id then Some(FailedMismatch(current.value.programId, id)) else None
    case Log(_) => if current.None? then Some(LogOutside) else None
    case Data(slices) =>
      if current.None? then Some(DataOutside)
      else if Joined(slices).Err? then Some(BadData(Joined(slices).error)) else None
    case Consumed(id, _, _) =>
      if current.None? || current.value.programId != id then Some(UnitsElsewhere) else None
    case Return(id, payload) =>
      if current.None? || current.value.programId != id then Some(ReturnElsewhere)
      else if !payload.Raw? then Some(BadReturn(payload)) else None
    case Consumption(_) => None
    case LogTruncated => None
    case Other(_) => Some(Unrecognized)
  }

  // ---- The parser on values ----

  /** `stack` holds the open chunks, outermost first, each with its finished children only. */
  datatype State = State(roots: seq<Node>, stack: seq<Node>, errors: seq<ParseError>, truncated: bool)

  function Top(stack: seq<Node>): Option<Rec> {
    if stack == [] then None else Some(stack[|stack| - 1].rec)
  }

  /** The innermost open chunk replaced. */
  function OnTop(stack: seq<Node>, f: Rec): seq<Node>
    requires stack != []
  {
    stack[|stack| - 1 := stack[|stack| - 1].(rec := f)]
  }

  /** The innermost chunk ends: it becomes the last child of the chunk below, or the last root. */
  function Close(s: State, r: Rec): State
    requires s.stack != []
  {
    var n := |s.stack|;
    var node := Node(r, s.stack[n - 1].children);
    if n == 1 then s.(roots := s.roots + [node], stack := [])
    else
      var below := s.stack[n - 2];
      s.(stack := s.stack[..n - 2] + [below.(children := below.children + [node])])
  }

  function WithTop(s: State, r: Rec): State
    requires s.stack != []
  {
    s.(stack := OnTop(s.stack, r))
  }

  function Reported(s: State, i: nat, line: Line): State {
    var e := ErrorOf(Top(s.stack), line);
    s.(errors := if e.Some? then s.errors + [ParseError(i, line, e.value)] else s.errors,
       truncated := s.truncated || line.LogTruncated?)
  }

  function Step(s: State, i: nat, line: Line): State {
    var t := Reported(s, i, line);
    if line.Invoke? then
      var below := if s.stack == [] then [] else OnTop(s.stack, Noted(Top(s.stack).value, line));
      t.(stack := below + [Node(Opened(line), [])])
    else if s.stack == [] then t
    else if Terminator(line) then
      var u := Close(t, Ended(Top(s.stack).value, line));
      if u.stack == [] then u else WithTop(u, Noted(Top(u.stack).value, line))
    else WithTop(t, Recorded(Top(s.stack).value, line))
  }

  /** The lines from index `i` on. */
  function Run(s: State, i: nat, lines: seq<Line>): State
    decreases |lines|
  {
    if lines == [] then s else Run(Step(s, i, lines[0]), i + 1, lines[1..])
  }

  /** Chunks still open when the lines end are marked truncated. */
  function CloseAll(s: State): State
    decreases |s.stack|
  {
    if s.stack == [] then s else CloseAll(Close(s, Cut(Top(s.stack).value)))
  }

  function Start(): State {
    State([], [], [], false)
  }

  function Parse(lines: seq<Line>): TransactionLog {
    var s := CloseAll(Run(Start(), 0, lines));
    TransactionLog(s.roots, s.errors, s.truncated)
  }

  // ---- The parser on the heap ----

  /** A chunk object: an open one is already among its parent's children and is filled in afterwards. */
  class Chunk {
    var programId: string
    var depth: nat
    var success: bool
    var failureReason: Option<string>
    var logs: seq<string>
    var dataPayloads: seq<seq<byte>>
    var computeUnits: Option<(nat, nat)>
    var returnData: Option<seq<byte>>
    var children: seq<Chunk>
    var rawLines: seq<Line>

    constructor (programId: string, depth: nat, line: Line)
      ensures Fields() == Rec(programId, depth, false, None, [], [], None, None, [line]) && children == []
    {
      this.programId, this.depth, success, failureReason := programId, depth, false, None;
      logs, dataPayloads, computeUnits, returnData, children, rawLines := [], [], None, None, [], [line];
    }

    function Fields(): Rec
      reads this
    {
      Rec(programId, depth, success, failureReason, logs, dataPayloads, computeUnits, returnData, rawLines)
    }

    /** A line seen while this chunk is the innermost open one, and what is wrong with it. */
    method Record(line: Line) returns (wrong: Option<Reason>)
      requires !line.Invoke? && !Terminator(line)
      modifies this
      ensures Fields() == Recorded(old(Fields()), line) && children == old(children)
      ensures wrong == ErrorOf(Some(old(Fields())), line)
    {
      wrong := None;
      match line {
        case Log(text) =>
          logs := logs + [text];
        case Data(slices) =>
          var joined := JoinSlices(slices);
          if joined.Err? {
            return Some(BadData(joined.error));
          }
          dataPayloads := dataPayloads + [joined.value];
        case Consumed(id, units, limit) =>
          if id == programId {
            computeUnits := Some((units, limit));
          } else {
            wrong := Some(UnitsElsewhere);
          }
        case Return(id, payload) =>
          if id != programId {
            wrong := Some(ReturnElsewhere);
          } else if payload.Raw? {
            returnData := Some(payload.bytes);
          } else {
            wrong := Some(BadReturn(payload));
          }
        case Other(_) =>
          wrong := Some(Unrecognized);
        case _ =>
      }
      rawLines := rawLines + [line];
    }
  }

  /** `c` is the root of a tree of chunks of `s` whose value is `n`. */
  ghost predicate Holds(c: Chunk, n: Node, s: set<Chunk>)
    reads s
    decreases n
  {
    && c in s && c.Fields() == n.rec && |c.children| == |n.children|
    && forall i :: 0 <= i < |n.children| ==> Holds(c.children[i], n.children[i], s)
  }

  /** The finished trees `ns` come first in `cs`, and then the open chunk `stack[k]` if there is one. */
  ghost predicate HoldsThen(cs: seq<Chunk>, ns: seq<Node>, stack: seq<Chunk>, k: nat, s: set<Chunk>)
    reads s
  {
    && |cs| == |ns| + (if k < |stack| then 1 else 0)
    && (k < |stack| ==> cs[|ns|] == stack[k])
    && forall i :: 0 <= i < |ns| ==> Holds(cs[i], ns[i], s)
  }

  /** `stack[k]` is open with the contents of `n`. */
  ghost predicate FrameHolds(stack: seq<Chunk>, k: nat, n: Node, s: set<Chunk>)
    requires k < |stack|
    reads stack[k], s
  {
    stack[k] !in s && stack[k].Fields() == n.rec && HoldsThen(stack[k].children, n.children, stack, k + 1, s)
  }

  lemma {:induction false} HoldsMore(c: Chunk, n: Node, s: set<Chunk>, more: set<Chunk>)
    requires Holds(c, n, s) && s <= more
    ensures Holds(c, n, more)
    decreases n
  {
    forall i | 0 <= i < |n.children|
      ensures Holds(c.children[i], n.children[i], more)
    {
      HoldsMore(c.children[i], n.children[i], s, more);
    }
  }

  /** Decode and join the slices of a data line. */
  method JoinSlices(slices: seq<Slice>) returns (r: Result<seq<byte>, Slice>)
    ensures r == Joined(slices)
  {
    var joined: seq<byte> := [];
    var k := 0;
    assert slices[0..] == slices;
    assert Joined(slices).Ok? ==> joined + Joined(slices).value == Joined(slices).value;
    while k < |slices|
      invariant 0 <= k <= |slices|
      invariant Joined(slices[k..]).Ok? ==> Joined(slices) == Ok(joined + Joined(slices[k..]).value)
      invariant Joined(slices[k..]).Err? ==> Joined(slices) == Joined(slices[k..])
    {
      assert slices[k..][1..] == slices[k + 1..];
      if !slices[k].Raw? {
        return Err(slices[k]);
      }
      if Joined(slices[k + 1..]).Ok? {
        assert joined + (slices[k].bytes + Joined(slices[k + 1..]).value)
          == joined + slices[k].bytes + Joined(slices[k + 1..]).value;
      }
      joined := joined + slices[k].bytes;
      k := k + 1;
    }
    assert joined + [] == joined;
    r := Ok(joined);
  }

  lemma InvokeNeverErrs(current: Option<Rec>, line: Line)
    requires line.Invoke?
    ensures ErrorOf(current, line) == None
  {
  }

  lemma TerminatorErrs(current: Option<Rec>, line: Line)
    requires Terminator(line)
    ensures ErrorOf(current, line) ==
            if current.None? then Some(if line.Success? then SuccessWithoutInvoke else FailedWithoutInvoke)
            else if current.value.programId == line.programId then None
            else Some(if line.Success? then SuccessMismatch(current.value.programId, line.programId)
                      else FailedMismatch(current.value.programId, line.programId))
  {
  }

  lemma TerminatorStep(s: State, i: nat, line: Line)
    requires Terminator(line)
    ensures Step(s, i, line) ==
            var t := Reported(s, i, line);
            if s.stack == [] then t
            else
              var ended := WithTop(t, Ended(Top(s.stack).value, line));
              var popped := Close(ended, Top(ended.stack).value);
              if popped.stack == [] then popped else WithTop(popped, Noted(Top(popped.stack).value, line))
  {
    hide ErrorOf;
  }

  lemma CloseWritten(s: State, r: Rec)
    requires s.stack != []
    ensures Close(WithTop(s, r), r) == Close(s, r)
  {
  }

  /** The variables of parseLogs; `closed` are the chunks that have ended. */
  class Parser {
    var roots: seq<Chunk>
    var stack: seq<Chunk>
    var parseErrors: seq<ParseError>
    var logTruncated: bool
    ghost var closed: set<Chunk>

    ghost predicate Models(s: State)
      reads this, stack, closed
    {
      && |stack| == |s.stack|
      && (forall j, k :: 0 <= j < k < |stack| ==> stack[j] != stack[k])
      && (forall k :: 0 <= k < |stack| ==> FrameHolds(stack, k, s.stack[k], closed))
      && HoldsThen(roots, s.roots, stack, 0, closed)
      && parseErrors == s.errors && logTruncated == s.truncated
    }

    constructor ()
      ensures Models(Start()) && stack == [] && closed == {}
    {
      roots, stack, parseErrors, logTruncated, closed := [], [], [], false, {};
    }

    /** The open chunks of the model are those on the stack. */
    lemma TopMatches(s: State)
      requires Models(s)
      ensures |stack| == |s.stack|
      ensures stack != [] ==> stack[|stack| - 1].Fields() == Top(s.stack).value
    {
      assert stack != [] ==> FrameHolds(stack, |stack| - 1, s.stack[|stack| - 1], closed);
    }

    method Report(ghost s: State, i: nat, line: Line, reason: Reason)
      requires Models(s)
      modifies this`parseErrors
      ensures Models(s.(errors := s.errors + [ParseError(i, line, reason)]))
    {
      hide Holds, HoldsThen, FrameHolds;
      parseErrors := parseErrors + [ParseError(i, line, reason)];
    }

    /** `Program <id> invoke [<depth>]`: a new chunk under the innermost open one. */
    method OnInvoke(ghost s: State, i: nat, line: Line)
      requires Models(s) && line.Invoke?
      modifies this, stack
      ensures Models(Step(s, i, line)) && closed == old(closed)
      ensures |stack| == |old(stack)| + 1 && stack[..|old(stack)|] == old(stack) && fresh(stack[|old(stack)|])
    {
      hide Holds, HoldsThen, FrameHolds, Models, ErrorOf;
      InvokeNeverErrs(Top(s.stack), line);
      TopMatches(s);
      ghost var noted := if s.stack == [] then s else WithTop(s, Noted(Top(s.stack).value, line));
      if stack != [] {
        NoteTop(s, line);
      }
      Push(noted, line);
    }

    /** A new chunk, among the children of the innermost open one or the roots, goes on the stack. */
    method Push(ghost s: State, line: Line)
      requires Models(s) && line.Invoke?
      modifies this, stack
      ensures Models(s.(stack := s.stack + [Node(Opened(line), [])])) && closed == old(closed)
      ensures |stack| == |old(stack)| + 1 && stack[..|old(stack)|] == old(stack) && fresh(stack[|old(stack)|])
    {
      hide Holds;
      var chunk := new Chunk(line.programId, line.depth, line);
      if stack != [] {
        var parent := stack[|stack| - 1];
        assert FrameHolds(stack, |stack| - 1, s.stack[|stack| - 1], closed);
        parent.children := parent.children + [chunk];
      } else {
        roots := roots + [chunk];
      }
      stack := stack + [chunk];
      ghost var after := s.stack + [Node(Opened(line), [])];
      forall k | 0 <= k < |stack|
        ensures FrameHolds(stack, k, after[k], closed)
      {
        if k < |stack| - 1 {
          assert old(FrameHolds(stack, k, s.stack[k], closed));
        }
      }
    }

    /** `success` or `failed`: the innermost open chunk ends, whatever program the line names. */
    method OnTerminator(ghost s: State, i: nat, line: Line)
      requires Models(s) && Terminator(line)
      modifies this, stack
      ensures Models(Step(s, i, line)) && closed <= old(closed) + set c | c in old(stack)
      ensures stack <= old(stack)
    {
      hide Holds, HoldsThen, FrameHolds, Models, ErrorOf, Close, Ended;
      TerminatorErrs(Top(s.stack), line);
      TopMatches(s);
      ghost var reported := Reported(s, i, line);
      if stack == [] {
        Report(s, i, line, if line.Success? then SuccessWithoutInvoke else FailedWithoutInvoke);
        return;
      }
      if stack[|stack| - 1].programId != line.programId {
        Report(s, i, line, if line.Success? then SuccessMismatch(stack[|stack| - 1].programId, line.programId)
                           else FailedMismatch(stack[|stack| - 1].programId, line.programId));
      }
      EndTop(reported, line);
      ghost var ended := WithTop(reported, Ended(Top(s.stack).value, line));
      Pop(ended);
      ghost var popped := Close(ended, Top(ended.stack).value);
      TopMatches(popped);
      if stack != [] {
        NoteTop(popped, line);
      }
      TerminatorStep(s, i, line);
    }

    /** The terminator's outcome, written into the innermost open chunk. */
    method EndTop(ghost s: State, line: Line)
      requires stack != [] && Terminator(line) && Models(s)
      modifies stack[|stack| - 1]
      ensures Models(WithTop(s, Ended(Top(s.stack).value, line)))
    {
      hide Holds;
      var current := stack[|stack| - 1];
      assert FrameHolds(stack, |stack| - 1, s.stack[|stack| - 1], closed);
      if line.Success? {
        current.success := true;
      } else {
        current.success, current.failureReason := false, Some(line.reason);
      }
      current.rawLines := current.rawLines + [line];
      forall k | 0 <= k < |stack|
        ensures FrameHolds(stack, k, WithTop(s, Ended(Top(s.stack).value, line)).stack[k], closed)
      {
        assert old(FrameHolds(stack, k, s.stack[k], closed));
      }
    }

    /** A line kept in the innermost open chunk's raw trace. */
    method NoteTop(ghost s: State, line: Line)
      requires stack != [] && Models(s)
      modifies stack[|stack| - 1]
      ensures Models(WithTop(s, Noted(Top(s.stack).value, line)))
    {
      hide Holds;
      var current := stack[|stack| - 1];
      assert FrameHolds(stack, |stack| - 1, s.stack[|stack| - 1], closed);
      current.rawLines := current.rawLines + [line];
      forall k | 0 <= k < |stack|
        ensures FrameHolds(stack, k, WithTop(s, Noted(Top(s.stack).value, line)).stack[k], closed)
      {
        assert old(FrameHolds(stack, k, s.stack[k], closed));
      }
    }

    /** Any other line: the innermost open chunk records it; outside every invocation most are errors. */
    method OnOther(ghost s: State, i: nat, line: Line)
      requires Models(s) && !line.Invoke? && !Terminator(line)
      modifies this`parseErrors, this`logTruncated, stack
      ensures Models(Step(s, i, line)) && closed == old(closed) && stack == old(stack)
    {
      hide Holds, HoldsThen, FrameHolds, Models, ErrorOf, Recorded;
      TopMatches(s);
      var wrong := None;
      if stack == [] {
        wrong := Outside(line);
      } else {
        wrong := RecordTop(s, line);
      }
      ghost var recorded := if s.stack == [] then s else WithTop(s, Recorded(Top(s.stack).value, line));
      if wrong.Some? {
        Report(recorded, i, line, wrong.value);
      }
      if line.LogTruncated? {
        SetTruncated(if wrong.Some? then recorded.(errors := s.errors + [ParseError(i, line, wrong.value)])
                     else recorded);
      }
    }

    method Outside(line: Line) returns (wrong: Option<Reason>)
      requires !line.Invoke? && !Terminator(line)
      ensures wrong == ErrorOf(None, line)
    {
      match line {
        case Log(_) => wrong := Some(LogOutside);
        case Data(_) => wrong := Some(DataOutside);
        case Consumed(_, _, _) => wrong := Some(UnitsElsewhere);
        case Return(_, _) => wrong := Some(ReturnElsewhere);
        case Other(_) => wrong := Some(Unrecognized);
        case _ => wrong := None;
      }
    }

    method RecordTop(ghost s: State, line: Line) returns (wrong: Option<Reason>)
      requires Models(s) && stack != [] && !line.Invoke? && !Terminator(line)
      modifies stack[|stack| - 1]
      ensures Models(WithTop(s, Recorded(Top(s.stack).value, line)))
      ensures wrong == ErrorOf(Top(s.stack), line)
    {
      hide Holds, ErrorOf, Recorded;
      assert FrameHolds(stack, |stack| - 1, s.stack[|stack| - 1], closed);
      wrong := stack[|stack| - 1].Record(line);
      forall k | 0 <= k < |stack|
        ensures FrameHolds(stack, k, WithTop(s, Recorded(Top(s.stack).value, line)).stack[k], closed)
      {
        assert old(FrameHolds(stack, k, s.stack[k], closed));
      }
    }

    method SetTruncated(ghost s: State)
      requires Models(s)
      modifies this`logTruncated
      ensures Models(s.(truncated := true))
    {
      hide Holds, HoldsThen, FrameHolds;
      logTruncated := true;
    }

    /** The lines ran out: every open chunk, innermost first, is marked truncated. */
    method TruncateOpen(ghost s: State)
      requires Models(s)
      modifies this, stack
      ensures Models(CloseAll(s)) && stack == []
      ensures closed == old(closed) + set c | c in old(stack)
    {
      hide Holds, HoldsThen, FrameHolds, Models, Close;
      ghost var t := s;
      TopMatches(s);
      while stack != []
        invariant Models(t) && CloseAll(t) == CloseAll(s) && |stack| == |t.stack|
        invariant stack <= old(stack)
        invariant closed == old(closed) + set c | c in old(stack)[|stack|..]
        decreases |stack|
      {
        CutTop(t);
        CloseWritten(t, Cut(Top(t.stack).value));
        t := WithTop(t, Cut(Top(t.stack).value));
        Pop(t);
        t := Close(t, Top(t.stack).value);
        TopMatches(t);
      }
    }

    method CutTop(ghost s: State)
      requires Models(s) && stack != []
      modifies stack[|stack| - 1]
      ensures Models(WithTop(s, Cut(Top(s.stack).value)))
    {
      hide Holds;
      assert FrameHolds(stack, |stack| - 1, s.stack[|stack| - 1], closed);
      var current := stack[|stack| - 1];
      current.success, current.failureReason := false, Some(TRUNCATED);
      forall k | 0 <= k < |stack|
        ensures FrameHolds(stack, k, WithTop(s, Cut(Top(s.stack).value)).stack[k], closed)
      {
        assert old(FrameHolds(stack, k, s.stack[k], closed));
      }
    }

    /** The innermost chunk leaves the stack; it already sits among its parent's children. */
    method Pop(ghost s: State)
      requires Models(s) && stack != []
      modifies this`stack, this`closed
      ensures Models(Close(s, Top(s.stack).value))
      ensures closed == old(closed) + {old(stack)[|old(stack)| - 1]} && stack == old(stack)[..|old(stack)| - 1]
    {
      hide Holds;
      var n := |stack|;
      ghost var last, before := stack[n - 1], closed;
      stack := stack[..n - 1];
      closed := closed + {last};
      ghost var node := s.stack[n - 1];
      PopHolds(last, node, before, closed);
      ghost var after := Close(s, node.rec);
      forall k | 0 <= k < n - 1
        ensures FrameHolds(stack, k, after.stack[k], closed)
      {
        assert old(FrameHolds(stack, k, s.stack[k], closed));
        HoldsThenMore(old(stack), stack[k].children, s.stack[k].children, k + 1, node, before, closed);
      }
      HoldsThenMore(old(stack), roots, s.roots, 0, node, before, closed);
    }
  }

  /** A chunk that ends over finished children is finished. */
  lemma PopHolds(c: Chunk, n: Node, s: set<Chunk>, more: set<Chunk>)
    requires c in more && s <= more && c.Fields() == n.rec && |c.children| == |n.children|
    requires forall i :: 0 <= i < |n.children| ==> Holds(c.children[i], n.children[i], s)
    ensures Holds(c, n, more)
  {
    forall i | 0 <= i < |n.children|
      ensures Holds(c.children[i], n.children[i], more)
    {
      HoldsMore(c.children[i], n.children[i], s, more);
    }
  }

  /** What a list of chunks holds once the innermost open chunk has ended. */
  lemma HoldsThenMore(stack: seq<Chunk>, cs: seq<Chunk>, ns: seq<Node>, k: nat, node: Node, s: set<Chunk>,
                      more: set<Chunk>)
    requires stack != [] && k <= |stack| - 1 && s <= more
    requires HoldsThen(cs, ns, stack, k, s) && Holds(stack[|stack| - 1], node, more)
    ensures HoldsThen(cs, if k == |stack| - 1 then ns + [node] else ns, stack[..|stack| - 1], k, more)
  {
    forall i | 0 <= i < |ns|
      ensures Holds(cs[i], ns[i], more)
    {
      HoldsMore(cs[i], ns[i], s, more);
    }
  }

  /** parseLogs: the returned chunk objects hold the trees, errors and flag of the parser on values. */
  method ParseLogs(logs: seq<Line>)
    returns (chunks: seq<Chunk>, parseErrors: seq<ParseError>, logTruncated: bool, ghost made: set<Chunk>)
    ensures fresh(made)
    ensures |chunks| == |Parse(logs).chunks|
    ensures forall k :: 0 <= k < |chunks| ==> Holds(chunks[k], Parse(logs).chunks[k], made)
    ensures parseErrors == Parse(logs).parseErrors && logTruncated == Parse(logs).logTruncated
  {
    hide Step, Holds;
    var p := new Parser();
    ghost var s := Start();
    var i := 0;
    assert logs[0..] == logs;
    while i < |logs|
      invariant 0 <= i <= |logs|
      invariant p.Models(s) && fresh(p) && fresh(p.closed) && fresh(set c | c in p.stack)
      invariant Run(Start(), 0, logs) == Run(s, i, logs[i..])
    {
      var line := logs[i];
      assert logs[i..][0] == line && logs[i..][1..] == logs[i + 1..];
      if line.Invoke? {
        p.OnInvoke(s, i, line);
      } else if Terminator(line) {
        p.OnTerminator(s, i, line);
      } else {
        p.OnOther(s, i, line);
      }
      s := Step(s, i, line);
      i := i + 1;
    }
    p.TruncateOpen(s);
    return p.roots, p.parseErrors, p.logTruncated, p.closed;
  }
}
