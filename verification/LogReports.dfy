/** Units, return data and errors of the log parser (packages/solana-events/src/parse-logs.ts). */
module LogReports {
  import opened Wrappers
  import opened Bytes
  import opened LogTypes
  import opened Logs
  import opened LogFacts

  // ---- Joined data ----

  ghost predicate AllRaw(slices: seq<Slice>) {
    forall i :: 0 <= i < |slices| ==> slices[i].Raw?
  }

  function BytesOf(slices: seq<Slice>): (bs: seq<seq<byte>>)
    requires AllRaw(slices)
    ensures |bs| == |slices|
  {
    seq(|slices|, i requires 0 <= i < |slices| => slices[i].bytes)
  }

  /** Slices decode together or not at all: their bytes in order, or the first that does not decode. */
  lemma {:induction false} JoinedIs(slices: seq<Slice>)
    ensures Joined(slices).Ok? <==> AllRaw(slices)
    ensures AllRaw(slices) ==> Joined(slices) == Ok(Flatten(BytesOf(slices)))
    ensures Joined(slices).Err? ==>
              exists k :: 0 <= k < |slices| && AllRaw(slices[..k]) && !slices[k].Raw?
                          && Joined(slices).error == slices[k]
    decreases |slices|
  {
    if slices != [] {
      var rest := slices[1..];
      JoinedIs(rest);
      assert forall i :: 0 <= i < |rest| ==> rest[i] == slices[i + 1];
      if AllRaw(slices) {
        assert BytesOf(slices)[1..] == BytesOf(rest);
      } else if slices[0].Raw? {
        var k :| 0 <= k < |rest| && AllRaw(rest[..k]) && !rest[k].Raw? && Joined(rest).error == rest[k];
        var pre := slices[..k + 1];
        forall i | 0 <= i < |pre|
          ensures pre[i].Raw?
        {
          if i > 0 {
            assert pre[i] == rest[..k][i - 1];
          }
        }
        assert AllRaw(slices[..k + 1]) && slices[k + 1] == rest[k];
      } else {
        assert AllRaw(slices[..0]);
      }
    }
  }

  // ---- Units and return data ----

  /** The last units line of the invocation's own that names its program. */
  function OwnUnits(rest: seq<Line>, d: nat, id: string): Option<(nat, nat)> {
    if rest == [] then None
    else
      var line := rest[0];
      if line.Invoke? then OwnUnits(rest[1..], d + 1, id)
      else if Terminator(line) then (if d == 0 then None else OwnUnits(rest[1..], d - 1, id))
      else
        var later := OwnUnits(rest[1..], d, id);
        if later.Some? then later
        else if d == 0 && line.Consumed? && line.programId == id then Some((line.units, line.limit)) else None
  }

  /** The last return line of the invocation's own that names its program and decodes. */
  function OwnReturn(rest: seq<Line>, d: nat, id: string): Option<seq<byte>> {
    if rest == [] then None
    else
      var line := rest[0];
      if line.Invoke? then OwnReturn(rest[1..], d + 1, id)
      else if Terminator(line) then (if d == 0 then None else OwnReturn(rest[1..], d - 1, id))
      else
        var later := OwnReturn(rest[1..], d, id);
        if later.Some? then later
        else if d == 0 && line.Return? && line.programId == id && line.payload.Raw? then Some(line.payload.bytes)
        else None
  }

  lemma RecordedReports(r: Rec, line: Line)
    requires !line.Invoke? && !Terminator(line)
    ensures var f := Recorded(r, line);
            && f.programId == r.programId
            && f.units == (if line.Consumed? && line.programId == r.programId
                           then Some((line.units, line.limit)) else r.units)
            && f.returned == (if line.Return? && line.programId == r.programId && line.payload.Raw?
                              then Some(line.payload.bytes) else r.returned)
            && f.failureReason == r.failureReason
  {
    hide Joined;
  }

  lemma {:induction false} LifeReports(r: Rec, rest: seq<Line>, d: nat)
    ensures var own := OwnUnits(rest, d, r.programId);
            Life(r, rest, d).units == if own.Some? then own else r.units
    ensures var own := OwnReturn(rest, d, r.programId);
            Life(r, rest, d).returned == if own.Some? then own else r.returned
    decreases |rest|
  {
    hide Recorded;
    if rest != [] {
      var line := rest[0];
      if line.Invoke? {
        LifeReports(if d == 0 then Noted(r, line) else r, rest[1..], d + 1);
      } else if !Terminator(line) {
        RecordedReports(r, line);
        LifeReports(if d == 0 then Recorded(r, line) else r, rest[1..], d);
      } else if d > 0 {
        LifeReports(if d == 1 then Noted(r, line) else r, rest[1..], d - 1);
      }
    }
  }

  lemma {:induction false} LifeSucceeds(r: Rec, rest: seq<Line>, d: nat)
    requires r.failureReason == None
    ensures EndOf(rest, d).Some? && EndOf(rest, d).value.Success? ==> Life(r, rest, d).failureReason == None
    decreases |rest|
  {
    hide Recorded;
    if rest != [] {
      var line := rest[0];
      if line.Invoke? {
        LifeSucceeds(if d == 0 then Noted(r, line) else r, rest[1..], d + 1);
      } else if !Terminator(line) {
        RecordedReports(r, line);
        LifeSucceeds(if d == 0 then Recorded(r, line) else r, rest[1..], d);
      } else if d > 0 {
        LifeSucceeds(if d == 1 then Noted(r, line) else r, rest[1..], d - 1);
      }
    }
  }

  /** Units and return data are the chunk's own last ones, whatever nested programs report; a success has no reason. */
  lemma Reports(lines: seq<Line>, k: nat)
    requires k < |Invokes(lines)|
    ensures |Preorder(lines)| == |Invokes(lines)|
    ensures var r, p := Preorder(lines)[k].rec, InvokeAt(lines, k);
            && r.units == OwnUnits(lines[p + 1..], 0, lines[p].programId)
            && r.returned == OwnReturn(lines[p + 1..], 0, lines[p].programId)
            && (r.success ==> r.failureReason == None)
  {
    hide Preorder, Life, OwnUnits, OwnReturn, InvokeAt, Invokes, EndOf;
    PreorderIsInvokes(lines);
    Outcomes(lines, k);
    var p := InvokeAt(lines, k);
    LifeReports(Opened(lines[p]), lines[p + 1..], 0);
    LifeSucceeds(Opened(lines[p]), lines[p + 1..], 0);
  }

  // ---- Errors ----

  /** The programs of the invocations still open after `lines`, outermost first. */
  function OpenPrograms(lines: seq<Line>): seq<string> {
    if lines == [] then []
    else
      var before, line := OpenPrograms(lines[..|lines| - 1]), lines[|lines| - 1];
      if line.Invoke? then before + [line.programId]
      else if Terminator(line) && before != [] then before[..|before| - 1]
      else before
  }

  /** Why a line is an error while the programs of `open` are executing. */
  ghost predicate Wrong(open: seq<string>, line: Line, why: Reason) {
    match why
    case SuccessWithoutInvoke => line.Success? && open == []
    case FailedWithoutInvoke => line.Failed? && open == []
    case SuccessMismatch(expected, got) =>
      line.Success? && open != [] && expected == open[|open| - 1] && got == line.programId && expected != got
    case FailedMismatch(expected, got) =>
      line.Failed? && open != [] && expected == open[|open| - 1] && got == line.programId && expected != got
    case LogOutside => line.Log? && open == []
    case DataOutside => line.Data? && open == []
    case BadData(bad) => line.Data? && open != [] && Joined(line.slices) == Err(bad)
    case UnitsElsewhere => line.Consumed? && (open == [] || open[|open| - 1] != line.programId)
    case ReturnElsewhere => line.Return? && (open == [] || open[|open| - 1] != line.programId)
    case BadReturn(bad) =>
      line.Return? && open != [] && open[|open| - 1] == line.programId && bad == line.payload && !bad.Raw?
    case Unrecognized => line.Other?
  }

  /** The parser's stack runs the programs that are open. */
  ghost predicate Runs(s: State, open: seq<string>) {
    |s.stack| == |open| && forall i :: 0 <= i < |open| ==> s.stack[i].rec.programId == open[i]
  }

  lemma ErrorIs(s: State, open: seq<string>, line: Line, why: Reason)
    requires Runs(s, open)
    ensures ErrorOf(Top(s.stack), line) == Some(why) <==> Wrong(open, line, why)
  {
    hide Joined;
  }

  lemma StepRuns(s: State, i: nat, line: Line, open: seq<string>)
    requires Runs(s, open)
    ensures Runs(Step(s, i, line),
                 if line.Invoke? then open + [line.programId]
                 else if Terminator(line) && open != [] then open[..|open| - 1]
                 else open)
    ensures Step(s, i, line).errors == s.errors + match ErrorOf(Top(s.stack), line)
                                                  case Some(why) => [ParseError(i, line, why)]
                                                  case None => []
  {
    hide Joined, ErrorOf;
    if !line.Invoke? && !Terminator(line) && s.stack != [] {
      RecordedReports(Top(s.stack).value, line);
    }
  }

  /** The errors of the lines from `from` on, in order and complete. */
  ghost predicate ErrorsFrom(lines: seq<Line>, from: nat, es: seq<ParseError>) {
    && (forall j, k :: 0 <= j < k < |es| ==> es[j].lineIndex < es[k].lineIndex)
    && forall i: nat, line, why ::
         ParseError(i, line, why) in es
         <==> from <= i < |lines| && line == lines[i] && Wrong(OpenPrograms(lines[..i]), line, why)
  }

  lemma OpenMore(done: seq<Line>, line: Line)
    ensures var open := OpenPrograms(done);
            OpenPrograms(done + [line])
            == if line.Invoke? then open + [line.programId]
               else if Terminator(line) && open != [] then open[..|open| - 1]
               else open
  {
    assert (done + [line])[..|done|] == done;
  }

  lemma OneReason(open: seq<string>, line: Line, a: Reason, b: Reason)
    requires Wrong(open, line, a) && Wrong(open, line, b)
    ensures a == b
  {
    hide Joined;
  }

  /** The errors of one line in front of those of the rest. */
  lemma ErrorsCons(lines: seq<Line>, from: nat, first: Option<Reason>, rest: seq<ParseError>)
    requires from < |lines| && ErrorsFrom(lines, from + 1, rest)
    requires forall why :: first == Some(why) <==> Wrong(OpenPrograms(lines[..from]), lines[from], why)
    ensures ErrorsFrom(lines, from, (if first.Some? then [ParseError(from, lines[from], first.value)] else []) + rest)
  {
    hide Wrong, OpenPrograms;
    var head := if first.Some? then [ParseError(from, lines[from], first.value)] else [];
    forall e | e in rest
      ensures e.lineIndex > from
    {
      assert ParseError(e.lineIndex, e.line, e.reason) in rest;
    }
    assert forall k :: 0 <= k < |rest| ==> rest[k] in rest;
    assert forall e :: e in head + rest <==> e in head || e in rest;
  }

  lemma NoErrors(lines: seq<Line>)
    ensures ErrorsFrom(lines, |lines|, [])
  {
  }

  lemma {:induction false} RunErrors(s: State, lines: seq<Line>, i: nat) returns (more: seq<ParseError>)
    requires i <= |lines| && Runs(s, OpenPrograms(lines[..i]))
    ensures Run(s, i, lines[i..]).errors == s.errors + more && ErrorsFrom(lines, i, more)
    decreases |lines| - i
  {
    hide Step, ErrorOf, Wrong, OpenPrograms, Runs, ErrorsFrom;
    if i == |lines| {
      more := [];
      NoErrors(lines);
      assert s.errors + [] == s.errors;
    } else {
      var line := lines[i];
      assert lines[i..][1..] == lines[i + 1..] && lines[i..][0] == line;
      assert lines[..i + 1] == lines[..i] + [line];
      OpenMore(lines[..i], line);
      StepRuns(s, i, line, OpenPrograms(lines[..i]));
      forall why
        ensures ErrorOf(Top(s.stack), line) == Some(why) <==> Wrong(OpenPrograms(lines[..i]), line, why)
      {
        ErrorIs(s, OpenPrograms(lines[..i]), line, why);
      }
      var rest := RunErrors(Step(s, i, line), lines, i + 1);
      var first := ErrorOf(Top(s.stack), line);
      ErrorsCons(lines, i, first, rest);
      var head := if first.Some? then [ParseError(i, line, first.value)] else [];
      more := head + rest;
      assert s.errors + head + rest == s.errors + (head + rest);
    }
  }

  lemma {:induction false} RunTruncated(s: State, i: nat, lines: seq<Line>)
    ensures Run(s, i, lines).truncated == (s.truncated || exists k :: 0 <= k < |lines| && lines[k].LogTruncated?)
    decreases |lines|
  {
    hide Step;
    if lines != [] {
      StepTruncated(s, i, lines[0]);
      RunTruncated(Step(s, i, lines[0]), i + 1, lines[1..]);
      assert forall k :: 1 <= k < |lines| ==> lines[k] == lines[1..][k - 1];
    }
  }

  lemma StepTruncated(s: State, i: nat, line: Line)
    ensures Step(s, i, line).truncated == (s.truncated || line.LogTruncated?)
  {
    hide ErrorOf, Recorded;
  }

  lemma {:induction false} CloseAllReports(s: State)
    ensures CloseAll(s).errors == s.errors && CloseAll(s).truncated == s.truncated
    decreases |s.stack|
  {
    if s.stack != [] {
      CloseAllReports(Close(s, Cut(Top(s.stack).value)));
    }
  }

  /**
   * On any lines, the parse errors are exactly the lines that are wrong for the programs open at that point, in line
   * order, at most one a line; and the log counts as truncated exactly when some line says so.
   */
  lemma ErrorsAre(lines: seq<Line>)
    ensures ErrorsFrom(lines, 0, Parse(lines).parseErrors)
    ensures Parse(lines).logTruncated <==> exists k :: 0 <= k < |lines| && lines[k].LogTruncated?
  {
    hide Run, CloseAll, Wrong;
    assert lines[..0] == [] && lines[0..] == lines;
    var more := RunErrors(Start(), lines, 0);
    RunTruncated(Start(), 0, lines);
    CloseAllReports(Run(Start(), 0, lines));
    assert [] + more == more;
  }
}
