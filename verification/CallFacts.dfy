/** How each call of the store ends, and that all of them do (packages/solana-portfolio/src/store-file.ts). */
module CallFacts {
  import opened Wrappers
  import opened Bytes
  import opened Lots
  import opened Ledger
  import opened LedgerJobs
  import opened LedgerRuns

  // ---- What became of a call ----

  /** The steps a schedule let call `i` take. */
  function Taken(files: map<string, WalletData>, es: seq<Step>, i: nat): seq<Step> {
    if es == [] then []
    else
      var front, e := es[..|es| - 1], es[|es| - 1];
      Taken(files, front, i) + if Enabled(Run(files, front), e) && !e.Invoke? && e.i == i then [e] else []
  }

  /** The wallet as the serial execution leaves it for call `i` refuses its job. */
  ghost predicate Refuses(files: map<string, WalletData>, calls: seq<Call>, i: nat)
    requires i < |calls|
  {
    Change(Serial(files, calls[..i], WalletOf(calls[i].job)).data, calls[i].job).Err?
  }

  /** A call loads, writes and finishes, and its outcome is told by which of these failed. */
  ghost predicate Ends(files: map<string, WalletData>, calls: seq<Call>, i: nat, steps: seq<Step>)
    requires i < |calls|
  {
    var phase := calls[i].phase;
    && |steps| <= 3
    && (|steps| >= 1 ==> steps[0].Load?)
    && (|steps| >= 2 ==> steps[0].ok && steps[1].Write?)
    && (|steps| >= 3 ==> steps[1].ok && steps[2].Finish? && !Refuses(files, calls, i))
    && match |steps|
       case 0 => phase == Waiting
       case 1 => if steps[0].ok then phase.Loaded? else phase == Finished(NotStored)
       case 2 =>
         phase == if Refuses(files, calls, i) then Finished(Rejected)
                  else if steps[1].ok then Written
                  else Finished(NotStored)
       case _ => phase == Finished(if steps[2].audited then Outcome.Applied else AuditFailed)
  }

  /** Once a call has started, nothing changes what it found. */
  lemma FoundStays(files: map<string, WalletData>, s: State, e: Step, i: nat)
    requires Inv(files, s) && Enabled(s, e) && i < |s.calls| && !s.calls[i].phase.Waiting?
    ensures i < |Next(s, e).calls| && Next(s, e).calls[i].job == s.calls[i].job
    ensures Refuses(files, Next(s, e).calls, i) <==> Refuses(files, s.calls, i)
  {
    hide Change, Chained, Serial, CallSerial;
    ChainedWell(s);
    var after, w := Next(s, e).calls, WalletOf(s.calls[i].job);
    if e.Invoke? || e.i >= i {
      assert after[..i] == s.calls[..i];
    } else {
      var other := s.calls[e.i];
      assert other.phase.Finished? || WalletOf(other.job) != w;
      DecidedAgree(after[..i], s.calls[..i], w);
      SameSerial(files, after[..i], s.calls[..i], w);
    }
  }

  lemma SameSerial(files: map<string, WalletData>, a: seq<Call>, b: seq<Call>, w: string)
    requires DecidedJobs(a, w) == DecidedJobs(b, w)
    ensures Serial(files, a, w) == Serial(files, b, w)
  {
  }

  /** The step of another call leaves this one as it is; its own takes it on. */
  lemma StepEnds(files: map<string, WalletData>, s: State, e: Step, i: nat, steps: seq<Step>)
    requires Inv(files, s) && Enabled(s, e) && i < |s.calls| && Ends(files, s.calls, i, steps)
    ensures i < |Next(s, e).calls|
    ensures Ends(files, Next(s, e).calls, i, if !e.Invoke? && e.i == i then steps + [e] else steps)
  {
    hide Change, Chained, Serial, Exclusive, Refuses;
    if !s.calls[i].phase.Waiting? {
      FoundStays(files, s, e, i);
    }
    if e.Write? && e.i == i {
      LoadedRefuses(files, s, i);
    }
  }

  lemma LoadedRefuses(files: map<string, WalletData>, s: State, i: nat)
    requires Inv(files, s) && i < |s.calls| && s.calls[i].phase.Loaded?
    ensures Refuses(files, s.calls, i) <==> Change(s.calls[i].phase.data, s.calls[i].job).Err?
  {
    hide Change, Chained, Serial, Exclusive;
    assert CallSerial(files, s.calls, i);
  }

  lemma NewCallEnds(files: map<string, WalletData>, s: State, j: Job)
    ensures WellChained(s.calls) ==>
              var after := Next(s, Invoke(j)).calls;
              |after| == |s.calls| + 1 && Ends(files, after, |s.calls|, [])
  {
    hide Refuses;
  }

  lemma {:induction false} NotYetTaken(files: map<string, WalletData>, es: seq<Step>, i: nat)
    requires i >= |Run(files, es).calls|
    ensures Taken(files, es, i) == []
    decreases |es|
  {
    hide Change;
    if es != [] {
      NotYetTaken(files, es[..|es| - 1], i);
    }
  }

  /**
   * After any schedule, every call has taken at most three steps, and how it stands follows from them: refused exactly
   * when the wallet that the serial execution leaves for it refuses its job, not stored when a read or write failed,
   * and otherwise stored, with or without its audit line.
   */
  lemma {:induction false} OutcomeIs(files: map<string, WalletData>, es: seq<Step>, i: nat)
    requires i < |Run(files, es).calls|
    ensures Ends(files, Run(files, es).calls, i, Taken(files, es, i))
    decreases |es|
  {
    hide Next, Ends, Inv, Enabled;
    var front, e := es[..|es| - 1], es[|es| - 1];
    var s := Run(files, front);
    RunIsSerial(files, front);
    assert Taken(files, front, i) + [] == Taken(files, front, i);
    if !Enabled(s, e) {
      OutcomeIs(files, front, i);
    } else if i < |s.calls| {
      OutcomeIs(files, front, i);
      StepEnds(files, s, e, i, Taken(files, front, i));
    } else {
      NotYetTaken(files, front, i);
      OnlyInvokeAdds(s, e);
      NewCallEnds(files, s, e.job);
    }
  }

  lemma OnlyInvokeAdds(s: State, e: Step)
    requires WellChained(s.calls) && Enabled(s, e)
    ensures |Next(s, e).calls| == if e.Invoke? then |s.calls| + 1 else |s.calls|
    ensures !e.Invoke? ==> e.i < |s.calls|
  {
    hide Change;
  }

  // ---- Every call gets done ----

  function Ahead(calls: seq<Call>): nat {
    if calls == [] then 0
    else
      Ahead(calls[..|calls| - 1])
      + match calls[|calls| - 1].phase
        case Waiting => 3
        case Loaded(_) => 2
        case Written => 1
        case Finished(_) => 0
  }

  ghost predicate AllFinished(calls: seq<Call>) {
    forall i :: 0 <= i < |calls| ==> calls[i].phase.Finished?
  }

  lemma {:induction false} AheadFalls(calls: seq<Call>, i: nat, phase: Phase)
    requires i < |calls| && !calls[i].phase.Finished?
    requires calls[i].phase.Waiting? ==> !phase.Waiting?
    requires calls[i].phase.Loaded? ==> phase.Written? || phase.Finished?
    requires calls[i].phase.Written? ==> phase.Finished?
    ensures Ahead(Move(calls, i, phase)) < Ahead(calls)
    decreases |calls|
  {
    var after, n := Move(calls, i, phase), |calls| - 1;
    if i == n {
      assert after[..n] == calls[..n];
    } else {
      assert after[..n] == Move(calls[..n], i, phase);
      AheadFalls(calls[..n], i, phase);
    }
  }

  lemma StepFalls(s: State, e: Step)
    requires WellChained(s.calls) && Enabled(s, e) && !e.Invoke?
    ensures |Next(s, e).calls| == |s.calls| && Ahead(Next(s, e).calls) < Ahead(s.calls)
  {
    hide Change, Ahead;
    AheadFalls(s.calls, e.i, Next(s, e).calls[e.i].phase);
  }

  /** Whatever is in flight, finitely many steps finish every call made. */
  lemma {:induction false} AllGetDone(files: map<string, WalletData>, es: seq<Step>) returns (more: seq<Step>)
    ensures AllFinished(Run(files, es + more).calls) && |Run(files, es + more).calls| == |Run(files, es).calls|
    ensures forall k :: 0 <= k < |more| ==> !more[k].Invoke?
    decreases Ahead(Run(files, es).calls)
  {
    hide Run, Next, Inv, Enabled, Ahead;
    var s := Run(files, es);
    if i: nat :| i < |s.calls| && !s.calls[i].phase.Finished? {
      RunIsSerial(files, es);
      var e := NeverWedged(files, s, i);
      StepFalls(s, e);
      RunMore(files, es, e);
      var rest := AllGetDone(files, es + [e]);
      more := [e] + rest;
      assert es + [e] + rest == es + more;
    } else {
      more := [];
      assert es + [] == es;
    }
  }

  lemma RunMore(files: map<string, WalletData>, es: seq<Step>, e: Step)
    requires Enabled(Run(files, es), e)
    ensures Run(files, es + [e]) == Next(Run(files, es), e)
  {
    assert (es + [e])[..|es|] == es;
  }
}
