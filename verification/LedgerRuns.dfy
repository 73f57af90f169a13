/**
 * Concurrent calls of the store under its per-wallet promise mutex (packages/solana-portfolio/src/store-file.ts), as
 * interleaved steps: a call is made, it loads, it writes, it finishes.
 */
module LedgerRuns {
  import opened Wrappers
  import opened Ledger
  import opened LedgerJobs
  import opened Lots

  /** AuditFailed: the wallet file was replaced, the audit append then threw. NotStored: a read or write threw. */
  datatype Outcome = Applied | AuditFailed | Rejected | NotStored

  datatype Phase = Waiting | Loaded(data: WalletData) | Written | Finished(outcome: Outcome)

  /** `prev` is the call whose chain promise this one awaits. */
  datatype Call = Call(job: Job, prev: Option<nat>, phase: Phase)

  /** `mutexes` maps a wallet to the last call chained on it. */
  datatype State = State(disk: map<string, WalletData>, mutexes: map<string, nat>, calls: seq<Call>)

  datatype Step =
    | Invoke(job: Job)
    | Load(i: nat, ok: bool)
    | Write(i: nat, ok: bool)
    | Finish(i: nat, audited: bool)

  function DataOf(disk: map<string, WalletData>, w: string): WalletData {
    if w in disk then disk[w] else EmptyWallet()
  }

  predicate WellChained(calls: seq<Call>) {
    forall i :: 0 <= i < |calls| && calls[i].prev.Some? ==> calls[i].prev.value < i
  }

  /** The chain promise of call `i` is settled: its own body and everything it chained on are done. */
  predicate Settled(calls: seq<Call>, i: nat)
    requires WellChained(calls) && i < |calls|
    decreases i
  {
    calls[i].phase.Finished? && (calls[i].prev.None? || Settled(calls, calls[i].prev.value))
  }

  predicate Ready(calls: seq<Call>, i: nat)
    requires WellChained(calls) && i < |calls|
  {
    calls[i].prev.None? || Settled(calls, calls[i].prev.value)
  }

  predicate Enabled(s: State, e: Step)
    requires WellChained(s.calls)
  {
    match e
    case Invoke(_) => true
    case Load(i, _) => i < |s.calls| && s.calls[i].phase.Waiting? && Ready(s.calls, i)
    case Write(i, _) => i < |s.calls| && s.calls[i].phase.Loaded?
    case Finish(i, _) => i < |s.calls| && s.calls[i].phase.Written?
  }

  function Move(calls: seq<Call>, i: nat, phase: Phase): seq<Call>
    requires i < |calls|
  {
    calls[i := calls[i].(phase := phase)]
  }

  function Next(s: State, e: Step): State
    requires WellChained(s.calls) && Enabled(s, e)
  {
    match e
    case Invoke(j) =>
      var w := WalletOf(j);
      var prev := if w in s.mutexes then Some(s.mutexes[w]) else None;
      State(s.disk, s.mutexes[w := |s.calls|], s.calls + [Call(j, prev, Waiting)])
    case Load(i, ok) =>
      var data := DataOf(s.disk, WalletOf(s.calls[i].job));
      s.(calls := Move(s.calls, i, if ok then Loaded(data) else Finished(NotStored)))
    case Write(i, ok) =>
      var j := s.calls[i].job;
      (match Change(s.calls[i].phase.data, j)
       case Err(_) => s.(calls := Move(s.calls, i, Finished(Rejected)))
       case Ok(d) =>
         if ok then s.(disk := s.disk[WalletOf(j) := d], calls := Move(s.calls, i, Written))
         else s.(calls := Move(s.calls, i, Finished(NotStored))))
    case Finish(i, audited) =>
      s.(calls := Move(s.calls, i, Finished(if audited then Applied else AuditFailed)))
  }

  /** The store: its directory, its mutex map, and the calls in flight. */
  class Store {
    var disk: map<string, WalletData>
    var mutexes: map<string, nat>
    var calls: seq<Call>

    function View(): State
      reads this
    {
      State(disk, mutexes, calls)
    }

    constructor (files: map<string, WalletData>)
      ensures View() == State(files, map[], [])
    {
      disk, mutexes, calls := files, map[], [];
    }

    /** Chain on the wallet's mutex and suspend. */
    method WithMutex(j: Job)
      requires WellChained(calls)
      modifies this
      ensures View() == Next(old(View()), Invoke(j))
    {
      var w := WalletOf(j);
      var prev := if w in mutexes then Some(mutexes[w]) else None;
      mutexes := mutexes[w := |calls|];
      calls := calls + [Call(j, prev, Waiting)];
    }

    /** The awaited promise settled: read the wallet file, absent meaning an empty wallet. */
    method LoadWallet(i: nat, ok: bool)
      requires WellChained(calls) && Enabled(View(), Load(i, ok))
      modifies this`calls
      ensures View() == Next(old(View()), Load(i, ok))
    {
      var c := calls[i];
      if ok {
        var data := if WalletOf(c.job) in disk then disk[WalletOf(c.job)] else EmptyWallet();
        calls := calls[i := c.(phase := Loaded(data))];
      } else {
        calls := calls[i := c.(phase := Finished(NotStored))];
      }
    }

    /** Change the loaded copy and rename it over the wallet file; a refused change throws before the write. */
    method WriteWallet(i: nat, ok: bool)
      requires WellChained(calls) && Enabled(View(), Write(i, ok))
      modifies this`disk, this`calls
      ensures View() == Next(old(View()), Write(i, ok))
    {
      var c := calls[i];
      var r := ChangeLoaded(c.phase.data, c.job);
      if r.Err? {
        calls := calls[i := c.(phase := Finished(Rejected))];
        return;
      }
      if ok {
        disk := disk[WalletOf(c.job) := r.value];
        calls := calls[i := c.(phase := Written)];
      } else {
        calls := calls[i := c.(phase := Finished(NotStored))];
      }
    }

    /** Append the audit line and release the mutex. */
    method FinishCall(i: nat, audited: bool)
      requires WellChained(calls) && Enabled(View(), Finish(i, audited))
      modifies this`calls
      ensures View() == Next(old(View()), Finish(i, audited))
    {
      var c := calls[i];
      calls := calls[i := c.(phase := Finished(if audited then Applied else AuditFailed))];
    }
  }

  // ---- The serial reading of a run ----

  /** The call's body reached its decision: it stored its change or refused it. */
  predicate Decided(c: Call) {
    c.phase.Written? || (c.phase.Finished? && c.phase.outcome != NotStored)
  }

  predicate Committed(c: Call) {
    Decided(c) && c.phase != Finished(Rejected)
  }

  /** The decided jobs of one wallet, in call order. */
  function DecidedJobs(calls: seq<Call>, w: string): seq<Job> {
    if calls == [] then []
    else
      var c := calls[|calls| - 1];
      DecidedJobs(calls[..|calls| - 1], w) + if WalletOf(c.job) == w && Decided(c) then [c.job] else []
  }

  function CommittedJobs(calls: seq<Call>, w: string): seq<Job> {
    if calls == [] then []
    else
      var c := calls[|calls| - 1];
      CommittedJobs(calls[..|calls| - 1], w) + if WalletOf(c.job) == w && Committed(c) then [c.job] else []
  }

  /** The wallet after applying the decided jobs one by one, in call order. */
  function Serial(files: map<string, WalletData>, calls: seq<Call>, w: string): Replayed {
    Replay(DataOf(files, w), DecidedJobs(calls, w))
  }

  // ---- The invariant ----

  ghost predicate LastCallOf(calls: seq<Call>, w: string, last: Option<nat>) {
    match last
    case None => forall j :: 0 <= j < |calls| ==> WalletOf(calls[j].job) != w
    case Some(k) => k < |calls| && WalletOf(calls[k].job) == w
                    && forall j :: k < j < |calls| ==> WalletOf(calls[j].job) != w
  }

  ghost predicate Chained(s: State) {
    && WellChained(s.calls)
    && (forall i :: 0 <= i < |s.calls| ==> LastCallOf(s.calls[..i], WalletOf(s.calls[i].job), s.calls[i].prev))
    && (forall w :: LastCallOf(s.calls, w, if w in s.mutexes then Some(s.mutexes[w]) else None))
  }

  /** A call that has started has every earlier call on its wallet behind it. */
  ghost predicate Exclusive(calls: seq<Call>) {
    forall i, j ::
      0 <= j < i < |calls| && WalletOf(calls[j].job) == WalletOf(calls[i].job) && !calls[i].phase.Waiting? ==>
        calls[j].phase.Finished?
  }

  /** What a call knows or did is what the serial execution would have it know or do. */
  ghost predicate CallSerial(files: map<string, WalletData>, calls: seq<Call>, i: nat)
    requires i < |calls|
  {
    var c := calls[i];
    var before := Serial(files, calls[..i], WalletOf(c.job)).data;
    && (c.phase.Loaded? ==> c.phase.data == before)
    && (Decided(c) ==> (Committed(c) <==> Change(before, c.job).Ok?))
  }

  ghost predicate Inv(files: map<string, WalletData>, s: State) {
    && Chained(s)
    && Exclusive(s.calls)
    && (forall i :: 0 <= i < |s.calls| ==> CallSerial(files, s.calls, i))
    && (forall w :: DataOf(s.disk, w) == Serial(files, s.calls, w).data)
  }

  // ---- Facts about the serial reading ----

  lemma {:induction false} DecidedAgree(a: seq<Call>, b: seq<Call>, w: string)
    requires |a| == |b|
    requires forall j :: 0 <= j < |a| ==>
               a[j].job == b[j].job && (WalletOf(a[j].job) == w ==> (Decided(a[j]) <==> Decided(b[j])))
    ensures DecidedJobs(a, w) == DecidedJobs(b, w)
    decreases |a|
  {
    if a != [] {
      DecidedAgree(a[..|a| - 1], b[..|b| - 1], w);
    }
  }

  /** Calls from `k` on that have not decided add nothing. */
  lemma {:induction false} DecidedQuiet(calls: seq<Call>, k: nat, w: string)
    requires k <= |calls|
    requires forall j :: k <= j < |calls| && WalletOf(calls[j].job) == w ==> !Decided(calls[j])
    ensures DecidedJobs(calls, w) == DecidedJobs(calls[..k], w)
    decreases |calls|
  {
    if k < |calls| {
      var front := calls[..|calls| - 1];
      DecidedQuiet(front, k, w);
      assert front[..k] == calls[..k];
    } else {
      assert calls[..k] == calls;
    }
  }

  /** Deciding call `i`, with everything later on its wallet still waiting, appends its job. */
  lemma DecidedOneMore(calls: seq<Call>, i: nat, phase: Phase)
    requires i < |calls| && !Decided(calls[i]) && Decided(calls[i].(phase := phase))
    requires forall j :: i < j < |calls| && WalletOf(calls[j].job) == WalletOf(calls[i].job) ==> calls[j].phase.Waiting?
    ensures DecidedJobs(Move(calls, i, phase), WalletOf(calls[i].job))
            == DecidedJobs(calls[..i], WalletOf(calls[i].job)) + [calls[i].job]
  {
    var after, w := Move(calls, i, phase), WalletOf(calls[i].job);
    DecidedQuiet(after, i + 1, w);
    assert after[..i + 1][..i] == calls[..i];
  }

  /** A step on call `i` that decides nothing leaves every wallet's serial history alone. */
  lemma DecidedSame(calls: seq<Call>, i: nat, phase: Phase, w: string)
    requires i < |calls|
    requires WalletOf(calls[i].job) == w ==> (Decided(calls[i]) <==> Decided(calls[i].(phase := phase)))
    ensures DecidedJobs(Move(calls, i, phase), w) == DecidedJobs(calls, w)
  {
    DecidedAgree(Move(calls, i, phase), calls, w);
  }

  // ---- Steps keep the invariant ----

  lemma MoveChained(s: State, i: nat, phase: Phase)
    requires Chained(s) && i < |s.calls|
    ensures Chained(s.(calls := Move(s.calls, i, phase)))
  {
    var after := Move(s.calls, i, phase);
    forall k | 0 <= k < |after|
      ensures LastCallOf(after[..k], WalletOf(after[k].job), after[k].prev)
    {
      assert LastCallOf(s.calls[..k], WalletOf(s.calls[k].job), s.calls[k].prev);
      assert forall j :: 0 <= j < k ==> after[..k][j].job == s.calls[..k][j].job;
    }
    forall w
      ensures LastCallOf(after, w, if w in s.mutexes then Some(s.mutexes[w]) else None)
    {
      assert LastCallOf(s.calls, w, if w in s.mutexes then Some(s.mutexes[w]) else None);
      assert forall j :: 0 <= j < |after| ==> after[j].job == s.calls[j].job;
    }
  }

  lemma InvokeChained(s: State, j: Job)
    requires Chained(s)
    ensures Chained(Next(s, Invoke(j)))
  {
    var after := Next(s, Invoke(j));
    var n := |s.calls|;
    assert after.calls[..n] == s.calls;
    forall k | 0 <= k < |after.calls|
      ensures LastCallOf(after.calls[..k], WalletOf(after.calls[k].job), after.calls[k].prev)
    {
      if k < n {
        assert after.calls[..k] == s.calls[..k];
      }
    }
    forall w
      ensures LastCallOf(after.calls, w, if w in after.mutexes then Some(after.mutexes[w]) else None)
    {
      assert LastCallOf(s.calls, w, if w in s.mutexes then Some(s.mutexes[w]) else None);
    }
  }

  /** A settled chain promise means every call of the wallet up to it is done. */
  lemma {:induction false} SettledMeansDone(s: State, i: nat, j: nat)
    requires Chained(s) && j <= i < |s.calls| && WalletOf(s.calls[j].job) == WalletOf(s.calls[i].job)
    requires Settled(s.calls, i)
    ensures s.calls[j].phase.Finished?
    decreases i
  {
    if j < i {
      assert LastCallOf(s.calls[..i], WalletOf(s.calls[i].job), s.calls[i].prev);
      assert s.calls[..i][j] == s.calls[j];
      assert s.calls[i].prev.Some?;
      assert j <= s.calls[i].prev.value;
      SettledMeansDone(s, s.calls[i].prev.value, j);
    }
  }

  lemma ReadyMeansDone(s: State, i: nat, j: nat)
    requires Chained(s) && j < i < |s.calls| && WalletOf(s.calls[j].job) == WalletOf(s.calls[i].job)
    requires Ready(s.calls, i)
    ensures s.calls[j].phase.Finished?
  {
    assert LastCallOf(s.calls[..i], WalletOf(s.calls[i].job), s.calls[i].prev);
    assert s.calls[..i][j] == s.calls[j];
    if s.calls[i].prev.Some? {
      SettledMeansDone(s, s.calls[i].prev.value, j);
    }
  }

  /** A move of call `i` that keeps the wallet files and the decisions keeps every other call's serial reading. */
  lemma QuietMove(files: map<string, WalletData>, s: State, i: nat, phase: Phase)
    requires Inv(files, s) && i < |s.calls| && !phase.Waiting?
    requires Decided(s.calls[i]) <==> Decided(s.calls[i].(phase := phase))
    requires Decided(s.calls[i]) ==> (Committed(s.calls[i]) <==> Committed(s.calls[i].(phase := phase)))
    requires phase.Loaded? ==> phase.data == Serial(files, s.calls[..i], WalletOf(s.calls[i].job)).data
    requires forall j :: 0 <= j < i && WalletOf(s.calls[j].job) == WalletOf(s.calls[i].job) ==>
               s.calls[j].phase.Finished?
    requires !s.calls[i].phase.Finished?
    ensures Inv(files, s.(calls := Move(s.calls, i, phase)))
  {
    hide Replay, Change, Chained;
    var after := Move(s.calls, i, phase);
    MoveChained(s, i, phase);
    forall k | 0 <= k < |after|
      ensures CallSerial(files, after, k)
    {
      assert CallSerial(files, s.calls, k);
      QuietSerial(files, s.calls, i, phase, k);
    }
    forall w
      ensures DataOf(s.disk, w) == Serial(files, after, w).data
    {
      DecidedSame(s.calls, i, phase, w);
    }
  }

  lemma QuietSerial(files: map<string, WalletData>, calls: seq<Call>, i: nat, phase: Phase, k: nat)
    requires i < |calls| && k < |calls| && CallSerial(files, calls, k)
    requires Decided(calls[i]) <==> Decided(calls[i].(phase := phase))
    requires Decided(calls[i]) ==> (Committed(calls[i]) <==> Committed(calls[i].(phase := phase)))
    requires phase.Loaded? ==> phase.data == Serial(files, calls[..i], WalletOf(calls[i].job)).data
    ensures CallSerial(files, Move(calls, i, phase), k)
  {
    hide Replay, Change, DecidedJobs;
    var after := Move(calls, i, phase);
    if i < k {
      assert after[..k] == Move(calls[..k], i, phase);
      DecidedSame(calls[..k], i, phase, WalletOf(after[k].job));
    } else {
      assert after[..k] == calls[..k];
    }
  }

  lemma ReplayOneMore(start: WalletData, js: seq<Job>, j: Job)
    ensures Replay(start, js + [j]).data
            == match Change(Replay(start, js).data, j)
               case Ok(d) => d
               case Err(_) => Replay(start, js).data
  {
    assert (js + [j])[..|js|] == js;
  }

  /** Deciding call `i` as the serial execution does, and storing what it stores. */
  lemma DecidingMove(files: map<string, WalletData>, s: State, i: nat, phase: Phase, disk: map<string, WalletData>)
    requires Inv(files, s) && i < |s.calls| && s.calls[i].phase.Loaded?
    requires phase == Written || phase == Finished(Rejected)
    requires phase == Written <==> Change(s.calls[i].phase.data, s.calls[i].job).Ok?
    requires disk == match Change(s.calls[i].phase.data, s.calls[i].job)
                     case Ok(d) => s.disk[WalletOf(s.calls[i].job) := d]
                     case Err(_) => s.disk
    ensures Inv(files, s.(disk := disk, calls := Move(s.calls, i, phase)))
  {
    hide Change, Replay, DecidedJobs, CallSerial, Chained, Serial;
    var after := Move(s.calls, i, phase);
    MoveChained(s, i, phase);
    AnyDisk(s.(calls := after), disk);
    MoveExclusive(s.calls, i, phase);
    assert CallSerial(files, s.calls, i);
    forall k | 0 <= k < |after|
      ensures CallSerial(files, after, k)
    {
      assert CallSerial(files, s.calls, k);
      if k == i {
        DecidedSerial(files, s.calls, i, phase);
      } else {
        OtherSerial(files, s.calls, i, phase, k);
      }
    }
    forall w
      ensures DataOf(disk, w) == Serial(files, after, w).data
    {
      assert DataOf(s.disk, w) == Serial(files, s.calls, w).data;
      DiskSerial(files, s.calls, i, phase, w);
      LoadedSerial(files, s.calls, i);
    }
  }

  lemma AnyDisk(s: State, disk: map<string, WalletData>)
    requires Chained(s)
    ensures Chained(s.(disk := disk))
  {
  }

  lemma MoveExclusive(calls: seq<Call>, i: nat, phase: Phase)
    requires Exclusive(calls) && i < |calls| && !calls[i].phase.Waiting? && !calls[i].phase.Finished?
    requires !phase.Waiting?
    ensures Exclusive(Move(calls, i, phase))
  {
  }

  lemma LoadedSerial(files: map<string, WalletData>, calls: seq<Call>, i: nat)
    requires i < |calls| && CallSerial(files, calls, i) && calls[i].phase.Loaded?
    ensures calls[i].phase.data == Serial(files, calls[..i], WalletOf(calls[i].job)).data
  {
    hide Serial;
  }

  /** The deciding call itself decides as the serial execution does. */
  lemma DecidedSerial(files: map<string, WalletData>, calls: seq<Call>, i: nat, phase: Phase)
    requires i < |calls| && CallSerial(files, calls, i) && calls[i].phase.Loaded?
    requires phase == Written || phase == Finished(Rejected)
    requires phase == Written <==> Change(calls[i].phase.data, calls[i].job).Ok?
    ensures CallSerial(files, Move(calls, i, phase), i)
  {
    hide Change, Serial;
    assert Move(calls, i, phase)[..i] == calls[..i];
  }

  /** Every other call: an earlier one sees the same calls before it, a later one on the wallet is still waiting. */
  lemma OtherSerial(files: map<string, WalletData>, calls: seq<Call>, i: nat, phase: Phase, k: nat)
    requires Exclusive(calls) && i < |calls| && k < |calls| && k != i && CallSerial(files, calls, k)
    requires !calls[i].phase.Finished?
    ensures CallSerial(files, Move(calls, i, phase), k)
  {
    hide Change, Replay, DecidedJobs;
    var after := Move(calls, i, phase);
    if i < k {
      assert after[..k] == Move(calls[..k], i, phase);
      if WalletOf(calls[k].job) != WalletOf(calls[i].job) {
        DecidedSame(calls[..k], i, phase, WalletOf(calls[k].job));
      }
    } else {
      assert after[..k] == calls[..k];
    }
  }

  /** What the serial execution stores, wallet by wallet, once call `i` has decided. */
  lemma DiskSerial(files: map<string, WalletData>, calls: seq<Call>, i: nat, phase: Phase, w: string)
    requires Exclusive(calls) && i < |calls| && calls[i].phase.Loaded?
    requires phase == Written || phase == Finished(Rejected)
    ensures var before := Serial(files, calls[..i], w).data;
            if w != WalletOf(calls[i].job) then Serial(files, Move(calls, i, phase), w) == Serial(files, calls, w)
            else
              && Serial(files, calls, w).data == before
              && Serial(files, Move(calls, i, phase), w).data
                 == match Change(before, calls[i].job) case Ok(d) => d case Err(_) => before
  {
    hide Change, Replay, DecidedJobs;
    if w != WalletOf(calls[i].job) {
      DecidedSame(calls, i, phase, w);
    } else {
      DecidedQuiet(calls, i, w);
      DecidedOneMore(calls, i, phase);
      ReplayOneMore(DataOf(files, w), DecidedJobs(calls[..i], w), calls[i].job);
    }
  }

  /** A new call waiting at the end changes nothing about the earlier ones. */
  lemma NewCallSerial(files: map<string, WalletData>, calls: seq<Call>, c: Call)
    requires c.phase.Waiting? && forall k :: 0 <= k < |calls| ==> CallSerial(files, calls, k)
    ensures forall k :: 0 <= k < |calls + [c]| ==> CallSerial(files, calls + [c], k)
  {
    hide Replay, Change, DecidedJobs, Serial;
    var after := calls + [c];
    forall k | 0 <= k < |after|
      ensures CallSerial(files, after, k)
    {
      assert after[..k] == calls[..k];
      if k < |calls| {
        assert CallSerial(files, calls, k);
      }
    }
  }

  lemma NewCallQuiet(calls: seq<Call>, c: Call, w: string)
    requires c.phase.Waiting?
    ensures DecidedJobs(calls + [c], w) == DecidedJobs(calls, w)
  {
    hide DecidedJobs;
    DecidedQuiet(calls + [c], |calls|, w);
    assert (calls + [c])[..|calls|] == calls;
  }

  lemma NewCallExclusive(calls: seq<Call>, c: Call)
    requires c.phase.Waiting? && Exclusive(calls)
    ensures Exclusive(calls + [c])
  {
  }

  lemma ChainedWell(s: State)
    requires Chained(s)
    ensures WellChained(s.calls)
  {
  }

  lemma InvokeKeeps(files: map<string, WalletData>, s: State, j: Job)
    requires Inv(files, s)
    ensures Inv(files, Next(s, Invoke(j)))
  {
    hide Replay, Change, DecidedJobs, CallSerial, Chained, Exclusive;
    ChainedWell(s);
    InvokeChained(s, j);
    var after := Next(s, Invoke(j));
    var c := after.calls[|s.calls|];
    assert after.calls == s.calls + [c];
    NewCallSerial(files, s.calls, c);
    NewCallExclusive(s.calls, c);
    forall w
      ensures Serial(files, after.calls, w) == Serial(files, s.calls, w)
    {
      NewCallQuiet(s.calls, c, w);
    }
  }

  lemma StepKeeps(files: map<string, WalletData>, s: State, e: Step)
    requires Inv(files, s) && Enabled(s, e)
    ensures Inv(files, Next(s, e))
  {
    hide Replay, Change;
    match e {
      case Invoke(j) => InvokeKeeps(files, s, j);
      case Load(i, ok) =>
        var w := WalletOf(s.calls[i].job);
        forall j | 0 <= j < i && WalletOf(s.calls[j].job) == w
          ensures s.calls[j].phase.Finished?
        {
          ReadyMeansDone(s, i, j);
        }
        DecidedQuiet(s.calls, i, w);
        QuietMove(files, s, i, if ok then Loaded(DataOf(s.disk, w)) else Finished(NotStored));
      case Write(i, ok) =>
        if Change(s.calls[i].phase.data, s.calls[i].job).Err? {
          DecidingMove(files, s, i, Finished(Rejected), s.disk);
        } else if ok {
          DecidingMove(files, s, i, Written, Next(s, e).disk);
        } else {
          QuietMove(files, s, i, Finished(NotStored));
        }
      case Finish(i, audited) =>
        QuietMove(files, s, i, Finished(if audited then Applied else AuditFailed));
    }
  }

  // ---- Runs ----

  /** Disabled steps of a schedule do nothing. */
  function Run(files: map<string, WalletData>, es: seq<Step>): (s: State)
    ensures WellChained(s.calls) && forall w :: w in s.mutexes ==> s.mutexes[w] < |s.calls|
  {
    if es == [] then State(files, map[], [])
    else
      var s := Run(files, es[..|es| - 1]);
      var e := es[|es| - 1];
      if Enabled(s, e) then
        Next(s, e)
      else s
  }

  /**
   * Serializability: after any interleaving, each wallet file holds the decided calls applied one by one in call
   * order, and each call was stored or rejected exactly as that serial execution does.
   */
  lemma {:induction false} RunIsSerial(files: map<string, WalletData>, es: seq<Step>)
    ensures Inv(files, Run(files, es))
    decreases |es|
  {
    if es != [] {
      RunIsSerial(files, es[..|es| - 1]);
      var s, e := Run(files, es[..|es| - 1]), es[|es| - 1];
      if Enabled(s, e) {
        StepKeeps(files, s, e);
      }
    }
  }

  /** The jobs of the serial history that took effect are exactly the stored ones, in call order. */
  lemma {:induction false} AppliedAreCommitted(files: map<string, WalletData>, calls: seq<Call>, w: string)
    requires forall i :: 0 <= i < |calls| ==> CallSerial(files, calls, i)
    ensures Serial(files, calls, w).applied == CommittedJobs(calls, w)
    decreases |calls|
  {
    hide Change;
    if calls != [] {
      var n := |calls| - 1;
      var front, c := calls[..n], calls[n];
      forall i | 0 <= i < n
        ensures CallSerial(files, front, i)
      {
        assert CallSerial(files, calls, i);
        assert front[..i] == calls[..i];
      }
      AppliedAreCommitted(files, front, w);
      assert CallSerial(files, calls, n);
      if WalletOf(c.job) == w && Decided(c) {
        var js := DecidedJobs(front, w);
        var whole := js + [c.job];
        assert whole[..|whole| - 1] == js && whole[|whole| - 1] == c.job;
        assert DecidedJobs(calls, w) == whole;
      } else {
        assert DecidedJobs(calls, w) == DecidedJobs(front, w);
      }
    }
  }

  /**
   * Whatever jobs run concurrently, trades, observations, rebuilds and corrections: books whose totals add up when the
   * store opens add up after every step.
   */
  lemma StoredBooksAdd(files: map<string, WalletData>, es: seq<Step>, w: string)
    requires BooksAdd(DataOf(files, w))
    ensures BooksAdd(DataOf(Run(files, es).disk, w))
  {
    hide BooksAdd, Change, DecidedJobs, Run, Chained, Exclusive;
    RunIsSerial(files, es);
    var s := Run(files, es);
    ReplayAdds(DataOf(files, w), DecidedJobs(s.calls, w));
    assert DataOf(s.disk, w) == Serial(files, s.calls, w).data;
  }

  /** Every call on the wallet is a landed trade. */
  ghost predicate TradesOnly(calls: seq<Call>, w: string) {
    forall i :: 0 <= i < |calls| && WalletOf(calls[i].job) == w ==> calls[i].job.Landed?
  }

  lemma {:induction false} TradesDecided(calls: seq<Call>, w: string)
    requires TradesOnly(calls, w)
    ensures OnlyTrades(DecidedJobs(calls, w)) && OnlyTrades(CommittedJobs(calls, w))
    decreases |calls|
  {
    if calls != [] {
      var n := |calls| - 1;
      TradesDecided(calls[..n], w);
      assert WalletOf(calls[n].job) == w ==> calls[n].job.Landed?;
    }
  }

  /** The ledger history of a wallet that only sees landed trades. */
  function Books(files: map<string, WalletData>, calls: seq<Call>, w: string): History
    requires TradesOnly(calls, w)
  {
    TradesDecided(calls, w);
    Fold(DataOf(files, w), TradesOf(DecidedJobs(calls, w)))
  }

  /** The stored trades of such a wallet, in call order. */
  function Stored(calls: seq<Call>, w: string): seq<Trade>
    requires TradesOnly(calls, w)
  {
    TradesDecided(calls, w);
    TradesOf(CommittedJobs(calls, w))
  }

  lemma BooksAreSerial(files: map<string, WalletData>, calls: seq<Call>, w: string)
    requires TradesOnly(calls, w) && forall i :: 0 <= i < |calls| ==> CallSerial(files, calls, i)
    ensures Books(files, calls, w).data == Serial(files, calls, w).data
    ensures Books(files, calls, w).applied == Stored(calls, w)
  {
    hide Change, Replay, Fold, DecidedJobs, CommittedJobs, CallSerial;
    TradesDecided(calls, w);
    ReplayIsFold(DataOf(files, w), DecidedJobs(calls, w));
    AppliedAreCommitted(files, calls, w);
  }

  /**
   * From an empty FIFO or LIFO wallet that sees landed trades only, after any interleaving with the other wallets'
   * jobs: the stored books balance against the stored calls, and a call was rejected exactly when it oversold what the
   * calls stored before it had left.
   */
  lemma StoredBooksBalance(files: map<string, WalletData>, es: seq<Step>, w: string, accounting: Option<Method>)
    requires DataOf(files, w) == EmptyWallet().(accounting := accounting) && accounting != Some(AvgCost)
    requires TradesOnly(Run(files, es).calls, w)
    ensures var s := Run(files, es);
            && Balanced(Books(files, s.calls, w))
            && Books(files, s.calls, w).data == DataOf(s.disk, w)
            && Books(files, s.calls, w).applied == Stored(s.calls, w)
            && forall i :: 0 <= i < |s.calls| && WalletOf(s.calls[i].job) == w && Decided(s.calls[i]) ==>
                 && s.calls[i].job.Landed? && TradesOnly(s.calls[..i], w)
                 && var t := s.calls[i].job.trade;
                    (s.calls[i].phase == Finished(Rejected)
                     <==> t.amount < 0 && -t.amount > DeltaSum(Stored(s.calls[..i], w), t.mint))
  {
    hide Balanced, Books, Stored, Run, Chained, Exclusive, CallSerial;
    var s := Run(files, es);
    RunIsSerial(files, es);
    BooksAreSerial(files, s.calls, w);
    BooksBalance(files, s.calls, w, accounting);
    assert DataOf(s.disk, w) == Serial(files, s.calls, w).data;
    forall i | 0 <= i < |s.calls| && WalletOf(s.calls[i].job) == w && Decided(s.calls[i])
      ensures s.calls[i].job.Landed? && TradesOnly(s.calls[..i], w)
      ensures var t := s.calls[i].job.trade;
              s.calls[i].phase == Finished(Rejected)
              <==> t.amount < 0 && -t.amount > DeltaSum(Stored(s.calls[..i], w), t.mint)
    {
      RejectedIff(files, s.calls, i, accounting);
    }
  }

  lemma BooksBalance(files: map<string, WalletData>, calls: seq<Call>, w: string, accounting: Option<Method>)
    requires DataOf(files, w) == EmptyWallet().(accounting := accounting) && accounting != Some(AvgCost)
    requires TradesOnly(calls, w)
    ensures Balanced(Books(files, calls, w))
  {
    hide Balanced, Fold;
    TradesDecided(calls, w);
    HistoryBalanced(accounting, TradesOf(DecidedJobs(calls, w)));
  }

  lemma RejectedIff(files: map<string, WalletData>, calls: seq<Call>, i: nat, accounting: Option<Method>)
    requires i < |calls| && TradesOnly(calls, WalletOf(calls[i].job)) && Decided(calls[i])
    requires DataOf(files, WalletOf(calls[i].job)) == EmptyWallet().(accounting := accounting)
    requires accounting != Some(AvgCost) && forall k :: 0 <= k < |calls| ==> CallSerial(files, calls, k)
    ensures TradesOnly(calls[..i], WalletOf(calls[i].job)) && calls[i].job.Landed?
    ensures var t := calls[i].job.trade;
            calls[i].phase == Finished(Rejected)
            <==> t.amount < 0 && -t.amount > DeltaSum(Stored(calls[..i], t.wallet), t.mint)
  {
    hide Apply, Balanced, DeltaSum, Stored, Books;
    var w, front := WalletOf(calls[i].job), calls[..i];
    var t := calls[i].job.trade;
    assert TradesOnly(front, w) by {
      assert forall k :: 0 <= k < i ==> front[k] == calls[k];
    }
    forall k | 0 <= k < i
      ensures CallSerial(files, front, k)
    {
      assert CallSerial(files, calls, k);
      assert front[..k] == calls[..k];
    }
    BooksAreSerial(files, front, w);
    BooksBalance(files, front, w, accounting);
    ApplyBalanced(Books(files, front, w), t);
    assert CallSerial(files, calls, i);
  }

  /** The mutex never wedges: while some call on a wallet is unfinished, one of them can take a step. */
  lemma {:induction false} NeverWedged(files: map<string, WalletData>, s: State, i: nat) returns (e: Step)
    requires Inv(files, s) && i < |s.calls| && !s.calls[i].phase.Finished?
    ensures Enabled(s, e) && !e.Invoke? && WalletOf(s.calls[e.i].job) == WalletOf(s.calls[i].job)
    decreases i
  {
    match s.calls[i].phase {
      case Loaded(_) => e := Write(i, true);
      case Written => e := Finish(i, true);
      case Waiting =>
        if Ready(s.calls, i) {
          e := Load(i, true);
        } else {
          var j := Unsettled(s, s.calls[i].prev.value);
          assert LastCallOf(s.calls[..i], WalletOf(s.calls[i].job), s.calls[i].prev);
          e := NeverWedged(files, s, j);
        }
    }
  }

  lemma {:induction false} Unsettled(s: State, i: nat) returns (j: nat)
    requires Chained(s) && i < |s.calls| && !Settled(s.calls, i)
    ensures j <= i && !s.calls[j].phase.Finished? && WalletOf(s.calls[j].job) == WalletOf(s.calls[i].job)
    decreases i
  {
    if !s.calls[i].phase.Finished? {
      j := i;
    } else {
      assert LastCallOf(s.calls[..i], WalletOf(s.calls[i].job), s.calls[i].prev);
      j := Unsettled(s, s.calls[i].prev.value);
    }
  }
}
