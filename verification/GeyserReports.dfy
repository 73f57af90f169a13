/** What a subscription reports and saves over whole runs: drops, gaps, and a checkpoint every so many updates. */
module GeyserReports {
  import opened Wrappers
  import opened Bytes
  import opened Geyser
  import opened GeyserRuns

  // ---- Drops and gaps ----

  function DropsOf(es: seq<Event>): seq<nat> {
    if es == [] then []
    else DropsOf(es[..|es| - 1]) + if es[|es| - 1].Dropped? then [es[|es| - 1].count] else []
  }

  function GapsOf(es: seq<Event>): seq<(int, int)> {
    if es == [] then []
    else GapsOf(es[..|es| - 1]) + if es[|es| - 1].GapSeen? then [(es[|es| - 1].from, es[|es| - 1].to)] else []
  }

  function GapMarks(marks: seq<Mark>): seq<(int, int)> {
    if marks == [] then []
    else
      var m := marks[|marks| - 1];
      GapMarks(marks[..|marks| - 1]) + if m.Gap? then [(m.from, m.to)] else []
  }

  /** One report a drop, numbered from one; one report a gap, with its bounds. */
  ghost predicate Reports(s: State) {
    && |DropsOf(s.events)| == s.droppedCount
    && (forall k :: 0 <= k < s.droppedCount ==> DropsOf(s.events)[k] == k + 1)
    && GapsOf(s.events) == GapMarks(s.marks)
  }

  lemma EventMore(es: seq<Event>, e: Event)
    ensures DropsOf(es + [e]) == if e.Dropped? then DropsOf(es) + [e.count] else DropsOf(es)
    ensures GapsOf(es + [e]) == if e.GapSeen? then GapsOf(es) + [(e.from, e.to)] else GapsOf(es)
  {
    assert (es + [e])[..|es|] == es;
  }

  lemma MarkMore(marks: seq<Mark>, m: Mark)
    ensures GapMarks(marks + [m]) == if m.Gap? then GapMarks(marks) + [(m.from, m.to)] else GapMarks(marks)
  {
    assert (marks + [m])[..|marks|] == marks;
  }

  lemma HandleReports(s: State, u: Update)
    requires Reports(s)
    ensures Reports(Handle(s, u))
  {
    hide DropsOf, GapsOf, GapMarks;
    if u.Slot? {
      MarkMore(s.marks, Advanced(u.slot));
    }
  }

  lemma HeadReports(c: Config, s: State)
    requires Reports(s)
    ensures Reports(Head(c, s))
  {
    hide DropsOf, GapsOf, GapMarks;
    if !s.closed && s.queue != [] {
      var u := s.queue[0];
      var t := s.(queue := s.queue[1..],
                  taken := s.taken + [if |s.arrivals| >= |s.queue| then |s.arrivals| - |s.queue| else 0]);
      if u.Slot? && s.lastSlot >= 0 && u.slot > s.lastSlot + 1 {
        EventMore(s.events, GapSeen(s.lastSlot + 1, u.slot));
        MarkMore(s.marks, Gap(s.lastSlot + 1, u.slot));
        var g := t.(events := s.events + [GapSeen(s.lastSlot + 1, u.slot)],
                    marks := s.marks + [Gap(s.lastSlot + 1, u.slot)]);
        HandleReports(g, u);
      } else {
        HandleReports(t, u);
      }
    }
  }

  lemma StepReports(c: Config, s: State, e: Step)
    requires Reports(s)
    ensures Reports(Next(c, s, e))
  {
    hide DropsOf, GapsOf, GapMarks, Head, Handle;
    match e {
      case Arrive(u) =>
        if !s.closed {
          EventMore(s.events, Dropped(s.droppedCount + 1));
          HeadReports(c, Enqueue(c, s, u).(draining := true));
        }
      case Settled(ok) =>
        EventMore(s.events, Failed);
        var t := if ok then s else s.(events := s.events + [Failed]);
        match s.at {
          case Idle =>
          case Gapping(u) => HandleReports(t, u);
          case Handling(u) =>
            EventMore(t.events, Handled(u));
            HeadReports(c, t.(events := t.events + [Handled(u)], updateCount := s.updateCount + 1));
          case Saving(_) => HeadReports(c, t);
        }
      case Loaded(_) =>
      case Closing =>
    }
  }

  // ---- Checkpoints ----

  /** The live subscription's update count when it first knew a slot. */
  function Base(c: Config, store: Option<Checkpoint>, ms: seq<Move>): nat {
    var w := Run(c, store, ms);
    if ms == [] || w.live.start.None? then w.live.updateCount
    else
      var before := Run(c, store, ms[..|ms| - 1]);
      if before.live.start.None? then w.live.updateCount else Base(c, store, ms[..|ms| - 1])
  }

  /** The checkpoints the live subscription has set out to save. */
  function Saves(c: Config, store: Option<Checkpoint>, ms: seq<Move>): seq<Checkpoint> {
    if ms == [] then []
    else
      var front := ms[..|ms| - 1];
      var before, now := Run(c, store, front).live, Run(c, store, ms).live;
      if ms[|ms| - 1].Restart? then []
      else if now.at.Saving? && !before.at.Saving? then Saves(c, store, front) + [now.at.ckpt]
      else Saves(c, store, front)
  }

  /**
   * With a store, a save for every multiple of the period among the updates done since a slot is known, each once and
   * in order, and while one is under way it is for the slot and the count of now; without a store or a slot, none.
   */
  ghost predicate SavesOf(c: Config, s: State, base: nat, saves: seq<Checkpoint>)
    requires c.every >= 1
  {
    && base <= s.updateCount
    && |saves| == (if c.store && s.start.Some? then s.updateCount / c.every - base / c.every else 0)
    && (forall j :: 0 <= j < |saves| ==> saves[j].updateCount == (base / c.every + 1 + j) * c.every)
    && (forall j :: 0 <= j < |saves| ==> s.start.value <= saves[j].lastSlot <= s.lastSlot)
    && (forall i, j :: 0 <= i < j < |saves| ==> saves[i].lastSlot <= saves[j].lastSlot)
    && (s.at.Saving? ==>
          && c.store && s.start.Some? && s.at.ckpt.lastSlot == s.lastSlot && s.at.ckpt.updateCount == s.updateCount
          && saves != [] && saves[|saves| - 1] == s.at.ckpt)
  }

  /** What the loop head leaves alone. */
  lemma HeadKeeps(c: Config, s: State)
    ensures var t := Head(c, s);
            && t.updateCount == s.updateCount && !t.at.Saving? && s.lastSlot <= t.lastSlot
            && (s.start.Some? && s.lastSlot >= 0 ==> t.start == s.start)
  {
  }

  lemma Multiple(n: nat, every: nat)
    requires every >= 1
    ensures (n + 1) / every == n / every + if (n + 1) % every == 0 then 1 else 0
    ensures (n + 1) % every == 0 ==> n + 1 == (n / every + 1) * every
  {
    var q, r := n / every, n % every;
    assert n == q * every + r;
    if r + 1 == every {
      assert n + 1 == (q + 1) * every;
      Quotient(n + 1, every, q + 1, 0);
    } else {
      Quotient(n + 1, every, q, r + 1);
    }
  }

  lemma Quotient(n: nat, d: nat, q: nat, r: nat)
    requires d >= 1 && n == q * d + r && r < d
    ensures n / d == q && n % d == r
  {
    var gap := n / d - q;
    assert gap * d == r - n % d;
    assert gap >= 1 ==> gap * d >= d;
    assert gap <= -1 ==> gap * d + d <= 0;
  }

  /** One more update makes no save due. */
  lemma CountOn(c: Config, s: State, t: State, base: nat, saves: seq<Checkpoint>)
    requires Accepted(c) && SavesOf(c, s, base, saves) && !s.at.Saving? && !t.at.Saving?
    requires t.updateCount == s.updateCount + 1 && s.lastSlot <= t.lastSlot
    requires s.start.Some? ==> t.start == s.start && (c.store ==> t.updateCount % c.every != 0)
    ensures SavesOf(c, t, if s.start.None? then t.updateCount else base, saves)
  {
    Multiple(s.updateCount, c.every);
  }

  /** One more update makes a save due. */
  lemma CountSaves(c: Config, s: State, t: State, base: nat, saves: seq<Checkpoint>)
    requires Accepted(c) && SavesOf(c, s, base, saves) && !s.at.Saving? && c.store && s.start.Some?
    requires t.updateCount == s.updateCount + 1 && t.updateCount % c.every == 0
    requires t.lastSlot == s.lastSlot && t.start == s.start && s.start.value <= s.lastSlot && s.lastSlot >= 0
    requires t.at == Saving(Checkpoint(t.lastSlot, t.updateCount))
    ensures SavesOf(c, t, base, saves + [t.at.ckpt])
  {
    Multiple(s.updateCount, c.every);
    assert base / c.every + 1 + |saves| == s.updateCount / c.every + 1;
  }

  /** The update in hand is done. */
  lemma DoneSaves(c: Config, s: State, ok: bool, base: nat, saves: seq<Checkpoint>)
    requires Accepted(c) && Tracks(s) && s.at.Handling? && SavesOf(c, s, base, saves)
    requires s.start.None? ==> base == s.updateCount
    ensures var t := Resume(c, s, ok);
            SavesOf(c, t, if s.start.None? then t.updateCount else base,
                    if t.at.Saving? then saves + [t.at.ckpt] else saves)
  {
    hide Tiles, Head, SavesOf;
    var before := if ok then s else s.(events := s.events + [Failed]);
    var done := before.(events := before.events + [Handled(s.at.u)], updateCount := s.updateCount + 1);
    HeadKeeps(c, done);
    if Due(c, done) {
      CountSaves(c, s, Resume(c, s, ok), base, saves);
    } else {
      CountOn(c, s, Resume(c, s, ok), base, saves);
    }
  }

  lemma StepSaves(c: Config, s: State, e: Step, base: nat, saves: seq<Checkpoint>)
    requires Accepted(c) && Tracks(s) && (s.at == Idle <==> !s.draining) && SavesOf(c, s, base, saves)
    requires s.start.None? ==> base == s.updateCount
    ensures var t := Next(c, s, e);
            SavesOf(c, t, if s.start.None? then t.updateCount else base,
                    if t.at.Saving? && !s.at.Saving? then saves + [t.at.ckpt] else saves)
  {
    hide Tiles, Head;
    match e {
      case Arrive(u) => HeadKeeps(c, Enqueue(c, s, u).(draining := true));
      case Settled(ok) =>
        if s.at.Handling? {
          DoneSaves(c, s, ok, base, saves);
        } else {
          HeadKeeps(c, if ok then s else s.(events := s.events + [Failed]));
        }
      case Loaded(_) =>
      case Closing =>
    }
  }

  // ---- The count ----

  /** The updates done, on top of the loaded count; before the load only updates without a slot were done. */
  ghost predicate Counts(s: State) {
    var done := HandledOf(s.events);
    && (s.start.None? ==> s.loaded.None? && forall u :: u in done + InHand(s.at) ==> u.Other?)
    && (s.loaded.None? ==> s.updateCount == |done|)
    && (s.loaded.Some? ==>
          exists k: nat :: CountsFrom(s, done, k))
  }

  ghost predicate CountsFrom(s: State, done: seq<Update>, k: nat)
    requires s.loaded.Some?
  {
    && k <= |done| && s.updateCount == s.loaded.value.updateCount + |done| - k
    && forall j :: 0 <= j < k ==> done[j].Other?
  }

  /** The loop goes on to an update, having done what it did. */
  lemma TakesCounts(s: State, t: State)
    requires Counts(s.(at := Idle)) && HandledOf(t.events) == HandledOf(s.events)
    requires t.updateCount == s.updateCount && t.loaded == s.loaded && (s.start.Some? ==> t.start.Some?)
    requires t.start.None? ==> forall u :: u in InHand(t.at) ==> u.Other?
    ensures Counts(t)
  {
    hide HandledOf;
    assert HandledOf(s.events) + InHand(Idle) == HandledOf(s.events);
    if s.loaded.Some? {
      var k: nat :| CountsFrom(s.(at := Idle), HandledOf(s.events), k);
      assert CountsFrom(t, HandledOf(t.events), k);
    }
  }

  lemma HeadCounts(c: Config, s: State)
    requires Counts(s.(at := Idle)) && (s.start.None? <==> s.lastSlot < 0)
    ensures Counts(Head(c, s))
  {
    hide HandledOf, Counts;
    HandledMore(s.events, GapSeen(s.lastSlot + 1, if s.queue != [] && s.queue[0].Slot? then s.queue[0].slot else 0));
    NothingAdded(s.events);
    TakesCounts(s, Head(c, s));
  }

  lemma DoneCounts(s: State, t: State, u: Update)
    requires Counts(s) && s.at == Handling(u)
    requires HandledOf(t.events) == HandledOf(s.events) + [u] && t.updateCount == s.updateCount + 1
    requires t.loaded == s.loaded && t.start == s.start && t.at == Idle
    ensures Counts(t)
  {
    hide HandledOf;
    assert HandledOf(t.events) + InHand(Idle) == HandledOf(s.events) + InHand(s.at);
    if s.loaded.Some? {
      var k: nat :| CountsFrom(s, HandledOf(s.events), k);
      assert CountsFrom(t, HandledOf(t.events), k);
    }
  }

  lemma LoadCounts(s: State, ckpt: Option<Checkpoint>)
    requires Counts(s) && Tracks(s)
    ensures Counts(OnCheckpoint(s, ckpt))
  {
    hide HandledOf, Tiles;
    var t, done := OnCheckpoint(s, ckpt), HandledOf(s.events);
    if t != s {
      assert forall j :: 0 <= j < |done| ==> done[j] in done + InHand(s.at);
      assert CountsFrom(t, done, |done|);
    } else if s.loaded.Some? {
      var k: nat :| CountsFrom(s, done, k);
    }
  }

  /** An update in hand is put down. */
  lemma PutDown(s: State)
    requires Counts(s)
    ensures Counts(s.(at := Idle))
  {
    hide HandledOf;
    assert HandledOf(s.events) + InHand(Idle) == HandledOf(s.events);
    if s.loaded.Some? {
      var k: nat :| CountsFrom(s, HandledOf(s.events), k);
      assert CountsFrom(s.(at := Idle), HandledOf(s.events), k);
    }
  }

  lemma SettledCounts(c: Config, s: State, ok: bool)
    requires Counts(s) && Tracks(s)
    ensures Counts(Resume(c, s, ok))
  {
    hide HandledOf, Counts, Tiles, Head;
    HandledMore(s.events, Failed);
    NothingAdded(s.events);
    var t := if ok then s else s.(events := s.events + [Failed]);
    PutDown(s);
    match s.at {
      case Idle =>
      case Gapping(u) =>
        TakesCounts(s, Handle(t, u));
      case Handling(u) =>
        HandledMore(t.events, Handled(u));
        var done := t.(events := t.events + [Handled(u)], updateCount := s.updateCount + 1);
        DoneCounts(s, done.(at := Idle), u);
        if Due(c, done) {
          TakesCounts(done, Resume(c, s, ok));
        } else {
          HeadCounts(c, done);
        }
      case Saving(_) =>
        TakesCounts(s, t.(at := Idle));
        HeadCounts(c, t);
    }
  }

  lemma StepCounts(c: Config, s: State, e: Step)
    requires Counts(s) && Tracks(s) && (s.at == Idle <==> !s.draining)
    ensures Counts(Next(c, s, e))
  {
    hide HandledOf, Counts, Tiles, Head;
    match e {
      case Arrive(u) =>
        if !s.closed {
          HandledMore(s.events, Dropped(s.droppedCount + 1));
          NothingAdded(s.events);
          var t := Enqueue(c, s, u);
          if s.draining {
            SameCounts(s, t);
          } else {
            TakesCounts(s, t.(draining := true));
            HeadCounts(c, t.(draining := true));
          }
        }
      case Settled(ok) => SettledCounts(c, s, ok);
      case Loaded(ckpt) => LoadCounts(s, ckpt);
      case Closing => SameCounts(s, Close(s));
    }
  }

  lemma SameCounts(s: State, t: State)
    requires Counts(s) && HandledOf(t.events) == HandledOf(s.events) && t.at == s.at && t.start == s.start
    requires t.updateCount == s.updateCount && t.loaded == s.loaded
    ensures Counts(t)
  {
    hide HandledOf;
    if s.loaded.Some? {
      var k: nat :| CountsFrom(s, HandledOf(s.events), k);
      assert CountsFrom(t, HandledOf(t.events), k);
    }
  }

  ghost predicate Accounts(c: Config, store: Option<Checkpoint>, ms: seq<Move>)
    requires c.every >= 1
  {
    && Reports(Run(c, store, ms).live) && Counts(Run(c, store, ms).live)
    && SavesOf(c, Run(c, store, ms).live, Base(c, store, ms), Saves(c, store, ms))
  }

  /** The move as the live subscription sees it. */
  function StepOf(w: World, m: Move): Step
    requires !m.Restart?
  {
    match m
    case Feed(u) => Arrive(u)
    case Settle(ok) => Settled(ok)
    case Load => Loaded(if w.loading then w.store else None)
    case LoadFails => Loaded(None)
    case Shut => Closing
  }

  lemma GoSteps(c: Config, w: World, m: Move)
    requires !m.Restart?
    ensures Go(c, w, m).live == Next(c, w.live, StepOf(w, m))
  {
  }

  lemma Unfold(c: Config, store: Option<Checkpoint>, ms: seq<Move>)
    requires ms != []
    ensures var front, m := ms[..|ms| - 1], ms[|ms| - 1];
            && Run(c, store, ms) == Go(c, Run(c, store, front), m)
            && (!m.Restart? ==>
                  var before, now := Run(c, store, front).live, Run(c, store, ms).live;
                  && Base(c, store, ms)
                     == (if now.start.None? || before.start.None? then now.updateCount else Base(c, store, front))
                  && Saves(c, store, ms)
                     == if now.at.Saving? && !before.at.Saving? then Saves(c, store, front) + [now.at.ckpt]
                        else Saves(c, store, front))
            && (m.Restart? ==> Saves(c, store, ms) == [])
  {
    hide Go;
  }

  lemma BaseUnknown(c: Config, store: Option<Checkpoint>, ms: seq<Move>)
    requires Run(c, store, ms).live.start.None?
    ensures Base(c, store, ms) == Run(c, store, ms).live.updateCount
  {
    hide Run;
  }

  lemma FreshSaves(c: Config)
    requires Accepted(c)
    ensures SavesOf(c, Fresh(), 0, []) && Reports(Fresh()) && Counts(Fresh())
  {
  }

  lemma BeginSaves(c: Config, store: Option<Checkpoint>)
    ensures Run(c, store, []).live == Fresh() && Base(c, store, []) == 0 && Saves(c, store, []) == []
  {
  }

  /**
   * On any run, restarts included: every drop and every gap is reported once, the count is that of the updates done on
   * top of the loaded one, and with a store a checkpoint is saved at each multiple of the period that the count reaches
   * since a slot is known, once each and in order.
   */
  lemma {:induction false} RunAccounts(c: Config, store: Option<Checkpoint>, ms: seq<Move>)
    requires Accepted(c)
    ensures Accounts(c, store, ms)
    decreases |ms|
  {
    hide Run, Go, Next, Base, Saves, SavesOf, Reports, Counts, Tracks, Queued, Begun, StepOf, Fresh;
    if ms == [] {
      BeginSaves(c, store);
      FreshSaves(c);
    } else {
      var front, m := ms[..|ms| - 1], ms[|ms| - 1];
      Unfold(c, store, ms);
      if m.Restart? {
        RestartFresh(c, Run(c, store, front), m);
        BaseUnknown(c, store, ms);
        FreshSaves(c);
      } else {
        RunAccounts(c, store, front);
        RunKeeps(c, store, front);
        var w := Run(c, store, front);
        GoSteps(c, w, m);
        QueueWithin(c, w.live);
        StepReports(c, w.live, StepOf(w, m));
        StepCounts(c, w.live, StepOf(w, m));
        if w.live.start.None? {
          BaseUnknown(c, store, front);
        }
        StepSaves(c, w.live, StepOf(w, m), Base(c, store, front), Saves(c, store, front));
        if Run(c, store, ms).live.start.None? {
          BaseUnknown(c, store, ms);
          StartStays(c, w.live, StepOf(w, m));
        }
      }
    }
  }

  lemma RestartFresh(c: Config, w: World, m: Move)
    requires m.Restart?
    ensures Go(c, w, m).live == Fresh() && Fresh().start.None? && Fresh().updateCount == 0
  {
  }

  lemma StartStays(c: Config, s: State, e: Step)
    requires Tracks(s)
    ensures s.start.Some? ==> Next(c, s, e).start.Some?
  {
    hide Tiles;
  }

  // ---- After close ----

  lemma ClosedStep(c: Config, s: State, e: Step)
    requires s.closed
    ensures var t := Next(c, s, e);
            && t.closed && t.arrivals == s.arrivals && t.taken == s.taken && t.queue == s.queue
            && t.droppedCount == s.droppedCount
  {
  }

  /**
   * Once closed, a subscription neither queues nor takes nor drops another update, whatever arrives or settles; at most
   * the one in hand is finished.
   */
  lemma {:induction false} ClosedIsOver(c: Config, store: Option<Checkpoint>, ms: seq<Move>, more: seq<Move>)
    requires forall i :: 0 <= i < |more| ==> !more[i].Restart?
    ensures var s, t := Run(c, store, ms).live, Run(c, store, ms + [Shut] + more).live;
            && t.closed && t.arrivals == s.arrivals && t.taken == s.taken && t.queue == s.queue
            && t.droppedCount == s.droppedCount
    decreases |more|
  {
    hide Run, Next, Go;
    var all := ms + [Shut] + more;
    if more == [] {
      assert all == ms + [Shut] && all[..|all| - 1] == ms;
      Unfold(c, store, all);
      ShutCloses(c, Run(c, store, ms));
    } else {
      var front := more[..|more| - 1];
      ClosedIsOver(c, store, ms, front);
      assert all[..|all| - 1] == ms + [Shut] + front && all[|all| - 1] == more[|front|];
      Unfold(c, store, all);
      GoSteps(c, Run(c, store, ms + [Shut] + front), more[|front|]);
      ClosedStep(c, Run(c, store, ms + [Shut] + front).live, StepOf(Run(c, store, ms + [Shut] + front), more[|front|]));
    }
  }

  lemma ShutCloses(c: Config, w: World)
    ensures Go(c, w, Shut).live == w.live.(closed := true)
  {
  }

  // ---- The loop catches up ----

  function Settles(n: nat): (ms: seq<Move>)
    ensures |ms| == n && forall i :: 0 <= i < n ==> ms[i] == Settle(true)
  {
    seq(n, _ => Settle(true))
  }

  function Behind(s: State): nat {
    3 * |s.queue| + match s.at
                    case Idle => 0
                    case Gapping(_) => 3
                    case Handling(_) => 2
                    case Saving(_) => 1
  }

  lemma SettleCatchesUp(c: Config, s: State)
    requires s.at != Idle
    ensures Behind(Next(c, s, Settled(true))) < Behind(s)
  {
    hide Head;
    HeadBehind(c, s);
    if s.at.Handling? {
      HeadBehind(c, s.(events := s.events + [Handled(s.at.u)], updateCount := s.updateCount + 1));
    }
  }

  lemma HeadBehind(c: Config, s: State)
    ensures Behind(Head(c, s)) <= 3 * |s.queue|
  {
  }

  /**
   * From any state a run reaches, finitely many settled awaits bring the loop to rest, with nothing queued unless the
   * subscription is closed.
   */
  lemma {:induction false} CatchesUp(c: Config, store: Option<Checkpoint>, ms: seq<Move>) returns (n: nat)
    requires Accepted(c)
    ensures var t := Run(c, store, ms + Settles(n)).live;
            t.at == Idle && !t.draining && (t.queue == [] || t.closed)
    decreases Behind(Run(c, store, ms).live)
  {
    hide Run, Next, Go, Begun, QueueKept;
    RunKeeps(c, store, ms);
    var w := Run(c, store, ms);
    if w.live.at == Idle {
      n := 0;
      assert ms + Settles(0) == ms;
    } else {
      var more := ms + [Settle(true)];
      assert more[..|more| - 1] == ms;
      Unfold(c, store, more);
      GoSteps(c, w, Settle(true));
      SettleCatchesUp(c, w.live);
      var rest := CatchesUp(c, store, more);
      n := rest + 1;
      assert Settles(n) == [Settle(true)] + Settles(rest);
      assert ms + Settles(n) == more + Settles(rest);
    }
  }
}
