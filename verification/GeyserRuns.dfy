/** Whole runs of Geyser subscriptions, across crashes and restarts on one checkpoint store. */
module GeyserRuns {
  import opened Wrappers
  import opened Bytes
  import opened DropOldest
  import opened Geyser

  // ---- The queue ----

  function HandledOf(es: seq<Event>): seq<Update> {
    if es == [] then []
    else HandledOf(es[..|es| - 1]) + if es[|es| - 1].Handled? then [es[|es| - 1].u] else []
  }

  function InHand(at: At): seq<Update> {
    match at
    case Gapping(u) => [u]
    case Handling(u) => [u]
    case _ => []
  }

  /**
   * The queue is the newest arrivals, never more than its capacity; every earlier arrival was handed to the handler,
   * in order, or counted as dropped; and the loop does not sleep over a non-empty queue.
   */
  ghost predicate Queued(c: Config, s: State) {
    && QueueKept(c, s, HandledOf(s.events) + InHand(s.at))
    && (s.draining <==> s.at != Idle)
    && (!s.draining && !s.closed ==> s.queue == [])
  }

  ghost predicate QueueKept(c: Config, s: State, us: seq<Update>) {
    && |s.queue| <= c.capacity && Kept(c.capacity, s.queue, s.arrivals, s.taken, us)
    && s.droppedCount == DroppedOf(s.queue, s.arrivals, s.taken)
  }

  lemma HandledMore(es: seq<Event>, e: Event)
    ensures HandledOf(es + [e]) == HandledOf(es) + if e.Handled? then [e.u] else []
  {
    assert (es + [e])[..|es|] == es;
  }

  lemma NothingAdded(es: seq<Event>)
    ensures HandledOf(es) + [] == HandledOf(es)
  {
  }

  lemma HeadQueued(c: Config, s: State)
    requires QueueKept(c, s, HandledOf(s.events)) && s.draining
    ensures Queued(c, Head(c, s))
  {
    hide HandledOf, Picks, Kept, Head;
    NothingAdded(s.events);
    if !s.closed && s.queue != [] {
      var u := s.queue[0];
      KeptTake(c.capacity, s.queue, s.arrivals, s.taken, HandledOf(s.events));
      HandledMore(s.events, GapSeen(s.lastSlot + 1, if u.Slot? then u.slot else 0));
      NothingAdded(s.events);
      HeadTook(c, s);
    } else {
      HeadStops(c, s);
    }
  }

  lemma HeadStops(c: Config, s: State)
    requires s.closed || s.queue == []
    ensures Head(c, s) == s.(draining := false, at := Idle)
  {
  }

  /** A loop head that takes an update leaves it in hand. */
  lemma HeadTook(c: Config, s: State)
    requires !s.closed && s.queue != [] && |s.queue| <= |s.arrivals|
    ensures var t, u := Head(c, s), s.queue[0];
            && t.queue == s.queue[1..] && t.arrivals == s.arrivals && t.taken == s.taken + [|s.arrivals| - |s.queue|]
            && t.droppedCount == s.droppedCount && t.draining == s.draining && InHand(t.at) == [u] && t.at != Idle
            && (t.events == s.events || t.events == s.events + [GapSeen(s.lastSlot + 1, if u.Slot? then u.slot else 0)])
  {
  }

  lemma EnqueueQueued(c: Config, s: State, u: Update)
    requires Accepted(c) && Queued(c, s)
    ensures var t := Enqueue(c, s, u);
            && QueueKept(c, t, HandledOf(t.events) + InHand(t.at))
            && t.at == s.at && t.draining == s.draining && t.closed == s.closed
  {
    hide HandledOf, Kept, Picks;
    KeptArrival(c.capacity, s.queue, s.arrivals, s.taken, HandledOf(s.events) + InHand(s.at), u);
    HandledMore(s.events, Dropped(s.droppedCount + 1));
    NothingAdded(s.events);
  }

  lemma StepQueued(c: Config, s: State, e: Step)
    requires Accepted(c) && Queued(c, s)
    ensures Queued(c, Next(c, s, e))
  {
    hide HandledOf, Head, Enqueue, Kept;
    match e {
      case Arrive(u) =>
        if !s.closed {
          EnqueueQueued(c, s, u);
          if !s.draining {
            NothingAdded(Enqueue(c, s, u).events);
            HeadQueued(c, Enqueue(c, s, u).(draining := true));
          }
        }
      case Settled(ok) =>
        SettledQueued(c, s, ok);
      case Loaded(ckpt) =>
      case Closing =>
    }
  }

  lemma SettledQueued(c: Config, s: State, ok: bool)
    requires Queued(c, s)
    ensures Queued(c, Resume(c, s, ok))
  {
    hide HandledOf, Head, Kept;
    HandledMore(s.events, Failed);
    NothingAdded(s.events);
    var t := if ok then s else s.(events := s.events + [Failed]);
    assert HandledOf(t.events) == HandledOf(s.events);
    match s.at {
      case Idle =>
      case Gapping(u) =>
      case Handling(u) =>
        HandledMore(t.events, Handled(u));
        var done := t.(events := t.events + [Handled(u)], updateCount := s.updateCount + 1);
        NothingAdded(done.events);
        HeadQueued(c, done);
      case Saving(_) =>
        HeadQueued(c, t);
    }
  }

  // ---- Where the count starts ----

  /** The updates the drain loop took, in order. */
  function Took(s: State): seq<Update> {
    HandledOf(s.events) + InHand(s.at)
  }

  function FirstSlot(us: seq<Update>): Option<nat> {
    if us == [] then None else if us[0].Slot? then Some(us[0].slot) else FirstSlot(us[1..])
  }

  lemma {:induction false} FirstSlotAppend(us: seq<Update>, u: Update)
    ensures FirstSlot(us + [u]) == if FirstSlot(us).Some? then FirstSlot(us) else FirstSlot([u])
    decreases |us|
  {
    if us == [] {
      assert us + [u] == [u];
    } else {
      assert (us + [u])[1..] == us[1..] + [u];
      FirstSlotAppend(us[1..], u);
    }
  }

  /** At the checkpoint if one was taken, else just below the first slot update. */
  function Origin(loaded: Option<Checkpoint>, first: Option<nat>): Option<int> {
    if loaded.Some? then Some(loaded.value.lastSlot) else if first.Some? then Some(first.value - 1) else None
  }

  ghost predicate Begun(s: State) {
    s.start == Origin(s.loaded, FirstSlot(Took(s)))
  }

  lemma HeadBegun(c: Config, s: State)
    requires s.start == Origin(s.loaded, FirstSlot(HandledOf(s.events))) && |s.queue| <= |s.arrivals|
    requires s.start.None? <==> s.lastSlot < 0
    ensures Begun(Head(c, s))
  {
    hide HandledOf, FirstSlot;
    NothingAdded(s.events);
    if !s.closed && s.queue != [] {
      var u := s.queue[0];
      HeadTook(c, s);
      HandledMore(s.events, GapSeen(s.lastSlot + 1, if u.Slot? then u.slot else 0));
      NothingAdded(s.events);
      FirstSlotAppend(HandledOf(s.events), u);
      FirstSlotOne(u);
    }
  }

  lemma FirstSlotOne(u: Update)
    ensures FirstSlot([u]) == if u.Slot? then Some(u.slot) else None
  {
  }

  lemma EnqueueBegun(c: Config, s: State, u: Update)
    requires Begun(s)
    ensures Begun(Enqueue(c, s, u))
  {
    hide HandledOf, FirstSlot;
    HandledMore(s.events, Dropped(s.droppedCount + 1));
    NothingAdded(s.events);
  }

  lemma SettledBegun(c: Config, s: State, ok: bool)
    requires Tracks(s) && Begun(s) && |s.queue| <= |s.arrivals|
    ensures Begun(Resume(c, s, ok))
  {
    hide HandledOf, FirstSlot, Head, Tiles;
    HandledMore(s.events, Failed);
    NothingAdded(s.events);
    var t := if ok then s else s.(events := s.events + [Failed]);
    match s.at {
      case Idle =>
      case Gapping(u) =>
      case Handling(u) =>
        HandledMore(t.events, Handled(u));
        var done := t.(events := t.events + [Handled(u)], updateCount := s.updateCount + 1);
        NothingAdded(done.events);
        HeadBegun(c, done);
      case Saving(_) =>
        HeadBegun(c, t);
    }
  }

  lemma StepBegun(c: Config, s: State, e: Step)
    requires Tracks(s) && Begun(s) && |s.queue| <= |s.arrivals| && c.capacity >= 1
    requires s.at == Idle <==> !s.draining
    ensures Begun(Next(c, s, e))
  {
    hide HandledOf, FirstSlot, Head, Enqueue, Tiles, Handle, Resume;
    match e {
      case Arrive(u) =>
        if !s.closed {
          EnqueueBegun(c, s, u);
          EnqueueFrame(c, s, u);
          if !s.draining {
            NothingAdded(Enqueue(c, s, u).events);
            HeadBegun(c, Enqueue(c, s, u).(draining := true));
          }
        }
      case Settled(ok) => SettledBegun(c, s, ok);
      case Loaded(ckpt) =>
      case Closing =>
    }
  }

  lemma EnqueueFrame(c: Config, s: State, u: Update)
    requires |s.queue| <= |s.arrivals| && c.capacity >= 1
    ensures var t := Enqueue(c, s, u);
            && t.at == s.at && t.draining == s.draining && t.start == s.start && t.lastSlot == s.lastSlot
            && t.loaded == s.loaded && |t.queue| <= |t.arrivals|
  {
  }

  // ---- Restarts ----

  /**
   * What one subscription accounted for: the slots after `start` up to `tip`, tiled by `marks`; with the checkpoint it
   * took from the store, if any, and the first slot update its loop took.
   */
  datatype Span = Span(start: int, tip: int, marks: seq<Mark>, loaded: Option<Checkpoint>, first: Option<nat>)

  function SpanOf(s: State): seq<Span> {
    if s.start.None? then [] else [Span(s.start.value, Tip(s), s.marks, s.loaded, FirstSlot(Took(s)))]
  }

  /**
   * The checkpoint store, the subscriptions that are gone, and the live one, which may still be waiting for its load.
   */
  datatype World = World(store: Option<Checkpoint>, past: seq<Span>, live: State, loading: bool)

  /** `Restart(landed)`: the process dies and subscribes again; a checkpoint being written may or may not be on disk. */
  datatype Move = Feed(u: Update) | Settle(ok: bool) | Load | LoadFails | Shut | Restart(landed: bool)

  function Begin(c: Config, store: Option<Checkpoint>): World {
    World(store, [], Fresh(), c.store)
  }

  function Saved(w: World, ok: bool): Option<Checkpoint> {
    if w.live.at.Saving? && ok then Some(w.live.at.ckpt) else w.store
  }

  function Go(c: Config, w: World, m: Move): World {
    match m
    case Feed(u) => w.(live := Next(c, w.live, Arrive(u)))
    case Settle(ok) => w.(live := Next(c, w.live, Settled(ok)), store := Saved(w, ok))
    case Load => if w.loading then w.(live := Next(c, w.live, Loaded(w.store)), loading := false) else w
    case LoadFails => w.(loading := false)
    case Shut => w.(live := Next(c, w.live, Closing))
    case Restart(landed) => World(Saved(w, landed), w.past + SpanOf(w.live), Fresh(), c.store)
  }

  function Run(c: Config, store: Option<Checkpoint>, ms: seq<Move>): World {
    if ms == [] then Begin(c, store) else Go(c, Run(c, store, ms[..|ms| - 1]), ms[|ms| - 1])
  }

  function Spans(w: World): seq<Span> {
    w.past + SpanOf(w.live)
  }

  /** The checkpoint's slot is one some subscription had already accounted for, or the one the store began with. */
  ghost predicate Known(store: Option<Checkpoint>, spans: seq<Span>, slot: int) {
    || (store.Some? && slot == store.value.lastSlot)
    || exists i :: 0 <= i < |spans| && spans[i].start <= slot <= spans[i].tip
  }

  ghost predicate Sound(s: Span) {
    Tiles(s.start, s.marks, s.tip) && Some(s.start) == Origin(s.loaded, s.first)
  }

  ghost predicate WorldInv(c: Config, store: Option<Checkpoint>, w: World) {
    && Queued(c, w.live) && Tracks(w.live) && Begun(w.live)
    && (forall i :: 0 <= i < |w.past| ==> Sound(w.past[i]))
    && (w.store.Some? ==> Known(store, Spans(w), w.store.value.lastSlot))
    && (forall i :: 0 <= i < |Spans(w)| && Spans(w)[i].loaded.Some? ==> Known(store, Spans(w)[..i], Spans(w)[i].start))
  }

  lemma KnownMore(store: Option<Checkpoint>, spans: seq<Span>, more: seq<Span>, slot: int)
    requires Known(store, spans, slot) && |spans| <= |more|
    requires forall i :: 0 <= i < |spans| ==> more[i].start == spans[i].start && spans[i].tip <= more[i].tip
    ensures Known(store, more, slot)
  {
    if !(store.Some? && slot == store.value.lastSlot) {
      var i :| 0 <= i < |spans| && spans[i].start <= slot <= spans[i].tip;
      assert more[i].start <= slot <= more[i].tip;
    }
  }

  /** What no step of a subscription undoes. */
  ghost predicate Extends(s: State, t: State) {
    && t.loaded == s.loaded
    && (s.start.Some? ==> t.start == s.start && Tip(s) <= Tip(t))
  }

  lemma HeadExtends(c: Config, s: State)
    requires s.start.Some? ==> s.lastSlot >= 0
    ensures Head(c, s).loaded == s.loaded
    ensures s.start.Some? ==> Head(c, s).start == s.start && s.lastSlot <= Tip(Head(c, s))
  {
  }

  /** A step of the live subscription only extends what it accounts for. */
  lemma StepExtends(c: Config, s: State, e: Step)
    requires Tracks(s) && (s.at == Idle <==> !s.draining)
    requires e.Loaded? ==> s.start.Some? || e.ckpt.None?
    ensures Extends(s, Next(c, s, e))
  {
    hide Tiles, Head;
    match e {
      case Arrive(u) => HeadExtends(c, Enqueue(c, s, u).(draining := true));
      case Settled(ok) =>
        var t := if ok then s else s.(events := s.events + [Failed]);
        match s.at {
          case Handling(u) => HeadExtends(c, t.(events := t.events + [Handled(u)], updateCount := s.updateCount + 1));
          case _ => HeadExtends(c, t);
        }
      case Loaded(_) =>
      case Closing =>
    }
  }

  lemma SavedKnown(store: Option<Checkpoint>, c: Config, w: World, ok: bool)
    requires WorldInv(c, store, w)
    ensures Saved(w, ok).Some? ==> Known(store, Spans(w), Saved(w, ok).value.lastSlot)
  {
    hide Queued, Tiles;
    var spans := Spans(w);
    if w.live.at.Saving? && ok {
      assert spans[|spans| - 1].start <= w.live.at.ckpt.lastSlot <= spans[|spans| - 1].tip;
    }
  }

  /** The live subscription took a step, and the store holds a slot that was already accounted for. */
  lemma LiveKeeps(c: Config, store: Option<Checkpoint>, w: World, t: State, now: Option<Checkpoint>, loading: bool)
    requires WorldInv(c, store, w) && Queued(c, t) && Tracks(t) && Begun(t)
    requires now.Some? ==> Known(store, Spans(w), now.value.lastSlot)
    requires w.live.start.Some? ==> t.start == w.live.start && Tip(w.live) <= Tip(t) && t.loaded == w.live.loaded
    requires w.live.start.None? && t.loaded.Some? ==> Known(store, w.past, t.loaded.value.lastSlot)
    ensures WorldInv(c, store, World(now, w.past, t, loading))
  {
    hide Queued, Tiles, Known;
    var after := World(now, w.past, t, loading);
    if now.Some? {
      KnownMore(store, Spans(w), Spans(after), now.value.lastSlot);
    }
    forall i | 0 <= i < |Spans(after)| && Spans(after)[i].loaded.Some?
      ensures Known(store, Spans(after)[..i], Spans(after)[i].start)
    {
      assert Spans(after)[..i] == w.past[..i];
      if i < |Spans(w)| {
        assert Spans(w)[i].loaded.Some? && Spans(w)[..i] == w.past[..i];
      } else {
        assert w.past[..i] == w.past;
      }
    }
  }

  lemma QueueWithin(c: Config, s: State)
    requires Queued(c, s)
    ensures |s.queue| <= |s.arrivals| && (s.at == Idle <==> !s.draining)
  {
  }

  lemma GoKeeps(c: Config, store: Option<Checkpoint>, w: World, m: Move)
    requires Accepted(c) && WorldInv(c, store, w)
    ensures WorldInv(c, store, Go(c, w, m))
  {
    hide Tiles, Next, Known, Kept;
    var ok := if m.Settle? then m.ok else if m.Restart? then m.landed else false;
    SavedKnown(store, c, w, ok);
    match m {
      case Restart(landed) =>
        RestartKeeps(c, store, w, landed);
      case LoadFails =>
        StepExtends(c, w.live, Loaded(None));
        LiveKeeps(c, store, w, w.live, w.store, false);
      case Load =>
        if w.loading {
          StepQueued(c, w.live, Loaded(w.store));
          StepTracks(c, w.live, Loaded(w.store));
          QueueWithin(c, w.live);
          StepBegun(c, w.live, Loaded(w.store));
          LoadStep(c, w.live, w.store);
          assert w.live.start.None? ==> Spans(w) == w.past;
          LiveKeeps(c, store, w, Next(c, w.live, Loaded(w.store)), w.store, false);
        }
      case _ =>
        var e := match m case Feed(u) => Arrive(u) case Settle(ok) => Settled(ok) case _ => Closing;
        StepQueued(c, w.live, e);
        StepTracks(c, w.live, e);
        QueueWithin(c, w.live);
        StepBegun(c, w.live, e);
        StepExtends(c, w.live, e);
        LiveKeeps(c, store, w, Next(c, w.live, e), Go(c, w, m).store, w.loading);
    }
  }

  /** The store's answer starts the count from the stored slot, or changes nothing. */
  lemma LoadStep(c: Config, s: State, ckpt: Option<Checkpoint>)
    requires Tracks(s)
    ensures var t := Next(c, s, Loaded(ckpt));
            if s.start.Some? || ckpt.None? then t == s else t.loaded == ckpt && t.start == Some(ckpt.value.lastSlot)
    ensures s.start.None? ==> s.loaded.None?
  {
  }

  lemma FreshBegins(c: Config)
    ensures Queued(c, Fresh()) && Tracks(Fresh()) && Begun(Fresh()) && SpanOf(Fresh()) == []
  {
  }

  lemma SpanSound(s: State)
    requires Tracks(s) && Begun(s)
    ensures forall i :: 0 <= i < |SpanOf(s)| ==> Sound(SpanOf(s)[i])
  {
    hide Tiles, FirstSlot, Took, Origin;
  }

  lemma RestartKeeps(c: Config, store: Option<Checkpoint>, w: World, landed: bool)
    requires Accepted(c) && WorldInv(c, store, w)
    ensures WorldInv(c, store, Go(c, w, Restart(landed)))
  {
    hide Known, Queued, Tracks, Begun, Sound, SpanOf, Fresh;
    SavedKnown(store, c, w, landed);
    SpanSound(w.live);
    FreshBegins(c);
    assert Spans(w) + [] == Spans(w);
  }

  lemma {:induction false} RunKeeps(c: Config, store: Option<Checkpoint>, ms: seq<Move>)
    requires Accepted(c)
    ensures WorldInv(c, store, Run(c, store, ms))
    decreases |ms|
  {
    hide Go;
    if ms != [] {
      RunKeeps(c, store, ms[..|ms| - 1]);
      GoKeeps(c, store, Run(c, store, ms[..|ms| - 1]), ms[|ms| - 1]);
    }
  }

  // ---- The start, from the moves ----

  /** The checkpoint whose load came before the live subscription's loop took a slot update. */
  function InTime(c: Config, store: Option<Checkpoint>, ms: seq<Move>): Option<Checkpoint> {
    if ms == [] then None
    else
      var before := ms[..|ms| - 1];
      var w := Run(c, store, before);
      match ms[|ms| - 1]
      case Restart(_) => None
      case Load => if w.loading && FirstSlot(Took(w.live)).None? then w.store else InTime(c, store, before)
      case _ => InTime(c, store, before)
  }

  /**
   * The live count starts at the stored checkpoint exactly when its load came before the first slot update the loop
   * took; otherwise it starts just below that slot.
   */
  lemma LiveStart(c: Config, store: Option<Checkpoint>, ms: seq<Move>)
    requires Accepted(c)
    ensures var s, k := Run(c, store, ms).live, InTime(c, store, ms);
            && s.loaded == k
            && s.start == if k.Some? then Some(k.value.lastSlot)
                          else if FirstSlot(Took(s)).Some? then Some(FirstSlot(Took(s)).value - 1) else None
  {
    hide Run, InTime, Queued, Tracks, FirstSlot, Took, Known, Sound, Spans;
    LoadedInTime(c, store, ms);
    RunKeeps(c, store, ms);
  }

  lemma {:induction false} LoadedInTime(c: Config, store: Option<Checkpoint>, ms: seq<Move>)
    requires Accepted(c)
    ensures var w := Run(c, store, ms);
            w.live.loaded == InTime(c, store, ms) && (w.loading ==> w.live.loaded.None?)
    decreases |ms|
  {
    hide Next, FirstSlot, Took, Queued, Known;
    if ms != [] {
      var before := ms[..|ms| - 1];
      var w := Run(c, store, before);
      LoadedInTime(c, store, before);
      RunKeeps(c, store, before);
      QueueWithin(c, w.live);
      match ms[|ms| - 1] {
        case Restart(_) =>
        case LoadFails =>
        case Load =>
          if w.loading {
            LoadTakes(c, w.live, w.store);
          }
        case Feed(u) => StepExtends(c, w.live, Arrive(u));
        case Settle(ok) => StepExtends(c, w.live, Settled(ok));
        case Shut => StepExtends(c, w.live, Closing);
      }
    }
  }

  lemma LoadTakes(c: Config, s: State, ckpt: Option<Checkpoint>)
    requires Tracks(s) && Begun(s) && s.loaded.None?
    ensures Next(c, s, Loaded(ckpt)).loaded == if FirstSlot(Took(s)).None? then ckpt else None
  {
    hide FirstSlot, Took, Tiles;
  }

  // ---- No slot is lost ----

  /** Some subscription advanced on slot `x` or reported it in a gap. */
  ghost predicate Accounted(spans: seq<Span>, x: int) {
    exists i :: 0 <= i < |spans| && Marked(spans[i].marks, x)
  }

  ghost predicate Reached(spans: seq<Span>, x: int) {
    exists i :: 0 <= i < |spans| && x <= spans[i].tip
  }

  /** The first known slot: the stored checkpoint's, or else where the first subscription starts. */
  function Base(store: Option<Checkpoint>, spans: seq<Span>): int {
    if store.Some? then store.value.lastSlot else if spans != [] then spans[0].start else -1
  }

  /** Every slot after the first known one, up to the last reached, was advanced on or reported in a gap. */
  ghost predicate Covered(store: Option<Checkpoint>, spans: seq<Span>) {
    forall x :: Base(store, spans) < x && Reached(spans, x) ==> Accounted(spans, x)
  }

  /** Each mark list of a run is exactly the span's slots. */
  ghost predicate Exact(spans: seq<Span>) {
    forall i :: 0 <= i < |spans| ==>
      spans[i].start <= spans[i].tip && forall x :: Marked(spans[i].marks, x) <==> spans[i].start < x <= spans[i].tip
  }

  lemma RunExact(c: Config, store: Option<Checkpoint>, ms: seq<Move>)
    requires Accepted(c)
    ensures Exact(Spans(Run(c, store, ms)))
  {
    hide Run, Queued, Tiles, Origin;
    RunKeeps(c, store, ms);
    var w := Run(c, store, ms);
    var spans := Spans(w);
    forall i | 0 <= i < |spans|
      ensures spans[i].start <= spans[i].tip
              && forall x :: Marked(spans[i].marks, x) <==> spans[i].start < x <= spans[i].tip
    {
      assert Tiles(spans[i].start, spans[i].marks, spans[i].tip);
      TiledOnce(spans[i].start, spans[i].marks, spans[i].tip);
    }
  }

  /** The slot a subscription starts at is the first known one or before it, or some subscription's own. */
  ghost predicate StartMet(store: Option<Checkpoint>, spans: seq<Span>, i: nat)
    requires i < |spans|
  {
    || spans[i].start <= Base(store, spans)
    || exists j :: 0 <= j < |spans| && spans[j].start < spans[i].start <= spans[j].tip
  }

  /** Down from start to start until one lies below `x`. */
  lemma {:induction false} Descend(store: Option<Checkpoint>, spans: seq<Span>, x: int, i: nat)
    requires Exact(spans) && i < |spans| && Base(store, spans) < x <= spans[i].tip
    requires forall k: nat :: k < |spans| ==> StartMet(store, spans, k)
    ensures Accounted(spans, x)
    decreases spans[i].start - Base(store, spans)
  {
    if spans[i].start < x {
      assert Marked(spans[i].marks, x);
    } else {
      assert StartMet(store, spans, i);
      var j: nat :| j < |spans| && spans[j].start < spans[i].start <= spans[j].tip;
      Descend(store, spans, x, j);
    }
  }

  /**
   * After any moves and any number of restarts: nothing after the first known slot is missing exactly when each
   * subscription starts at or below it, or at a slot some subscription accounted for.
   */
  lemma CoveredIff(c: Config, store: Option<Checkpoint>, ms: seq<Move>)
    requires Accepted(c)
    ensures var spans := Spans(Run(c, store, ms));
            Covered(store, spans) <==> forall i: nat :: i < |spans| ==> StartMet(store, spans, i)
  {
    hide Run;
    var spans := Spans(Run(c, store, ms));
    RunExact(c, store, ms);
    if Covered(store, spans) {
      forall i: nat | i < |spans|
        ensures StartMet(store, spans, i)
      {
        if spans[i].start > Base(store, spans) {
          assert Reached(spans, spans[i].start);
          var j :| 0 <= j < |spans| && Marked(spans[j].marks, spans[i].start);
        }
      }
    }
    if forall i: nat :: i < |spans| ==> StartMet(store, spans, i) {
      forall x | Base(store, spans) < x && Reached(spans, x)
        ensures Accounted(spans, x)
      {
        var i: nat :| i < |spans| && x <= spans[i].tip;
        Descend(store, spans, x, i);
      }
    }
  }

  // ---- No hole at any moment ----

  /** The furthest slot reached by `spans`, or the first known one. */
  function Furthest(base: int, spans: seq<Span>): (f: int)
    ensures f >= base && forall i :: 0 <= i < |spans| ==> spans[i].tip <= f
    ensures f == base || exists i :: 0 <= i < |spans| && spans[i].tip == f
  {
    if spans == [] then base else Max(Furthest(base, spans[..|spans| - 1]), spans[|spans| - 1].tip)
  }

  /** Each subscription starts no further than the furthest slot reached before it. */
  ghost predicate Chained(store: Option<Checkpoint>, spans: seq<Span>) {
    forall i: nat :: i < |spans| ==> NoFurther(store, spans, i)
  }

  predicate NoFurther(store: Option<Checkpoint>, spans: seq<Span>, i: nat)
    requires i < |spans|
  {
    spans[i].start <= Furthest(Base(store, spans), spans[..i])
  }

  /** A later state of the spans: only the last may have moved on, and one more may have begun. */
  ghost predicate Grown(before: seq<Span>, after: seq<Span>) {
    && |before| <= |after| <= |before| + 1
    && (forall i :: 0 <= i < |before| ==> after[i].start == before[i].start)
    && (forall i :: 0 <= i < |before| - 1 ==> after[i] == before[i])
    && (|after| > |before| ==> after[..|before|] == before)
  }

  lemma SameStart(store: Option<Checkpoint>, before: seq<Span>, after: seq<Span>, i: nat)
    requires Grown(before, after) && i < |before|
    ensures NoFurther(store, before, i) <==> NoFurther(store, after, i)
  {
    hide Furthest;
    assert before[..i] == after[..i];
  }

  lemma ChainedBack(store: Option<Checkpoint>, before: seq<Span>, after: seq<Span>)
    requires Grown(before, after) && Chained(store, after)
    ensures Chained(store, before)
  {
    hide NoFurther;
    forall i: nat | i < |before|
      ensures NoFurther(store, before, i)
    {
      assert i < |after|;
      SameStart(store, before, after, i);
    }
  }

  lemma ChainedOn(store: Option<Checkpoint>, before: seq<Span>, after: seq<Span>)
    requires Grown(before, after) && Chained(store, before) && Exact(after) && Covered(store, after)
    ensures Chained(store, after)
  {
    hide NoFurther, Exact, Covered;
    forall i: nat | i < |after|
      ensures NoFurther(store, after, i)
    {
      if i < |before| {
        SameStart(store, before, after, i);
      } else {
        LastStart(store, after);
      }
    }
  }

  /** When nothing is missing, the last subscription to begin starts no further than the others reached. */
  lemma LastStart(store: Option<Checkpoint>, spans: seq<Span>)
    requires spans != [] && Exact(spans) && Covered(store, spans)
    ensures NoFurther(store, spans, |spans| - 1)
  {
    var front, x := spans[..|spans| - 1], spans[|spans| - 1].start;
    if x > Base(store, spans) {
      assert Reached(spans, x);
      var j :| 0 <= j < |spans| && Marked(spans[j].marks, x);
      assert spans[j].start < x <= spans[j].tip;
      assert front[j] == spans[j];
    }
  }

  /** The first span that reaches `x`. */
  lemma {:induction false} FirstReaching(spans: seq<Span>, x: int) returns (i: nat)
    requires Reached(spans, x)
    ensures i < |spans| && x <= spans[i].tip && !Reached(spans[..i], x)
    decreases |spans|
  {
    var n := |spans| - 1;
    if Reached(spans[..n], x) {
      i := FirstReaching(spans[..n], x);
      assert spans[..n][..i] == spans[..i];
    } else {
      i := n;
      assert forall j :: 0 <= j < n ==> spans[..n][j].tip < x;
      assert x <= spans[n].tip;
    }
  }

  lemma ChainedCovers(store: Option<Checkpoint>, spans: seq<Span>)
    requires Chained(store, spans) && Exact(spans)
    ensures Covered(store, spans)
  {
    forall x | Base(store, spans) < x && Reached(spans, x)
      ensures Accounted(spans, x)
    {
      var i := FirstReaching(spans, x);
      assert forall j :: 0 <= j < i ==> spans[..i][j].tip < x;
      assert NoFurther(store, spans, i);
      assert Marked(spans[i].marks, x);
    }
  }

  lemma LiveGrows(past: seq<Span>, s: State, t: State)
    requires s.start.None? || (t.start == s.start && Tip(s) <= Tip(t))
    ensures Grown(past + SpanOf(s), past + SpanOf(t))
  {
    hide Tip, FirstSlot, Took;
    assert s.start.None? ==> past + SpanOf(s) == past;
  }

  lemma GoGrows(c: Config, store: Option<Checkpoint>, w: World, m: Move)
    requires WorldInv(c, store, w)
    ensures Grown(Spans(w), Spans(Go(c, w, m)))
  {
    hide Tracks, Next, Known, Begun, Sound, SpanOf, Grown, Tip;
    QueueWithin(c, w.live);
    match m {
      case Restart(_) =>
        FreshBegins(c);
        assert Spans(w) + [] == Spans(w);
        Unchanged(Spans(w));
      case LoadFails => Unchanged(Spans(w));
      case Load =>
        LoadStep(c, w.live, w.store);
        Unchanged(Spans(w));
        LiveGrows(w.past, w.live, Next(c, w.live, Loaded(w.store)));
      case Feed(u) =>
        StepExtends(c, w.live, Arrive(u));
        LiveGrows(w.past, w.live, Next(c, w.live, Arrive(u)));
      case Settle(ok) =>
        StepExtends(c, w.live, Settled(ok));
        LiveGrows(w.past, w.live, Next(c, w.live, Settled(ok)));
      case Shut =>
        StepExtends(c, w.live, Closing);
        LiveGrows(w.past, w.live, Next(c, w.live, Closing));
    }
  }

  lemma Unchanged(spans: seq<Span>)
    ensures Grown(spans, spans)
  {
  }

  /** Covered after each of the moves so far. */
  ghost predicate AlwaysCovered(c: Config, store: Option<Checkpoint>, ms: seq<Move>) {
    forall n: nat :: n <= |ms| ==> Covered(store, Spans(Run(c, store, ms[..n])))
  }

  /**
   * There is no moment with a slot missing exactly when each subscription starts, at its loaded checkpoint or below
   * its first slot update, no further than the furthest slot reached before it.
   */
  lemma {:induction false} AlwaysCoveredIff(c: Config, store: Option<Checkpoint>, ms: seq<Move>)
    requires Accepted(c)
    ensures AlwaysCovered(c, store, ms) <==> Chained(store, Spans(Run(c, store, ms)))
    decreases |ms|
  {
    hide Go, Covered, Chained, Exact, WorldInv, Grown, Spans;
    var spans := Spans(Run(c, store, ms));
    RunExact(c, store, ms);
    assert ms[..|ms|] == ms;
    if ms == [] {
      NoSpans(c, store);
    } else {
      var last := ms[..|ms| - 1];
      AlwaysCoveredIff(c, store, last);
      RunKeeps(c, store, last);
      GoGrows(c, store, Run(c, store, last), ms[|ms| - 1]);
      AlwaysStep(c, store, ms);
      if Chained(store, spans) {
        ChainedBack(store, Spans(Run(c, store, last)), spans);
        ChainedCovers(store, spans);
      } else if AlwaysCovered(c, store, ms) {
        ChainedOn(store, Spans(Run(c, store, last)), spans);
      }
    }
  }

  lemma NoSpans(c: Config, store: Option<Checkpoint>)
    ensures AlwaysCovered(c, store, []) && Chained(store, Spans(Run(c, store, [])))
  {
    assert Spans(Begin(c, store)) == [];
  }

  lemma AlwaysStep(c: Config, store: Option<Checkpoint>, ms: seq<Move>)
    requires ms != []
    ensures AlwaysCovered(c, store, ms)
            <==> AlwaysCovered(c, store, ms[..|ms| - 1]) && Covered(store, Spans(Run(c, store, ms)))
  {
    hide Run, Covered, Spans;
    var last := ms[..|ms| - 1];
    assert ms[..|ms|] == ms;
    forall n: nat | n <= |last|
      ensures last[..n] == ms[..n]
    {
    }
  }

  /** Every subscription but perhaps a first one on an empty store had its checkpoint before its first slot update. */
  ghost predicate TimelyLoads(store: Option<Checkpoint>, spans: seq<Span>) {
    forall i :: 0 <= i < |spans| ==> spans[i].loaded.Some? || (i == 0 && store.None?)
  }

  /**
   * Over any arrivals, drops, awaits, crashes and restarts: when each checkpoint is loaded in time, no slot after the
   * first known one is missing at any moment.
   */
  lemma NoSlotLost(c: Config, store: Option<Checkpoint>, ms: seq<Move>)
    requires Accepted(c) && TimelyLoads(store, Spans(Run(c, store, ms)))
    ensures AlwaysCovered(c, store, ms)
  {
    hide Run, Queued, Sound, Tracks, Begun, AlwaysCovered;
    RunKeeps(c, store, ms);
    var spans := Spans(Run(c, store, ms));
    forall i: nat | i < |spans|
      ensures NoFurther(store, spans, i)
    {
      if spans[i].loaded.Some? {
        assert Known(store, spans[..i], spans[i].start);
      }
    }
    AlwaysCoveredIff(c, store, ms);
  }

  /**
   * Every subscription of a run starts at its loaded checkpoint or just below its first slot update, and has each slot
   * from there to its tip in exactly one mark: the slots strictly ascend from mark to mark.
   */
  lemma AccountedOnce(c: Config, store: Option<Checkpoint>, ms: seq<Move>)
    requires Accepted(c)
    ensures forall s :: s in Spans(Run(c, store, ms)) ==>
              && Some(s.start) == Origin(s.loaded, s.first)
              && (forall x :: Marked(s.marks, x) <==> s.start < x <= s.tip)
              && forall i, j, x, y :: 0 <= i < j < |s.marks| && In(s.marks[i], x) && In(s.marks[j], y) ==> x < y
  {
    hide Run, Queued, Tiles, Origin, FirstSlot, Took;
    RunKeeps(c, store, ms);
    var w := Run(c, store, ms);
    forall s | s in Spans(w)
      ensures Sound(s)
      ensures forall x :: Marked(s.marks, x) <==> s.start < x <= s.tip
      ensures forall i, j, x, y :: 0 <= i < j < |s.marks| && In(s.marks[i], x) && In(s.marks[j], y) ==> x < y
    {
      var i :| 0 <= i < |Spans(w)| && Spans(w)[i] == s;
      assert Sound(s);
      TiledOnce(s.start, s.marks, s.tip);
    }
  }

  /** The queue's promise over whole runs, restarts included. */
  lemma QueueKeepsNewest(c: Config, store: Option<Checkpoint>, ms: seq<Move>)
    requires Accepted(c)
    ensures Queued(c, Run(c, store, ms).live)
  {
    hide Run, Queued;
    RunKeeps(c, store, ms);
  }

  /**
   * One subscription on a stored checkpoint: everything after it is accounted for exactly when the checkpoint was
   * loaded in time or the first slot update left nothing between.
   */
  lemma LateLoad(c: Config, ckpt: Checkpoint, ms: seq<Move>)
    requires Accepted(c) && |Spans(Run(c, Some(ckpt), ms))| == 1
    ensures var spans := Spans(Run(c, Some(ckpt), ms));
            Covered(Some(ckpt), spans)
            <==> spans[0].loaded.Some? || (spans[0].first.Some? && spans[0].first.value <= ckpt.lastSlot + 1)
  {
    hide Run, Queued, Tiles, Covered, FirstSlot, Took;
    RunKeeps(c, Some(ckpt), ms);
    CoveredIff(c, Some(ckpt), ms);
    var spans := Spans(Run(c, Some(ckpt), ms));
    assert Sound(spans[0]);
    assert StartMet(Some(ckpt), spans, 0) <==> spans[0].start <= ckpt.lastSlot;
    if spans[0].loaded.Some? {
      assert Known(Some(ckpt), spans[..0], spans[0].start);
    }
  }

  /** A slot update that beats the load: slots 11 to 19 are in no mark. */
  lemma SlotBeatsLoad()
    ensures var c := Config(1000, 100, true, true);
            var w := Run(c, Some(Checkpoint(10, 0)), [Feed(Slot(20, 0)), Load]);
            Spans(w) == [Span(19, 20, [Advanced(20)], None, Some(20))] && !Accounted(Spans(w), 15)
  {
    LateStart();
  }

  /** The run of SlotBeatsLoad, step by step. */
  lemma LateStart()
    ensures var c := Config(1000, 100, true, true);
            var store := Some(Checkpoint(10, 0));
            && Run(c, store, [Feed(Slot(20, 0))]) == Go(c, Begin(c, store), Feed(Slot(20, 0)))
            && Run(c, store, [Feed(Slot(20, 0)), Load]) == Go(c, Run(c, store, [Feed(Slot(20, 0))]), Load)
            && Spans(Run(c, store, [Feed(Slot(20, 0))])) == [Span(19, 20, [Advanced(20)], None, Some(20))]
            && Spans(Run(c, store, [Feed(Slot(20, 0)), Load])) == [Span(19, 20, [Advanced(20)], None, Some(20))]
  {
    var c := Config(1000, 100, true, true);
    var store := Some(Checkpoint(10, 0));
    var ms := [Feed(Slot(20, 0)), Load];
    assert ms[..1] == [Feed(Slot(20, 0))] && ms[..1][..0] == [];
    assert Run(c, store, ms[..1][..0]) == Begin(c, store);
    var fed := Go(c, Begin(c, store), Feed(Slot(20, 0)));
    assert Run(c, store, ms[..1]) == fed;
    assert fed.live.marks == [Advanced(20)];
    assert Took(fed.live) == [Slot(20, 0)];
    var w := Go(c, fed, Load);
    assert Run(c, store, ms) == w;
  }

  /** A hole that closes again: the restart loads the old checkpoint in time and its gap names slots 11 to 20. */
  lemma RestartFillsHole()
    ensures var c := Config(1000, 100, true, false);
            var store := Some(Checkpoint(10, 0));
            var ms := [Feed(Slot(20, 0)), Restart(false), Load, Feed(Slot(21, 1))];
            && Covered(store, Spans(Run(c, store, ms)))
            && !Covered(store, Spans(Run(c, store, ms[..1])))
  {
    hide Run, Go;
    var c := Config(1000, 100, true, false);
    var store := Some(Checkpoint(10, 0));
    var ms := [Feed(Slot(20, 0)), Restart(false), Load, Feed(Slot(21, 1))];
    RestartRun(c, store, ms);
    CoveredIff(c, store, ms);
    CoveredIff(c, store, ms[..1]);
    var spans := Spans(Run(c, store, ms));
    assert StartMet(store, spans, 0) && StartMet(store, spans, 1);
    assert !StartMet(store, Spans(Run(c, store, ms[..1])), 0);
  }

  /** The starts and tips of that run. */
  lemma RestartRun(c: Config, store: Option<Checkpoint>, ms: seq<Move>)
    requires c == Config(1000, 100, true, false) && store == Some(Checkpoint(10, 0))
    requires ms == [Feed(Slot(20, 0)), Restart(false), Load, Feed(Slot(21, 1))]
    ensures var spans := Spans(Run(c, store, ms[..1])); |spans| == 1 && spans[0].start == 19 && spans[0].tip == 20
    ensures var spans := Spans(Run(c, store, ms));
            && |spans| == 2 && spans[0].start == 19 && spans[0].tip == 20 && spans[1].start == 10 && spans[1].tip == 21
  {
    hide FirstSlot, Took;
    assert ms[..1][..0] == [] && ms[..2][..1] == ms[..1] && ms[..3][..2] == ms[..2] && ms[..4] == ms;
    var w1 := Go(c, Begin(c, store), ms[0]);
    assert Run(c, store, ms[..1]) == w1;
    assert w1.live.start == Some(19) && Tip(w1.live) == 20;
    var w2 := Go(c, w1, ms[1]);
    assert w2.past == SpanOf(w1.live) && w2.live == Fresh() && w2.store == store && w2.loading;
    var w3 := Go(c, w2, ms[2]);
    assert w3.live.start == Some(10) && w3.live.lastSlot == 10 && w3.live.queue == [] && w3.past == w2.past;
    var w4 := Go(c, w3, ms[3]);
    assert w4.live.start == Some(10) && Tip(w4.live) == 21 && w4.past == w2.past;
    assert Run(c, store, ms[..2]) == w2;
    assert Run(c, store, ms[..3]) == w3;
    assert Run(c, store, ms) == w4;
  }
}
