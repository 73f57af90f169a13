/**
 * One Geyser subscription: bounded queue, single drain loop suspended at its awaits, slot-gap detection and
 * checkpoints (SubscriptionImpl of packages/solana-connectivity/src/geyser-client.ts).
 */
module Geyser {
  import opened Wrappers
  import opened Bytes
  import opened DropOldest

  /** A slot update, or any other variant of the stream's union; `id` stands for its contents. */
  datatype Update = Slot(slot: nat, id: nat) | Other(id: nat)

  datatype Checkpoint = Checkpoint(lastSlot: nat, updateCount: nat)

  /** GeyserClient's constructor refuses a capacity or a period below one. */
  datatype Config = Config(capacity: nat, every: nat, store: bool, onGap: bool)

  predicate Accepted(c: Config) {
    c.capacity >= 1 && c.every >= 1
  }

  /** Where the drain loop is suspended: nowhere, in onGap, in the handler, or in the checkpoint save. */
  datatype At = Idle | Gapping(u: Update) | Handling(u: Update) | Saving(ckpt: Checkpoint)

  datatype Event = Dropped(count: nat) | GapSeen(from: int, to: int) | Handled(u: Update) | Failed

  /** What the gap detector did, in order: advanced on a slot, or reported a gap (`to` exclusive). */
  datatype Mark = Advanced(slot: int) | Gap(from: int, to: int)

  /**
   * `start` (the slot before the first known one), `marks`, `arrivals` and `taken` (the arrival numbers of the updates
   * the loop took) are history; the code does not keep them.
   */
  datatype State = State(queue: seq<Update>, lastSlot: int, updateCount: nat, droppedCount: nat,
                         loaded: Option<Checkpoint>,
                         draining: bool, closed: bool, at: At, events: seq<Event>,
                         start: Option<int>, marks: seq<Mark>, arrivals: seq<Update>, taken: seq<nat>)

  function Fresh(): State {
    State([], -1, 0, 0, None, false, false, Idle, [], None, [], [], [])
  }

  // ---- The steps between awaits ----

  function Enqueue(c: Config, s: State, u: Update): State {
    var full := |s.queue| >= c.capacity;
    s.(queue := Added(c.capacity, s.queue, u), arrivals := s.arrivals + [u],
       droppedCount := if full then s.droppedCount + 1 else s.droppedCount,
       events := if full then s.events + [Dropped(s.droppedCount + 1)] else s.events)
  }

  /** Up to the handler await: the slot becomes the last one if it is later. */
  function Handle(s: State, u: Update): State {
    if u.Slot? && u.slot > s.lastSlot then
      s.(lastSlot := u.slot, marks := s.marks + [Advanced(u.slot)], at := Handling(u),
         start := if s.lastSlot < 0 then Some(u.slot - 1) else s.start)
    else s.(at := Handling(u))
  }

  /** From the loop head to the next await. */
  function Head(c: Config, s: State): State {
    if s.closed || s.queue == [] then s.(draining := false, at := Idle)
    else
      var u := s.queue[0];
      var t := s.(queue := s.queue[1..],
                  taken := s.taken + [if |s.arrivals| >= |s.queue| then |s.arrivals| - |s.queue| else 0]);
      if u.Slot? && s.lastSlot >= 0 && u.slot > s.lastSlot + 1 then
        var g := t.(events := s.events + [GapSeen(s.lastSlot + 1, u.slot)],
                    marks := s.marks + [Gap(s.lastSlot + 1, u.slot)]);
        if c.onGap then g.(at := Gapping(u)) else Handle(g, u)
      else Handle(t, u)
  }

  function OnData(c: Config, s: State, u: Update): State {
    if s.closed then s
    else
      var t := Enqueue(c, s, u);
      if t.draining then t else Head(c, t.(draining := true))
  }

  function Due(c: Config, s: State): bool {
    c.store && s.lastSlot >= 0 && c.every >= 1 && s.updateCount % c.every == 0
  }

  /** The pending await settles, well or badly, and the loop runs to its next one. */
  function Resume(c: Config, s: State, ok: bool): State {
    var t := if ok then s else s.(events := s.events + [Failed]);
    match s.at
    case Idle => s
    case Gapping(u) => Handle(t, u)
    case Handling(u) =>
      var done := t.(events := t.events + [Handled(u)], updateCount := s.updateCount + 1);
      if Due(c, done) then done.(at := Saving(Checkpoint(done.lastSlot, done.updateCount))) else Head(c, done)
    case Saving(_) => Head(c, t)
  }

  /** The store's answer counts only while no slot is known. */
  function OnCheckpoint(s: State, ckpt: Option<Checkpoint>): State {
    if ckpt.Some? && s.lastSlot < 0 then
      s.(loaded := ckpt, lastSlot := ckpt.value.lastSlot, updateCount := ckpt.value.updateCount,
         start := Some(ckpt.value.lastSlot))
    else s
  }

  function Close(s: State): State {
    s.(closed := true)
  }

  // ---- The subscription object ----

  class Subscription {
    const config: Config
    var queue: seq<Update>
    var lastSlot: int
    var updateCount: nat
    var droppedCount: nat
    var loadedCheckpoint: Option<Checkpoint>
    var draining: bool
    var closed: bool
    var at: At
    var events: seq<Event>
    ghost var start: Option<int>
    ghost var marks: seq<Mark>
    ghost var arrivals: seq<Update>
    ghost var taken: seq<nat>

    ghost function View(): State
      reads this
    {
      State(queue, lastSlot, updateCount, droppedCount, loadedCheckpoint, draining, closed, at, events,
            start, marks, arrivals, taken)
    }

    constructor (config: Config)
      requires Accepted(config)
      ensures View() == Fresh() && this.config == config
    {
      this.config := config;
      queue, lastSlot, updateCount, droppedCount, loadedCheckpoint := [], -1, 0, 0, None;
      draining, closed, at, events := false, false, Idle, [];
      start, marks, arrivals, taken := None, [], [], [];
    }

    /** The stream's `data` listener. */
    method Data(update: Update)
      modifies this
      ensures View() == OnData(config, old(View()), update)
    {
      if closed {
        return;
      }
      EnqueueUpdate(update);
      if !draining {
        draining := true;
        DrainHead();
      }
    }

    method EnqueueUpdate(update: Update)
      modifies this
      ensures View() == Enqueue(config, old(View()), update)
    {
      if |queue| >= config.capacity {
        if queue != [] {
          queue := queue[1..];
        }
        droppedCount := droppedCount + 1;
        events := events + [Dropped(droppedCount)];
      }
      queue := queue + [update];
      arrivals := arrivals + [update];
    }

    /** The top of the drain loop, as far as its first await. */
    method DrainHead()
      modifies this
      ensures View() == Head(config, old(View()))
    {
      if closed || |queue| == 0 {
        draining, at := false, Idle;
        return;
      }
      var update := queue[0];
      taken := taken + [if |arrivals| >= |queue| then |arrivals| - |queue| else 0];
      queue := queue[1..];
      if update.Slot? && lastSlot >= 0 && update.slot > lastSlot + 1 {
        events := events + [GapSeen(lastSlot + 1, update.slot)];
        marks := marks + [Gap(lastSlot + 1, update.slot)];
        if config.onGap {
          at := Gapping(update);
          return;
        }
      }
      CallHandler(update);
    }

    method CallHandler(update: Update)
      modifies this
      ensures View() == Handle(old(View()), update)
    {
      if update.Slot? && update.slot > lastSlot {
        start := if lastSlot < 0 then Some(update.slot - 1) else start;
        lastSlot := update.slot;
        marks := marks + [Advanced(update.slot)];
      }
      at := Handling(update);
    }

    /** The await the loop is suspended at settles. */
    method Settle(ok: bool)
      modifies this
      ensures View() == Resume(config, old(View()), ok)
    {
      hide Head, Handle;
      if at != Idle && !ok {
        events := events + [Failed];
      }
      match at {
        case Idle =>
        case Gapping(update) => CallHandler(update);
        case Handling(update) =>
          events := events + [Handled(update)];
          updateCount := updateCount + 1;
          if config.store && lastSlot >= 0 && config.every >= 1 && updateCount % config.every == 0 {
            at := Saving(Checkpoint(lastSlot, updateCount));
          } else {
            DrainHead();
          }
        case Saving(_) => DrainHead();
      }
    }

    /** The store's load settles. */
    method CheckpointLoaded(ckpt: Option<Checkpoint>)
      modifies this
      ensures View() == OnCheckpoint(old(View()), ckpt)
    {
      if ckpt.Some? && lastSlot < 0 {
        loadedCheckpoint := ckpt;
        lastSlot := ckpt.value.lastSlot;
        updateCount := ckpt.value.updateCount;
        start := Some(lastSlot);
      }
    }

    /** close(), or the stream's `end` or `close`. */
    method CloseStream()
      modifies this
      ensures View() == Close(old(View()))
    {
      closed := true;
    }
  }

  // ---- Runs of one subscription ----

  datatype Step = Arrive(u: Update) | Settled(ok: bool) | Loaded(ckpt: Option<Checkpoint>) | Closing

  function Next(c: Config, s: State, e: Step): State {
    match e
    case Arrive(u) => OnData(c, s, u)
    case Settled(ok) => Resume(c, s, ok)
    case Loaded(ckpt) => OnCheckpoint(s, ckpt)
    case Closing => Close(s)
  }

  // ---- Slots ----

  predicate In(m: Mark, x: int) {
    match m
    case Advanced(slot) => x == slot
    case Gap(from, to) => from <= x < to
  }

  /** The marks tile the slots after `start` up to `tip`, left to right. */
  ghost predicate Tiles(start: int, marks: seq<Mark>, tip: int)
    decreases |marks|
  {
    if marks == [] then tip == start
    else
      var front := marks[..|marks| - 1];
      match marks[|marks| - 1]
      case Advanced(slot) => tip == slot && Tiles(start, front, slot - 1)
      case Gap(from, to) => from < to && tip == to - 1 && Tiles(start, front, from - 1)
  }

  /** The last slot accounted for: while onGap runs, everything before the slot that revealed the gap. */
  function Tip(s: State): int {
    if s.at.Gapping? && s.at.u.Slot? then s.at.u.slot - 1 else s.lastSlot
  }

  /** One subscription's invariant. */
  ghost predicate Tracks(s: State) {
    && (s.start.None? <==> s.lastSlot < 0)
    && (s.start.None? ==> s.marks == [] && s.lastSlot == -1)
    && (s.start.Some? ==> -1 <= s.start.value <= s.lastSlot && Tiles(s.start.value, s.marks, Tip(s)))
    && (s.at.Gapping? ==> s.at.u.Slot? && 0 <= s.lastSlot < s.at.u.slot - 1)
    && (s.loaded.Some? ==> s.start == Some(s.loaded.value.lastSlot))
    && (s.at.Saving? ==> s.start.Some? && s.start.value <= s.at.ckpt.lastSlot <= s.lastSlot)
  }

  lemma TilesOn(start: int, marks: seq<Mark>, tip: int, m: Mark)
    requires Tiles(start, marks, tip)
    requires match m case Advanced(slot) => slot == tip + 1 case Gap(from, to) => from == tip + 1 && from < to
    ensures Tiles(start, marks + [m], match m case Advanced(slot) => slot case Gap(_, to) => to - 1)
  {
    assert (marks + [m])[..|marks|] == marks;
  }

  /** Going on to the handler: out of onGap, or with no gap to report. */
  lemma HandleTracks(s: State, u: Update)
    requires Tracks(s)
    requires s.at == Gapping(u) || (s.at == Idle && (u.Slot? && s.lastSlot >= 0 ==> u.slot <= s.lastSlot + 1))
    ensures Tracks(Handle(s, u))
  {
    hide Tiles;
    if u.Slot? && u.slot > s.lastSlot {
      if s.lastSlot < 0 {
        NoMarks(u.slot - 1);
        TilesOn(u.slot - 1, s.marks, u.slot - 1, Advanced(u.slot));
      } else {
        TilesOn(s.start.value, s.marks, u.slot - 1, Advanced(u.slot));
      }
    }
  }

  lemma HeadTracks(c: Config, s: State)
    requires Tracks(s.(at := Idle))
    ensures Tracks(Head(c, s))
  {
    hide Tiles;
    if !s.closed && s.queue != [] {
      var u := s.queue[0];
      if u.Slot? && s.lastSlot >= 0 && u.slot > s.lastSlot + 1 {
        TilesOn(s.start.value, s.marks, s.lastSlot, Gap(s.lastSlot + 1, u.slot));
        var g := Head(c.(onGap := true), s);
        assert Tracks(g) && g.at == Gapping(u);
        HandleTracks(g, u);
      } else {
        HandleTracks(s.(at := Idle, queue := s.queue[1..], taken := Head(c, s).taken), u);
      }
    }
  }

  lemma StepTracks(c: Config, s: State, e: Step)
    requires Tracks(s)
    requires s.at == Idle <==> !s.draining
    ensures Tracks(Next(c, s, e))
  {
    hide Tiles, Head, Handle;
    match e {
      case Arrive(u) =>
        if !s.closed && !s.draining {
          HeadTracks(c, Enqueue(c, s, u).(draining := true));
        }
      case Settled(ok) =>
        var t := if ok then s else s.(events := s.events + [Failed]);
        match s.at {
          case Idle =>
          case Gapping(u) => HandleTracks(t, u);
          case Handling(u) => HeadTracks(c, t.(events := t.events + [Handled(u)], updateCount := s.updateCount + 1));
          case Saving(_) => HeadTracks(c, t);
        }
      case Loaded(ckpt) =>
        NoMarks(s.lastSlot);
        if ckpt.Some? {
          NoMarks(ckpt.value.lastSlot);
        }
      case Closing =>
    }
  }

  lemma NoMarks(start: int)
    ensures Tiles(start, [], start)
  {
  }

  /** Every slot after the start up to the tip is in exactly one mark, and the marks ascend. */
  lemma {:induction false} TiledOnce(start: int, marks: seq<Mark>, tip: int)
    requires Tiles(start, marks, tip)
    ensures start <= tip
    ensures forall x :: Marked(marks, x) <==> start < x <= tip
    ensures forall i, j, x, y :: 0 <= i < j < |marks| && In(marks[i], x) && In(marks[j], y) ==> x < y
    decreases |marks|
  {
    if marks != [] {
      var n := |marks| - 1;
      var front, m := marks[..n], marks[n];
      var mid := match m case Advanced(slot) => slot - 1 case Gap(from, _) => from - 1;
      TiledOnce(start, front, mid);
      forall x
        ensures Marked(marks, x) <==> Marked(front, x) || In(m, x)
      {
        MarkedLast(marks, x);
      }
      forall i, j, x, y | 0 <= i < j < |marks| && In(marks[i], x) && In(marks[j], y)
        ensures x < y
      {
        assert marks[i] == front[i] && Marked(front, x);
      }
    }
  }

  ghost predicate Marked(marks: seq<Mark>, x: int) {
    exists i :: 0 <= i < |marks| && In(marks[i], x)
  }

  lemma MarkedLast(marks: seq<Mark>, x: int)
    requires marks != []
    ensures Marked(marks, x) <==> Marked(marks[..|marks| - 1], x) || In(marks[|marks| - 1], x)
  {
    var front := marks[..|marks| - 1];
    if Marked(front, x) {
      var i :| 0 <= i < |front| && In(front[i], x);
      assert In(marks[i], x);
    }
    if Marked(marks, x) && !In(marks[|marks| - 1], x) {
      var i :| 0 <= i < |marks| && In(marks[i], x);
      assert In(front[i], x);
    }
  }
}
