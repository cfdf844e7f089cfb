/**
  The telemetry write buffer: rows are collected in memory and written as one block once the
  batch time has passed, or at once when forced. The queue is limited; the oldest rows go first.
 */
module WriteBuffer {
  import opened Wrappers

  datatype Limits = Limits(flushIntervalMs: int, batchMs: int, maxQueuedRows: nat)

  /** A written block: when, whether forced, and the rows from..to of all rows ever built. */
  datatype Block = Block(at: int, forced: bool, from: nat, to: nat)

  /**
    Rows are numbered in the order they are built. The queue holds the rows first..built, and
    `blocks` logs what was written. `armedAt` is the time of the last write, or of the first
    look at a filled queue before any write.
   */
  datatype State = State(pending: bool, lastFlushedAt: Option<int>, first: nat, built: nat, armedAt: Option<int>,
                         blocks: seq<Block>)

  const START := State(false, None, 0, 0, None, [])

  function WriteStep(s: State, l: Limits, force: bool, t: int): State {
    if s.first == s.built then s
    else if !force && l.batchMs > 0 && s.armedAt.Some? && t - s.armedAt.value < l.batchMs then s
    else if s.armedAt.None? && !force && l.batchMs > 0 then s.(armedAt := Some(t))
    else s.(first := s.built, armedAt := Some(t), blocks := s.blocks + [Block(t, force, s.first, s.built)])
  }

  /** `rows` new rows join the queue; beyond the limit the oldest drop out. */
  function Enqueue(s: State, l: Limits, rows: nat): State {
    var built := s.built + rows;
    s.(built := built, first := if built - s.first > l.maxQueuedRows then built - l.maxQueuedRows else s.first)
  }

  /** New rows are queued, or written at once when blocks are not batched. */
  function Collected(s: State, l: Limits, force: bool, t: int, rows: nat): State {
    if rows == 0 then s
    else if l.batchMs > 0 then Enqueue(s, l, rows)
    else s.(built := s.built + rows, first := s.built + rows, blocks := s.blocks
            + [Block(t, force, s.built, s.built + rows)])
  }

  function TooSoon(s: State, l: Limits, force: bool, now: int): bool {
    !force && s.lastFlushedAt.Some? && now - s.lastFlushedAt.value < l.flushIntervalMs
  }

  /** `rows` is what building yields for this flush, `t` the clock when it comes to writing. */
  function FlushStep(s: State, l: Limits, force: bool, now: int, t: int, rows: nat): State {
    if !s.pending then (if force then WriteStep(s, l, true, t) else s)
    else if TooSoon(s, l, force, now) then s
    else
      var done := Collected(s, l, force, t, rows).(pending := false, lastFlushedAt := Some(now));
      if l.batchMs > 0 then WriteStep(done, l, force, t) else done
  }

  ghost predicate Logged<Row>(blocks: seq<Block>, written: seq<seq<Row>>, built: seq<Row>) {
    && |written| == |blocks|
    && forall i :: 0 <= i < |blocks| ==>
          blocks[i].from <= blocks[i].to <= |built| && written[i] == built[blocks[i].from..blocks[i].to]
  }

  lemma BuildingKeepsLog<Row>(blocks: seq<Block>, written: seq<seq<Row>>, built: seq<Row>, rows: seq<Row>)
    requires Logged(blocks, written, built)
    ensures Logged(blocks, written, built + rows)
  {
    forall i | 0 <= i < |blocks| ensures written[i] == (built + rows)[blocks[i].from..blocks[i].to] {
      assert (built + rows)[..|built|] == built;
    }
  }

  lemma WritingIsLogged<Row>(blocks: seq<Block>, written: seq<seq<Row>>, built: seq<Row>, b: Block)
    requires Logged(blocks, written, built) && b.from <= b.to <= |built|
    ensures Logged(blocks + [b], written + [built[b.from..b.to]], built)
  {
  }

  lemma QueueTail<Row>(built: seq<Row>, first: nat, rows: seq<Row>, drop: nat)
    requires first <= |built| && drop <= |built| - first + |rows|
    ensures (built[first..] + rows)[drop..] == (built + rows)[first + drop..]
  {
  }

  class TelemetryWriteBuffer<Row> {
    const limits: Limits
    var pending: bool
    var lastFlushedAt: Option<int>
    var queue: seq<Row>
    var lastWriteAt: Option<int>
    var written: seq<seq<Row>>
    ghost var built: seq<Row>
    ghost var blocks: seq<Block>

    constructor (limits: Limits)
      ensures this.limits == limits && Valid() && Abstract() == START
    {
      this.limits := limits;
      pending, lastFlushedAt, queue, lastWriteAt, written := false, None, [], None, [];
      built, blocks := [], [];
    }

    /** The queue is the tail of all rows built, and the written blocks hold the logged rows. */
    ghost predicate Valid()
      reads this
    {
      && |queue| <= |built| && queue == built[|built| - |queue|..]
      && Logged(blocks, written, built)
      && (limits.batchMs <= 0 ==> queue == [])
    }

    ghost function Abstract(): State
      reads this
      requires Valid()
    {
      State(pending, lastFlushedAt, |built| - |queue|, |built|, lastWriteAt, blocks)
    }

    method Capture()
      requires Valid()
      modifies this
      ensures Valid() && Abstract() == old(Abstract()).(pending := true)
    {
      pending := true;
    }

    method WriteQueued(force: bool, t: int)
      requires Valid()
      modifies this
      ensures Valid() && built == old(built) && Abstract() == WriteStep(old(Abstract()), limits, force, t)
    {
      if |queue| == 0 { return; }
      if !force && limits.batchMs > 0 && lastWriteAt.Some? && t - lastWriteAt.value < limits.batchMs { return; }
      if lastWriteAt.None? && !force && limits.batchMs > 0 {
        lastWriteAt := Some(t);
        return;
      }
      WritingIsLogged(blocks, written, built, Block(t, force, |built| - |queue|, |built|));
      blocks := blocks + [Block(t, force, |built| - |queue|, |built|)];
      var rows := queue;
      queue := [];
      lastWriteAt := Some(t);
      written := written + [rows];
    }

    method Keep(rows: seq<Row>)
      requires Valid() && limits.batchMs > 0
      modifies this
      ensures Valid() && built == old(built) + rows && Abstract() == Enqueue(old(Abstract()), limits, |rows|)
    {
      hide Logged;
      ghost var first := |built| - |queue|;
      BuildingKeepsLog(blocks, written, built, rows);
      QueueTail(built, first, rows, 0);
      queue := queue + rows;
      built := built + rows;
      assert queue == built[first..];
      if |queue| > limits.maxQueuedRows { queue := queue[|queue| - limits.maxQueuedRows..]; }
    }

    method WriteAtOnce(rows: seq<Row>, force: bool, t: int)
      requires Valid() && limits.batchMs <= 0
      modifies this
      ensures Valid() && built == old(built) + rows
      ensures Abstract() == old(Abstract()).(built := |built|, first := |built|, blocks := old(blocks)
                                             + [Block(t, force, |old(built)|, |built|)])
    {
      hide Logged;
      BuildingKeepsLog(blocks, written, built, rows);
      WritingIsLogged(blocks, written, built + rows, Block(t, force, |built|, |built| + |rows|));
      blocks := blocks + [Block(t, force, |built|, |built| + |rows|)];
      built := built + rows;
      assert built[|built| - |rows|..|built|] == rows && built[|built|..] == queue;
      written := written + [rows];
    }

    method Collect(rows: seq<Row>, force: bool, t: int)
      requires Valid()
      modifies this
      ensures Valid() && built == old(built) + rows
              && Abstract() == Collected(old(Abstract()), limits, force, t, |rows|)
    {
      hide Logged;
      if |rows| > 0 {
        if limits.batchMs > 0 { Keep(rows); } else { WriteAtOnce(rows, force, t); }
      }
    }

    method Flush(force: bool, now: int, t: int, rows: seq<Row>) returns (flushed: bool)
      requires Valid()
      modifies this
      ensures Valid() && Abstract() == FlushStep(old(Abstract()), limits, force, now, t, |rows|)
    {
      hide Logged, Collected, WriteStep;
      if !pending {
        if force { WriteQueued(true, t); }
        return false;
      }
      if !force && lastFlushedAt.Some? && now - lastFlushedAt.value < limits.flushIntervalMs { return false; }
      Collect(rows, force, t);
      pending := false;
      lastFlushedAt := Some(now);
      if limits.batchMs > 0 { WriteQueued(force, t); }
      flushed := true;
    }
  }

  // ---- Whole runs --------------------------------------------------------------------------

  datatype Event = Captured | Flushed(force: bool, now: int, t: int, rows: nat)

  function Step(s: State, l: Limits, e: Event): State {
    match e
    case Captured => s.(pending := true)
    case Flushed(force, now, t, rows) => FlushStep(s, l, force, now, t, rows)
  }

  function Run(l: Limits, events: seq<Event>): State {
    if events == [] then START else Step(Run(l, events[..|events| - 1]), l, events[|events| - 1])
  }

  /** Row `n` was written in some block. */
  ghost predicate WrittenRow(s: State, n: nat) {
    exists b :: b in s.blocks && b.from <= n < b.to
  }

  ghost predicate Invariant(s: State, l: Limits) {
    && s.first <= s.built && s.built - s.first <= l.maxQueuedRows
    && (l.batchMs <= 0 ==> s.first == s.built)
    && InOrder(s.blocks, s.first)
    && (l.batchMs > 0 && s.blocks != [] ==> s.armedAt == Some(s.blocks[|s.blocks| - 1].at))
    && (l.batchMs > 0 ==> Spaced(s.blocks, l.batchMs))
  }

  /** The blocks hold rows below `first`, each block later rows than the one before. */
  ghost predicate InOrder(blocks: seq<Block>, first: nat) {
    && (forall i :: 0 <= i < |blocks| ==> blocks[i].from < blocks[i].to <= first)
    && (forall i, j :: 0 <= i < j < |blocks| ==> blocks[i].to <= blocks[j].from)
  }

  /** An unforced block comes at least the batch time after the one before it. */
  ghost predicate Spaced(blocks: seq<Block>, batchMs: int) {
    forall i, j :: 0 <= i < j < |blocks| && j == i + 1 && !blocks[j].forced ==> blocks[j].at - blocks[i].at >= batchMs
  }

  lemma BlockInOrder(blocks: seq<Block>, first: nat, b: Block)
    requires InOrder(blocks, first) && first <= b.from < b.to
    ensures InOrder(blocks + [b], b.to)
  {
  }

  lemma BlockSpaced(blocks: seq<Block>, batchMs: int, b: Block)
    requires Spaced(blocks, batchMs)
    requires blocks == [] || b.forced || b.at - blocks[|blocks| - 1].at >= batchMs
    ensures Spaced(blocks + [b], batchMs)
  {
  }

  lemma InOrderBelow(blocks: seq<Block>, first: nat, higher: nat)
    requires InOrder(blocks, first) && first <= higher
    ensures InOrder(blocks, higher)
  {
  }

  lemma StepKeepsInvariant(s: State, l: Limits, e: Event)
    requires Invariant(s, l)
    ensures Invariant(Step(s, l, e), l)
  {
    hide WriteStep, InOrder, Spaced;
    if e.Flushed? && s.pending && !TooSoon(s, l, e.force, e.now) {
      if l.batchMs > 0 {
        var c := (if e.rows == 0 then s else Enqueue(s, l, e.rows)).(pending := false, lastFlushedAt := Some(e.now));
        InOrderBelow(s.blocks, s.first, c.first);
        WriteKeepsInvariant(c, l, e.force, e.t);
      } else if e.rows > 0 {
        BlockInOrder(s.blocks, s.first, Block(e.t, e.force, s.built, s.built + e.rows));
      }
    } else if e.Flushed? && !s.pending && e.force {
      WriteKeepsInvariant(s, l, true, e.t);
    }
  }

  lemma WriteKeepsInvariant(s: State, l: Limits, force: bool, t: int)
    requires Invariant(s, l)
    ensures Invariant(WriteStep(s, l, force, t), l)
  {
    hide InOrder, Spaced;
    var u := WriteStep(s, l, force, t);
    if u.blocks != s.blocks {
      var b := Block(t, force, s.first, s.built);
      BlockInOrder(s.blocks, s.first, b);
      if l.batchMs > 0 { BlockSpaced(s.blocks, l.batchMs, b); }
    }
  }

  /**
    In every run: rows are written in the order they were built and never twice, what is queued
    is the newest, and an unforced block comes at least the batch time after the one before it.
   */
  lemma {:induction false} RunsWriteInOrder(l: Limits, events: seq<Event>)
    ensures Invariant(Run(l, events), l)
  {
    if events != [] {
      RunsWriteInOrder(l, events[..|events| - 1]);
      StepKeepsInvariant(Run(l, events[..|events| - 1]), l, events[|events| - 1]);
    }
  }

  /**
    When a flush writes, and what: it acts on captured data only, and unforced only once the flush
    interval is over. Unbatched rows are written at once; batched ones are queued, and the whole queue
    is written when forced, or when the batch time since the last write, or since the first look at
    the queue, is over.
   */
  lemma FlushWritesIffDue(s: State, l: Limits, force: bool, now: int, t: int, rows: nat)
    requires Invariant(s, l)
    ensures var u := FlushStep(s, l, force, now, t, rows);
            var acts := s.pending
                        && (force || s.lastFlushedAt.None? || now - s.lastFlushedAt.value >= l.flushIntervalMs);
            var built := s.built + if acts then rows else 0;
            var from := if built - s.first > l.maxQueuedRows && acts && l.batchMs > 0 then built - l.maxQueuedRows
                        else s.first;
            && u.built == built && u.pending == (s.pending && !acts)
            && u.lastFlushedAt == (if acts then Some(now) else s.lastFlushedAt)
            && (if (acts || (force && !s.pending)) && from < built
                   && (force || l.batchMs <= 0 || (s.armedAt.Some? && t - s.armedAt.value >= l.batchMs))
                then u.blocks == s.blocks + [Block(t, force, from, built)] && u.first == built
                else u.blocks == s.blocks && u.first == from)
            && (l.batchMs > 0 && acts && from < built && s.armedAt.None? ==> u.armedAt == Some(t))
  {
  }

  /** A forced flush leaves nothing in the queue. */
  lemma ForcedFlushEmpties(s: State, l: Limits, now: int, t: int, rows: nat)
    requires Invariant(s, l)
    ensures var u := FlushStep(s, l, true, now, t, rows); u.first == u.built
  {
  }

  /** A step loses a row, neither queued nor written afterwards, only from a queue longer than the limit. */
  lemma OnlyOverflowLoses(s: State, l: Limits, e: Event, n: nat)
    requires Invariant(s, l) && n < Step(s, l, e).built && (s.first <= n)
    requires !WrittenRow(Step(s, l, e), n) && n < Step(s, l, e).first
    ensures e.Flushed? && s.pending && l.batchMs > 0 && s.built + e.rows - s.first > l.maxQueuedRows
    ensures n < s.built + e.rows - l.maxQueuedRows
  {
    var u := Step(s, l, e);
    if u.blocks != s.blocks {
      var b := u.blocks[|u.blocks| - 1];
      assert b in u.blocks;
    }
  }

  /** What is written stays written. */
  lemma WrittenStays(s: State, l: Limits, e: Event, n: nat)
    requires WrittenRow(s, n)
    ensures WrittenRow(Step(s, l, e), n)
  {
    var u := Step(s, l, e);
    assert s.blocks <= u.blocks;
    var b :| b in s.blocks && b.from <= n < b.to;
    assert b in u.blocks;
  }

  /**
    Over whole runs: a row that has left the queue but is in no block was dropped in some flush,
    as one of the oldest rows beyond the queue limit.
   */
  lemma {:induction false} OnlyOverflowLosesInRuns(l: Limits, events: seq<Event>, n: nat) returns (i: nat)
    requires n < Run(l, events).first && !WrittenRow(Run(l, events), n)
    ensures i < |events| && events[i].Flushed? && l.batchMs > 0
    ensures var s := Run(l, events[..i]); s.pending && s.first <= n < s.built + events[i].rows - l.maxQueuedRows
  {
    var last := |events| - 1;
    var before := Run(l, events[..last]);
    RunsWriteInOrder(l, events[..last]);
    RunsWriteInOrder(l, events);
    if n < before.first {
      if WrittenRow(before, n) { WrittenStays(before, l, events[last], n); }
      i := OnlyOverflowLosesInRuns(l, events[..last], n);
      assert events[..last][..i] == events[..i];
    } else {
      i := last;
      OnlyOverflowLoses(before, l, events[last], n);
    }
  }
}
