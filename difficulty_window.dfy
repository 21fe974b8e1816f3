/** `lift_up_difficulty`: appends blocks built on top of the last one while
    keeping the scenario's difficulty window, two parallel vectors of block
    timestamps and cumulative difficulties, bounded by the currency's window
    length. */
module DifficultyWindow {
  import opened Chain

  /** The last `n` entries of `xs`, or all of them when there are fewer. */
  function LastN<T>(xs: seq<T>, n: nat): (r: seq<T>)
    ensures |r| == if |xs| <= n then |xs| else n
    ensures r == xs[|xs| - |r|..]
  {
    if |xs| <= n then xs else xs[|xs| - n..]
  }

  /** Keeping only the last `n` entries early loses nothing that keeping the
      last `n` at the end would keep. */
  lemma LastNOfLastN<T>(xs: seq<T>, ys: seq<T>, n: nat)
    ensures LastN(LastN(xs, n) + ys, n) == LastN(xs + ys, n)
  {
    var l := LastN(xs, n);
    assert l + ys == (xs + ys)[|xs| - |l|..];
  }

  /** One update of a bounded window as the source does it: when the window
      already holds `size` entries the oldest is erased, then `x` is appended.
      (Erasing the front of an empty vector is undefined, hence the requires.) */
  function Slide<T>(xs: seq<T>, size: nat, x: T): seq<T>
    requires size > 0 || |xs| > 0
  {
    (if |xs| == size then xs[1..] else xs) + [x]
  }

  /** A window that fits keeps fitting: sliding it is keeping the last `size`
      entries of the history extended by `x`, so the new entry is always the
      last one and the oldest is dropped only from a full window. A window
      already over-full is never trimmed. */
  lemma SlideKeepsLastN<T>(xs: seq<T>, size: nat, x: T)
    requires size > 0 || |xs| > 0
    ensures |xs| <= size ==> Slide(xs, size, x) == LastN(xs + [x], size)
    ensures |xs| > size ==> Slide(xs, size, x) == xs + [x]
    ensures Slide(xs, size, x)[|Slide(xs, size, x)| - 1] == x
  {
  }

  /** The timestamps of the block events of `evs`, in order. */
  function BlockTimestamps(evs: seq<Event>): seq<uint64>
  {
    if evs == [] then []
    else (if evs[0].BlockEvent? then [evs[0].block.timestamp] else []) + BlockTimestamps(evs[1..])
  }

  /** The state `lift_up_difficulty` threads through its loop: the three
      vectors it updates in place, its running cumulative difficulty and the
      block the next one is built on. */
  datatype LiftState = LiftState(
    events: seq<Event>,
    timestamps: seq<uint64>,
    cumulativeDifficulties: seq<uint64>,
    running: uint64,
    prev: BlockTemplate)

  /** The two window vectors are parallel, and erasing the front of the
      window never meets an empty vector. */
  ghost predicate WellFormed(c: Currency, s: LiftState)
  {
    |s.timestamps| == |s.cumulativeDifficulties| && (c.difficultyWindow > 0 || |s.timestamps| > 0)
  }

  /** The state at entry: the running total starts from the last cumulative
      difficulty, or 0 when the window is empty. */
  function Start(events: seq<Event>, timestamps: seq<uint64>, cumulativeDifficulties: seq<uint64>,
                 blkLast: BlockTemplate): (r: LiftState)
    ensures cumulativeDifficulties == [] ==> r.running == 0
    ensures cumulativeDifficulties != [] ==> r.running == cumulativeDifficulties[|cumulativeDifficulties| - 1]
    ensures r.events == events && r.prev == blkLast
  {
    var running := if cumulativeDifficulties == [] then 0 else cumulativeDifficulties[|cumulativeDifficulties| - 1];
    LiftState(events, timestamps, cumulativeDifficulties, running, blkLast)
  }

  /** The builder request of one iteration: a fresh block on top of the
      previous one, keeping its timestamp, at the difficulty the window gives. */
  function Request(c: Currency, majorVersion: uint8, s: LiftState): BuildRequest
  {
    BuildRequest(EmptyBlock, s.prev, majorVersion, s.prev.timestamp,
                 c.nextDifficulty(s.timestamps, s.cumulativeDifficulties))
  }

  /** The effect of one iteration whose block `b` was built: the running
      total grows by the difficulty (modulo 2^64), the window slides by the
      pair (timestamp of `b`, running total), and `b` is recorded. */
  function Step(c: Currency, majorVersion: uint8, s: LiftState, b: BlockTemplate): (r: LiftState)
    requires WellFormed(c, s)
    ensures WellFormed(c, r)
    ensures r.events == s.events + [BlockEvent(b)]
  {
    var d := c.nextDifficulty(s.timestamps, s.cumulativeDifficulties);
    var running := (s.running + d) % U64;
    LiftState(s.events + [BlockEvent(b)],
              Slide(s.timestamps, c.difficultyWindow, b.timestamp),
              Slide(s.cumulativeDifficulties, c.difficultyWindow, running),
              running, b)
  }

  /** `n` more iterations from state `s`: whether all blocks were built, and
      the state reached (the state at the first failure otherwise). */
  ghost function LiftRun(c: Currency, build: Builder, majorVersion: uint8, s: LiftState, n: nat): (bool, LiftState)
    requires WellFormed(c, s)
    decreases n
  {
    var next := build(Request(c, majorVersion, s));
    if n == 0 then (true, s)
    else if next.None? then (false, s)
    else LiftRun(c, build, majorVersion, Step(c, majorVersion, s, next.value), n - 1)
  }

  /** A run only appends to the event list and keeps the window vectors
      parallel. */
  lemma {:induction false} LiftRunAppends(c: Currency, build: Builder, majorVersion: uint8, s: LiftState, n: nat)
    requires WellFormed(c, s)
    ensures WellFormed(c, LiftRun(c, build, majorVersion, s, n).1)
    ensures s.events <= LiftRun(c, build, majorVersion, s, n).1.events
    decreases n
  {
    var next := build(Request(c, majorVersion, s));
    if n > 0 && next.Some? {
      LiftRunAppends(c, build, majorVersion, Step(c, majorVersion, s, next.value), n - 1);
    }
  }

  /** Everything a run appends is a block event. */
  lemma {:induction false} LiftRunAppendsBlocks(c: Currency, build: Builder, majorVersion: uint8, s: LiftState, n: nat)
    requires WellFormed(c, s)
    ensures forall k :: |s.events| <= k < |LiftRun(c, build, majorVersion, s, n).1.events| ==>
              LiftRun(c, build, majorVersion, s, n).1.events[k].BlockEvent?
    decreases n
  {
    var next := build(Request(c, majorVersion, s));
    if n > 0 && next.Some? {
      var s' := Step(c, majorVersion, s, next.value);
      LiftRunAppendsBlocks(c, build, majorVersion, s', n - 1);
      LiftRunAppends(c, build, majorVersion, s', n - 1);
      var evs := LiftRun(c, build, majorVersion, s', n - 1).1.events;
      assert evs[|s.events|] == s'.events[|s.events|];
    }
  }

  /** A run succeeds exactly when it appends `n` events, and never appends
      more: a failed build ends it early. */
  lemma {:induction false} LiftRunCount(c: Currency, build: Builder, majorVersion: uint8, s: LiftState, n: nat)
    requires WellFormed(c, s)
    ensures LiftRun(c, build, majorVersion, s, n).0 <==> |LiftRun(c, build, majorVersion, s, n).1.events| == |s.events| + n
    ensures |LiftRun(c, build, majorVersion, s, n).1.events| <= |s.events| + n
    decreases n
  {
    var next := build(Request(c, majorVersion, s));
    if n > 0 && next.Some? {
      LiftRunCount(c, build, majorVersion, Step(c, majorVersion, s, next.value), n - 1);
    }
  }

  /** Started from a window no longer than the window length, the run keeps
      the two vectors of equal length, never longer than the window, and the
      timestamps are exactly the last `difficultyWindow` of the old ones
      followed by those of the appended blocks. */
  lemma {:induction false} LiftRunWindow(c: Currency, build: Builder, majorVersion: uint8, s: LiftState, n: nat)
    requires WellFormed(c, s)
    requires |s.timestamps| <= c.difficultyWindow
    ensures |s.events| <= |LiftRun(c, build, majorVersion, s, n).1.events|
    ensures |LiftRun(c, build, majorVersion, s, n).1.timestamps| <= c.difficultyWindow
    ensures LiftRun(c, build, majorVersion, s, n).1.timestamps
         == LastN(s.timestamps + BlockTimestamps(LiftRun(c, build, majorVersion, s, n).1.events[|s.events|..]),
                  c.difficultyWindow)
    decreases n
  {
    LiftRunAppends(c, build, majorVersion, s, n);
    var next := build(Request(c, majorVersion, s));
    var r := LiftRun(c, build, majorVersion, s, n).1;
    if n == 0 || next.None? {
      assert r == s;
      EmptyTail(s.events, s.timestamps);
    } else {
      var b := next.value;
      var s' := Step(c, majorVersion, s, b);
      assert r == LiftRun(c, build, majorVersion, s', n - 1).1;
      LiftRunAppends(c, build, majorVersion, s', n - 1);
      LiftRunWindow(c, build, majorVersion, s', n - 1);
      TailAfterPush(s.events, BlockEvent(b), r.events);
      var rest := r.events[|s'.events|..];
      assert BlockTimestamps([BlockEvent(b)] + rest) == [b.timestamp] + BlockTimestamps(rest) by {
        assert ([BlockEvent(b)] + rest)[1..] == rest;
      }
      SlideThenLastN(s.timestamps, b.timestamp, BlockTimestamps(rest), c.difficultyWindow);
      var added := r.events[|s.events|..];
      assert added == [BlockEvent(b)] + rest;
      assert s'.timestamps == Slide(s.timestamps, c.difficultyWindow, b.timestamp);
      calc {
        r.timestamps;
        LastN(s'.timestamps + BlockTimestamps(rest), c.difficultyWindow);
        LastN(s.timestamps + ([b.timestamp] + BlockTimestamps(rest)), c.difficultyWindow);
        LastN(s.timestamps + BlockTimestamps(added), c.difficultyWindow);
      }
    }
  }

  /** With nothing appended, the history is the old window. */
  lemma EmptyTail<T, U>(xs: seq<T>, ys: seq<U>)
    ensures xs[|xs|..] == [] && ys + [] == ys
  {
  }

  /** What follows a prefix `xs + [x]` of `zs`, seen from `xs`. */
  lemma TailAfterPush<T>(xs: seq<T>, x: T, zs: seq<T>)
    requires xs + [x] <= zs
    ensures zs[|xs|..] == [x] + zs[|xs| + 1..]
  {
    assert zs[|xs|] == (xs + [x])[|xs|];
  }

  /** Sliding a window of at most `size` entries and keeping the last `size`
      of what follows is keeping the last `size` of the whole history. */
  lemma SlideThenLastN<T>(xs: seq<T>, x: T, ys: seq<T>, size: nat)
    requires |xs| <= size && size > 0
    ensures LastN(Slide(xs, size, x) + ys, size) == LastN(xs + ([x] + ys), size)
  {
    SlideKeepsLastN(xs, size, x);
    LastNOfLastN(xs + [x], ys, size);
    assert xs + [x] + ys == xs + ([x] + ys);
  }

  /** When the running total does not wrap around 2^64 (every difficulty at
      most `maxDifficulty`, and `n` of them fit above the starting total), the
      cumulative difficulties stay non-decreasing, the last one is the running
      total, and the running total never shrinks. */
  lemma {:induction false} LiftRunCumulative(c: Currency, build: Builder, majorVersion: uint8, s: LiftState, n: nat,
                                             maxDifficulty: nat)
    requires WellFormed(c, s)
    requires NonDecreasing(s.cumulativeDifficulties)
    requires s.cumulativeDifficulties != [] ==> s.running == s.cumulativeDifficulties[|s.cumulativeDifficulties| - 1]
    requires forall ts, cds :: c.nextDifficulty(ts, cds) <= maxDifficulty
    requires s.running + n * maxDifficulty < U64
    ensures NonDecreasing(LiftRun(c, build, majorVersion, s, n).1.cumulativeDifficulties)
    ensures var r := LiftRun(c, build, majorVersion, s, n).1;
      r.cumulativeDifficulties != [] ==> r.running == r.cumulativeDifficulties[|r.cumulativeDifficulties| - 1]
    ensures s.running <= LiftRun(c, build, majorVersion, s, n).1.running
    decreases n
  {
    var next := build(Request(c, majorVersion, s));
    if n > 0 && next.Some? {
      var d := c.nextDifficulty(s.timestamps, s.cumulativeDifficulties);
      assert s.running + d + (n - 1) * maxDifficulty < U64 by {
        assert n * maxDifficulty == (n - 1) * maxDifficulty + maxDifficulty;
      }
      StepCumulative(c, majorVersion, s, next.value);
      LiftRunCumulative(c, build, majorVersion, Step(c, majorVersion, s, next.value), n - 1, maxDifficulty);
    }
  }

  /** One iteration without wrap-around: the running total grows by the
      difficulty and is the new last cumulative difficulty, which keeps them
      non-decreasing. */
  lemma StepCumulative(c: Currency, majorVersion: uint8, s: LiftState, b: BlockTemplate)
    requires WellFormed(c, s)
    requires NonDecreasing(s.cumulativeDifficulties)
    requires s.cumulativeDifficulties != [] ==> s.running == s.cumulativeDifficulties[|s.cumulativeDifficulties| - 1]
    requires s.running + c.nextDifficulty(s.timestamps, s.cumulativeDifficulties) < U64
    ensures var r := Step(c, majorVersion, s, b);
      && r.running == s.running + c.nextDifficulty(s.timestamps, s.cumulativeDifficulties)
      && NonDecreasing(r.cumulativeDifficulties)
      && r.cumulativeDifficulties != []
      && r.running == r.cumulativeDifficulties[|r.cumulativeDifficulties| - 1]
  {
    var r := Step(c, majorVersion, s, b);
    var cds := s.cumulativeDifficulties;
    var kept := if |cds| == c.difficultyWindow then cds[1..] else cds;
    assert r.cumulativeDifficulties == kept + [r.running];
    forall i, j | 0 <= i < j < |r.cumulativeDifficulties|
      ensures r.cumulativeDifficulties[i] <= r.cumulativeDifficulties[j]
    {
      if j == |kept| {
        assert r.cumulativeDifficulties[i] == kept[i];
      }
    }
  }

  /** The helper itself: for `newBlockCount` iterations, ask the currency for
      the next difficulty, build a block on the previous one with it (stop
      with false if that fails), add the difficulty to the running total,
      slide the window and record the block. */
  method LiftUpDifficulty(currency: Currency, events: seq<Event>, timestamps: seq<uint64>,
                          cumulativeDifficulties: seq<uint64>, build: Builder, newBlockCount: nat,
                          blkLast: BlockTemplate, majorVersion: uint8)
    returns (ok: bool, events': seq<Event>, timestamps': seq<uint64>, cumulativeDifficulties': seq<uint64>)
    requires |timestamps| == |cumulativeDifficulties|
    requires currency.difficultyWindow > 0 || |timestamps| > 0
    ensures var r := LiftRun(currency, build, majorVersion,
                             Start(events, timestamps, cumulativeDifficulties, blkLast), newBlockCount);
      && ok == r.0 && events' == r.1.events
      && timestamps' == r.1.timestamps && cumulativeDifficulties' == r.1.cumulativeDifficulties
    ensures |timestamps'| == |cumulativeDifficulties'|
    ensures events <= events'
    ensures forall k :: |events| <= k < |events'| ==> events'[k].BlockEvent?
    ensures ok <==> |events'| == |events| + newBlockCount
    ensures |timestamps| <= currency.difficultyWindow ==>
      && |timestamps'| <= currency.difficultyWindow
      && timestamps' == LastN(timestamps + BlockTimestamps(events'[|events|..]), currency.difficultyWindow)
  {
    var running: uint64 := if |cumulativeDifficulties| == 0 then 0 else cumulativeDifficulties[|cumulativeDifficulties| - 1];
    var prev := blkLast;
    ghost var start := Start(events, timestamps, cumulativeDifficulties, blkLast);
    events', timestamps', cumulativeDifficulties' := events, timestamps, cumulativeDifficulties;
    ok := true;
    var i := 0;
    while i < newBlockCount
      invariant i <= newBlockCount
      invariant WellFormed(currency, LiftState(events', timestamps', cumulativeDifficulties', running, prev))
      invariant LiftRun(currency, build, majorVersion, start, newBlockCount)
             == LiftRun(currency, build, majorVersion,
                        LiftState(events', timestamps', cumulativeDifficulties', running, prev), newBlockCount - i)
    {
      ghost var cur := LiftState(events', timestamps', cumulativeDifficulties', running, prev);
      var diffic := currency.nextDifficulty(timestamps', cumulativeDifficulties');
      var next := build(BuildRequest(EmptyBlock, prev, majorVersion, prev.timestamp, diffic));
      assert next == build(Request(currency, majorVersion, cur));
      if next.None? {
        ok := false;
        break;
      }
      var blk := next.value;
      running := (running + diffic) % U64;
      if |timestamps'| == currency.difficultyWindow {
        timestamps' := timestamps'[1..];
        cumulativeDifficulties' := cumulativeDifficulties'[1..];
      }
      timestamps' := timestamps' + [blk.timestamp];
      cumulativeDifficulties' := cumulativeDifficulties' + [running];
      events' := events' + [BlockEvent(blk)];
      prev := blk;
      assert LiftState(events', timestamps', cumulativeDifficulties', running, prev) == Step(currency, majorVersion, cur, blk);
      i := i + 1;
    }
    LiftRunAppends(currency, build, majorVersion, start, newBlockCount);
    LiftRunAppendsBlocks(currency, build, majorVersion, start, newBlockCount);
    LiftRunCount(currency, build, majorVersion, start, newBlockCount);
    if |timestamps| <= currency.difficultyWindow {
      LiftRunWindow(currency, build, majorVersion, start, newBlockCount);
    }
  }
}
