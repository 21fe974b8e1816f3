/** The retry loop of the invalid-nonce scenario: build blocks on top of the
    last one, one second later each time, until the builder returns a block
    whose nonce is not zero; then record that block with its nonce decreased
    by one, which invalidates its proof of work without wrapping the 32-bit
    nonce around. */
module InvalidNonce {
  import opened Chain

  /** `++` on an unsigned 64-bit value. */
  function Inc64(x: uint64): (r: uint64)
    ensures x + 1 < U64 ==> r == x + 1
    ensures x + 1 == U64 ==> r == 0
  {
    (x + 1) % U64
  }

  /** The request of one attempt: the block being filled in, with its coinbase
      transaction cleared, built on `blkLast` at timestamp `ts`. */
  function Attempt(blk: BlockTemplate, blkLast: BlockTemplate, majorVersion: uint8, ts: uint64,
                   difficulty: uint64): BuildRequest
  {
    BuildRequest(blk.(baseTransaction := EmptyTransaction), blkLast, majorVersion, ts, difficulty)
  }

  /** The retry loop, started from block `blk` and timestamp `ts`, ends within
      `fuel` attempts: some attempt fails or yields a non-zero nonce. The
      source loops for ever otherwise. */
  ghost predicate RetryEnds(build: Builder, blkLast: BlockTemplate, majorVersion: uint8, difficulty: uint64,
                            blk: BlockTemplate, ts: uint64, fuel: nat)
    decreases fuel
  {
    && fuel > 0
    && var next := build(Attempt(blk, blkLast, majorVersion, Inc64(ts), difficulty));
       (next.None? || next.value.nonce != 0
        || RetryEnds(build, blkLast, majorVersion, difficulty, next.value, Inc64(ts), fuel - 1))
  }

  /** What the retry loop, started from block `blk` and timestamp `ts`,
      yields within `fuel` attempts: None when a build fails first (or the
      fuel runs out), otherwise the first built block whose nonce is not
      zero. */
  ghost function RetryResult(build: Builder, blkLast: BlockTemplate, majorVersion: uint8, difficulty: uint64,
                             blk: BlockTemplate, ts: uint64, fuel: nat): (r: Option<BlockTemplate>)
    ensures r.Some? ==> r.value.nonce != 0
    decreases fuel
  {
    if fuel == 0 then None
    else
      var next := build(Attempt(blk, blkLast, majorVersion, Inc64(ts), difficulty));
      if next.None? then None
      else if next.value.nonce != 0 then next
      else RetryResult(build, blkLast, majorVersion, difficulty, next.value, Inc64(ts), fuel - 1)
  }

  /** Once the retries end within `fuel` attempts, more fuel changes nothing:
      the result is that of the unbounded loop, and None only because a build
      failed. */
  lemma {:induction false} RetryResultFuelIndependent(build: Builder, blkLast: BlockTemplate, majorVersion: uint8,
                                                      difficulty: uint64, blk: BlockTemplate, ts: uint64,
                                                      fuel: nat, more: nat)
    requires RetryEnds(build, blkLast, majorVersion, difficulty, blk, ts, fuel)
    requires fuel <= more
    ensures RetryEnds(build, blkLast, majorVersion, difficulty, blk, ts, more)
    ensures RetryResult(build, blkLast, majorVersion, difficulty, blk, ts, fuel)
         == RetryResult(build, blkLast, majorVersion, difficulty, blk, ts, more)
    decreases fuel
  {
    var next := build(Attempt(blk, blkLast, majorVersion, Inc64(ts), difficulty));
    if next.Some? && next.value.nonce == 0 {
      RetryResultFuelIndependent(build, blkLast, majorVersion, difficulty, next.value, Inc64(ts), fuel - 1, more - 1);
    }
  }

  /** A request the loop may send: a block with a cleared coinbase built on
      `blkLast` with the given version and difficulty. */
  ghost predicate RetryRequest(req: BuildRequest, blkLast: BlockTemplate, majorVersion: uint8, difficulty: uint64)
  {
    && req.prev == blkLast && req.majorVersion == majorVersion && req.difficulty == difficulty
    && req.into.baseTransaction == EmptyTransaction
  }

  /** Retry until the built block has a non-zero nonce (returning false as
      soon as a build fails), decrement that nonce and record the block. */
  method AppendInvalidNonceBlock(events: seq<Event>, blkLast: BlockTemplate, build: Builder, majorVersion: uint8,
                                 difficulty: uint64, ghost fuel: nat)
    returns (ok: bool, events': seq<Event>)
    requires RetryEnds(build, blkLast, majorVersion, difficulty, EmptyBlock, blkLast.timestamp, fuel)
    ensures var r := RetryResult(build, blkLast, majorVersion, difficulty, EmptyBlock, blkLast.timestamp, fuel);
      && (ok <==> r.Some?)
      && (ok ==> events' == events + [BlockEvent(r.value.(nonce := r.value.nonce - 1))])
    ensures !ok ==> events' == events
    ensures ok ==> |events'| == |events| + 1 && events <= events' && events'[|events|].BlockEvent?
    ensures ok ==>
      var pushed := events'[|events|].block;
      && pushed.nonce + 1 < U32
      && exists req :: RetryRequest(req, blkLast, majorVersion, difficulty)
                    && build(req) == Some(pushed.(nonce := pushed.nonce + 1))
  {
    var blk := EmptyBlock;
    var timestamp := blkLast.timestamp;
    ghost var f := fuel;
    var req := Attempt(blk, blkLast, majorVersion, timestamp, difficulty);
    while true
      invariant RetryEnds(build, blkLast, majorVersion, difficulty, blk, timestamp, f)
      invariant RetryResult(build, blkLast, majorVersion, difficulty, EmptyBlock, blkLast.timestamp, fuel)
             == RetryResult(build, blkLast, majorVersion, difficulty, blk, timestamp, f)
      decreases f
    {
      timestamp := Inc64(timestamp);
      var cleared := ClearTransaction(blk.baseTransaction);
      blk := blk.(baseTransaction := cleared);
      req := BuildRequest(blk, blkLast, majorVersion, timestamp, difficulty);
      var next := build(req);
      if next.None? {
        return false, events;
      }
      blk := next.value;
      if blk.nonce != 0 {
        break;
      }
      f := f - 1;
    }
    assert RetryRequest(req, blkLast, majorVersion, difficulty) && build(req) == Some(blk);
    blk := blk.(nonce := blk.nonce - 1);
    events' := events + [BlockEvent(blk)];
    ok := true;
  }
}
