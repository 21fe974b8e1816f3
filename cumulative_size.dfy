/** The growth run of the cumulative-size scenario: chain maximum-size blocks
    on top of the genesis block at heights 1 to 999 until one's coinbase
    transaction exceeds the currency's cumulative size limit for its height;
    that block is recorded after a `markInvalidBlock` callback and the run
    stops. The builder of maximum-size blocks and the transaction serializer
    are not part of this model; they are parameters. */
module CumulativeSizeLimit {
  import opened Chain

  /** The height after the last one the run tries. */
  const HeightBound: nat := 1000

  const MarkInvalidBlock: string := "markInvalidBlock"

  /** `constructMaxSizeBlock`: a block of maximum size on top of the given one, or failure. */
  type MaxSizeBuilder = BlockTemplate -> Option<BlockTemplate>

  /** `getObjectBinarySize` of a transaction. */
  type TxSize = Transaction -> nat

  /** The block's coinbase is within the limit for `height`. */
  ghost predicate Fits(currency: Currency, txSize: TxSize, block: BlockTemplate, height: nat)
  {
    txSize(block.baseTransaction) <= currency.maxBlockCumulativeSize(height)
  }

  /** The run from `height` on, building on `prev`: whether it found a block
      over the limit, and the events it records. */
  ghost function SizeRun(currency: Currency, build: MaxSizeBuilder, txSize: TxSize, prev: BlockTemplate, height: nat)
    : (bool, seq<Event>)
    decreases HeightBound - height
  {
    if height >= HeightBound then (false, [])
    else
      var next := build(prev);
      if next.None? then (false, [])
      else if Fits(currency, txSize, next.value, height) then
        var rest := SizeRun(currency, build, txSize, next.value, height + 1);
        (rest.0, [BlockEvent(next.value)] + rest.1)
      else (true, [CallbackEvent(MarkInvalidBlock), BlockEvent(next.value)])
  }

  /** The event at position `j` of a run's events is a block built on `prev`
      (for `j == 0`) or on the block recorded just before it. */
  ghost predicate BuiltInOrder(build: MaxSizeBuilder, prev: BlockTemplate, evs: seq<Event>, j: nat)
    requires j < |evs|
  {
    && evs[j].BlockEvent?
    && (j > 0 ==> evs[j - 1].BlockEvent?)
    && build(if j == 0 then prev else evs[j - 1].block) == Some(evs[j].block)
  }

  /** The first `k` events are blocks within the limit of their heights,
      counted from `height`, each built on the one before it. */
  ghost predicate FitsFrom(currency: Currency, build: MaxSizeBuilder, txSize: TxSize, prev: BlockTemplate,
                           height: nat, evs: seq<Event>, k: nat)
    requires k <= |evs|
  {
    forall j :: 0 <= j < k ==>
      BuiltInOrder(build, prev, evs, j) && Fits(currency, txSize, evs[j].block, height + j)
  }

  /** Putting a fitting block built on `prev` in front of a fitting prefix
      built on that block gives a fitting prefix one longer. */
  lemma FitsFromCons(currency: Currency, build: MaxSizeBuilder, txSize: TxSize, prev: BlockTemplate,
                     next: BlockTemplate, height: nat, rest: seq<Event>, k: nat)
    requires k <= |rest|
    requires build(prev) == Some(next) && Fits(currency, txSize, next, height)
    requires FitsFrom(currency, build, txSize, next, height + 1, rest, k)
    ensures FitsFrom(currency, build, txSize, prev, height, [BlockEvent(next)] + rest, k + 1)
  {
    var evs := [BlockEvent(next)] + rest;
    forall j | 0 <= j < k + 1
      ensures BuiltInOrder(build, prev, evs, j) && Fits(currency, txSize, evs[j].block, height + j)
    {
      if j == 0 {
        assert evs[0] == BlockEvent(next);
      } else {
        ConsStep(currency, build, txSize, prev, next, height, rest, k, j);
      }
    }
  }

  /** One position of `FitsFromCons` past the first. */
  lemma ConsStep(currency: Currency, build: MaxSizeBuilder, txSize: TxSize, prev: BlockTemplate,
                 next: BlockTemplate, height: nat, rest: seq<Event>, k: nat, j: nat)
    requires 1 <= j < k + 1 && k <= |rest|
    requires BuiltInOrder(build, next, rest, j - 1) && Fits(currency, txSize, rest[j - 1].block, height + 1 + (j - 1))
    ensures BuiltInOrder(build, prev, [BlockEvent(next)] + rest, j)
    ensures Fits(currency, txSize, ([BlockEvent(next)] + rest)[j].block, height + j)
  {
    var evs := [BlockEvent(next)] + rest;
    assert evs[j] == rest[j - 1];
    if j == 1 {
      assert evs[0] == BlockEvent(next);
    } else {
      assert evs[j - 1] == rest[j - 2];
    }
  }

  /** Every event before the callback is a block within the limit of its
      height, built on the one before it. */
  lemma {:induction false} SizeRunPrefix(currency: Currency, build: MaxSizeBuilder, txSize: TxSize,
                                         prev: BlockTemplate, height: nat)
    ensures var r := SizeRun(currency, build, txSize, prev, height);
      && (r.0 ==> |r.1| >= 2)
      && FitsFrom(currency, build, txSize, prev, height, r.1, if r.0 then |r.1| - 2 else |r.1|)
    decreases HeightBound - height
  {
    if height < HeightBound {
      var next := build(prev);
      if next.Some? && Fits(currency, txSize, next.value, height) {
        SizeRunPrefix(currency, build, txSize, next.value, height + 1);
        var rest := SizeRun(currency, build, txSize, next.value, height + 1);
        FitsFromCons(currency, build, txSize, prev, next.value, height, rest.1,
                     if rest.0 then |rest.1| - 2 else |rest.1|);
      }
    }
  }

  /** When the run finds a block over the limit, the last two events are the
      `markInvalidBlock` callback and that block, which exceeds the limit of
      its height (a height below 1000) and was built on the last block within
      the limit. */
  lemma {:induction false} SizeRunViolation(currency: Currency, build: MaxSizeBuilder, txSize: TxSize,
                                            prev: BlockTemplate, height: nat)
    ensures var r := SizeRun(currency, build, txSize, prev, height);
      r.0 ==>
        && |r.1| >= 2
        && height + |r.1| - 2 < HeightBound
        && r.1[|r.1| - 2] == CallbackEvent(MarkInvalidBlock)
        && r.1[|r.1| - 1].BlockEvent?
        && (|r.1| > 2 ==> r.1[|r.1| - 3].BlockEvent?)
        && !Fits(currency, txSize, r.1[|r.1| - 1].block, height + |r.1| - 2)
        && build(if |r.1| == 2 then prev else r.1[|r.1| - 3].block) == Some(r.1[|r.1| - 1].block)
    decreases HeightBound - height
  {
    if height < HeightBound {
      var next := build(prev);
      if next.Some? && Fits(currency, txSize, next.value, height) {
        SizeRunViolation(currency, build, txSize, next.value, height + 1);
        var rest := SizeRun(currency, build, txSize, next.value, height + 1);
        if rest.0 && |rest.1| == 2 {
          assert rest.1 == [CallbackEvent(MarkInvalidBlock), rest.1[1]];
        }
      }
    }
  }

  /** A run that finds nothing records blocks only, at most one per height
      from `height` to 999. */
  lemma {:induction false} SizeRunLength(currency: Currency, build: MaxSizeBuilder, txSize: TxSize,
                                         prev: BlockTemplate, height: nat)
    ensures var r := SizeRun(currency, build, txSize, prev, height);
      && (!r.0 ==> height + |r.1| <= HeightBound || |r.1| == 0)
      && (r.0 ==> height + |r.1| <= HeightBound + 1)
    decreases HeightBound - height
  {
    if height < HeightBound {
      var next := build(prev);
      if next.Some? && Fits(currency, txSize, next.value, height) {
        SizeRunLength(currency, build, txSize, next.value, height + 1);
      }
    }
  }

  /** A run that finds nothing stopped either because a build failed, on the
      genesis block or on the last block recorded, or because it recorded a
      block at every height up to 999. */
  lemma {:induction false} SizeRunNotFound(currency: Currency, build: MaxSizeBuilder, txSize: TxSize,
                                           prev: BlockTemplate, height: nat)
    requires height <= HeightBound
    ensures var r := SizeRun(currency, build, txSize, prev, height);
      !r.0 ==>
        || height + |r.1| == HeightBound
        || (&& (|r.1| > 0 ==> r.1[|r.1| - 1].BlockEvent?)
            && build(if |r.1| == 0 then prev else r.1[|r.1| - 1].block).None?)
    decreases HeightBound - height
  {
    if height < HeightBound {
      var next := build(prev);
      if next.Some? && Fits(currency, txSize, next.value, height) {
        SizeRunNotFound(currency, build, txSize, next.value, height + 1);
        var rest := SizeRun(currency, build, txSize, next.value, height + 1);
        var evs := [BlockEvent(next.value)] + rest.1;
        if |rest.1| > 0 {
          assert evs[|evs| - 1] == rest.1[|rest.1| - 1];
        }
      }
    }
  }

  /** The scenario's loop: build, then either record the block and go on, or
      record the callback and the block and stop with true; false when a
      build fails or every height up to 999 fits. */
  method CumulativeSizeExceedsLimit(events: seq<Event>, genesis: BlockTemplate, currency: Currency,
                                    build: MaxSizeBuilder, txSize: TxSize)
    returns (ok: bool, events': seq<Event>)
    ensures var r := SizeRun(currency, build, txSize, genesis, 1); ok == r.0 && events' == events + r.1
  {
    var prevBlock := genesis;
    var height := 1;
    events' := events;
    ok := false;
    while height < HeightBound
      invariant 1 <= height <= HeightBound
      invariant events + SizeRun(currency, build, txSize, genesis, 1).1
             == events' + SizeRun(currency, build, txSize, prevBlock, height).1
      invariant SizeRun(currency, build, txSize, genesis, 1).0 == SizeRun(currency, build, txSize, prevBlock, height).0
      decreases HeightBound - height
    {
      var block := build(prevBlock);
      if block.None? {
        break;
      }
      prevBlock := block.value;
      if txSize(prevBlock.baseTransaction) <= currency.maxBlockCumulativeSize(height) {
        ghost var rest := SizeRun(currency, build, txSize, prevBlock, height + 1).1;
        assert events' + ([BlockEvent(prevBlock)] + rest) == (events' + [BlockEvent(prevBlock)]) + rest;
        events' := events' + [BlockEvent(prevBlock)];
      } else {
        events' := events' + [CallbackEvent(MarkInvalidBlock)];
        events' := events' + [BlockEvent(prevBlock)];
        ok := true;
        break;
      }
      height := height + 1;
    }
  }
}
