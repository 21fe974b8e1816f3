/** `adjustParentBlockSize`: pads or trims the `extra` field of the parent
    block's coinbase transaction until the serialized parent block measures
    exactly a target size. The serializer that measures it is not part of this
    model; it is a parameter that may fail. */
module ParentBlockSize {
  import opened Chain

  /** `getParentBlockSize`: the serialized size of the block's parent block,
      or None when the serializer fails. */
  type SizeOracle = BlockTemplate -> Option<nat>

  const TimestampHighBit: nat := 0x200_0000_0000_0000  // 2^57: what survives a 7-bit shift of a 64-bit value

  /** `std::max(timestamp, 1) << 7` on an unsigned 64-bit value. */
  function ShiftedTimestamp(ts: uint64): (r: uint64)
    ensures r % 128 == 0
    ensures r / 128 == (if ts == 0 then 1 else ts) % TimestampHighBit
  {
    var m := if ts == 0 then 1 else ts;
    var low := m % TimestampHighBit;
    assert m == (m / TimestampHighBit) * TimestampHighBit + low;
    assert m * 128 == (m / TimestampHighBit) * U64 + low * 128;
    (m * 128) % U64
  }

  /** The block with its parent coinbase `extra` grown by `padding` zero bytes. */
  function Grown(block: BlockTemplate, padding: nat): BlockTemplate
  {
    WithParentExtra(block, Resize(ParentExtra(block), |ParentExtra(block)| + padding))
  }

  /** Measure; refuse a block already over the target; pad `extra` by the
      missing bytes and measure again. Padding can overshoot, because the
      length prefix of `extra` may grow with it: then trim the excess (unless
      `extra` is too short for that) and measure again; if the result is now
      one byte short, replace the timestamp by `max(timestamp, 1) << 7`, whose
      encoding is longer, and measure once more. Succeed exactly when the last
      measurement is the target. A failure of the serializer fails the whole
      adjustment, leaving the block as modified so far. */
  method AdjustParentBlockSize(block: BlockTemplate, targetSize: nat, measure: SizeOracle)
    returns (ok: bool, block': BlockTemplate)
    ensures ok <==> measure(block') == Some(targetSize)
    ensures measure(block).None? ==> !ok && block' == block
    ensures measure(block).Some? && measure(block).value > targetSize ==> !ok && block' == block
    // only the parent coinbase `extra` and the timestamp change, and `extra` only by resizing
    ensures block' == WithParentExtra(block, ParentExtra(block')).(timestamp := block'.timestamp)
    ensures ParentExtra(block') == Resize(ParentExtra(block), |ParentExtra(block')|)
    // the first adjustment grows `extra` by exactly the missing bytes
    ensures measure(block).Some? && measure(block).value <= targetSize ==>
      var grown := Grown(block, targetSize - measure(block).value);
      && (measure(grown) == Some(targetSize) ==> ok && block' == grown)
      && (measure(grown).None? ==> !ok && block' == grown)
      && (measure(grown).Some? && measure(grown).value < targetSize ==> !ok && block' == grown)
      && (measure(grown).Some? && measure(grown).value > targetSize ==>
            var excess := measure(grown).value - targetSize;
            if |ParentExtra(grown)| < excess then !ok && block' == grown
            else
              var trimmed := WithParentExtra(grown, Resize(ParentExtra(grown), |ParentExtra(grown)| - excess));
              && |ParentExtra(block')| == |ParentExtra(grown)| - excess
              && (measure(trimmed).None? ==> !ok && block' == trimmed)
              && (measure(trimmed) == Some(targetSize) ==> ok && block' == trimmed)
              && (measure(trimmed).Some? && measure(trimmed).value + 1 == targetSize ==>
                    block' == trimmed.(timestamp := ShiftedTimestamp(block.timestamp)))
              && (measure(trimmed).Some? && measure(trimmed).value + 1 != targetSize ==> block' == trimmed))
    // the timestamp changes only when the trimmed block measured one byte under the target
    ensures block'.timestamp == block.timestamp
         || (&& block'.timestamp == ShiftedTimestamp(block.timestamp)
             && measure(block'.(timestamp := block.timestamp)).Some?
             && measure(block'.(timestamp := block.timestamp)).value + 1 == targetSize)
  {
    block' := block;
    var measured := measure(block');
    if measured.None? {
      return false, block';
    }
    var size := measured.value;
    if size > targetSize {
      return false, block';
    }

    block' := Grown(block', targetSize - size);
    measured := measure(block');
    if measured.None? {
      return false, block';
    }
    size := measured.value;

    if size > targetSize {
      if |ParentExtra(block')| < size - targetSize {
        return false, block';
      }
      ResizeTwice(ParentExtra(block), |ParentExtra(block')|, |ParentExtra(block')| - (size - targetSize));
      block' := WithParentExtra(block', Resize(ParentExtra(block'), |ParentExtra(block')| - (size - targetSize)));
      measured := measure(block');
      if measured.None? {
        return false, block';
      }
      size := measured.value;

      if size + 1 == targetSize {
        block' := block'.(timestamp := ShiftedTimestamp(block'.timestamp));
        measured := measure(block');
        if measured.None? {
          return false, block';
        }
        size := measured.value;
      }
    }

    if size != targetSize {
      return false, block';
    }
    return true, block';
  }
}
