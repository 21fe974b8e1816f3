/** The invalid-binary-format scenario: every single-bit corruption of a
    serialized block is submitted after a boundary event; the scenario object
    remembers where that boundary lies and classifies the core's verdicts
    against it. */
module InvalidBinaryFormat {
  import opened Chain

  /** Bit `c` of a byte, counting from the least significant. */
  predicate Bit(x: byte, c: nat)
    requires c < 8
  {
    (x >> c) & 1 == 1
  }

  /** `1 << b` on a byte: the byte whose only set bit is bit `b`. */
  function BitMask(b: nat): (m: byte)
    requires b < 8
    ensures m != 0
    ensures forall c :: 0 <= c < 8 ==> (Bit(m, c) <==> c == b)
  {
    (1 as byte) << b
  }

  /** The blob with bit `b` of byte `i` flipped. */
  function FlipBit(blob: seq<byte>, i: nat, b: nat): seq<byte>
    requires i < |blob| && b < 8
  {
    blob[i := blob[i] ^ BitMask(b)]
  }

  /** A flipped blob has the same length, differs from the original at byte
      `i` only, and there exactly by the mask `1 << b`. */
  lemma FlipBitDiffers(blob: seq<byte>, i: nat, b: nat)
    requires i < |blob| && b < 8
    ensures |FlipBit(blob, i, b)| == |blob|
    ensures forall k :: 0 <= k < |blob| && k != i ==> FlipBit(blob, i, b)[k] == blob[k]
    ensures FlipBit(blob, i, b)[i] ^ blob[i] == BitMask(b)
    ensures FlipBit(blob, i, b)[i] != blob[i]
  {
  }

  /** Different (byte, bit) positions give different corrupted blobs, so no
      two submitted blobs coincide. */
  lemma FlipBitInjective(blob: seq<byte>, i: nat, b: nat, j: nat, c: nat)
    requires i < |blob| && b < 8 && j < |blob| && c < 8
    requires FlipBit(blob, i, b) == FlipBit(blob, j, c)
    ensures i == j && b == c
  {
    FlipBitDiffers(blob, i, b);
    if i != j {
      FlipBitDiffers(blob, j, c);
      assert false;
    }
    assert blob[i] ^ BitMask(b) == blob[i] ^ BitMask(c);
    assert BitMask(b) == (blob[i] ^ BitMask(b)) ^ blob[i];
    assert BitMask(b) == BitMask(c);
    assert Bit(BitMask(c), b);
  }

  /** The nested loop of the scenario: for each byte of the blob, byte after
      byte, and each of its 8 bits, lowest first, record a copy of the blob
      with that one bit flipped. */
  method AppendBitFlips(events: seq<Event>, blob: seq<byte>) returns (events': seq<Event>)
    ensures |events'| == |events| + 8 * |blob|
    ensures events <= events'
    ensures forall i, b :: 0 <= i < |blob| && 0 <= b < 8 ==>
              events'[|events| + 8 * i + b] == SerializedBlock(FlipBit(blob, i, b))
  {
    events' := events;
    var i := 0;
    while i < |blob|
      invariant 0 <= i <= |blob|
      invariant |events'| == |events| + 8 * i
      invariant events <= events'
      invariant forall i', b :: 0 <= i' < i && 0 <= b < 8 ==>
                  events'[|events| + 8 * i' + b] == SerializedBlock(FlipBit(blob, i', b))
    {
      var bit := 0;
      while bit < 8
        invariant 0 <= bit <= 8
        invariant |events'| == |events| + 8 * i + bit
        invariant events <= events'
        invariant forall i', b :: 0 <= i' < i && 0 <= b < 8 ==>
                    events'[|events| + 8 * i' + b] == SerializedBlock(FlipBit(blob, i', b))
        invariant forall b :: 0 <= b < bit ==>
                    events'[|events| + 8 * i + b] == SerializedBlock(FlipBit(blob, i, b))
      {
        var data := blob;
        data := data[i := data[i] ^ ((1 as byte) << bit)];
        events' := events' + [SerializedBlock(data)];
        bit := bit + 1;
      }
      i := i + 1;
    }
  }

  /** `check_block_verification_context`: before the boundary (or while it is
      still unset) the core must have added the block to the main chain; from
      the boundary on it must have answered "already exists" or "rejected as
      orphaned". */
  function ExpectedOutcome(bve: AddBlockOutcome, eventIdx: nat, corruptBlocksBegin: nat): (ok: bool)
    ensures ok ==> (bve == AddedToMain <==> corruptBlocksBegin == 0 || eventIdx < corruptBlocksBegin)
    ensures ok ==> !bve.Rejected?
    ensures corruptBlocksBegin == 0 || eventIdx < corruptBlocksBegin ==> (ok <==> bve == AddedToMain)
    ensures 0 < corruptBlocksBegin <= eventIdx ==> (ok <==> bve in {AlreadyExists, RejectedAsOrphaned})
  {
    if corruptBlocksBegin == 0 || eventIdx < corruptBlocksBegin then
      bve == AddedToMain
    else
      bve == AlreadyExists || bve == RejectedAsOrphaned
  }

  /** The scenario object's state: the index of the first corrupted event,
      0 until the boundary callback has run. */
  class InvalidBinaryFormatTest {
    var corruptBlocksBeginIdx: nat
    const blockMajorVersion: uint8

    constructor(blockMajorVersion: uint8)
      ensures corruptBlocksBeginIdx == 0 && this.blockMajorVersion == blockMajorVersion
    {
      corruptBlocksBeginIdx := 0;
      this.blockMajorVersion := blockMajorVersion;
    }

    /** `corrupt_blocks_boundary`: every event after the callback's own is a
        corrupted blob. */
    method CorruptBlocksBoundary(evIndex: nat) returns (r: bool)
      modifies this
      ensures corruptBlocksBeginIdx == evIndex + 1
      ensures r
    {
      corruptBlocksBeginIdx := evIndex + 1;
      r := true;
    }

    /** The classifier, read against the current boundary. */
    method CheckBlockVerificationContext(bve: AddBlockOutcome, eventIdx: nat) returns (ok: bool)
      ensures ok == ExpectedOutcome(bve, eventIdx, corruptBlocksBeginIdx)
    {
      ok := ExpectedOutcome(bve, eventIdx, corruptBlocksBeginIdx);
    }
  }

  /** Once the boundary callback at event `evIndex` has run, every event up to
      it must have been added to the main chain and no later one may be. */
  lemma BoundarySplitsEvents(evIndex: nat, eventIdx: nat, bve: AddBlockOutcome)
    ensures eventIdx <= evIndex ==> (ExpectedOutcome(bve, eventIdx, evIndex + 1) <==> bve == AddedToMain)
    ensures eventIdx > evIndex ==>
      (ExpectedOutcome(bve, eventIdx, evIndex + 1) <==> bve == AlreadyExists || bve == RejectedAsOrphaned)
  {
  }
}
