/** The invalid-previous-id scenario: event 0 is the genesis block, event 1 a
    block whose parent hash has one bit flipped, so the core cannot find its
    parent. */
module InvalidPrevId {
  import opened Chain

  /** The event that carries the block with the corrupted parent hash. */
  const CorruptedEvent: nat := 1

  /** `check_block_verification_context`: the corrupted block must be kept as
      an orphan and every other block added to the main chain. */
  function ExpectedOutcome(bve: AddBlockOutcome, eventIdx: nat): (ok: bool)
    ensures ok ==> (bve == AddedToMain <==> eventIdx != CorruptedEvent)
    ensures ok ==> !bve.Rejected? && bve != AlreadyExists
  {
    if eventIdx == CorruptedEvent then bve == RejectedAsOrphaned else bve == AddedToMain
  }

  /** At every event index exactly one verdict is accepted. */
  lemma ExactlyOneOutcome(eventIdx: nat, bve: AddBlockOutcome, other: AddBlockOutcome)
    ensures ExpectedOutcome(if eventIdx == CorruptedEvent then RejectedAsOrphaned else AddedToMain, eventIdx)
    ensures ExpectedOutcome(bve, eventIdx) && ExpectedOutcome(other, eventIdx) ==> bve == other
  {
  }
}
