/** Value types shared by the block-validation scenarios: fixed-width integers,
    transactions, merge-mining parent blocks, block templates, the events a
    scenario records for the core, the core's verdict on a block, and the
    currency policy the scenarios consult.

    Every C++ struct here (`Transaction`, `ParentBlock`, `BlockTemplate`) has
    value semantics in the source (copied on assignment), so each is a
    datatype; an update of one field in place becomes `x := x.(field := v)`. */
module Chain {

  const U32: nat := 0x1_0000_0000
  const U64: nat := 0x1_0000_0000_0000_0000

  type uint8 = x: nat | x < 0x100
  type uint32 = x: nat | x < 0x1_0000_0000
  type uint64 = x: nat | x < 0x1_0000_0000_0000_0000
  type byte = bv8

  /** A digest or key (block hash, transaction hash, public key), as bytes. */
  type Hash = seq<byte>

  datatype Option<T> = None | Some(value: T)

  // ---------------------------------------------------------------------------
  // Transactions and blocks

  datatype TransactionInput =
    | BaseInput(blockIndex: uint32)
    | KeyInput(amount: uint64, outputIndexes: seq<uint32>, keyImage: Hash)

  datatype TransactionOutput = TransactionOutput(amount: uint64, key: Hash)

  datatype Transaction = Transaction(
    version: uint8,
    unlockTime: uint64,
    inputs: seq<TransactionInput>,
    outputs: seq<TransactionOutput>,
    extra: seq<byte>,
    signatures: seq<seq<Hash>>)

  /** The value a default-constructed transaction holds: every number zero,
      every list empty. */
  const EmptyTransaction: Transaction := Transaction(0, 0, [], [], [], [])

  /** `clearTransaction`: reset every field of `tx` in place, so that it holds
      the value of a default-constructed transaction whatever it held before. */
  method ClearTransaction(tx: Transaction) returns (tx': Transaction)
    ensures tx' == EmptyTransaction
    ensures tx'.inputs == [] && tx'.outputs == [] && tx'.extra == [] && tx'.signatures == []
  {
    tx' := tx.(version := 0);
    tx' := tx'.(unlockTime := 0);
    tx' := tx'.(inputs := []);
    tx' := tx'.(outputs := []);
    tx' := tx'.(extra := []);
    tx' := tx'.(signatures := []);
  }

  /** The merge-mining parent block embedded in a block of major version 2 or more. */
  datatype ParentBlock = ParentBlock(
    majorVersion: uint8,
    minorVersion: uint8,
    previousBlockHash: Hash,
    transactionCount: nat,
    baseTransactionBranch: seq<Hash>,
    baseTransaction: Transaction,
    blockchainBranch: seq<Hash>)

  datatype BlockTemplate = BlockTemplate(
    majorVersion: uint8,
    minorVersion: uint8,
    timestamp: uint64,
    previousBlockHash: Hash,
    nonce: uint32,
    parentBlock: ParentBlock,
    baseTransaction: Transaction,
    transactionHashes: seq<Hash>)

  /** A default-constructed block template. */
  const EmptyBlock: BlockTemplate :=
    BlockTemplate(0, 0, 0, [], 0, ParentBlock(0, 0, [], 0, [], EmptyTransaction, []), EmptyTransaction, [])

  /** The `extra` field of the parent block's coinbase transaction. */
  function ParentExtra(b: BlockTemplate): seq<byte>
  {
    b.parentBlock.baseTransaction.extra
  }

  /** `b` with the parent coinbase `extra` replaced and every other field kept. */
  function WithParentExtra(b: BlockTemplate, extra: seq<byte>): (r: BlockTemplate)
    ensures ParentExtra(r) == extra
    ensures r.(parentBlock := b.parentBlock) == b
    ensures r.parentBlock.(baseTransaction := b.parentBlock.baseTransaction) == b.parentBlock
    ensures r.parentBlock.baseTransaction.(extra := ParentExtra(b)) == b.parentBlock.baseTransaction
  {
    b.(parentBlock := b.parentBlock.(baseTransaction := b.parentBlock.baseTransaction.(extra := extra)))
  }

  /** `std::vector::resize`: keep the first `n` bytes, padding with zero bytes
      when the vector grows. */
  function Resize(s: seq<byte>, n: nat): (r: seq<byte>)
    ensures |r| == n
    ensures forall i :: 0 <= i < n ==> r[i] == if i < |s| then s[i] else 0
  {
    if n <= |s| then s[..n] else s + seq(n - |s|, _ => 0)
  }

  /** Resizing twice is one resize when the intermediate size loses none of
      the bytes the final size keeps. */
  lemma ResizeTwice(s: seq<byte>, m: nat, n: nat)
    requires n <= m || |s| <= m
    ensures Resize(Resize(s, m), n) == Resize(s, n)
  {
    var a, b := Resize(Resize(s, m), n), Resize(s, n);
    assert |a| == |b|;
    forall i | 0 <= i < n ensures a[i] == b[i] {
    }
  }

  // ---------------------------------------------------------------------------
  // What a scenario records, and what the core answers

  /** One entry of a scenario's event list: a block, a raw serialized blob, a
      transaction, or a named callback run at that point of the replay. */
  datatype Event =
    | BlockEvent(block: BlockTemplate)
    | SerializedBlock(data: seq<byte>)
    | TransactionEvent(tx: Transaction)
    | CallbackEvent(name: string)

  /** Why the core refused a block. */
  datatype RejectReason =
    | BadMajorVersion | BadPreviousBlock | TimestampTooOld | TimestampInFuture
    | ProofOfWorkTooWeak | BlockTooBig | BadCoinbase | ParentBlockTooBig | DeserializationFailed

  /** The core's verdict on one submitted block (the add-block error codes). */
  datatype AddBlockOutcome =
    | AddedToMain
    | AlreadyExists
    | RejectedAsOrphaned
    | Rejected(reason: RejectReason)

  // ---------------------------------------------------------------------------
  // Currency policy

  /** The currency parameters and policy functions the scenarios consult; their
      definitions live in the currency implementation, which is not part of
      this model, so they are carried here as values. */
  datatype Currency = Currency(
    difficultyWindow: nat,
    nextDifficulty: (seq<uint64>, seq<uint64>) -> uint64,
    maxBlockCumulativeSize: nat -> nat)

  /** What `constructBlockManually` is asked to override when it builds a block
      on top of `prev` (the overrides both looping scenarios use: major
      version, timestamp and difficulty), plus the block value it fills in. */
  datatype BuildRequest = BuildRequest(
    into: BlockTemplate,
    prev: BlockTemplate,
    majorVersion: uint8,
    timestamp: uint64,
    difficulty: uint64)

  /** The test generator's manual block builder: a block, or failure. */
  type Builder = BuildRequest -> Option<BlockTemplate>

  /** Non-decreasing order of a sequence of numbers. */
  ghost predicate NonDecreasing(xs: seq<nat>)
  {
    forall i, j :: 0 <= i < j < |xs| ==> xs[i] <= xs[j]
  }
}
