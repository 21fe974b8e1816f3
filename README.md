# Block-validation scenario helpers, modelled in Dafny

The bytecoin core tests in `tests/CoreTests/BlockValidation.cpp` build event
lists. An event list is a sequence of blocks, serialized blobs and named
callbacks that the test harness replays into the core, checking each verdict
of the core against what the scenario expects. Most scenarios only chain
calls into code this file does not contain. This project models the file's
own logic:

- `lift_up_difficulty` (module `DifficultyWindow`). It appends blocks while
  keeping a bounded difficulty window. The window is two parallel vectors:
  block timestamps and cumulative difficulties.
- `adjustParentBlockSize` (module `ParentBlockSize`). It pads or trims the
  `extra` field of the merge-mining parent coinbase until the serialized
  parent block has a target size.
- `clearTransaction` (in `Chain`, which also holds the value types).
- The nonce retry loop of `gen_block_invalid_nonce` (module `InvalidNonce`).
- The growth loop of `TestBlockCumulativeSizeExceedsLimit` (module
  `CumulativeSizeLimit`).
- The single-bit corruption loop, the outcome classifier and the boundary
  callback of `gen_block_invalid_binary_format` (module `InvalidBinaryFormat`).
- The outcome classifier of `gen_block_invalid_prev_id` (module `InvalidPrevId`).

The C++ structs are value types, copied on assignment, so they are
datatypes here. A vector or block passed by reference and updated in place
becomes a method's input plus an output holding its new value. The only
object state is the corrupted-blocks boundary of the binary-format scenario,
so that is a class.

Some functions this file calls are defined in code that is not part of this
model. Each one is a parameter of the member that needs it:

| source function | Dafny parameter |
|---|---|
| `Currency::nextDifficulty` | the `nextDifficulty` field of `Chain.Currency` |
| `Currency::maxBlockCumulativeSize` | the `maxBlockCumulativeSize` field of `Chain.Currency` |
| `constructBlockManually` | `Chain.Builder` |
| `constructMaxSizeBlock` | `CumulativeSizeLimit.MaxSizeBuilder` |
| the parent-block serializer behind `getParentBlockSize` | `ParentBlockSize.SizeOracle` |
| `getObjectBinarySize` of a transaction | `CumulativeSizeLimit.TxSize` |

Any of these may fail wherever the source checks for failure.

Unsigned 64-bit arithmetic is written out modulo 2^64:

- the running cumulative difficulty;
- `++timestamp`;
- `max(timestamp, 1) << 7`.

Where the loops change state step by step, the model has a method with a
loop. Each such method is proved equal to a recursive specification
function: `LiftRun` for the difficulty lift, `SizeRun` for the size run, and
`RetryResult` for the nonce retries. The properties are proved as lemmas
about those functions.

## Model

| member | source | states |
|---|---|---|
| DifficultyWindow.Slide | tests/CoreTests/BlockValidation.cpp:50-55 | One update of a window vector: erase the front entry when the vector already holds `difficultyWindow` entries, then push the new entry. |
| DifficultyWindow.SlideKeepsLastN | tests/CoreTests/BlockValidation.cpp:50-55 | Take a window no longer than the window length. Erasing the front when full and then pushing the new entry gives the last `difficultyWindow` entries of the extended history. An over-full window is never trimmed. The new entry is always last. |
| DifficultyWindow.LastN | tests/CoreTests/BlockValidation.cpp:50-55 | The kept suffix has length `min(|xs|, n)` and is a suffix of the history. |
| DifficultyWindow.LastNOfLastN | tests/CoreTests/BlockValidation.cpp:50-55 | Trimming the window on every step keeps the same entries as trimming once at the end. |
| DifficultyWindow.Start | tests/CoreTests/BlockValidation.cpp:37-38 | The state on entry. The running total is `back()` of the cumulative difficulties, or 0 when they are empty. The first block is built on `blk_last`. |
| DifficultyWindow.Request | tests/CoreTests/BlockValidation.cpp:41-45 | The request of one iteration: a fresh block on the previous one with its timestamp, the given major version, and the difficulty `nextDifficulty` computes from the current window. |
| DifficultyWindow.Step | tests/CoreTests/BlockValidation.cpp:49-58 | One built block: the running total grows by the difficulty modulo 2^64, both vectors slide, and the block is recorded and becomes the previous one. The vectors stay parallel. |
| DifficultyWindow.LiftRun | tests/CoreTests/BlockValidation.cpp:39-61 | `new_block_count` iterations of `Request`, build and `Step`. It stops with false at the first failed build, keeping what was appended before it. |
| DifficultyWindow.LiftRunAppends | tests/CoreTests/BlockValidation.cpp:39-59 | A run only appends to the event list. It keeps the timestamp and difficulty vectors of equal length. |
| DifficultyWindow.LiftRunAppendsBlocks | tests/CoreTests/BlockValidation.cpp:57 | Every appended event is a block. |
| DifficultyWindow.LiftRunCount | tests/CoreTests/BlockValidation.cpp:39-61 | The run returns true exactly when it appended `new_block_count` blocks. It never appends more. A failed build stops it after the blocks built so far. |
| DifficultyWindow.LiftRunWindow | tests/CoreTests/BlockValidation.cpp:50-55 | Start from a window no longer than `difficultyWindow`. The window stays within that length. The timestamps are exactly the last `difficultyWindow` of the old timestamps followed by those of the appended blocks. |
| DifficultyWindow.LiftRunCumulative | tests/CoreTests/BlockValidation.cpp:37-55 | Assume the running total cannot wrap. Then the cumulative difficulties stay non-decreasing and the last one equals the running total. The running total, which starts at `back()` or 0, never decreases. |
| DifficultyWindow.LiftUpDifficulty | tests/CoreTests/BlockValidation.cpp:32-62 | The loop computes what `LiftRun` specifies. It also states directly the append-only event list, the block-only additions, success if and only if `new_block_count` blocks were appended, parallel vectors, and the window property. |
| ParentBlockSize.ShiftedTimestamp | tests/CoreTests/BlockValidation.cpp:106 | `max(ts, 1) << 7` on 64 bits: a multiple of 128 whose upper bits are `max(ts, 1)` modulo 2^57. |
| ParentBlockSize.Grown | tests/CoreTests/BlockValidation.cpp:85-86 | The block with the parent coinbase `extra` grown by the given number of zero bytes. |
| ParentBlockSize.AdjustParentBlockSize | tests/CoreTests/BlockValidation.cpp:73-119 | It succeeds exactly when the serializer measures the final block at the target. A serializer failure or an oversize initial block gives false with the block untouched. Only the parent coinbase `extra` (by resizing) and the timestamp change. The grow step adds exactly `target - size` bytes. When the grown block is too big, the step refuses rather than trim more than `extra` holds. Otherwise it trims the excess: a trimmed block at the target succeeds, and one byte short gets the `max(ts, 1) << 7` timestamp. The timestamp changes in no other case. |
| Chain.Resize | tests/CoreTests/BlockValidation.cpp:85-99 | `vector::resize`: the new length, the old bytes kept, zero padding. |
| Chain.ResizeTwice | tests/CoreTests/BlockValidation.cpp:85-99 | Growing and then trimming equals one resize when no kept byte is lost in between. |
| Chain.WithParentExtra | tests/CoreTests/BlockValidation.cpp:85-99 | Replacing the parent coinbase `extra` leaves every other field of the block unchanged. |
| Chain.ClearTransaction | tests/CoreTests/BlockValidation.cpp:121-128 | Whatever the input, the result is the default transaction: version and unlock time 0, no inputs, outputs, extra or signatures. |
| InvalidNonce.Inc64 | tests/CoreTests/BlockValidation.cpp:266 | `++` on a 64-bit timestamp: successor, or 0 after the maximum. |
| InvalidNonce.Attempt | tests/CoreTests/BlockValidation.cpp:267-271 | The request of one attempt: the block being filled, with its coinbase cleared, on `blk_last`, at the given timestamp, version and difficulty. |
| InvalidNonce.RetryEnds | tests/CoreTests/BlockValidation.cpp:265-273 | Within the given number of attempts, each one second later than the last, some build fails or returns a non-zero nonce. |
| InvalidNonce.RetryResult | tests/CoreTests/BlockValidation.cpp:265-273 | The first attempt whose built block has a non-zero nonce, or None when a build fails before that. Its nonce is never zero. |
| InvalidNonce.RetryResultFuelIndependent | tests/CoreTests/BlockValidation.cpp:265-273 | Once the retries end within some bound, any larger bound gives the same result, so the bound does not change what the loop yields. |
| InvalidNonce.AppendInvalidNonceBlock | tests/CoreTests/BlockValidation.cpp:263-277 | The loop yields what `RetryResult` specifies. It returns true exactly when `RetryResult` finds a block. It then appends exactly that block, with its nonce decremented. The decrement does not wrap because that nonce is non-zero. The block was built on the last block with a cleared coinbase and the requested version and difficulty. When a build fails it returns false and leaves the events unchanged. |
| CumulativeSizeLimit.Fits | tests/CoreTests/BlockValidation.cpp:642 | The block's coinbase transaction is within `maxBlockCumulativeSize` of its height. |
| CumulativeSizeLimit.SizeRun | tests/CoreTests/BlockValidation.cpp:634-651 | From a height below 1000, build on the previous block. A failed build ends with false. A fitting block is recorded and the run goes on at the next height. A block over the limit is recorded after the callback and ends with true. Height 1000 ends with false. |
| CumulativeSizeLimit.SizeRunPrefix | tests/CoreTests/BlockValidation.cpp:634-645 | Every event before the callback is a block within `maxBlockCumulativeSize` of its height (1, 2, ...). Each such block was built on the previous one, the first on the genesis block. |
| CumulativeSizeLimit.SizeRunViolation | tests/CoreTests/BlockValidation.cpp:643-648 | A true result means the last two events are the `markInvalidBlock` callback and then the first block over the limit, at a height below 1000. That block was built on the last block within the limit. Nothing follows it. |
| CumulativeSizeLimit.SizeRunLength | tests/CoreTests/BlockValidation.cpp:634-651 | At most one block per height from 1 to 999 is recorded, plus the callback. |
| CumulativeSizeLimit.SizeRunNotFound | tests/CoreTests/BlockValidation.cpp:634-651 | A false result means either a block was recorded at every height up to 999, or the build on the genesis block or on the last recorded block failed. |
| CumulativeSizeLimit.CumulativeSizeExceedsLimit | tests/CoreTests/BlockValidation.cpp:628-652 | The loop returns and appends exactly what `SizeRun` specifies from the genesis block at height 1. |
| InvalidBinaryFormat.BitMask | tests/CoreTests/BlockValidation.cpp:715 | `1 << bit_idx` is a non-zero byte whose only set bit is `bit_idx`. |
| InvalidBinaryFormat.FlipBit | tests/CoreTests/BlockValidation.cpp:713-715 | A copy of the blob with byte `i` XORed with `1 << b`. |
| InvalidBinaryFormat.FlipBitDiffers | tests/CoreTests/BlockValidation.cpp:713-715 | A corrupted copy has the blob's length. It differs only in byte `i`, and there by exactly `1 << b`, so it always differs from the original. |
| InvalidBinaryFormat.FlipBitInjective | tests/CoreTests/BlockValidation.cpp:711-719 | Two different (byte, bit) positions never give the same corrupted blob. |
| InvalidBinaryFormat.AppendBitFlips | tests/CoreTests/BlockValidation.cpp:711-719 | Exactly `8 * |blob|` blobs are appended after the old events. Blob number `8*i + b` is the original with bit `b` of byte `i` flipped (byte-major, bit-minor order). |
| InvalidBinaryFormat.ExpectedOutcome | tests/CoreTests/BlockValidation.cpp:726-734 | Before the boundary, or while it is 0, only `ADDED_TO_MAIN` is accepted. From the boundary on, exactly `ALREADY_EXISTS` or `REJECTED_AS_ORPHANED` is accepted. An accepted verdict is never a rejection. |
| InvalidBinaryFormat.InvalidBinaryFormatTest.constructor | tests/CoreTests/BlockValidation.cpp:654-656 | The boundary starts at 0 and the major version is stored. |
| InvalidBinaryFormat.InvalidBinaryFormatTest.CorruptBlocksBoundary | tests/CoreTests/BlockValidation.cpp:736-740 | Sets the boundary to `ev_index + 1` and returns true. |
| InvalidBinaryFormat.InvalidBinaryFormatTest.CheckBlockVerificationContext | tests/CoreTests/BlockValidation.cpp:726-734 | The object's classifier agrees with `ExpectedOutcome` at its current boundary. |
| InvalidBinaryFormat.BoundarySplitsEvents | tests/CoreTests/BlockValidation.cpp:726-740 | With the boundary set by the callback at event `ev`, events up to `ev` must be `ADDED_TO_MAIN`. Later events must be `ALREADY_EXISTS` or `REJECTED_AS_ORPHANED`. |
| InvalidPrevId.ExpectedOutcome | tests/CoreTests/BlockValidation.cpp:241-247 | When a verdict is accepted, it is `ADDED_TO_MAIN` exactly at the events other than 1. An accepted verdict is never a rejection or `ALREADY_EXISTS`. |
| InvalidPrevId.ExactlyOneOutcome | tests/CoreTests/BlockValidation.cpp:241-247 | At every event index exactly one verdict is accepted: `REJECTED_AS_ORPHANED` at event 1 and `ADDED_TO_MAIN` elsewhere. |

## Left out

- The scenario `generate` bodies are left out. They only chain the block-building macros and builders (`MAKE_GENESIS_BLOCK`, `REWIND_BLOCKS_N`, `constructBlockManually`, `populateBlock`, ...). The consensus rules they exercise are implemented in files that are not part of this model. Each looping scenario is modelled from the point where its loop starts, taking the last block as a parameter.
- The bodies of `Currency::nextDifficulty`, `Currency::maxBlockCumulativeSize`, the block builders and the serializers are not part of this model. They are parameters, as listed above.
- Cryptography and hashing (`getBlockHash`, `getObjectHash`, key derivation) and `constructTransaction` are foreign calls and are left out.
- The wall clock (`time(NULL)`), console output and `LOG_ERROR` are I/O and are left out. A logged failure is modelled as a false result.
- `check_all_blocks_purged` and the other callbacks that query the core's state are left out. So are callback registration and `DO_CALLBACK`, except as the `CallbackEvent` they record.
- The debug-only `assert(1 < diffic)` of the invalid-nonce scenario is left out. It is not evaluated in release builds and constrains nothing the loop does.
- InvalidNonce.AppendInvalidNonceBlock: the C++ `do … while` loop runs for ever if the builder keeps returning nonce 0. The method instead requires (`RetryEnds`) that the retries stop within a ghost number of attempts.
- DifficultyWindow.LiftRunCumulative: the monotonicity of the cumulative difficulties is proved only when the running 64-bit total cannot wrap. The model of the loop itself does wrap (`% 2^64`), as `uint64_t` does.
- ParentBlockSize.AdjustParentBlockSize: a longer target does not imply an exact fit. That would depend on how the unseen serializer encodes `extra` and the timestamp. The contract states only what follows from the control flow, whatever the serializer measures.
- The classifiers model the code as written, which is narrower than "the core refuses the block":
  - after the boundary, a corrupted blob answered with a plain rejection fails the binary-format classifier; only `ALREADY_EXISTS` and `REJECTED_AS_ORPHANED` pass;
  - a block with an unknown parent answered with a plain rejection fails the invalid-prev-id classifier; only `REJECTED_AS_ORPHANED` passes at event 1.
- The test generator passed by reference (`test_generator&`) keeps a record of the blocks it builds, and each build draws a fresh miner key. The builders here (`Chain.Builder`, `CumulativeSizeLimit.MaxSizeBuilder`) are functions of the request alone. The generator's state and randomness are abstracted away, so two builds from the same request give the same block.
- `size_t` arithmetic is not bounded: `ev_index + 1`, `parentBlockSize + 1 == targetSize` and `extra.size() + (targetSize - parentBlockSize)` are computed on unbounded naturals. A wrap-around at 2^64 would need sizes no real block reaches.
