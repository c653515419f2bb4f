# flashblock block builder, modelled in Dafny

flashblock collects pending transactions in an in-memory mempool. On every
tick, a block processor:

- takes all pending transactions;
- orders them by priority, highest first;
- wraps them in a block whose ID hashes the transaction IDs, the creation
  time and the previous block's ID;
- may attach an attestation quote;
- advances its chain pointer;
- keeps a bounded history of recent blocks;
- removes the batched transactions from the mempool.

This project models that pipeline:

- `transaction.dfy`: the transaction entity and its two constructors.
- `block.dfy`: the block entity and its identifier.
- `priority_sort.dfy`: the unstable priority sort.
- `mempool.dfy`: the mempool.
- `processor.dfy`: the block processor's configuration, constructor and one
  processing cycle.
- `bytes.dfy` and `wrappers.dfy` hold the byte strings, the hex encoding of
  digests and an option type.

Conventions of the model:

- Go strings and byte slices are both `seq<byte>`.
- SHA-256 is a function parameter (`Hasher`). Nothing is assumed about it
  except that it returns 32 bytes.
- A `time.Time` is represented by the text of its `String()` method. Every
  reading of the clock is an explicit argument, and the two readings each
  constructor takes are separate arguments.
- A `*big.Int` is `Option<int>`, with nil as `None`.
- Go's `int` priority is a 64-bit `int64`.
- The mempool and the block processor are classes whose methods update their
  fields. A block is a class because its `ID` and `TDXQuote` are written after
  it is allocated. Transactions are immutable values.
- A processing cycle is one atomic method. It returns, as a ghost result, the
  block it produced.
- The ghost field `produced` records every block the processor has made. The
  invariant `Valid` ties the chain pointer and the bounded history to it.
- The order of Go map iteration is a nondeterministic choice (`:|`).
  `sort.Slice` is modelled by an unstable selection sort. Its contract
  promises only non-increasing priority and a permutation.

The gas-price division follows the code, which calls `big.Int.Div`. That is
Euclidean division, the same as Dafny's `/`. It rounds down for the positive
divisor 10^9, so it differs from truncation only for a negative gas price. The
narrowing `Int64()` is modelled as math/big implements it: the low 64 bits in
two's complement.

## Model

| member | source | states |
|---|---|---|
| Bytes.HexDigit | internal/model/block.go:47 | each nibble is written as one of the sixteen lowercase hex digits |
| Bytes.HexValue | internal/model/block.go:47 | reading a hex digit gives back the nibble it encodes |
| Bytes.HexEncode | internal/model/block.go:47 | the encoding is twice as long as the bytes and made only of lowercase hex digits |
| Bytes.HexDecode | internal/model/block.go:47 | a successful decoding is half as long as its text |
| Bytes.HexRoundTrip | internal/model/block.go:47 | decoding the hex encoding gives the original bytes back |
| Bytes.HexEncodeInjective | internal/model/block.go:46-47 | different digests never get the same identifier |
| Bytes.HashId | internal/model/transaction.go:30-33 | an identifier is 64 lowercase hex digits that decode to the digest of the hash input |
| Transactions.Ids | internal/processor/processor.go:130-133 | the ID list has one entry per transaction: the i-th transaction's ID, in order |
| Transactions.ToSigned64 | internal/model/transaction.go:65 | 64 unsigned bits are read as the int64 congruent to them modulo 2^64, unchanged below 2^63 |
| Transactions.Int64Of | internal/model/transaction.go:65 | `Int64()` gives the int64 congruent to the value modulo 2^64, and the value itself when it fits |
| Transactions.MagnitudeInt64IsTruncation | internal/model/transaction.go:65 | math/big's magnitude-then-sign narrowing equals two's-complement truncation for every integer |
| Transactions.EthPriority | internal/model/transaction.go:59-66 | a nil or zero gas price gives 0; otherwise the priority is the gas price divided by 10^9 when that fits in int64, and it is non-negative for any non-negative gas price in that range |
| Transactions.EthPriorityMonotonic | internal/model/transaction.go:59-66 | where the quotient fits, a higher gas price never gives a lower priority |
| Transactions.EthPriorityWrapsAboveRange | internal/model/transaction.go:65 | a gas price of 2^63 gwei wraps to the most negative priority |
| Transactions.NewTransaction | internal/model/transaction.go:28-40 | the ID is the hex digest of data followed by the first time text; data and priority are kept, the timestamp is the second reading, value and gas price are non-nil zeros, and all other fields are empty or zero |
| Transactions.NewEthereumTransaction | internal/model/transaction.go:43-81 | the ID is the hex digest of data, time text, sender and recipient, in that order; the priority is the gas-price rule; every other argument is copied unchanged |
| Transactions.NativeIsEthereumWithoutProvenance | internal/model/transaction.go:28-81 | a plain transaction equals an Ethereum one with empty addresses and zero amounts, except for the priority it was given |
| Transactions.SameContentSameId | internal/model/transaction.go:30 | the same payload hashed at the same clock text gives the same ID, whatever the priority |
| Transactions.AddressBoundaryCollision | internal/model/transaction.go:54-57 | any two sender/recipient pairs that spell the same bytes end to end get the same ID, because the addresses are not delimited |
| Transactions.MissingAddressCollision | internal/eth/transaction.go:44-54 | a transaction from address `a` with no recipient and one from an unrecoverable sender to `a` differ in sender but get the same ID |
| Blocks.BlockID | internal/model/block.go:36-48 | the block ID is 64 lowercase hex digits that decode to the digest of the IDs, then the time text, then the previous block ID |
| Blocks.ConcatIds | internal/model/block.go:39-41 | the IDs in block order, laid end to end, as long as the IDs' lengths added up |
| Blocks.HashInput | internal/model/block.go:38-43 | the IDs in block order, then the time text, then the previous block ID, as long as those three parts together |
| Blocks.ConcatIdsOnlyIds | internal/model/block.go:39-41 | the concatenation depends only on the ordered list of IDs |
| Blocks.BlockIdDependsOnlyOnIds | internal/model/block.go:36-48 | equal ordered IDs, time text and previous ID give equal block IDs, whatever else the transactions carry |
| Blocks.IdAtOffset | internal/model/block.go:39-41 | when every ID is 64 characters, the i-th transaction's ID sits at offset 64·i of the hash input |
| Blocks.Block.NewBlock | internal/model/block.go:19-33 | the block keeps exactly the given transactions, predecessor ID and time, has no quote, and its ID is the block ID of those inputs |
| Blocks.Block.GenerateID | internal/model/block.go:36-48 | the buffer accumulated in the loop produces exactly the block ID of the block's fields |
| PrioritySort.AdjacentPairsSorted | internal/mempool/mempool.go:98-100 | non-increasing priority across each adjacent pair means the whole sequence is sorted |
| PrioritySort.TieOrderUnspecified | internal/processor/processor.go:103-106 | with equal priorities, both orders are sorted, so nothing fixes their order |
| PrioritySort.SelectStep | internal/processor/processor.go:103-106 | one selection step extends the sorted prefix by one, keeps every element before the split no lower than every element after it, and keeps the multiset of elements |
| PrioritySort.IndexOfMaxPriority | internal/processor/processor.go:103-106 | the index found holds a highest priority of the unsorted part |
| PrioritySort.SortByPriority | internal/processor/processor.go:103-106 | the array ends sorted by non-increasing priority and is a permutation of its old contents |
| PrioritySort.SortedCopy | internal/mempool/mempool.go:95-102 | the result is sorted by non-increasing priority and is a permutation of the input |
| Mempool.SnapshotIdsDistinct | internal/mempool/mempool.go:86-88 | a snapshot lists no transaction ID twice |
| Mempool.SnapshotHoldsStoredValues | internal/mempool/mempool.go:78-91 | a transaction is in a snapshot exactly when it is stored in the mempool |
| Mempool.SnapshotPermutation | internal/mempool/mempool.go:94-103 | any rearrangement of a snapshot is again a snapshot |
| Mempool.ListedIds | internal/processor/processor.go:130-134 | the IDs collected from a batch are exactly the batch's ID set |
| Mempool.Mempool.constructor | internal/mempool/mempool.go:21-26 | a new mempool has no transactions, no hooks and no hook runs |
| Mempool.Mempool.AddTransactionHook | internal/mempool/mempool.go:29-34 | the hook is appended once at the end, and earlier hooks keep their order |
| Mempool.Mempool.AddTransaction | internal/mempool/mempool.go:37-54 | true exactly when the ID was absent; then the transaction is stored under its ID, every other entry is kept, the size grows by one and one hook run with `(tx, true)` is recorded; otherwise nothing changes |
| Mempool.Mempool.GetTransaction | internal/mempool/mempool.go:69-75 | found exactly when the ID is a key, and then it returns the stored transaction, whose ID is that key; nil otherwise; no state changes |
| Mempool.Mempool.GetAllTransactions | internal/mempool/mempool.go:78-91 | the result lists every stored transaction exactly once, each under its own ID, as many as the mempool holds |
| Mempool.Mempool.GetSortedTransactions | internal/mempool/mempool.go:94-103 | the result is a snapshot of the mempool in non-increasing priority order |
| Mempool.Mempool.RemoveTransactions | internal/mempool/mempool.go:106-113 | every listed ID is gone; every unlisted entry keeps its value; the size drops by the number of listed IDs that were present, so absent IDs are ignored |
| Mempool.Mempool.Clear | internal/mempool/mempool.go:116-121 | no transaction remains, and the hooks are untouched |
| Mempool.Mempool.Size | internal/mempool/mempool.go:124-129 | the number of stored transactions, which is the length of every snapshot |
| Processor.DefaultConfig | internal/processor/processor.go:33-39 | a 250 ms interval, the 100 newest blocks kept, attestation off |
| Processor.Retain | internal/processor/processor.go:123-127 | after the trim, the history holds no more than the cap, and exactly the cap when it was longer |
| Processor.RetainIsSuffix | internal/processor/processor.go:123-127 | the trim drops only the oldest entries: what remains is the newest suffix |
| Processor.RetainStep | internal/processor/processor.go:120-127 | trimming after every append keeps the same blocks as trimming the full history once |
| Processor.RetainKeepsNewest | internal/processor/processor.go:120-127 | the new block is the last retained block whenever the cap is positive; a cap of 0 leaves the history empty |
| Processor.CollectIds | internal/processor/processor.go:130-133 | the loop fills the ID list with the batch's IDs in batch order |
| Processor.ChainExtend | internal/processor/processor.go:109-117 | a block naming the newest block keeps the chain linked |
| Processor.ChainedSuffix | internal/processor/processor.go:123-127 | dropping the oldest blocks keeps the remaining ones linked |
| Processor.ChainConsistentStep | internal/processor/processor.go:109-127 | building on the chain pointer, advancing it and appending with the trim keeps the chain linked, the pointer on the newest block and the history equal to the newest blocks |
| Processor.BlockProcessor.New | internal/processor/processor.go:42-69 | starts with an empty chain pointer and history; a nil config means the defaults; attestation stays on only if the provider could be created |
| Processor.BlockProcessor.GenerateTDXQuoteForBlock | internal/processor/processor.go:146-159 | a successful quote is attached to the block; after a failure the block keeps the quote it had |
| Processor.BlockProcessor.ProcessNextBlock | internal/processor/processor.go:89-134 | an empty mempool changes nothing. Otherwise the new block holds a priority-sorted permutation of the pending transactions, names the old chain pointer, and carries the block ID and the quote outcome. It becomes the chain pointer and, when `MaxStoredBlocks > 0`, the newest retained block (RetainKeepsNewest); with a cap of 0 the history stays empty. Exactly its transactions leave the mempool, and the chain invariant is kept |
| Processor.BlockProcessor.ExtendChain | internal/processor/processor.go:108-127 | the fresh block is built on the old chain pointer, becomes the new pointer and joins the trimmed history, keeping the chain invariant |
| Processor.BlockProcessor.BuildBlock | internal/processor/processor.go:108-114 | the fresh block holds the sorted batch, names the chain pointer, carries the block ID, and has the quote only when attestation is on and the provider answered |
| Processor.BlockProcessor.Commit | internal/processor/processor.go:116-127 | the block becomes the chain pointer and the newest produced block, the history is the old one plus the block trimmed to the cap, and the chain invariant is kept |
| Processor.BlockProcessor.DropBatch | internal/processor/processor.go:129-134 | exactly the batch's IDs are removed from the mempool, which leaves it empty when the batch is a snapshot |
| Processor.BlockProcessor.AppendToHistory | internal/processor/processor.go:120-127 | the history becomes the old history plus the block, trimmed to the newest `MaxStoredBlocks` |
| Processor.BlockProcessor.GetProcessedBlocks | internal/processor/processor.go:162-164 | the retained blocks, no more than the cap, each naming its predecessor, and the last one is the chain pointer |

## Left out

- `BlockProcessor.Start`, its ticker and the `go bp.processNextBlock()` it launches are not modelled. Overlapping cycles are therefore not modelled either. A cycle is one atomic step, so transactions added while a cycle runs are not modelled.
- The mempool's `sync.RWMutex` is not modelled. Each mempool operation is one atomic step.
- `executeHooks` runs in the background. The model records each run it starts, `(tx, true)`, in a ghost log. The hooks' effects, their order and the moment the hook list is copied are not modelled.
- The block callback and the elapsed time passed to it are not modelled. The callback is external code, and the time comes from the wall clock.
- SHA-256 is a parameter, as are the clock readings and the answer of the attestation provider. `internal/attest/tdx.go` is not part of this model.
- `Processor.BlockProcessor.New` requires a non-negative `MaxStoredBlocks`. With a negative cap, the `[excess:]` slice in Go panics on the first block.
- `Processor.BlockProcessor.New` copies the configuration value. In Go, disabling attestation writes through the caller's `*Config`, and that aliasing is not modelled.
- Returned slices are values in the model, and so are the `*model.Transaction` pointers: a transaction is a datatype value, while blocks stay class references. Go's sharing of backing arrays between `GetProcessedBlocks`, `processedBlocks` and the sorted snapshot is not modelled.
- `append(data, ...)` in the transaction constructors may reuse the spare capacity of the caller's `data` slice. The model builds a new sequence.
- The Ethereum decoding, RPC, metrics, analysis, client and server files are not part of this model.
