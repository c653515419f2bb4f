/**
  The block processor (internal/processor/processor.go). One call of
  `ProcessNextBlock` is one tick of the builder, taken as a single atomic
  step: snapshot the mempool, sort it by priority, build a block on top of the
  last block ID, perhaps attach an attestation quote, advance the chain
  pointer, append to the bounded history and drop the batched transactions
  from the mempool.
 */
module Processor {
  import opened Wrappers
  import opened Bytes
  import opened Transactions
  import opened Blocks
  import opened PrioritySort
  import opened Mempool

  /** A `time.Duration`: a count of nanoseconds. */
  type Duration = int64

  const Millisecond: int := 1_000_000

  /** `Config`, without the block callback (see README). */
  datatype Config = Config(Interval: Duration, MaxStoredBlocks: int, EnableTDXQuote: bool)

  /** `DefaultConfig`: a 250 ms tick, the 100 newest blocks kept, no attestation. */
  function DefaultConfig(): (c: Config)
    ensures c.Interval == 250 * Millisecond && c.MaxStoredBlocks == 100 && !c.EnableTDXQuote
    ensures c.Interval > 0 && c.MaxStoredBlocks >= 1
  {
    Config(250 * Millisecond, 100, false)
  }

  /**
    The history after the `[excess:]` trim: the newest `max` entries, or all of
    them when there are no more than `max`.
   */
  function Retain<T>(history: seq<T>, max: nat): (r: seq<T>)
    ensures |r| <= max && |r| <= |history|
    ensures |r| == max || |r| == |history|
  {
    if |history| > max then history[|history| - max..] else history
  }

  /**
    Trimming after every append keeps the same blocks as trimming the whole
    history once: the retained blocks are always the newest ones produced.
   */
  lemma RetainStep<T>(history: seq<T>, b: T, max: nat)
    ensures Retain(Retain(history, max) + [b], max) == Retain(history + [b], max)
  {
    var kept := Retain(history, max);
    if |kept| + 1 > max && |history| + 1 > max {
      assert (kept + [b])[|kept| + 1 - max..] == (history + [b])[|history| + 1 - max..];
    }
  }

  /** What is retained is the tail of the history: the oldest entries are the ones dropped. */
  lemma RetainIsSuffix<T>(history: seq<T>, max: nat)
    ensures var r := Retain(history, max);
            r == history[|history| - |r|..] && (|history| > max ==> |r| == max)
  {
  }

  /** The newest block is retained exactly when at least one block may be kept. */
  lemma RetainKeepsNewest<T>(history: seq<T>, b: T, max: nat)
    ensures var r := Retain(history + [b], max);
            (max == 0 <==> r == []) && (max > 0 ==> r[|r| - 1] == b)
  {
  }

  /** The `txIDs` slice of `processNextBlock`, filled one position at a time. */
  method CollectIds(txs: seq<Transaction>) returns (ids: seq<Bytes>)
    ensures ids == Ids(txs)
  {
    var txIDs := new Bytes[|txs|];
    for i := 0 to |txs|
      invariant forall k :: 0 <= k < i ==> txIDs[k] == txs[k].ID
    {
      txIDs[i] := txs[i].ID;
    }
    ids := txIDs[..];
  }

  /** Every block names its predecessor in the sequence. */
  ghost predicate Chained(blocks: seq<Block>)
    reads blocks
  {
    forall i :: 0 < i < |blocks| ==> blocks[i].PrevBlockID == blocks[i - 1].ID
  }

  /** A block that names the newest block extends the chain. */
  lemma ChainExtend(blocks: seq<Block>, b: Block)
    requires Chained(blocks)
    requires blocks != [] ==> b.PrevBlockID == blocks[|blocks| - 1].ID
    ensures Chained(blocks + [b])
  {
  }

  /** Eviction never breaks the chain among the blocks that remain. */
  lemma ChainedSuffix(blocks: seq<Block>, k: int)
    requires Chained(blocks) && 0 <= k <= |blocks|
    ensures Chained(blocks[k..])
  {
    forall i | 0 < i < |blocks[k..]| ensures blocks[k..][i].PrevBlockID == blocks[k..][i - 1].ID {
      assert blocks[k..][i] == blocks[k + i] && blocks[k..][i - 1] == blocks[k + i - 1];
    }
  }

  /**
    The chain facts the block processor keeps, over the values they relate:
    every block produced names the one before it, the first names no block,
    the chain pointer is the newest block's ID (empty before the first), and
    the history is the newest `max` blocks.
   */
  ghost predicate ChainConsistent(produced: seq<Block>, latest: Bytes, history: seq<Block>, max: int)
    reads produced
  {
    && max >= 0
    && Chained(produced)
    && (produced == [] ==> latest == [])
    && (produced != [] ==> produced[0].PrevBlockID == [] && latest == produced[|produced| - 1].ID)
    && history == Retain(produced, max)
  }

  /** Building on the chain pointer, then appending and trimming, keeps the chain facts. */
  lemma ChainConsistentStep(produced: seq<Block>, latest: Bytes, history: seq<Block>, max: int, b: Block)
    requires ChainConsistent(produced, latest, history, max)
    requires b.PrevBlockID == latest
    ensures ChainConsistent(produced + [b], b.ID, Retain(history + [b], max), max)
  {
    ChainExtend(produced, b);
    RetainStep(produced, b, max);
  }

  class BlockProcessor {
    const mempool: Mempool
    var latestBlockID: Bytes
    var processedBlocks: seq<Block>
    const config: Config
    /** Whether an attestation provider was obtained at construction. */
    const hasTdxProvider: bool
    /** Every block this processor has produced, oldest first, retained or not. */
    ghost var produced: seq<Block>

    /**
      The mempool keeps its own invariant, and the chain is consistent.
     */
    ghost predicate Valid()
      reads this, mempool, produced
    {
      mempool.Valid() && ChainValid()
    }

    /**
      The chain pointer is the ID of the newest block ever produced (empty
      before the first), every block names the one produced before it, and the
      history holds the newest `MaxStoredBlocks` of them.
     */
    ghost predicate ChainValid()
      reads this, produced
    {
      && (hasTdxProvider <==> config.EnableTDXQuote)
      && ChainConsistent(produced, latestBlockID, processedBlocks, config.MaxStoredBlocks)
    }

    /**
      `New`: a nil configuration means the defaults. When attestation is
      enabled, `providerAvailable` says whether `attest.NewTDXProvider`
      succeeded; if it did not, attestation is switched off and the processor
      is still built. A negative `MaxStoredBlocks` would make Go's `[excess:]`
      slice panic on the first block, so it is excluded.
     */
    constructor New(mp: Mempool, cfg: Option<Config>, providerAvailable: bool)
      requires mp.Valid()
      requires cfg.Some? ==> cfg.value.MaxStoredBlocks >= 0
      ensures Valid()
      ensures mempool == mp && latestBlockID == [] && processedBlocks == [] && produced == []
      ensures var c := if cfg.None? then DefaultConfig() else cfg.value;
              config == c.(EnableTDXQuote := c.EnableTDXQuote && providerAvailable)
      ensures hasTdxProvider == config.EnableTDXQuote
    {
      var c := if cfg.None? then DefaultConfig() else cfg.value;
      var provider := false;
      if c.EnableTDXQuote {
        if providerAvailable {
          provider := true;
        } else {
          c := c.(EnableTDXQuote := false);
        }
      }
      mempool := mp;
      latestBlockID := [];
      processedBlocks := [];
      config := c;
      hasTdxProvider := provider;
      produced := [];
    }

    /**
      `generateTDXQuoteForBlock`: `quote` is what the provider answered for the
      block ID — the quote bytes, or `None` for an error, after which the block
      keeps no quote.
     */
    method GenerateTDXQuoteForBlock(block: Block, quote: Option<Bytes>)
      modifies block`TDXQuote
      ensures block.TDXQuote == if quote.Some? then quote.value else old(block.TDXQuote)
    {
      if quote.None? {
        return;
      }
      block.TDXQuote := quote.value;
    }

    /**
      `processNextBlock`. `now` is the text of the block's `time.Now()`,
      `quote` the attestation provider's answer if it is asked. The ghost
      result is the block produced, or null when the mempool was empty. Only
      the pending map of the mempool may change: its hooks and the hook runs
      already started stay as they were.
     */
    method ProcessNextBlock(now: Time, sha256: Hasher, quote: Option<Bytes>) returns (ghost batch: Block?)
      requires Valid()
      modifies this, mempool`transactions
      ensures Valid()
      ensures batch == null ==>
                && latestBlockID == old(latestBlockID)
                && processedBlocks == old(processedBlocks)
                && produced == old(produced)
                && mempool.transactions == old(mempool.transactions)
      ensures batch == null <==> old(mempool.transactions) == map[]
      ensures batch != null ==> fresh(batch)
      ensures batch != null ==> IsSnapshot(batch.Transactions, old(mempool.transactions))
      ensures batch != null ==> SortedByPriority(batch.Transactions)
      ensures batch != null ==> batch.PrevBlockID == old(latestBlockID)
      ensures batch != null ==> batch.Timestamp == now
      ensures batch != null ==> batch.ID == BlockID(sha256, batch.Transactions, now, old(latestBlockID))
      ensures batch != null ==> batch.TDXQuote == (if hasTdxProvider && quote.Some? then quote.value else [])
      ensures batch != null ==> latestBlockID == batch.ID
      ensures batch != null ==> produced == old(produced) + [batch]
      ensures batch != null ==> processedBlocks == Retain(old(processedBlocks) + [batch], config.MaxStoredBlocks)
      ensures batch != null ==> mempool.transactions == old(mempool.transactions) - IdSet(batch.Transactions)
      ensures batch != null ==> mempool.transactions == map[]
    {
      var transactions := mempool.GetAllTransactions();
      if |transactions| == 0 {
        assert mempool.transactions.Keys == {};
        return null;
      }

      var sorted := SortedCopy(transactions);
      SnapshotPermutation(transactions, sorted, mempool.transactions);
      var block := ExtendChain(sorted, now, sha256, quote);
      DropBatch(sorted);
      batch := block;
    }

    /** The middle of a cycle: build the block, attach the quote, and put the block at the head of the chain. */
    method ExtendChain(sorted: seq<Transaction>, now: Time, sha256: Hasher, quote: Option<Bytes>) returns (block: Block)
      requires ChainValid()
      modifies this`latestBlockID, this`processedBlocks, this`produced
      ensures ChainValid()
      ensures fresh(block)
      ensures block.Transactions == sorted && block.PrevBlockID == old(latestBlockID) && block.Timestamp == now
      ensures block.ID == BlockID(sha256, sorted, now, old(latestBlockID))
      ensures block.TDXQuote == (if hasTdxProvider && quote.Some? then quote.value else [])
      ensures latestBlockID == block.ID
      ensures produced == old(produced) + [block]
      ensures processedBlocks == Retain(old(processedBlocks) + [block], config.MaxStoredBlocks)
    {
      block := BuildBlock(sorted, now, sha256, quote);
      Commit(block);
    }

    /**
      Build the block and attach the quote: a new block of the sorted batch on
      top of the chain pointer, with a quote attached when attestation is on.
     */
    method BuildBlock(sorted: seq<Transaction>, now: Time, sha256: Hasher, quote: Option<Bytes>) returns (block: Block)
      ensures fresh(block)
      ensures block.Transactions == sorted && block.PrevBlockID == latestBlockID && block.Timestamp == now
      ensures block.ID == BlockID(sha256, sorted, now, latestBlockID)
      ensures block.TDXQuote == (if config.EnableTDXQuote && hasTdxProvider && quote.Some? then quote.value else [])
    {
      block := new Block.NewBlock(sorted, latestBlockID, now, sha256);
      if config.EnableTDXQuote && hasTdxProvider {
        GenerateTDXQuoteForBlock(block, quote);
      }
    }

    /**
      Advance the pointer and trim the history: the block becomes the chain
      pointer and joins the bounded history.
     */
    method Commit(block: Block)
      requires ChainValid()
      requires block.PrevBlockID == latestBlockID
      modifies this`latestBlockID, this`processedBlocks, this`produced
      ensures ChainValid()
      ensures latestBlockID == block.ID
      ensures produced == old(produced) + [block]
      ensures processedBlocks == Retain(old(processedBlocks) + [block], config.MaxStoredBlocks)
    {
      ChainConsistentStep(produced, latestBlockID, processedBlocks, config.MaxStoredBlocks, block);
      latestBlockID := block.ID;
      AppendToHistory(block);
      produced := produced + [block];
    }

    /** The end of a cycle: collect the batch's IDs and remove those transactions from the mempool. */
    method DropBatch(sorted: seq<Transaction>)
      requires Valid()
      requires IsSnapshot(sorted, mempool.transactions)
      modifies mempool`transactions
      ensures Valid()
      ensures mempool.transactions == old(mempool.transactions) - IdSet(sorted)
      ensures mempool.transactions == map[]
    {
      var txIDs := CollectIds(sorted);
      ListedIds(sorted);
      mempool.RemoveTransactions(txIDs);
      assert mempool.transactions.Keys == {};
    }

    /** Record the block: append it, then trim the oldest blocks beyond `MaxStoredBlocks`. */
    method AppendToHistory(block: Block)
      requires config.MaxStoredBlocks >= 0
      modifies this`processedBlocks
      ensures processedBlocks == Retain(old(processedBlocks) + [block], config.MaxStoredBlocks)
    {
      processedBlocks := processedBlocks + [block];
      if |processedBlocks| > config.MaxStoredBlocks {
        var excess := |processedBlocks| - config.MaxStoredBlocks;
        processedBlocks := processedBlocks[excess..];
      }
    }

    /** `GetProcessedBlocks`: the retained history, oldest first, each block naming its predecessor. */
    method GetProcessedBlocks() returns (blocks: seq<Block>)
      requires Valid()
      ensures blocks == processedBlocks
      ensures |blocks| <= config.MaxStoredBlocks
      ensures Chained(blocks)
      ensures blocks != [] ==> blocks[|blocks| - 1].ID == latestBlockID
    {
      ChainedSuffix(produced, |produced| - |processedBlocks|);
      blocks := processedBlocks;
    }
  }
}
