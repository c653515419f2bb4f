/**
  The block entity (internal/model/block.go): an ordered batch of transactions
  whose ID hashes the member transaction IDs, the creation time and the ID of
  the block before it.
 */
module Blocks {
  import opened Wrappers
  import opened Bytes
  import opened Transactions

  /**
    The transaction IDs laid end to end in block order, as `generateID`
    accumulates them: as long as the IDs' lengths added up.
   */
  function ConcatIds(txs: seq<Transaction>): (r: Bytes)
    ensures |r| == SumIdLengths(txs)
  {
    if txs == [] then []
    else
      var init := txs[..|txs| - 1];
      SumIdLengthsAppend(init, txs[|txs| - 1]);
      assert init + [txs[|txs| - 1]] == txs;
      ConcatIds(init) + txs[|txs| - 1].ID
  }

  /** The total length of the transaction IDs. */
  function SumIdLengths(txs: seq<Transaction>): nat {
    if txs == [] then 0 else |txs[0].ID| + SumIdLengths(txs[1..])
  }

  /**
    The bytes `generateID` hashes: every transaction ID, then the time text,
    then the previous block ID, exactly as long as those three parts together.
   */
  function HashInput(txs: seq<Transaction>, timestamp: Time, prevBlockID: Bytes): (r: Bytes)
    ensures |r| == SumIdLengths(txs) + |timestamp| + |prevBlockID|
  {
    ConcatIds(txs) + timestamp + prevBlockID
  }

  /** The identifier `generateID` assigns: the hex digest of the hash input. */
  function BlockID(sha256: Hasher, txs: seq<Transaction>, timestamp: Time, prevBlockID: Bytes): (id: Bytes)
    ensures IsHexId(id)
    ensures HexDecode(id) == Some(sha256(HashInput(txs, timestamp, prevBlockID)))
  {
    HashId(sha256, HashInput(txs, timestamp, prevBlockID))
  }

  lemma {:induction false} SumIdLengthsAppend(txs: seq<Transaction>, tx: Transaction)
    ensures SumIdLengths(txs + [tx]) == SumIdLengths(txs) + |tx.ID|
  {
    if txs != [] {
      assert (txs + [tx])[1..] == txs[1..] + [tx];
      SumIdLengthsAppend(txs[1..], tx);
    }
  }

  /** The ID concatenation sees the transactions only through their IDs, in order. */
  lemma {:induction false} ConcatIdsOnlyIds(a: seq<Transaction>, b: seq<Transaction>)
    requires Ids(a) == Ids(b)
    ensures ConcatIds(a) == ConcatIds(b)
  {
    if a != [] {
      var n := |a| - 1;
      assert Ids(a[..n]) == Ids(b[..n]) by {
        assert forall i :: 0 <= i < n ==> Ids(a)[i] == Ids(b)[i];
      }
      ConcatIdsOnlyIds(a[..n], b[..n]);
      assert Ids(a)[n] == Ids(b)[n];
    }
  }

  /**
    The block ID is determined by the ordered transaction IDs, the time text
    and the previous block ID: equal inputs give equal IDs, whatever else the
    transactions carry.
   */
  lemma BlockIdDependsOnlyOnIds(sha256: Hasher, a: seq<Transaction>, b: seq<Transaction>, timestamp: Time, prevBlockID: Bytes)
    requires Ids(a) == Ids(b)
    ensures BlockID(sha256, a, timestamp, prevBlockID) == BlockID(sha256, b, timestamp, prevBlockID)
  {
    ConcatIdsOnlyIds(a, b);
  }

  /**
    When every ID has the 64-character form, the hash input carries the i-th
    transaction's ID at offset 64 * i: the layout is the IDs side by side, in
    block order.
   */
  lemma {:induction false} IdAtOffset(txs: seq<Transaction>, i: int)
    requires forall k :: 0 <= k < |txs| ==> IsHexId(txs[k].ID)
    requires 0 <= i < |txs|
    ensures |ConcatIds(txs)| == 64 * |txs|
    ensures ConcatIds(txs)[64 * i .. 64 * i + 64] == txs[i].ID
  {
    var n := |txs| - 1;
    var init := txs[..n];
    if i < n {
      IdAtOffset(init, i);
    } else if n > 0 {
      IdAtOffset(init, 0);
    }
    assert ConcatIds(txs) == ConcatIds(init) + txs[n].ID;
  }

  /**
    A block. Its transactions, time and predecessor never change after
    construction; `ID` is written once by `GenerateID` during construction and
    `TDXQuote` at most once by the block processor.
   */
  class Block {
    var ID: Bytes
    const Transactions: seq<Transaction>
    const Timestamp: Time
    const PrevBlockID: Bytes
    var TDXQuote: Bytes

    /** `NewBlock`: `now` is the text of the `time.Now()` reading taken for the block. */
    constructor NewBlock(transactions: seq<Transaction>, prevBlockID: Bytes, now: Time, sha256: Hasher)
      ensures Transactions == transactions && PrevBlockID == prevBlockID && Timestamp == now
      ensures TDXQuote == []
      ensures ID == BlockID(sha256, transactions, now, prevBlockID)
    {
      Transactions := transactions;
      Timestamp := now;
      PrevBlockID := prevBlockID;
      ID := [];
      TDXQuote := [];
      new;
      GenerateID(sha256);
    }

    /** `generateID`: accumulate the hash input, then store its hex digest as the ID. */
    method GenerateID(sha256: Hasher)
      modifies this`ID
      ensures ID == BlockID(sha256, Transactions, Timestamp, PrevBlockID)
    {
      var data: Bytes := [];
      for i := 0 to |Transactions|
        invariant data == ConcatIds(Transactions[..i])
      {
        assert Transactions[..i + 1][..i] == Transactions[..i];
        data := data + Transactions[i].ID;
      }
      assert Transactions[..|Transactions|] == Transactions;
      data := data + Timestamp;
      data := data + PrevBlockID;
      ID := HashId(sha256, data);
    }
  }
}
