/**
  The mempool (internal/mempool/mempool.go): pending transactions keyed by ID,
  plus the list of hooks told about every successful insert. The read-write
  lock only serialises these operations, so each is modelled as one atomic
  step on the object's fields.
 */
module Mempool {
  import opened Wrappers
  import opened Bytes
  import opened Transactions
  import opened PrioritySort

  /** A registered `TransactionHook`; the model knows a hook only by its identity. */
  datatype Hook = Hook(handle: nat)

  /** One `executeHooks(tx, added)` run that an insert sets off in the background. */
  datatype Notification = Notification(tx: Transaction, added: bool)

  /**
    `txs` lists every pending transaction exactly once, in no particular order:
    what ranging over the Go map yields.
   */
  ghost predicate IsSnapshot(txs: seq<Transaction>, pending: map<Bytes, Transaction>) {
    && |txs| == |pending|
    && (forall i :: 0 <= i < |txs| ==> txs[i].ID in pending && pending[txs[i].ID] == txs[i])
    && IdSet(txs) == pending.Keys
  }

  /**
    `txs` lists, once each, the transactions filed under every ID except those
    in `remaining`: a snapshot under construction.
   */
  ghost predicate PartialSnapshot(txs: seq<Transaction>, remaining: set<Bytes>, pending: map<Bytes, Transaction>) {
    && remaining <= pending.Keys
    && |txs| + |remaining| == |pending|
    && (forall i :: 0 <= i < |txs| ==> txs[i].ID in pending && pending[txs[i].ID] == txs[i])
    && IdSet(txs) == pending.Keys - remaining
  }

  lemma StartPartialSnapshot(pending: map<Bytes, Transaction>)
    ensures PartialSnapshot([], pending.Keys, pending)
  {
    assert |pending| == |pending.Keys|;
  }

  /** Appending the transaction filed under a remaining ID takes that ID off the remaining ones. */
  lemma ExtendPartialSnapshot(txs: seq<Transaction>, id: Bytes, remaining: set<Bytes>, pending: map<Bytes, Transaction>)
    requires PartialSnapshot(txs, remaining, pending)
    requires id in remaining && pending[id].ID == id
    ensures PartialSnapshot(txs + [pending[id]], remaining - {id}, pending)
  {
    var tx := pending[id];
    assert IdSet(txs + [tx]) == IdSet(txs) + {id} by {
      assert forall t :: t in txs + [tx] <==> t in txs || t == tx;
    }
    assert pending.Keys - (remaining - {id}) == (pending.Keys - remaining) + {id};
    assert |remaining - {id}| == |remaining| - 1;
  }

  /** A partial snapshot with no IDs remaining is a snapshot. */
  lemma CompletePartialSnapshot(txs: seq<Transaction>, pending: map<Bytes, Transaction>)
    requires PartialSnapshot(txs, {}, pending)
    ensures IsSnapshot(txs, pending)
  {
  }

  /** No transaction appears twice in a snapshot. */
  lemma SnapshotIdsDistinct(txs: seq<Transaction>, pending: map<Bytes, Transaction>)
    requires IsSnapshot(txs, pending)
    ensures forall i, j :: 0 <= i < j < |txs| ==> txs[i].ID != txs[j].ID
  {
    forall i, j | 0 <= i < j < |txs| ensures txs[i].ID != txs[j].ID {
      if txs[i].ID == txs[j].ID {
        DuplicateIdShrinks(txs, i, j);
        assert false;
      }
    }
  }

  /** A snapshot holds exactly the stored transactions: nothing else, and each of them. */
  lemma SnapshotHoldsStoredValues(txs: seq<Transaction>, pending: map<Bytes, Transaction>)
    requires IsSnapshot(txs, pending)
    ensures forall tx :: tx in txs <==> tx in pending.Values
  {
    forall tx | tx in pending.Values ensures tx in txs {
      var id :| id in pending && pending[id] == tx;
      assert id in IdSet(txs);
      var t :| t in txs && t.ID == id;
      var k :| 0 <= k < |txs| && txs[k] == t;
    }
  }

  /** Any rearrangement of a snapshot is a snapshot too. */
  lemma SnapshotPermutation(a: seq<Transaction>, b: seq<Transaction>, pending: map<Bytes, Transaction>)
    requires IsSnapshot(a, pending)
    requires multiset(a) == multiset(b)
    ensures IsSnapshot(b, pending)
  {
    assert |b| == |multiset(b)| == |multiset(a)| == |a|;
    assert forall tx :: tx in a <==> tx in b by {
      assert forall tx :: tx in a <==> tx in multiset(a);
      assert forall tx :: tx in b <==> tx in multiset(b);
    }
    assert IdSet(a) == IdSet(b) by {
      forall id | id in IdSet(a) ensures id in IdSet(b) {
        var tx :| tx in a && tx.ID == id;
        assert tx in b;
      }
      forall id | id in IdSet(b) ensures id in IdSet(a) {
        var tx :| tx in b && tx.ID == id;
        assert tx in a;
      }
    }
    forall i | 0 <= i < |b| ensures b[i].ID in pending && pending[b[i].ID] == b[i] {
      assert b[i] in a;
      var k :| 0 <= k < |a| && a[k] == b[i];
    }
  }

  /** The IDs a sequence lists. */
  ghost function Listed(ids: seq<Bytes>): set<Bytes> {
    set id | id in ids
  }

  lemma ListedAppend(ids: seq<Bytes>, id: Bytes)
    ensures Listed(ids + [id]) == Listed(ids) + {id}
  {
    assert forall x :: x in ids + [id] <==> x in ids || x == id;
  }

  /** The IDs collected from a sequence of transactions are its ID set. */
  lemma ListedIds(txs: seq<Transaction>)
    ensures Listed(Ids(txs)) == IdSet(txs)
  {
    forall id | id in IdSet(txs) ensures id in Listed(Ids(txs)) {
      var tx :| tx in txs && tx.ID == id;
      var k :| 0 <= k < |txs| && txs[k] == tx;
      assert Ids(txs)[k] == id;
    }
  }

  /** Removing a set of keys shrinks a map by exactly the number of those keys it held. */
  lemma RemovedCount(m: map<Bytes, Transaction>, gone: set<Bytes>)
    ensures |m - gone| == |m| - |m.Keys * gone|
  {
    assert (m - gone).Keys == m.Keys - gone;
    assert m.Keys == (m.Keys - gone) + (m.Keys * gone);
    assert |m.Keys| == |m.Keys - gone| + |m.Keys * gone|;
  }

  class Mempool {
    var transactions: map<Bytes, Transaction>
    var hooks: seq<Hook>
    /** The hook runs started so far, in the order the inserts happened. */
    ghost var notifications: seq<Notification>

    /** Every transaction is filed under its own ID, so no ID is pending twice. */
    ghost predicate Valid()
      reads this
    {
      forall id :: id in transactions ==> transactions[id].ID == id
    }

    /** `New`: no transactions, no hooks. */
    constructor ()
      ensures Valid()
      ensures transactions == map[] && hooks == [] && notifications == []
    {
      transactions := map[];
      hooks := [];
      notifications := [];
    }

    /** `AddTransactionHook`: the hook joins the end of the list. */
    method AddTransactionHook(hook: Hook)
      modifies this`hooks
      ensures hooks == old(hooks) + [hook]
    {
      hooks := hooks + [hook];
    }

    /**
      `AddTransaction`: insert unless the ID is already pending. A successful
      insert starts the hooks with `(tx, true)`; a rejected one touches nothing.
     */
    method AddTransaction(tx: Transaction) returns (added: bool)
      requires Valid()
      modifies this`transactions, this`notifications
      ensures Valid()
      ensures added <==> tx.ID !in old(transactions)
      ensures !added ==> transactions == old(transactions) && notifications == old(notifications)
      ensures added ==> transactions == old(transactions)[tx.ID := tx]
      ensures added ==> |transactions| == |old(transactions)| + 1
      ensures added ==> notifications == old(notifications) + [Notification(tx, true)]
    {
      if tx.ID in transactions {
        return false;
      }
      transactions := transactions[tx.ID := tx];
      added := true;
      notifications := notifications + [Notification(tx, added)];
    }

    /** `GetTransaction`: the stored transaction under `id`, or nil and false. */
    method GetTransaction(id: Bytes) returns (tx: Option<Transaction>, found: bool)
      requires Valid()
      ensures found <==> id in transactions
      ensures found ==> tx == Some(transactions[id]) && tx.value.ID == id
      ensures !found ==> tx == None
    {
      found := id in transactions;
      tx := if found then Some(transactions[id]) else None;
    }

    /**
      `GetAllTransactions`: copy the pending transactions into a new sequence,
      visiting the map in an order the model leaves open.
     */
    method GetAllTransactions() returns (txs: seq<Transaction>)
      requires Valid()
      ensures IsSnapshot(txs, transactions)
    {
      txs := [];
      var remaining := transactions.Keys;
      StartPartialSnapshot(transactions);
      while remaining != {}
        invariant PartialSnapshot(txs, remaining, transactions)
        decreases remaining
      {
        var id :| id in remaining;
        ExtendPartialSnapshot(txs, id, remaining, transactions);
        txs := txs + [transactions[id]];
        remaining := remaining - {id};
      }
      CompletePartialSnapshot(txs, transactions);
    }

    /** `GetSortedTransactions`: a snapshot, sorted in place by priority, highest first. */
    method GetSortedTransactions() returns (txs: seq<Transaction>)
      requires Valid()
      ensures IsSnapshot(txs, transactions)
      ensures SortedByPriority(txs)
    {
      var all := GetAllTransactions();
      txs := SortedCopy(all);
      SnapshotPermutation(all, txs, transactions);
    }

    /**
      `RemoveTransactions`: delete every listed ID; IDs that are not pending
      are ignored, and unlisted transactions stay as they are.
     */
    method RemoveTransactions(ids: seq<Bytes>)
      requires Valid()
      modifies this`transactions
      ensures Valid()
      ensures transactions == old(transactions) - Listed(ids)
      ensures forall id :: id in ids ==> id !in transactions
      ensures forall id :: id in old(transactions) && id !in ids ==> id in transactions && transactions[id] == old(transactions)[id]
      ensures |transactions| == |old(transactions)| - |old(transactions).Keys * Listed(ids)|
    {
      for i := 0 to |ids|
        invariant Valid()
        invariant transactions == old(transactions) - Listed(ids[..i])
      {
        assert ids[..i + 1] == ids[..i] + [ids[i]];
        ListedAppend(ids[..i], ids[i]);
        transactions := transactions - {ids[i]};
      }
      assert ids[..|ids|] == ids;
      RemovedCount(old(transactions), Listed(ids));
    }

    /** `Clear`: drop every pending transaction; the hooks stay registered. */
    method Clear()
      modifies this`transactions
      ensures Valid()
      ensures transactions == map[]
    {
      transactions := map[];
    }

    /** `Size`: the number of pending transactions, which is the length of any snapshot. */
    method Size() returns (n: int)
      ensures n == |transactions|
      ensures forall txs :: IsSnapshot(txs, transactions) ==> |txs| == n
    {
      n := |transactions|;
    }
  }
}
