/**
  The transaction entity and its two constructors (internal/model/transaction.go).
  Construction is pure: every field is computed from the arguments; the two
  readings of the wall clock and the digest function are arguments too.
 */
module Transactions {
  import opened Wrappers
  import opened Bytes

  const TwoTo63: int := 0x8000_0000_0000_0000
  const TwoTo64: int := 0x1_0000_0000_0000_0000

  type uint64 = x: int | 0 <= x < 0x1_0000_0000_0000_0000
  type int64 = x: int | -0x8000_0000_0000_0000 <= x < 0x8000_0000_0000_0000

  /** A `*big.Int`: nil, or a pointer to an arbitrary-precision integer. */
  type BigInt = Option<int>

  /** A `time.Time`, represented by the text its String() method produces. */
  type Time = Bytes

  /** Wei per gwei: the divisor that turns a gas price into a priority. */
  const GweiDivisor: int := 1_000_000_000

  datatype Transaction = Transaction(
    ID: Bytes,
    Data: Bytes,
    Priority: int64,
    Timestamp: Time,
    From: Bytes,
    To: Bytes,
    Value: BigInt,
    GasPrice: BigInt,
    GasLimit: uint64,
    Nonce: uint64,
    RawData: Bytes)

  /** The IDs of a sequence of transactions, in order (the `txIDs` slice). */
  function Ids(txs: seq<Transaction>): (ids: seq<Bytes>)
    ensures |ids| == |txs|
    ensures forall i :: 0 <= i < |txs| ==> ids[i] == txs[i].ID
  {
    seq(|txs|, i requires 0 <= i < |txs| => txs[i].ID)
  }

  /** The set of IDs occurring in a sequence of transactions. */
  ghost function IdSet(txs: seq<Transaction>): set<Bytes> {
    set tx | tx in txs :: tx.ID
  }

  /** A sequence of transactions never has more distinct IDs than elements. */
  lemma {:induction false} IdSetBound(txs: seq<Transaction>)
    ensures |IdSet(txs)| <= |txs|
  {
    if txs != [] {
      IdSetBound(txs[1..]);
      assert IdSet(txs) == IdSet(txs[1..]) + {txs[0].ID} by {
        assert forall tx :: tx in txs <==> tx == txs[0] || tx in txs[1..];
      }
    }
  }

  /** Two elements sharing an ID make the ID set strictly smaller than the sequence. */
  lemma DuplicateIdShrinks(txs: seq<Transaction>, i: int, j: int)
    requires 0 <= i < j < |txs| && txs[i].ID == txs[j].ID
    ensures |IdSet(txs)| < |txs|
  {
    var rest := txs[..j] + txs[j + 1..];
    assert IdSet(txs) == IdSet(rest) by {
      assert txs[i] in rest;
      forall tx | tx in txs ensures tx in rest || tx == txs[j] {
        var k :| 0 <= k < |txs| && txs[k] == tx;
        if k < j { assert rest[k] == tx; } else if k > j { assert rest[k - 1] == tx; }
      }
      forall tx | tx in rest ensures tx in txs {
        var k :| 0 <= k < |rest| && rest[k] == tx;
        if k < j { assert txs[k] == tx; } else { assert txs[k + 1] == tx; }
      }
    }
    IdSetBound(rest);
  }

  /**
    `big.Int.Int64()`. Go documents the result as undefined when the value does
    not fit; math/big returns the low 64 bits in two's complement, which is what
    this models.
   */
  function Int64Of(x: int): (r: int64)
    ensures (x - r) % TwoTo64 == 0
    ensures -TwoTo63 <= x < TwoTo63 ==> r == x
  {
    ToSigned64(x % TwoTo64)
  }

  /** Reinterpret 64 unsigned bits as a signed `int64`. */
  function ToSigned64(u: int): (r: int64)
    requires 0 <= u < TwoTo64
    ensures (u - r) % TwoTo64 == 0
    ensures u < TwoTo63 ==> r == u
  {
    if u < TwoTo63 then u else u - TwoTo64
  }

  /**
    The steps math/big takes: the low 64 bits of the magnitude as an `int64`,
    negated, with wrap-around, when the value is negative.
   */
  function MagnitudeInt64(x: int): int64 {
    var v: int := ToSigned64((if x < 0 then -x else x) % TwoTo64);
    if x < 0 then ToSigned64((-v) % TwoTo64) else v
  }

  lemma SameResidue(p: int, q: int, k: int)
    requires p == q + k * TwoTo64
    ensures p % TwoTo64 == q % TwoTo64
  {
  }

  /** Taking the magnitude's low bits and then the sign is two's-complement truncation. */
  lemma MagnitudeInt64IsTruncation(x: int)
    ensures MagnitudeInt64(x) == Int64Of(x)
  {
    if x < 0 {
      var a := -x;
      var u := a % TwoTo64;
      var v := ToSigned64(u);
      assert a == u + (a / TwoTo64) * TwoTo64;
      var k := (u - v) / TwoTo64;
      assert u == v + k * TwoTo64;
      SameResidue(-v, x, a / TwoTo64 + k);
    }
  }

  /**
    The priority `NewEthereumTransaction` derives from a gas price: 0 for a nil
    or zero price, otherwise the price divided by 10^9 with `big.Int.Div`
    (Euclidean division, which for this positive divisor rounds down), then
    narrowed by `Int64()`.
   */
  function EthPriority(gasPrice: BigInt): (p: int64)
    ensures gasPrice.None? || gasPrice.value == 0 ==> p == 0
    ensures gasPrice.Some? && -TwoTo63 <= gasPrice.value / GweiDivisor < TwoTo63 ==>
              p == gasPrice.value / GweiDivisor
    ensures gasPrice.Some? && 0 <= gasPrice.value < TwoTo63 * GweiDivisor ==> p >= 0
  {
    if gasPrice.Some? && gasPrice.value != 0 then Int64Of(gasPrice.value / GweiDivisor) else 0
  }

  /** Within that range, a higher gas price never gives a lower priority. */
  lemma EthPriorityMonotonic(low: int, high: int)
    requires 0 <= low <= high < TwoTo63 * GweiDivisor
    ensures EthPriority(Some(low)) <= EthPriority(Some(high))
  {
    assert 0 <= low / GweiDivisor <= high / GweiDivisor < TwoTo63;
  }

  /** Above that range the narrowing wraps: a gas price of 2^63 gwei yields the most negative priority. */
  lemma EthPriorityWrapsAboveRange()
    ensures EthPriority(Some(TwoTo63 * GweiDivisor)) == -TwoTo63
  {
    assert TwoTo63 * GweiDivisor / GweiDivisor == TwoTo63;
  }

  /**
    `NewTransaction`: the ID hashes `data ∥ hashTime`, where `hashTime` is the
    text of the first `time.Now()`; `now` is the second reading, kept as the
    timestamp. Value and gas price are non-nil zeros, the rest zero values.
   */
  function NewTransaction(data: Bytes, priority: int64, hashTime: Time, now: Time, sha256: Hasher): (tx: Transaction)
    ensures IsHexId(tx.ID) && HexDecode(tx.ID) == Some(sha256(data + hashTime))
    ensures tx.Data == data && tx.Priority == priority && tx.Timestamp == now
    ensures tx.Value == Some(0) && tx.GasPrice == Some(0)
    ensures tx.From == [] && tx.To == [] && tx.GasLimit == 0 && tx.Nonce == 0 && tx.RawData == []
  {
    Transaction(
      ID := HashId(sha256, data + hashTime),
      Data := data,
      Priority := priority,
      Timestamp := now,
      From := [],
      To := [],
      Value := Some(0),
      GasPrice := Some(0),
      GasLimit := 0,
      Nonce := 0,
      RawData := [])
  }

  /**
    `NewEthereumTransaction`: the ID hashes `data ∥ hashTime ∥ from ∥ to`, the
    priority comes from the gas price, and every other argument is copied.
   */
  function NewEthereumTransaction(
    from: Bytes, to: Bytes, value: BigInt, gasPrice: BigInt, gasLimit: uint64, nonce: uint64,
    data: Bytes, rawData: Bytes, hashTime: Time, now: Time, sha256: Hasher): (tx: Transaction)
    ensures IsHexId(tx.ID) && HexDecode(tx.ID) == Some(sha256(data + hashTime + from + to))
    ensures tx.Priority == EthPriority(gasPrice)
    ensures tx.Data == data && tx.Timestamp == now && tx.RawData == rawData
    ensures tx.From == from && tx.To == to && tx.Value == value && tx.GasPrice == gasPrice
    ensures tx.GasLimit == gasLimit && tx.Nonce == nonce
  {
    Transaction(
      ID := HashId(sha256, data + hashTime + from + to),
      Data := data,
      Priority := EthPriority(gasPrice),
      Timestamp := now,
      From := from,
      To := to,
      Value := value,
      GasPrice := gasPrice,
      GasLimit := gasLimit,
      Nonce := nonce,
      RawData := rawData)
  }

  /**
    A plain transaction is an Ethereum transaction without provenance (empty
    addresses, zero value and gas price), except that it keeps the priority it
    was given instead of the one a zero gas price yields.
   */
  lemma NativeIsEthereumWithoutProvenance(data: Bytes, priority: int64, hashTime: Time, now: Time, sha256: Hasher)
    ensures NewTransaction(data, priority, hashTime, now, sha256)
         == NewEthereumTransaction([], [], Some(0), Some(0), 0, 0, data, [], hashTime, now, sha256).(Priority := priority)
  {
    assert data + hashTime + [] + [] == data + hashTime;
  }

  /**
    Weak uniqueness: the ID sees only the payload and the hashed time text, so
    two plain transactions built from the same payload at the same clock
    reading collide whatever their priorities.
   */
  lemma SameContentSameId(data: Bytes, p1: int64, p2: int64, hashTime: Time, now1: Time, now2: Time, sha256: Hasher)
    ensures NewTransaction(data, p1, hashTime, now1, sha256).ID == NewTransaction(data, p2, hashTime, now2, sha256).ID
  {
  }

  /**
    Weak uniqueness of the Ethereum ID: the addresses are appended without a
    separator, so any two sender/recipient pairs that spell the same bytes
    when laid end to end give the same ID.
   */
  lemma AddressBoundaryCollision(from1: Bytes, to1: Bytes, from2: Bytes, to2: Bytes,
                                 value: BigInt, gasPrice: BigInt, gasLimit: uint64, nonce: uint64,
                                 data: Bytes, rawData: Bytes, hashTime: Time, now: Time, sha256: Hasher)
    requires from1 + to1 == from2 + to2
    ensures NewEthereumTransaction(from1, to1, value, gasPrice, gasLimit, nonce, data, rawData, hashTime, now, sha256).ID
         == NewEthereumTransaction(from2, to2, value, gasPrice, gasLimit, nonce, data, rawData, hashTime, now, sha256).ID
  {
    assert data + hashTime + from1 + to1 == (data + hashTime) + (from1 + to1);
    assert data + hashTime + from2 + to2 == (data + hashTime) + (from2 + to2);
  }

  /**
    The case the decoder can produce: the sender is empty when it cannot be
    recovered and the recipient is empty for a contract creation, so a
    transaction from address `a` with no recipient and one from an unknown
    sender to `a` get the same ID although their provenance differs.
   */
  lemma MissingAddressCollision(a: Bytes, value: BigInt, gasPrice: BigInt, gasLimit: uint64, nonce: uint64,
                                data: Bytes, rawData: Bytes, hashTime: Time, now: Time, sha256: Hasher)
    requires a != []
    ensures var tx1 := NewEthereumTransaction(a, [], value, gasPrice, gasLimit, nonce, data, rawData, hashTime, now, sha256);
            var tx2 := NewEthereumTransaction([], a, value, gasPrice, gasLimit, nonce, data, rawData, hashTime, now, sha256);
            tx1.From != tx2.From && tx1.ID == tx2.ID
  {
    assert a + [] == [] + a;
    AddressBoundaryCollision(a, [], [], a, value, gasPrice, gasLimit, nonce, data, rawData, hashTime, now, sha256);
  }
}
