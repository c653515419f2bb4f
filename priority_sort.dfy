/**
  The in-place priority sort that both the mempool (`GetSortedTransactions`)
  and the block processor (`processNextBlock`) run with
  `sort.Slice(txs, func(i, j int) bool { return txs[i].Priority > txs[j].Priority })`.
  `sort.Slice` is not stable, so all that is promised is a permutation in
  non-increasing priority; selection sort, itself unstable, stands in for it.
 */
module PrioritySort {
  import opened Transactions

  /** Highest priority first: no element is followed by one of higher priority. */
  ghost predicate SortedByPriority(s: seq<Transaction>) {
    forall i, j :: 0 <= i < j < |s| ==> s[i].Priority >= s[j].Priority
  }

  /** Checking adjacent pairs is enough for the whole order. */
  lemma {:induction false} AdjacentPairsSorted(s: seq<Transaction>)
    requires forall i :: 0 <= i < |s| - 1 ==> s[i].Priority >= s[i + 1].Priority
    ensures SortedByPriority(s)
  {
    if |s| > 1 {
      var t := s[1..];
      assert forall i :: 0 <= i < |t| - 1 ==> t[i].Priority >= t[i + 1].Priority by {
        assert forall i :: 0 <= i < |t| ==> t[i] == s[i + 1];
      }
      AdjacentPairsSorted(t);
      forall i, j | 0 <= i < j < |s| ensures s[i].Priority >= s[j].Priority {
        assert s[j] == t[j - 1];
        if i == 0 {
          assert s[1] == t[0];
        } else {
          assert s[i] == t[i - 1];
        }
      }
    }
  }

  /**
    Equal priorities may come out in either order: both arrangements of two
    transactions with the same priority are sorted.
   */
  lemma TieOrderUnspecified(x: Transaction, y: Transaction)
    requires x.Priority == y.Priority
    ensures SortedByPriority([x, y]) && SortedByPriority([y, x])
  {
  }

  /** The first `i` elements are in non-increasing priority order. */
  ghost predicate SortedBelow(s: seq<Transaction>, i: int) {
    forall p, q :: 0 <= p < q < i && q < |s| ==> s[p].Priority >= s[q].Priority
  }

  /** No element before position `i` has lower priority than one from `i` on. */
  ghost predicate SplitAt(s: seq<Transaction>, i: int) {
    forall p, q :: 0 <= p < i <= q < |s| ==> s[p].Priority >= s[q].Priority
  }

  /**
    One selection step: swapping a highest-priority element of `s[i..]` into
    position `i` extends the sorted prefix by one and keeps the elements.
   */
  lemma SelectStep(s: seq<Transaction>, i: int, k: int)
    requires 0 <= i <= k < |s|
    requires SortedBelow(s, i) && SplitAt(s, i)
    requires forall j :: i <= j < |s| ==> s[j].Priority <= s[k].Priority
    ensures var t := s[i := s[k]][k := s[i]];
            SortedBelow(t, i + 1) && SplitAt(t, i + 1) && multiset(t) == multiset(s)
  {
    var t := s[i := s[k]][k := s[i]];
    assert forall j :: 0 <= j < |s| && j != i && j != k ==> t[j] == s[j];
    assert t[i] == s[k] && t[k] == s[i];
  }

  /** The position of a highest-priority element of `a[lo..]`. */
  method IndexOfMaxPriority(a: array<Transaction>, lo: int) returns (k: int)
    requires 0 <= lo < a.Length
    ensures lo <= k < a.Length
    ensures forall j :: lo <= j < a.Length ==> a[j].Priority <= a[k].Priority
  {
    k := lo;
    for j := lo + 1 to a.Length
      invariant lo <= k < j
      invariant forall m :: lo <= m < j ==> a[m].Priority <= a[k].Priority
    {
      if a[j].Priority > a[k].Priority {
        k := j;
      }
    }
  }

  /** Sort `a` in place, highest priority first. */
  method SortByPriority(a: array<Transaction>)
    modifies a
    ensures SortedByPriority(a[..])
    ensures multiset(a[..]) == multiset(old(a[..]))
  {
    for i := 0 to a.Length
      invariant SortedBelow(a[..], i) && SplitAt(a[..], i)
      invariant multiset(a[..]) == multiset(old(a[..]))
    {
      var k := IndexOfMaxPriority(a, i);
      ghost var s := a[..];
      SelectStep(s, i, k);
      a[i], a[k] := a[k], a[i];
      assert a[..] == s[i := s[k]][k := s[i]];
    }
  }

  /** Sort a slice's contents: copy them into an array, sort it, read it back. */
  method SortedCopy(txs: seq<Transaction>) returns (sorted: seq<Transaction>)
    ensures SortedByPriority(sorted)
    ensures multiset(sorted) == multiset(txs)
  {
    var a := new Transaction[|txs|](i requires 0 <= i < |txs| => txs[i]);
    assert a[..] == txs;
    SortByPriority(a);
    sorted := a[..];
  }
}
