/**
 * The three Fibonacci strategies of memoization_demo.c, a near-duplicate
 * of dynamic_demo.c with its own names and its own global `lookup`
 * table: naive recursion, tabulation into a freshly allocated buffer,
 * and memoization through the table.
 *
 * Same convention, F(0) = F(1) = 1; `size_t` and `long long` are
 * modelled as unbounded `nat` and `int`.
 */
module MemoizationDemo {
  import DynamicDemo

  /** Marks a `lookup` slot that holds no value yet. */
  const NIL: int := -1
  /** Number of slots of the global `lookup` table. */
  const MAX: nat := 1000000
  /** The index the driver computes. */
  const FIB_IDX: nat := 10

  // ---------------------------------------------------------------------
  // Naive recursion: the reference definition of this program.
  // ---------------------------------------------------------------------

  /** Naive exponential recursion; every value is at least 1. */
  function NaiveFib(n: nat): (r: nat)
    ensures r >= 1
  {
    if n == 0 || n == 1 then 1
    else NaiveFib(n - 1) + NaiveFib(n - 2)
  }

  /** Both programs compute the same sequence. */
  lemma {:induction false} NaiveFibIsRecursiveFib(n: nat)
    ensures NaiveFib(n) == DynamicDemo.RecursiveFib(n)
  {
    if n >= 2 {
      NaiveFibIsRecursiveFib(n - 1);
      NaiveFibIsRecursiveFib(n - 2);
    }
  }

  // ---------------------------------------------------------------------
  // Tabulation.
  // ---------------------------------------------------------------------

  /**
   * The buffer indices that `arr_fib`, as written, stores to, in order:
   * the seeds 0 and 1, then 2 through n in the loop.
   */
  function ArrFibStores(n: nat): seq<nat> {
    [0, 1] + seq(if n >= 2 then n - 1 else 0, k => k + 2)
  }

  /**
   * The unguarded stores all fit the n + 1 allocated slots exactly when
   * n >= 1; at n = 0 the store to index 1 is past the end.
   */
  lemma ArrFibStoresInBounds(n: nat)
    ensures (forall k :: 0 <= k < |ArrFibStores(n)| ==> ArrFibStores(n)[k] < n + 1)
        <==> n >= 1
  {
    var s := ArrFibStores(n);
    if n == 0 {
      assert s[1] == 1;
    } else {
      forall k | 0 <= k < |s| ensures s[k] < n + 1 {
        if k >= 2 {
          assert s[k] == k;
        }
      }
    }
  }

  /**
   * `arr_fib` exactly as written: safe only for n >= 1, where it agrees
   * with the naive recursion. `stores` records the buffer indices
   * written, in order.
   */
  method ArrFibAsWritten(n: nat) returns (ans: nat, ghost stores: seq<nat>)
    requires n >= 1
    ensures ans == NaiveFib(n)
    ensures stores == ArrFibStores(n)
  {
    var arr := new nat[n + 1];
    arr[0] := 1;
    arr[1] := 1;
    stores := [0, 1];
    for i := 2 to n + 1
      invariant forall j {:trigger arr[j]} :: 0 <= j < i ==> arr[j] == NaiveFib(j)
      invariant stores == [0, 1] + seq(i - 2, k => k + 2)
    {
      assert arr[i - 1] + arr[i - 2] == NaiveFib(i);
      arr[i] := arr[i - 1] + arr[i - 2];
      stores := stores + [i];
    }
    ans := arr[n];
  }

  /**
   * `arr_fib` with the second seed store guarded, so that n = 0 stays
   * inside its one-slot buffer; it agrees with the naive recursion for
   * every n.
   */
  method ArrFib(n: nat) returns (ans: nat)
    ensures ans == NaiveFib(n)
  {
    var arr := new nat[n + 1];
    arr[0] := 1;
    if n >= 1 {
      arr[1] := 1;
      for i := 2 to n + 1
        invariant forall j {:trigger arr[j]} :: 0 <= j < i ==> arr[j] == NaiveFib(j)
      {
        assert arr[i - 1] + arr[i - 2] == NaiveFib(i);
        arr[i] := arr[i - 1] + arr[i - 2];
      }
    }
    ans := arr[n];
  }

  // ---------------------------------------------------------------------
  // Memoization through the global `lookup` table.
  // ---------------------------------------------------------------------

  /** Every slot is either unset or holds the value of its own index. */
  predicate CacheInvariant(cache: seq<int>) {
    forall i :: 0 <= i < |cache| ==> cache[i] == NIL || cache[i] == NaiveFib(i)
  }

  /**
   * The zero-filled table the program starts with breaks the invariant
   * (slot 0 holds 0), so `memo_fib` is only correct after `initialize`.
   */
  lemma ZeroFilledCacheBreaksInvariant(cache: seq<int>)
    requires |cache| > 0
    requires forall i :: 0 <= i < |cache| ==> cache[i] == 0
    ensures !CacheInvariant(cache)
  {
    assert cache[0] != NIL && cache[0] != NaiveFib(0);
  }

  /** Resets every slot of the table to NIL. */
  method Initialize(lookup: array<int>)
    modifies lookup
    ensures forall i :: 0 <= i < lookup.Length ==> lookup[i] == NIL
    ensures CacheInvariant(lookup[..])
  {
    for i := 0 to lookup.Length
      invariant forall j :: 0 <= j < i ==> lookup[j] == NIL
    {
      lookup[i] := NIL;
    }
  }

  /**
   * Top-down memoization. On a consistent table it returns the naive
   * value, keeps the table consistent, stores only into slots 2..n,
   * leaves the result in slot n when n >= 2, never overwrites a filled
   * slot, and stores nothing when slot n was already filled.
   */
  method MemoFib(lookup: array<int>, n: nat) returns (r: int)
    requires n < lookup.Length
    requires CacheInvariant(lookup[..])
    modifies lookup
    ensures r == NaiveFib(n)
    ensures CacheInvariant(lookup[..])
    ensures forall i :: 0 <= i < lookup.Length && (i < 2 || n < i) ==> lookup[i] == old(lookup[i])
    ensures n >= 2 ==> lookup[n] == r
    ensures forall i :: 0 <= i < lookup.Length && old(lookup[i]) != NIL ==> lookup[i] == old(lookup[i])
    ensures old(lookup[n]) != NIL ==> lookup[..] == old(lookup[..])
    decreases n
  {
    if lookup[n] == NIL {
      if n == 0 || n == 1 {
        return 1;
      } else {
        var a := MemoFib(lookup, n - 1);
        var b := MemoFib(lookup, n - 2);
        lookup[n] := a + b;
      }
    }
    assert lookup[..][n] == lookup[n];
    return lookup[n];
  }

  // ---------------------------------------------------------------------
  // Driver.
  // ---------------------------------------------------------------------

  /**
   * The values the driver computes: naive, tabulated, then memoized
   * after resetting the zero-filled global table. All three agree, at 89.
   */
  method RunDemo() returns (naive: nat, tabulated: nat, memoized: int)
    ensures naive == tabulated == memoized == NaiveFib(FIB_IDX)
    ensures naive == 89
  {
    var lookup := new int[MAX](_ => 0);
    naive := NaiveFib(FIB_IDX);
    tabulated := ArrFib(FIB_IDX);
    Initialize(lookup);
    memoized := MemoFib(lookup, FIB_IDX);
  }
}
