/**
 * The three Fibonacci strategies of dynamic_demo.c: exponential recursion,
 * bottom-up tabulation into a freshly allocated buffer, and top-down
 * memoization through the program's global `lookup` table.
 *
 * The program's convention is F(0) = F(1) = 1, F(n) = F(n-1) + F(n-2),
 * which is the textbook sequence shifted by one place.
 *
 * `size_t` and `long long` are modelled as unbounded `nat` and `int`.
 */
module DynamicDemo {
  import Reference

  /** Marks a `lookup` slot that holds no value yet. */
  const NIL: int := -1
  /** Number of slots of the global `lookup` table. */
  const MAX: nat := 1000000
  /** The index the driver computes. */
  const FIB_IDX: nat := 10

  // ---------------------------------------------------------------------
  // Recursion: the reference definition every other strategy must meet.
  // ---------------------------------------------------------------------

  /** Naive exponential recursion; every value is at least 1. */
  function RecursiveFib(n: nat): (r: nat)
    ensures r >= 1
  {
    if n == 0 || n == 1 then 1
    else RecursiveFib(n - 1) + RecursiveFib(n - 2)
  }

  /** The program's sequence is the textbook one shifted by one place. */
  lemma {:induction false} RecursiveFibIsShiftedFib(n: nat)
    ensures RecursiveFib(n) == Reference.Fib(n + 1)
  {
    if n >= 2 {
      RecursiveFibIsShiftedFib(n - 1);
      RecursiveFibIsShiftedFib(n - 2);
    }
  }

  // ---------------------------------------------------------------------
  // Tabulation.
  // ---------------------------------------------------------------------

  /**
   * The buffer indices that tabulation, as written, stores to, in order:
   * the two seeds 0 and 1, then 2 through n in the loop.
   */
  function TabulationStores(n: nat): seq<nat> {
    [0, 1] + seq(if n >= 2 then n - 1 else 0, k => k + 2)
  }

  /**
   * Every store of the unguarded code lands inside the n + 1 slots that
   * were allocated exactly when n >= 1; at n = 0 the store to index 1
   * is past the end.
   */
  lemma TabulationStoresInBounds(n: nat)
    ensures (forall k :: 0 <= k < |TabulationStores(n)| ==> TabulationStores(n)[k] < n + 1)
        <==> n >= 1
  {
    var s := TabulationStores(n);
    if n == 0 {
      assert s[1] == 1;
    } else {
      forall k | 0 <= k < |s| ensures s[k] < n + 1 {
        if k >= 2 {
          assert s[k] == k;
        }
      }
    }
  }

  /**
   * Tabulation exactly as written: both seeds are stored unconditionally,
   * so the code is only safe for n >= 1, where it agrees with the
   * recursive definition. `stores` records the buffer indices written,
   * in order.
   */
  method TabulationFibAsWritten(n: nat) returns (ans: nat, ghost stores: seq<nat>)
    requires n >= 1
    ensures ans == RecursiveFib(n)
    ensures stores == TabulationStores(n)
  {
    var arr := new nat[n + 1];
    arr[0] := 1;
    arr[1] := 1;
    stores := [0, 1];
    for i := 2 to n + 1
      invariant forall j {:trigger arr[j]} :: 0 <= j < i ==> arr[j] == RecursiveFib(j)
      invariant stores == [0, 1] + seq(i - 2, k => k + 2)
    {
      assert arr[i - 1] + arr[i - 2] == RecursiveFib(i);
      arr[i] := arr[i - 1] + arr[i - 2];
      stores := stores + [i];
    }
    ans := arr[n];
  }

  /**
   * Tabulation with the second seed store guarded, so that n = 0 stays
   * inside its one-slot buffer; it agrees with the recursive definition
   * for every n.
   */
  method TabulationFib(n: nat) returns (ans: nat)
    ensures ans == RecursiveFib(n)
  {
    var arr := new nat[n + 1];
    arr[0] := 1;
    if n >= 1 {
      arr[1] := 1;
      for i := 2 to n + 1
        invariant forall j {:trigger arr[j]} :: 0 <= j < i ==> arr[j] == RecursiveFib(j)
      {
        assert arr[i - 1] + arr[i - 2] == RecursiveFib(i);
        arr[i] := arr[i - 1] + arr[i - 2];
      }
    }
    ans := arr[n];
  }

  // ---------------------------------------------------------------------
  // Memoization through the global `lookup` table.
  // ---------------------------------------------------------------------

  /** Every slot is either unset or holds the value of its own index. */
  predicate CacheInvariant(cache: seq<int>) {
    forall i :: 0 <= i < |cache| ==> cache[i] == NIL || cache[i] == RecursiveFib(i)
  }

  /**
   * The table as the program starts (static storage is zero-filled)
   * breaks the invariant: slot 0 holds 0, which is neither NIL nor a
   * Fibonacci value. This is why the driver resets it first.
   */
  lemma ZeroFilledCacheBreaksInvariant(cache: seq<int>)
    requires |cache| > 0
    requires forall i :: 0 <= i < |cache| ==> cache[i] == 0
    ensures !CacheInvariant(cache)
  {
    assert cache[0] != NIL && cache[0] != RecursiveFib(0);
  }

  /** Resets every slot of the table to NIL. */
  method Initialize(lookup: array<int>)
    modifies lookup
    ensures forall i :: 0 <= i < lookup.Length ==> lookup[i] == NIL
    ensures CacheInvariant(lookup[..])
  {
    for i := 0 to lookup.Length
      invariant forall j :: 0 <= j < i ==> lookup[j] == NIL
    {
      lookup[i] := NIL;
    }
  }

  /**
   * Top-down memoization. On a consistent table it returns the recursive
   * value, keeps the table consistent, stores only into slots 2..n (so
   * slots 0 and 1 and every slot above n are untouched), leaves the
   * result in slot n when n >= 2, never overwrites a filled slot, and
   * writes nothing at all when slot n was already filled.
   */
  method MemoizationFib(lookup: array<int>, n: nat) returns (r: int)
    requires n < lookup.Length
    requires CacheInvariant(lookup[..])
    modifies lookup
    ensures r == RecursiveFib(n)
    ensures CacheInvariant(lookup[..])
    ensures forall i :: 0 <= i < lookup.Length && (i < 2 || n < i) ==> lookup[i] == old(lookup[i])
    ensures n >= 2 ==> lookup[n] == r
    ensures forall i :: 0 <= i < lookup.Length && old(lookup[i]) != NIL ==> lookup[i] == old(lookup[i])
    ensures old(lookup[n]) != NIL ==> lookup[..] == old(lookup[..])
    decreases n
  {
    if lookup[n] == NIL {
      if n == 0 || n == 1 {
        return 1;
      } else {
        var a := MemoizationFib(lookup, n - 1);
        var b := MemoizationFib(lookup, n - 2);
        lookup[n] := a + b;
      }
    }
    assert lookup[..][n] == lookup[n];
    return lookup[n];
  }

  /**
   * A second call on the table a first call for the same index left
   * behind: slot n is filled when n >= 2 (the first call stored its result
   * there), and for n < 2 nothing was stored. The call returns the same
   * value and leaves the table exactly as it was.
   */
  method SecondCallOnWarmCache(lookup: array<int>, n: nat) returns (second: int)
    requires n < lookup.Length
    requires CacheInvariant(lookup[..])
    requires n >= 2 ==> lookup[n] != NIL
    modifies lookup
    ensures second == RecursiveFib(n)
    ensures lookup[..] == old(lookup[..])
  {
    second := MemoizationFib(lookup, n);
  }

  // ---------------------------------------------------------------------
  // Driver.
  // ---------------------------------------------------------------------

  /**
   * The values the driver computes: the recursive and tabulated results,
   * then the memoized one after resetting the zero-filled global table.
   * All three agree, at 89.
   */
  method RunDemo() returns (recursive: nat, tabulation: nat, memoization: int)
    ensures recursive == tabulation == memoization == RecursiveFib(FIB_IDX)
    ensures recursive == 89
  {
    var lookup := new int[MAX](_ => 0);
    recursive := RecursiveFib(FIB_IDX);
    tabulation := TabulationFib(FIB_IDX);
    Initialize(lookup);
    memoization := MemoizationFib(lookup, FIB_IDX);
  }
}
