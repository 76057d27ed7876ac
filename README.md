# Fibonacci by recursion, tabulation and memoization

A model of the two demo programs `dynamic_demo.c` and `memoization_demo.c`.
Each computes the Fibonacci number at index 10 in three ways: naive
exponential recursion, bottom-up tabulation into a heap buffer, and top-down
memoization through a global `lookup` table whose unset slots hold the
sentinel `NIL = -1`. Both programs use the convention F(0) = F(1) = 1,
F(n) = F(n-1) + F(n-2).

Files:

- `reference.dfy`, module `Reference`: the textbook sequence (F(0) = 0,
  F(1) = 1), an independent definition that each program's sequence is proved
  equal to, shifted by one place.
- `dynamic_demo.dfy`, module `DynamicDemo`: `recursive_fib`,
  `tabulation_fib`, `memoization_fib`, `initialize` and the value-computing
  part of `main`.
- `memoization_demo.dfy`, module `MemoizationDemo`: `naive_fib`, `arr_fib`,
  `memo_fib`, `initialize` and the value-computing part of `main`.

The recursive function of each program is the specification. Tabulation is a
method over a fresh Dafny array, proved equal to it through a loop invariant.
The global `lookup` table is an `array<int>` passed to `Initialize` and to the
memoized method, which name it in their `modifies` clauses. The table's
invariant is "every slot is NIL or holds the recursive value of its own
index". C's zero-filled static storage is modelled in each `RunDemo` by
allocating the table filled with 0. `RunDemo` then calls `Initialize` before
the memoized run, as `main` does.

The cache keeps the code's integer sentinel -1 rather than an optional value
per slot. `RecursiveFib` and `NaiveFib` are proved to be at least 1, so no
Fibonacci value can be mistaken for NIL.

## Model

| member | source | states |
|---|---|---|
| `DynamicDemo.RecursiveFib` | dynamic_demo.c:57-63 | every value is at least 1, so no value equals NIL |
| `DynamicDemo.RecursiveFibIsShiftedFib` | dynamic_demo.c:57-63 | the program's sequence at n is the textbook Fibonacci number at n + 1 |
| `DynamicDemo.TabulationStoresInBounds` | dynamic_demo.c:43-50 | every store the unguarded code makes fits the n + 1 allocated slots if and only if n >= 1; at n = 0 the store to index 1 is out of bounds |
| `DynamicDemo.TabulationFibAsWritten` | dynamic_demo.c:41-54 | the unguarded code, for n >= 1, returns `recursive_fib(n)`; its loop keeps `arr[j] == recursive_fib(j)` for every j below i; the indices it stores to are exactly `TabulationStores(n)` |
| `DynamicDemo.TabulationFib` | dynamic_demo.c:41-54 | with the second seed store guarded, tabulation returns `recursive_fib(n)` for every n, including 0 |
| `DynamicDemo.ZeroFilledCacheBreaksInvariant` | dynamic_demo.c:18 | the zero-filled table the program starts with does not satisfy the cache invariant, so the memoized run needs `initialize` first |
| `DynamicDemo.Initialize` | dynamic_demo.c:78-83 | afterwards every slot is NIL, so the cache invariant holds |
| `DynamicDemo.MemoizationFib` | dynamic_demo.c:66-76 | on a consistent table with n inside it: returns `recursive_fib(n)` and keeps the invariant; stores only into slots 2..n, so slots 0 and 1 and every slot above n are unchanged; a filled slot is never overwritten; for n >= 2 slot n holds the result; if slot n was already set, nothing is stored |
| `DynamicDemo.SecondCallOnWarmCache` | dynamic_demo.c:69-75 | on the table a first call left behind (slot n filled when n >= 2), a second call returns the same `recursive_fib(n)` and leaves the table exactly as it was |
| `DynamicDemo.RunDemo` | dynamic_demo.c:92-99 | recursion, tabulation, and memoization after `initialize` on the zero-filled table all give 89 at index 10 |
| `MemoizationDemo.NaiveFib` | memoization_demo.c:45-51 | every value is at least 1, so no value equals NIL |
| `MemoizationDemo.NaiveFibIsRecursiveFib` | memoization_demo.c:45-51 | `naive_fib` and `recursive_fib` of the other program agree at every index |
| `MemoizationDemo.ArrFibStoresInBounds` | memoization_demo.c:32-38 | every store the unguarded code makes fits the n + 1 allocated slots if and only if n >= 1 |
| `MemoizationDemo.ArrFibAsWritten` | memoization_demo.c:30-43 | the unguarded code, for n >= 1, returns `naive_fib(n)`; its loop keeps `arr[j] == naive_fib(j)` for every j below i; the indices it stores to are exactly `ArrFibStores(n)` |
| `MemoizationDemo.ArrFib` | memoization_demo.c:30-43 | with the second seed store guarded, `arr_fib` returns `naive_fib(n)` for every n |
| `MemoizationDemo.ZeroFilledCacheBreaksInvariant` | memoization_demo.c:18 | the zero-filled starting table breaks the cache invariant |
| `MemoizationDemo.Initialize` | memoization_demo.c:65-70 | afterwards every slot is NIL, so the cache invariant holds |
| `MemoizationDemo.MemoFib` | memoization_demo.c:53-63 | on a consistent table with n inside it: returns `naive_fib(n)` and keeps the invariant; never stores into slots 0, 1 or above n; a filled slot is never overwritten; for n >= 2 slot n holds the result; a set slot n means nothing is stored |
| `MemoizationDemo.RunDemo` | memoization_demo.c:78-85 | naive, tabulated, and memoized after `initialize`, all give 89 at index 10 |

## Findings

| source | as written | input that shows it | evidently intended | confidence | as-written member | corrected member |
|---|---|---|---|---|---|---|
| dynamic_demo.c:43-46 | allocates n + 1 slots, then stores `arr[1] = 1` unconditionally | n = 0: one slot, store to index 1 | store the second seed only when n >= 1, and return 1 at n = 0 | high; not executed | `DynamicDemo.TabulationFibAsWritten` (needs n >= 1), with `DynamicDemo.TabulationStoresInBounds` | `DynamicDemo.TabulationFib` |
| memoization_demo.c:32-35 | same unconditional store of `arr[1]` into an (n + 1)-slot buffer | n = 0: one slot, store to index 1 | store the second seed only when n >= 1 | high; not executed | `MemoizationDemo.ArrFibAsWritten` (needs n >= 1), with `MemoizationDemo.ArrFibStoresInBounds` | `MemoizationDemo.ArrFib` |

## Left out

- Timing (`get_fibonacci_time`): it reads the processor time the program has used through `clock()`, prints, and dispatches through a function pointer. There is nothing to prove about it. `RunDemo` keeps only the values computed.
- `calculate_percentage_difference` in dynamic_demo.c is left out. It is floating-point arithmetic truncated to `int`.
- The `printf` reports, the "faster"/"slower" labels, and the unused `srand` seeding are left out. They are console output only.
- `calloc`/`free` and allocation failure are left out. The buffer is a fresh Dafny array, and the heap manages its lifetime.
- Fixed-width integers are not modelled. Values are unbounded `nat`/`int`, so the wrap-around of `size_t` and `long long` past roughly index 90 is not captured.
- `MAX` is used only in `RunDemo`. Elsewhere the table's length is the array's own length.
- `MemoizationFib`: requires `n < lookup.Length`. The C code does no bounds check, and an index at or past `MAX` is undefined behaviour there.
- `MemoizationFib`: requires the cache invariant. The code's behaviour on a table that was never reset (it returns the stale 0) is not modelled. `ZeroFilledCacheBreaksInvariant` states why the reset is needed.
- `MemoFib`: has the same two requirements as `MemoizationFib`, for the same reasons.
- C leaves the evaluation order of the two recursive calls in `memoization_fib(n - 1) + memoization_fib(n - 2)` unspecified. The model evaluates n - 1 first. The proved result and invariant do not depend on the order.
