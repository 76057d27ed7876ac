/**
 * The textbook Fibonacci sequence, F(0) = 0, F(1) = 1, used as an
 * independent reference for the demo programs, whose own convention is
 * shifted by one place (their F(0) = F(1) = 1).
 */
module Reference {

  function Fib(n: nat): nat {
    if n == 0 then 0
    else if n == 1 then 1
    else Fib(n - 1) + Fib(n - 2)
  }
}
