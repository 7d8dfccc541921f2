/** The iterative Fibonacci number (fibonacci/fib.py, calculate_fib_iterative). */
module Fibonacci {

  /** The Fibonacci sequence by its recursive definition. */
  function Fib(n: nat): nat {
    if n < 2 then n else Fib(n - 1) + Fib(n - 2)
  }

  /** What `calculate_fib_iterative` does: return a number, or raise
      ValueError for a negative index. */
  datatype Outcome = Ok(value: nat) | ValueError

  /** fibonacci/fib.py:2-20 */
  method CalculateFibIterative(n: int) returns (r: Outcome)
    ensures n < 0 <==> r == ValueError
    ensures n >= 0 ==> r == Ok(Fib(n))
  {
    if n < 0 {
      return ValueError;
    }
    var currentFib: nat;
    if n < 2 {
      currentFib := n;
    } else {
      currentFib := 1;
      var previousFib: nat := 0;
      for i := 2 to n + 1
        invariant currentFib == Fib(i - 1) && previousFib == Fib(i - 2)
      {
        var tmp := currentFib;
        currentFib := currentFib + previousFib;
        previousFib := tmp;
      }
    }
    return Ok(currentFib);
  }
}
