/** Rounding to the nearest integer, ties to even, on real numbers. */
module Rounding {

  function Round(x: real): (n: int)
    ensures -0.5 <= x - n as real <= 0.5
    ensures x - n as real == 0.5 || n as real - x == 0.5 ==> n % 2 == 0
    ensures x == x.Floor as real ==> n as real == x
  {
    var low := x.Floor;
    var part := x - low as real;
    if part < 0.5 then low
    else if part > 0.5 then low + 1
    else if low % 2 == 0 then low else low + 1
  }

  lemma RoundInt(n: int)
    ensures Round(n as real) == n
  {
  }
}
