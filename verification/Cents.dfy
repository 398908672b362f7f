/** Money on the cent grid: the two-decimal columns of the schema and their rounding. */
module Cents {

  type Cents = int

  /** What a two-decimal column stores when it is given `x` cents: the nearest cent, halves away from zero. */
  function ToCents(x: real): (c: Cents)
    ensures -0.5 <= x - c as real <= 0.5
    ensures x == x.Floor as real ==> c == x.Floor
  {
    if x >= 0.0 then (x + 0.5).Floor else -((0.5 - x).Floor)
  }

  /** An amount already on the grid is stored unchanged. */
  lemma ToCentsOnGrid(n: int)
    ensures ToCents(n as real) == n
  {
  }

  /** Rounding never leaves an interval whose ends are on the grid. */
  lemma ToCentsWithin(x: real, lo: Cents, hi: Cents)
    requires lo as real <= x <= hi as real
    ensures lo <= ToCents(x) <= hi
  {
  }

  /** A tie goes to the larger magnitude, on both sides of zero. */
  lemma TiesGoAwayFromZero(n: nat)
    ensures ToCents(n as real + 0.5) == n + 1
    ensures ToCents(-(n as real + 0.5)) == -(n + 1)
  {
  }
}
