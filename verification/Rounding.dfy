/**
 * Exact rounding of a Decimal to a display grid, ties to the even neighbour.
 *
 * A grid has `places` decimal places, none at the least. Numbers to be rounded are measured in steps of the
 * grid: `x` becomes `x * Density(places)`.
 */
module Rounding {
  import opened Text
  import opened Numbers

  function RealAbs(x: real): (r: real) {
    if x < 0.0 then -x else x
  }

  /** The nearest whole number, the even one when two are equally near. */
  function HalfEven(x: real): (n: int) {
    var below := x.Floor;
    var rest := x - below as real;
    if rest < 0.5 then below
    else if rest > 0.5 then below + 1
    else if below % 2 == 0 then below
    else below + 1
  }

  /** The Decimal `10 ** -round`: a whole number, its exponent 0, unless the round is positive. */
  function Quantum(round: int): (q: Dec) {
    if round <= 0 then Dec(Pow10(-round), 0) else Dec(1, -round)
  }

  /**
   * The decimal places a config's `round` gives. Quantizing looks at the exponent of the quantum and at
   * nothing else, so a negative round is rounded like 0: to whole units, not to tens or hundreds.
   */
  function Grid(round: int): (places: nat)
    ensures places == if round < 0 then 0 else round
  {
    -Quantum(round).exp
  }

  /** So many steps of the grid, as a Decimal. */
  function OnGrid(steps: int, places: nat): (d: Dec) {
    Dec(steps, -(places as int))
  }

  /** How many grid steps make one: ten to the `places`. */
  function Density(places: nat): (g: real)
    ensures g >= 1.0
  {
    Pow10(places) as real
  }

  /** `x` measured in grid steps. */
  function Steps(x: real, places: nat): (s: real) {
    x * Density(places)
  }

  lemma HalfEvenNear(x: real)
    ensures -0.5 <= HalfEven(x) as real - x <= 0.5
    ensures HalfEven(x) as real - x == 0.5 || x - HalfEven(x) as real == 0.5 ==> HalfEven(x) % 2 == 0
  {
  }

  /** No whole number lies nearer, and of two equally near ones the even is taken. */
  lemma HalfEvenNearest(x: real, n: int)
    ensures RealAbs(HalfEven(x) as real - x) <= RealAbs(n as real - x)
    ensures n != HalfEven(x) && RealAbs(HalfEven(x) as real - x) == RealAbs(n as real - x)
            ==> HalfEven(x) % 2 == 0 && n % 2 == 1
  {
  }

  /** Numbers more than one step apart stay apart, in the same order. */
  lemma RoundedApart(x: real, y: real)
    requires x - y > 1.0
    ensures HalfEven(x) > HalfEven(y)
  {
  }

  lemma RoundingKeepsOrder(x: real, y: real)
    requires x <= y
    ensures HalfEven(x) <= HalfEven(y)
  {
  }

  /** Exactly one step apart is not enough: two halves can meet on the even point between them. */
  lemma OneStepApartMayMeet()
    ensures HalfEven(0.5) == HalfEven(-0.5) && 0.5 - (-0.5) == 1.0
  {
  }

  lemma {:induction false} TenthInverse(k: nat)
    ensures Pow10(k) as real * Tenth(k) == 1.0
  {
    if k > 0 {
      TenthInverse(k - 1);
      TenfoldTenth(Pow10(k - 1), Tenth(k - 1));
    }
  }

  /** `n` steps of the grid are worth `n`, measured in steps. */
  lemma StepsOfValue(n: int, places: nat)
    ensures Steps(Value(OnGrid(n, places)), places) == n as real
  {
    var d := OnGrid(n, places);
    assert Written(d) == n && Places(d) == places;
    TenthInverse(places);
    Associate(n as real, Tenth(places), Pow10(places) as real);
  }
}
