/** Shared vocabulary: an optional value (Python's `None`) and Python's
    built-in rounding, which rounds halves to the nearest even integer. */
module Common {

  datatype Option<+T> = None | Some(value: T)

  /** Python's `round(x)` (and `np.round(x)`): the nearest integer, with
      ties going to the even neighbour. */
  function RoundHalfEven(x: real): (r: int)
    ensures -(1.0 / 2.0) <= r as real - x <= 1.0 / 2.0
    ensures (r as real - x == 1.0 / 2.0 || x - r as real == 1.0 / 2.0) ==> r % 2 == 0
  {
    var f := x.Floor;
    var d := x - f as real;
    if d < 1.0 / 2.0 then f
    else if d > 1.0 / 2.0 then f + 1
    else if f % 2 == 0 then f
    else f + 1
  }

  /** An integer already is its own rounding. */
  lemma RoundOfInteger(n: int)
    ensures RoundHalfEven(n as real) == n
  {
  }

  /** Rounding commutes with a shift by an even integer (by an odd one it
      does not: round(0.5) == 0 but round(1.5) == 2). */
  lemma RoundShiftEven(x: real, n: int)
    requires n % 2 == 0
    ensures RoundHalfEven(x + n as real) == RoundHalfEven(x) + n
  {
    var f := x.Floor;
    assert (x + n as real).Floor == f + n;
    assert (x + n as real) - (f + n) as real == x - f as real;
    assert (f + n) % 2 == f % 2 by {
      assert (f + n) % 2 == (f % 2 + n % 2) % 2;
    }
  }

  /** Shifting by whole octaves keeps the pitch class. */
  lemma ModShift12(r: int, k: int)
    ensures (r + 12 * k) % 12 == r % 12
  {
    var q, m := r / 12, r % 12;
    assert r + 12 * k == 12 * (q + k) + m;
  }

  lemma TwelveIsEven(k: int)
    ensures (12 * k) % 2 == 0
  {
    var t := 6 * k;
    assert 12 * k == t + t;
  }

  lemma NonNegFactor(a: real, u: real)
    requires u > 0.0 && a * u >= 0.0
    ensures a >= 0.0
  {
  }

  /** A part of a positive whole, divided by the whole, lies in [0, 1]. */
  lemma RatioInUnit(i: real, u: real)
    requires 0.0 <= i <= u && u > 0.0
    ensures 0.0 <= i / u <= 1.0
  {
    var q := i / u;
    assert q * u == i;
    NonNegFactor(q, u);
    assert (1.0 - q) * u == u - i;
    NonNegFactor(1.0 - q, u);
  }

  /** Python's `round(x, 2)` on a value, taken on the exact real: a value
      with at most two decimals, within half a hundredth of `x`. */
  function RoundTo2(x: real): (r: real)
    ensures -(1.0 / 200.0) <= r - x <= 1.0 / 200.0
    ensures (r * 100.0).Floor as real == r * 100.0
  {
    (RoundHalfEven(x * 100.0) as real) / 100.0
  }

  /** Python's `round(x, 3)`, taken on the exact real: a value with at
      most three decimals, within half a thousandth of `x`. */
  function RoundTo3(x: real): (r: real)
    ensures -(1.0 / 2000.0) <= r - x <= 1.0 / 2000.0
    ensures (r * 1000.0).Floor as real == r * 1000.0
  {
    (RoundHalfEven(x * 1000.0) as real) / 1000.0
  }

  /** Rounding is monotone. */
  lemma RoundMonotone(x: real, y: real)
    requires x <= y
    ensures RoundHalfEven(x) <= RoundHalfEven(y)
  {
  }
}
