/** Rounding over the reals, as Python's `round` and the floor and modulo it uses. */
module Rounding {
  import opened Wrappers

  /** Round to the nearest integer, halves to even. */
  function RoundHalfEven(x: real): (n: int)
    ensures x - 0.5 <= n as real <= x + 0.5
    ensures x == x.Floor as real ==> n == x.Floor
  {
    var low := x.Floor;
    var frac := x - low as real;
    if frac < 0.5 then low
    else if frac > 0.5 then low + 1
    else if low % 2 == 0 then low else low + 1
  }

  lemma HalvesGoToEven(x: real)
    requires x == x.Floor as real + 0.5
    ensures RoundHalfEven(x) % 2 == 0
  {
  }

  /** `round(x, 4)`. */
  function Round4(x: real): (r: real)
    ensures x - 0.00005 <= r <= x + 0.00005
  {
    RoundHalfEven(x * 10000.0) as real / 10000.0
  }

  /** `x % m` for a positive real modulus: always in [0, m). */
  function Mod(x: real, m: real): (r: real)
    requires m > 0.0
    ensures 0.0 <= r < m
  {
    FloorBounds(x, m);
    x - m * (x / m).Floor as real
  }

  /** The remainder is whole turns away. */
  lemma ModTurns(x: real, m: real) returns (turns: int)
    requires m > 0.0
    ensures Mod(x, m) == x - m * turns as real
  {
    turns := (x / m).Floor;
  }

  lemma FloorBounds(x: real, m: real)
    requires m > 0.0
    ensures 0.0 <= x - m * (x / m).Floor as real < m
  {
    var q := x / m;
    var k := q.Floor as real;
    MulMonotone(m, k, q);
    MulMonotone(m, q, k + 1.0);
    assert m * q == x;
    assert m * (k + 1.0) == m * k + m;
  }

  lemma MulMonotone(m: real, a: real, b: real)
    requires m > 0.0
    ensures a <= b ==> m * a <= m * b
    ensures a < b ==> m * a < m * b
  {
    assert m * (b - a) == m * b - m * a;
    if a < b {
      PositiveProduct(m, b - a);
    }
  }

  lemma PositiveProduct(a: real, b: real)
    requires a > 0.0 && b > 0.0
    ensures a * b > 0.0
  {
  }

  lemma RoundMonotone(x: real, y: real)
    requires x <= y
    ensures RoundHalfEven(x) <= RoundHalfEven(y)
  {
  }

  /** Quotient and remainder of an integer are unique. */
  lemma ModUnique(x: int, n: pos, q: int, r: int)
    requires x == q * n + r && 0 <= r < n
    ensures x % n == r && x / n == q
  {
    var k := x / n - q;
    assert k * n == r - x % n;
    SmallMultiple(k, n);
  }

  lemma SmallMultiple(k: int, n: pos)
    requires -(n as int) < k * n < n
    ensures k == 0
  {
  }

  lemma ModNext(n: nat, m: pos)
    ensures (n + 1) % m == if n % m + 1 == m then 0 else n % m + 1
  {
    var q, r := n / m, n % m;
    if r + 1 == m {
      ModUnique(n + 1, m, q + 1, 0);
    } else {
      ModUnique(n + 1, m, q, r + 1);
    }
  }
}
