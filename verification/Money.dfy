/** Cent rounding and the percentage caps built on it (money.py, rules/arith.py).
    Decimals are reals here; the 28-digit context precision is not modelled. */
module Money {

  /** A whole number of cents. */
  ghost predicate IsCents(d: real) {
    d * 100.0 == (d * 100.0).Floor as real
  }

  /** Round down to the cent: the greatest whole-cent amount not above `d`. */
  function FloorCents(d: real): (r: real)
    ensures IsCents(r) && r <= d < r + 0.01
  {
    (d * 100.0).Floor as real / 100.0
  }

  /** Round up to the cent: the least whole-cent amount not below `d`. */
  function CeilCents(d: real): (r: real)
    ensures IsCents(r) && r - 0.01 < d <= r
  {
    var n := -((-d * 100.0).Floor);
    n as real / 100.0
  }

  /** The nearest whole number, a tie going to the even one. */
  function HalfEven(x: real): (n: int)
    ensures n as real - 0.5 <= x <= n as real + 0.5
    ensures x == n as real + 0.5 || x == n as real - 0.5 ==> n % 2 == 0
    ensures 0.0 <= x ==> 0 <= n
  {
    var k := x.Floor;
    var rest := x - k as real;
    if rest < 0.5 || (rest == 0.5 && k % 2 == 0) then k else k + 1
  }

  lemma HalfEvenUnique(x: real, n: int)
    requires n as real - 0.5 <= x <= n as real + 0.5
    requires x == n as real + 0.5 || x == n as real - 0.5 ==> n % 2 == 0
    ensures n == HalfEven(x)
  {
    var m := HalfEven(x);
    hide HalfEven;
    assert -1 <= m - n <= 1;
  }

  /** Round to the nearest cent, a tie going to the even cent. */
  function Cents(d: real): (r: real)
    ensures IsCents(r) && r - 0.005 <= d <= r + 0.005
    ensures 0.0 <= d ==> 0.0 <= r
  {
    hide HalfEven;
    HalfEven(d * 100.0) as real / 100.0
  }

  /** Any function that rounds down to a whole cent within one cent is FloorCents. */
  lemma FloorCentsUnique(d: real, r: real)
    requires IsCents(r) && r <= d < r + 0.01
    ensures r == FloorCents(d)
  {
    var a, b := (r * 100.0).Floor, (d * 100.0).Floor;
    assert a as real <= d * 100.0 < a as real + 1.0;
    assert a == b;
  }

  lemma CeilCentsUnique(d: real, r: real)
    requires IsCents(r) && r - 0.01 < d <= r
    ensures r == CeilCents(d)
  {
    hide CeilCents;
    SameCent(r, CeilCents(d), d);
  }

  lemma SameCent(r: real, c: real, d: real)
    requires IsCents(r) && IsCents(c) && r - 0.01 < d <= r && c - 0.01 < d <= c
    ensures r == c
  {
    var a, b := (r * 100.0).Floor, (c * 100.0).Floor;
    assert a as real < b as real + 1.0 && b as real < a as real + 1.0;
    assert a == b;
  }

  /** `n` cents are the rounded amount exactly when they are nearest, and even on a tie. */
  lemma CentsAreHalfEven(d: real, n: int)
    ensures Cents(d) == n as real / 100.0 <==>
              && n as real - 0.5 <= d * 100.0 <= n as real + 0.5
              && (d * 100.0 == n as real + 0.5 || d * 100.0 == n as real - 0.5 ==> n % 2 == 0)
  {
    hide HalfEven;
    var x := d * 100.0;
    assert Cents(d) * 100.0 == HalfEven(x) as real;
    if n as real - 0.5 <= x <= n as real + 0.5 && (x == n as real + 0.5 || x == n as real - 0.5 ==> n % 2 == 0) {
      HalfEvenUnique(x, n);
    }
  }

  lemma CeilCentsMonotone(a: real, b: real)
    requires a <= b
    ensures CeilCents(a) <= CeilCents(b)
  {
    assert (-b * 100.0).Floor <= (-a * 100.0).Floor;
  }

  /** A cap in dollars: a percentage of account value, never rounded up. */
  function CapDollars(pct: real, value: real): (r: real)
    ensures IsCents(r) && r <= value * pct / 100.0 < r + 0.01
  {
    FloorCents(value * pct / 100.0)
  }

  lemma ScaleUp(x: real, y: real, k: real)
    requires x <= y && 0.0 <= k
    ensures x * k <= y * k
  {
  }

  lemma ScaleUpStrictly(x: real, y: real, k: real)
    requires x < y && 0.0 < k
    ensures x * k < y * k
  {
    assert (y - x) * k > 0.0;
    assert (y - x) * k == y * k - x * k;
  }
}
