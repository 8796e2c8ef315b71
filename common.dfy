/**
 * Small shared vocabulary: an Option type, integer helpers that follow
 * C++ semantics where Dafny's differ, decimal rendering of integers and
 * the random-number oracle that stands for `std::rand()`.
 */
module Common {

  datatype Option<T> = None | Some(value: T)

  function Min(a: int, b: int): int { if a < b then a else b }

  function Max(a: int, b: int): int { if a < b then b else a }

  function Abs(x: int): int { if x < 0 then -x else x }

  /** C++ integer division by a positive divisor: truncated toward zero. */
  function TruncDiv(a: int, b: int): (q: int)
    requires b > 0
    ensures a >= 0 ==> q == a / b
    ensures a < 0 ==> -q == (-a) / b
  {
    if a >= 0 then a / b else -((-a) / b)
  }

  /** A quotient of something between `lo` and `hi` times the divisor lies between `lo` and `hi`. */
  lemma FloorDivWithin(x: int, c: int, lo: int, hi: int)
    requires c > 0 && lo * c <= x <= hi * c
    ensures lo <= x / c <= hi
  {
    var q := x / c;
    assert x == q * c + x % c;
    if q > hi {
      assert (q - hi) * c == q * c - hi * c;
      MulBounds(q - hi, c);
    }
    if q < lo {
      assert (q - lo) * c == q * c - lo * c;
      MulBounds(q - lo, c);
    }
  }

  /** Truncating division keeps the same bounds: an average of values in `lo..hi` lies in `lo..hi`. */
  lemma TruncDivWithin(x: int, c: int, lo: int, hi: int)
    requires c > 0 && lo * c <= x <= hi * c
    ensures lo <= TruncDiv(x, c) <= hi
  {
    if x >= 0 {
      FloorDivWithin(x, c, lo, hi);
    } else {
      assert (-hi) * c == -(hi * c) && (-lo) * c == -(lo * c);
      FloorDivWithin(-x, c, -hi, -lo);
    }
  }

  /** Multiplying and then dividing by the same positive number is the identity. */
  lemma MulDivCancel(a: int, b: int)
    requires b > 0
    ensures (a * b) / b == a
  {
    var q := (a * b) / b;
    var r := (a * b) % b;
    assert a * b == q * b + r;
    assert (a - q) * b == r;
    MulBounds(a - q, b);
  }

  lemma MulBounds(x: int, b: int)
    requires b > 0
    ensures x >= 1 ==> x * b >= b
    ensures x <= -1 ==> x * b <= -b
  {
    if x >= 1 {
      assert x * b == (x - 1) * b + b;
      MulNonNegative(x - 1, b);
    }
    if x <= -1 {
      assert x * b == -((-x - 1) * b) - b;
      MulNonNegative(-x - 1, b);
    }
  }

  lemma MulNonNegative(x: int, b: int)
    requires x >= 0 && b > 0
    ensures x * b >= 0
  {
  }

  /** Decimal digits of a natural number, as `std::to_string` prints them. */
  function NatToString(n: nat): (s: string)
    ensures |s| >= 1
    ensures forall i :: 0 <= i < |s| ==> '0' <= s[i] <= '9'
    decreases n
  {
    var d := [('0' as int + n % 10) as char];
    if n < 10 then d else NatToString(n / 10) + d
  }

  /** `std::to_string` on an int: a leading '-' for negative values. */
  function IntToString(i: int): (s: string)
    ensures |s| >= 1
    ensures (s[0] == '-') <==> i < 0
  {
    if i < 0 then "-" + NatToString(-i) else NatToString(i)
  }

  /**
   * The process-wide random source: `rng(k)` is the value the k-th call
   * of `std::rand()` returns.  Methods that draw thread a cursor.
   */
  type Rng = nat -> nat

  /** `std::rand() % 100 + 1`, a roll in 1..100. */
  function Percent(r: nat): (roll: int)
    ensures 1 <= roll <= 100
  {
    r % 100 + 1
  }

  /** `std::rand() % 100`, a roll in 0..99. */
  function Centile(r: nat): (roll: int)
    ensures 0 <= roll < 100
  {
    r % 100
  }
}
