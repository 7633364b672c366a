/**
  Swift integer semantics that differ from Dafny's.

  Swift's `/` and `%` on `Int` truncate toward zero, while Dafny's are
  Euclidean; `Int(x)` on a `Double` truncates toward zero as well.  Integers
  here are unbounded: the values the sequencer handles are far from the 64-bit
  limits, so overflow is not modelled.
 */
module SwiftInt {

  function Min(a: int, b: int): int { if a <= b then a else b }

  function Max(a: int, b: int): int { if a >= b then a else b }

  function Abs(a: int): nat { if a < 0 then -a else a }

  /** `max(lo, min(hi, x))`, the clamp idiom the Swift code writes inline. */
  function Clamp(x: int, lo: int, hi: int): (r: int)
    requires lo <= hi
    ensures lo <= r <= hi
    ensures lo <= x <= hi ==> r == x
    ensures x < lo ==> r == lo
    ensures x > hi ==> r == hi
  {
    Max(lo, Min(hi, x))
  }

  /** Swift's `a / b`: the quotient truncated toward zero. */
  function SwiftDiv(a: int, b: int): int
    requires b != 0
  {
    var q := Abs(a) / Abs(b);
    if (a < 0) != (b < 0) then -q else q
  }

  /** Swift's `a % b`: the remainder that goes with SwiftDiv; it has the sign of `a`. */
  function SwiftRem(a: int, b: int): (r: int)
    requires b != 0
    ensures SwiftDiv(a, b) * b + r == a
  {
    a - SwiftDiv(a, b) * b
  }

  /** On a positive divisor the truncated remainder lies strictly between -b and b, with the sign of a. */
  lemma SwiftRemBounds(a: int, b: int)
    requires b > 0
    ensures a >= 0 ==> 0 <= SwiftRem(a, b) < b && SwiftRem(a, b) == a % b && SwiftDiv(a, b) == a / b
    ensures a < 0 ==> -b < SwiftRem(a, b) <= 0 && SwiftRem(a, b) == -((-a) % b)
  {
  }

  /** `((a % n) + n) % n` in Swift is the Euclidean remainder. */
  lemma NormalisedRem(a: int, n: int)
    requires n > 0
    ensures SwiftRem(SwiftRem(a, n) + n, n) == a % n
  {
    SwiftRemBounds(a, n);
    var r := SwiftRem(a, n);
    SwiftRemBounds(r + n, n);
    if a < 0 {
      var q, m := (-a) / n, (-a) % n;
      assert -a == q * n + m && 0 <= m < n;
      assert r == -m;
      if m == 0 {
        assert a == (-q) * n + 0;
        DivModUnique(a, -q, 0, n);
        DivModUnique(n, 1, 0, n);
      } else {
        assert a == (-q - 1) * n + (n - m);
        DivModUnique(a, -q - 1, n - m, n);
        DivModUnique(n - m, 0, n - m, n);
      }
    } else {
      var q, m := a / n, a % n;
      assert r == m;
      assert m + n == 1 * n + m;
      DivModUnique(m + n, 1, m, n);
    }
  }

  /** Adding a multiple of the modulus does not change the Euclidean remainder. */
  lemma {:induction false} ModOfShift(x: int, k: nat, n: int)
    requires n > 0
    ensures (x + k * n) % n == x % n
  {
    if k > 0 {
      ModOfShift(x, k - 1, n);
      assert x + k * n == (x + (k - 1) * n) + n;
      ModAddModulus(x + (k - 1) * n, n);
    }
  }

  lemma ModAddModulus(x: int, n: int)
    requires n > 0
    ensures (x + n) % n == x % n
  {
    var q, r := x / n, x % n;
    assert x + n == (q + 1) * n + r;
    DivModUnique(x + n, q + 1, r, n);
  }

  /** Adding any integer multiple of the modulus does not change the Euclidean remainder. */
  lemma ModShiftInt(x: int, k: int, n: int)
    requires n > 0
    ensures (x + k * n) % n == x % n
  {
    var q, r := x / n, x % n;
    assert x + k * n == (q + k) * n + r;
    DivModUnique(x + k * n, q + k, r, n);
  }

  /** Two values of `[0, n)` with the same remainder after subtracting the same amount are equal. */
  lemma ModInjective(a: int, b: int, off: int, n: int)
    requires n > 0 && 0 <= a < n && 0 <= b < n
    requires (a - off) % n == (b - off) % n
    ensures a == b
  {
    var qa, qb, m := (a - off) / n, (b - off) / n, (a - off) % n;
    assert a - off == qa * n + m && b - off == qb * n + m;
    var d := qa - qb;
    assert a == d * n + b by {
      assert qa * n - qb * n == (qa - qb) * n;
    }
    DivModUnique(a, d, b, n);
    DivModUnique(a, 0, a, n);
  }

  /** Euclidean division is unique: a quotient and a remainder in [0, n) determine `/` and `%`. */
  lemma DivModUnique(x: int, q: int, r: int, n: int)
    requires n > 0 && 0 <= r < n && x == q * n + r
    ensures x / n == q && x % n == r
  {
    var q', r' := x / n, x % n;
    assert x == q' * n + r' && 0 <= r' < n;
    var d := q - q';
    assert d * n == r' - r by {
      assert q * n - q' * n == (q - q') * n;
    }
  }

  /** Swift's `Int(x)` for a `Double` x: truncation toward zero. */
  function Trunc(x: real): (r: int)
    ensures x >= 0.0 ==> r as real <= x < r as real + 1.0
    ensures x < 0.0 ==> r as real - 1.0 < x <= r as real
  {
    if x >= 0.0 then x.Floor else -((-x).Floor)
  }
}
