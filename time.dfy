/**
 * Instants and lengths of time as integer counts of one time unit (say seconds since an
 * epoch), with the two java.time operations the bar series relies on.
 */
module Time {

  /** An instant: a count of time units since an epoch. */
  type Timestamp = int

  /** A signed length of time, in the same unit. */
  type Duration = int

  /** Duration.between(from, to): the signed time from `from` to `to`. */
  function Between(from: Timestamp, to: Timestamp): Duration
  {
    to - from
  }

  /**
   * Duration.dividedBy(Duration): how many whole divisors fit into the dividend. Java
   * truncates toward zero, so the remainder takes the sign of the dividend (Dafny's own
   * `/` is Euclidean and would differ for a negative dividend).
   */
  function DividedBy(a: Duration, d: Duration): (q: int)
    requires d > 0
    ensures a >= 0 ==> q >= 0 && 0 <= a - q * d < d
    ensures a < 0 ==> q <= 0 && -d < a - q * d <= 0
  {
    if a >= 0 then a / d else -((-a) / d)
  }

  /** Euclidean division of a non-negative number is determined by its bracketing multiples. */
  lemma DivisionUnique(x: int, d: int, q: int)
    requires d > 0 && q * d <= x < q * d + d
    ensures x / d == q
  {
    var q0 := x / d;
    if q0 > q {
      assert q0 * d >= (q + 1) * d by { MultiplyMonotone(q + 1, q0, d); }
    } else if q0 < q {
      assert (q0 + 1) * d <= q * d by { MultiplyMonotone(q0 + 1, q, d); }
    }
  }

  lemma MultiplyMonotone(x: int, y: int, d: int)
    requires x <= y && d >= 0
    ensures x * d <= y * d
  {
  }

  /** Adding p whole divisors to a non-negative dividend adds exactly p to the quotient. */
  lemma DividedByShift(a: Duration, p: int, d: Duration)
    requires d > 0 && a >= 0 && p >= 0
    ensures DividedBy(a + p * d, d) == DividedBy(a, d) + p
  {
    var q := DividedBy(a, d);
    assert (q + p) * d == q * d + p * d;
    DivisionUnique(a + p * d, d, q + p);
  }

  /** Anything strictly shorter than one divisor, either way, divides to zero. */
  lemma DividedBySmall(a: Duration, d: Duration)
    requires d > 0 && -d < a < d
    ensures DividedBy(a, d) == 0
  {
  }
}
