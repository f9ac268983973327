/** The few nonlinear facts the span and the sharding budgets rest on. */
module Arithmetic {

  lemma MulMonotone(a: int, b: int, c: int)
    requires a <= b && c >= 0
    ensures a * c <= b * c
  {
  }

  lemma Distribute(a: int, b: int, c: int)
    ensures (a + b) * c == a * c + b * c
    ensures (a - b) * c == a * c - b * c
  {
  }

  /** A multiple of `b` smaller than `b` in size is zero. */
  lemma SmallMultipleIsZero(k: int, b: int)
    requires -b < k * b < b
    ensures k == 0
  {
    if k >= 1 {
      MulMonotone(1, k, b);
    } else if k <= -1 {
      MulMonotone(k, -1, b);
    }
  }

  /** Quotient and remainder are unique. */
  lemma QuotientUnique(a: int, b: int, q: int, r: int)
    requires b > 0 && a == q * b + r && 0 <= r < b
    ensures a / b == q && a % b == r
  {
    Euclid(a, b);
    Distribute(a / b, q, b);
    SmallMultipleIsZero(a / b - q, b);
  }

  lemma Euclid(a: int, b: int)
    requires b > 0
    ensures a == (a / b) * b + a % b && 0 <= a % b < b
  {
  }

  /** Rounding a quotient up gives a multiplier that reaches the dividend. */
  lemma CeilingReaches(a: int, b: int)
    requires b > 0
    ensures ((a + b - 1) / b) * b >= a
  {
    Euclid(a + b - 1, b);
  }

  /** Rounding a quotient up gives the least multiplier that reaches the dividend. */
  lemma CeilingIsLeast(a: int, b: int, k: int)
    requires b > 0 && k * b >= a
    ensures k >= (a + b - 1) / b
  {
    var c := (a + b - 1) / b;
    Euclid(a + b - 1, b);
    Distribute(c, 1, b);
    if k <= c - 1 {
      MulMonotone(k, c - 1, b);
    }
  }

  lemma QuotientMonotone(a: int, b: int, c: int)
    requires c > 0 && a <= b
    ensures a / c <= b / c
  {
    Euclid(a, c);
    Euclid(b, c);
    var p, q := a / c, b / c;
    Distribute(q, 1, c);
    if q + 1 <= p {
      MulMonotone(q + 1, p, c);
    }
  }

  // ---- Sums over sets ----

  ghost function SumOf<T>(f: T -> int, s: set<T>): int {
    if s == {} then 0
    else
      var x :| x in s;
      f(x) + SumOf(f, s - {x})
  }

  lemma SumOfPicks<T>(f: T -> int, s: set<T>) returns (x: T)
    requires s != {}
    ensures x in s && SumOf(f, s) == f(x) + SumOf(f, s - {x})
  {
    x :| x in s && SumOf(f, s) == f(x) + SumOf(f, s - {x});
  }

  /** The sum does not depend on which element is taken first. */
  lemma {:induction false} SumOfAny<T>(f: T -> int, s: set<T>, x: T)
    requires x in s
    ensures SumOf(f, s) == f(x) + SumOf(f, s - {x})
    decreases |s|
  {
    var y := SumOfPicks(f, s);
    if x != y {
      SumOfAny(f, s - {y}, x);
      SumOfAny(f, s - {x}, y);
      assert s - {y} - {x} == s - {x} - {y};
    }
  }

  lemma SumOfAdd<T>(f: T -> int, s: set<T>, x: T)
    requires x !in s
    ensures SumOf(f, s + {x}) == f(x) + SumOf(f, s)
  {
    SumOfAny(f, s + {x}, x);
    assert s + {x} - {x} == s;
  }
}
