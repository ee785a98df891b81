/** Small shared vocabulary: optional values, results, and integer helpers
    used by every other module of the model. */
module Common {

  /** Python's `None`-or-value, and Java's nullable reference. */
  datatype Option<+T> = None | Some(value: T) {
    /** `getattr(obj, name, default)` / `dict.get(key, default)` style lookup. */
    function GetOr(default: T): T {
      match this
      case Some(v) => v
      case None => default
    }
  }

  /** A computation that either produces a value or raises an error. */
  datatype Result<+T, +E> = Ok(value: T) | Err(error: E)

  function Min(a: int, b: int): int {
    if a <= b then a else b
  }

  function Max(a: int, b: int): int {
    if a <= b then b else a
  }

  /** Quotient and remainder are determined by the division identity:
      the one fact every index computation in the model rests on. */
  lemma DivModUnique(a: int, d: int, q: int, r: int)
    requires d > 0
    requires a == q * d + r
    requires 0 <= r < d
    ensures a / d == q
    ensures a % d == r
  {
    var q0, r0 := a / d, a % d;
    var k := q - q0;
    assert k * d == r0 - r by {
      assert q * d + r == q0 * d + r0;
      assert q * d - q0 * d == (q - q0) * d;
    }
    if k >= 1 {
      NonNegProduct(k - 1, d);
      assert false;
    } else if k <= -1 {
      NonNegProduct(-k - 1, d);
      assert false;
    }
  }

  lemma NonNegProduct(a: int, b: int)
    requires a >= 0 && b >= 0
    ensures a * b >= 0
  {
  }

  lemma MulSucc(n: int, d: int)
    ensures (n + 1) * d == n * d + d
  {
  }

  /** Position `a` of block `i` and position `b` of block `j`, blocks of
      size `d`, are the same index only when block and position agree. */
  lemma BlockIndexUnique(d: nat, i: nat, a: nat, j: nat, b: nat)
    requires a < d && b < d
    requires i * d + a == j * d + b
    ensures i == j && a == b
  {
    DivModUnique(i * d + a, d, i, a);
    DivModUnique(j * d + b, d, j, b);
  }

  /** `ceil(a / d)` for a non-negative numerator and a positive divisor. */
  function CeilDiv(a: nat, d: nat): (q: nat)
    requires d > 0
    ensures q * d >= a
    ensures q == 0 || (q - 1) * d < a
  {
    var q := (a + d - 1) / d;
    var r := (a + d - 1) % d;
    assert a + d - 1 == q * d + r;
    q
  }

  /** `CeilDiv` is the only count `n` with `(n-1)·d < a <= n·d`. */
  lemma CeilDivUnique(a: nat, d: nat, n: nat)
    requires d > 0
    requires n * d >= a
    requires n == 0 || (n - 1) * d < a
    ensures n == CeilDiv(a, d)
  {
    if n == 0 {
      assert a == 0;
      DivModUnique(a + d - 1, d, 0, d - 1);
    } else {
      assert (n - 1) * d == n * d - d;
      DivModUnique(a + d - 1, d, n, a + d - 1 - n * d);
    }
  }

  lemma MulMonotone(a: int, b: int, d: int)
    requires a <= b && d >= 0
    ensures a * d <= b * d
  {
    NonNegProduct(b - a, d);
    assert b * d == (b - a) * d + a * d;
  }

  /** A product of two non-zero integers is non-zero. */
  lemma NonZeroProduct(a: int, b: int)
    requires a != 0 && b != 0
    ensures a * b != 0
  {
    if a > 0 && b > 0 {
      NonNegProduct(a - 1, b);
      assert a * b == (a - 1) * b + b;
    } else if a > 0 {
      NonNegProduct(a - 1, -b);
      assert a * -b == (a - 1) * -b - b;
      assert a * b == -(a * -b);
    } else if b > 0 {
      NonNegProduct(-a - 1, b);
      assert -a * b == (-a - 1) * b + b;
      assert a * b == -(-a * b);
    } else {
      NonNegProduct(-a - 1, -b);
      assert -a * -b == (-a - 1) * -b - b;
      assert a * b == -a * -b;
    }
  }
}
