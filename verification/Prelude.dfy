/** Optional values, `real` helpers standing in for `f64` operations, and saturating `u64` arithmetic. */
module Prelude {

  datatype Option<+T> = None | Some(value: T)

  /** `Option::unwrap_or`. */
  function UnwrapOr<T>(o: Option<T>, default: T): T {
    match o
    case Some(v) => v
    case None => default
  }

  /** `f64::min`. */
  function Min(a: real, b: real): real { if a <= b then a else b }

  /** `f64::max`. */
  function Max(a: real, b: real): real { if a >= b then a else b }

  /** `f64::round`: half away from zero. */
  function Round(x: real): int {
    if x >= 0.0 then (x + 0.5).Floor else -((0.5 - x).Floor)
  }

  const U32_MAX: nat := 0xFFFF_FFFF
  const U64_MAX: nat := 0xFFFF_FFFF_FFFF_FFFF

  /** `u64::saturating_add`. */
  function SatAdd(a: nat, b: nat): nat { if a + b <= U64_MAX then a + b else U64_MAX }

  /** `u64::saturating_sub`. */
  function SatSub(a: nat, b: nat): nat { if a >= b then a - b else 0 }

  function MinNat(a: nat, b: nat): nat { if a <= b then a else b }

  function MaxNat(a: nat, b: nat): nat { if a >= b then a else b }

  /** `base` to the `n`. */
  function Pow(base: real, n: nat): real {
    if n == 0 then 1.0 else base * Pow(base, n - 1)
  }

  lemma {:induction false} PowAdd(base: real, m: nat, n: nat)
    ensures Pow(base, m + n) == Pow(base, m) * Pow(base, n)
  {
    if m != 0 {
      PowAdd(base, m - 1, n);
      OneMoreFactor(base, Pow(base, m - 1), Pow(base, n), Pow(base, m - 1 + n), Pow(base, m));
    }
  }

  lemma {:induction false} OneMoreFactor(base: real, rest: real, other: real, both: real, p: real)
    requires p == base * rest && both == rest * other
    ensures base * both == p * other
  {
    Regroup(base, rest, other);
  }

  lemma {:induction false} Regroup(a: real, b: real, c: real)
    ensures a * (b * c) == (a * b) * c
  {
  }

  lemma {:induction false} PowPositive(base: real, n: nat)
    requires base > 0.0
    ensures Pow(base, n) > 0.0
  {
    if n != 0 {
      PowPositive(base, n - 1);
    }
  }

  /** Comparing a quotient with `k` is comparing its parts. */
  lemma {:induction false} CompareQuotient(a: real, b: real, k: real)
    requires b > 0.0
    ensures a >= k * b <==> a / b >= k
    ensures a > k * b <==> a / b > k
  {
    var q := a / b;
    assert q * b == a;
    assert (q - k) * b == a - k * b;
  }
}
