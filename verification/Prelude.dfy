/** Machine integers, optional values and the small arithmetic facts every other module uses. */
module Prelude {

  datatype Option<+T> = None | Some(value: T)

  type byte = x: int | 0 <= x < 0x100
  type u16 = x: int | 0 <= x < 0x1_0000
  type u32 = x: int | 0 <= x < 0x1_0000_0000
  type u64 = x: int | 0 <= x < 0x1_0000_0000_0000_0000

  const U32_MAX: int := 0xffff_ffff
  const U64_MAX: int := 0xffff_ffff_ffff_ffff

  function Min(a: int, b: int): (m: int)
  {
    if a < b then a else b
  }

  function Max(a: int, b: int): (m: int)
  {
    if a < b then b else a
  }

  function CeilDiv(a: int, b: int): (q: int)
    requires b > 0
  {
    a / b + (if a % b != 0 then 1 else 0)
  }

  /** The only multiple of d strictly between -d and d is zero. */
  lemma MultipleWithin(k: int, d: int)
    requires -d < k * d < d
    ensures k == 0
  {
  }

  /** Quotient and remainder are the only pair that recombines with a remainder in range. */
  lemma DivModUnique(q: int, r: int, d: int)
    requires 0 <= r < d
    ensures (q * d + r) / d == q
    ensures (q * d + r) % d == r
  {
    var n := q * d + r;
    assert (n / d - q) * d == r - n % d;
    MultipleWithin(n / d - q, d);
  }

  /** Whole multiples of the divisor pass straight through to the quotient. */
  lemma DivModShift(a: int, b: int, d: int)
    requires d > 0
    ensures (a * d + b) / d == a + b / d
    ensures (a * d + b) % d == b % d
  {
    assert a * d + b == (a + b / d) * d + b % d;
    DivModUnique(a + b / d, b % d, d);
  }

  /** The floor bound, in both directions. */
  lemma DivBounds(n: int, d: int)
    requires d > 0
    ensures (n / d) * d <= n < (n / d + 1) * d
  {
  }

  lemma QuotientWithin(n: int, d: int)
    requires 0 <= n && 0 < d
    ensures 0 <= n / d <= n
  {
    DivExceeds(n, d, n + 1);
    DivExceeds(n, d, 0);
    MulMonotone(1, d, n + 1);
  }

  /** A quotient exceeds a bound exactly when the dividend reaches past it. */
  lemma DivExceeds(n: int, d: int, bound: int)
    requires d > 0
    ensures bound > n / d <==> bound * d > n
  {
    DivBounds(n, d);
    if bound > n / d {
      MulMonotone(n / d + 1, bound, d);
    } else {
      MulMonotone(bound, n / d, d);
    }
  }

  lemma MulMonotone(a: int, b: int, k: int)
    requires a <= b && 0 <= k
    ensures a * k <= b * k
  {
  }

  lemma CeilDivBounds(a: int, b: int)
    requires b > 0
    ensures (CeilDiv(a, b) - 1) * b < a <= CeilDiv(a, b) * b
  {
    DivBounds(a, b);
  }

  /** The first element from i on that satisfies p, or the length. */
  function Find<T>(s: seq<T>, p: T -> bool, i: nat): (r: nat)
    requires i <= |s|
    ensures i <= r <= |s| && (r < |s| ==> p(s[r])) && forall k :: i <= k < r ==> !p(s[k])
    decreases |s| - i
  {
    if i == |s| || p(s[i]) then i else Find(s, p, i + 1)
  }

  lemma FindIs<T>(s: seq<T>, p: T -> bool, r: nat, i: nat)
    requires i <= r <= |s| && (r < |s| ==> p(s[r])) && forall k :: i <= k < r ==> !p(s[k])
    ensures Find(s, p, i) == r
    decreases r - i
  {
    if i < r { FindIs(s, p, r, i + 1); }
  }
}
