/** Small shared vocabulary: optional values, results and powers of two. */
module Prelude {

  datatype Option<+T> = None | Some(value: T)

  datatype Result<+T, +E> = Ok(value: T) | Err(error: E)

  type Byte = bv8

  function Min(a: int, b: int): int {
    if a <= b then a else b
  }

  function Max(a: int, b: int): int {
    if a >= b then a else b
  }

  /** Unsigned subtraction that stops at zero. */
  function SaturatingSub(a: nat, b: nat): nat {
    if a <= b then 0 else a - b
  }

  function Pow2(n: nat): (r: nat)
    ensures r >= 1
  {
    if n == 0 then 1 else 2 * Pow2(n - 1)
  }

  /** A multiple of `w` is zero or at least `w` away from it. */
  lemma MulZeroOrWide(k: int, w: int)
    requires w > 0
    ensures k >= 1 ==> k * w >= w
    ensures k <= -1 ==> k * w <= -w
  {
  }

  /** Dividing a multiple plus a small remainder. */
  lemma DivOfMultiple(q: int, w: int, r: int)
    requires 0 <= r < w
    ensures (q * w + r) / w == q
    ensures (q * w + r) % w == r
  {
    var x := q * w + r;
    assert x == (x / w) * w + x % w;
    assert (x / w - q) * w == r - x % w;
    MulZeroOrWide(x / w - q, w);
  }
}
