/** 160-bit node ids as numbers: bit 0 is the most significant one, so the
    byte-wise order of the ids is the numeric order. */
module NodeId {
  import opened Prelude

  const ID_BITS: nat := 160

  function Weight(bit: nat): nat
    requires bit < ID_BITS
  {
    Pow2(ID_BITS - 1 - bit)
  }

  function GetBit(id: nat, bit: nat): bool
    requires bit < ID_BITS
  {
    id / Weight(bit) % 2 == 1
  }

  function SetBit(id: nat, bit: nat, value: bool): nat
    requires bit < ID_BITS
  {
    if GetBit(id, bit) == value then id
    else if value then id + Weight(bit)
    else if id >= Weight(bit) then id - Weight(bit) else 0
  }

  /** `x` and `y` agree on everything above their lowest `b` bits. */
  predicate SamePrefix(x: nat, y: nat, b: nat) {
    x / Pow2(b) == y / Pow2(b)
  }

  /** A power-of-two sized block whose start is a multiple of its size. */
  predicate Aligned(start: nat, endInclusive: nat, bits: nat) {
    && start % Pow2(bits) == 0
    && endInclusive == start + Pow2(bits) - 1
  }

  predicate Within(x: nat, start: nat, endInclusive: nat) {
    start <= x <= endInclusive
  }

  lemma SplitAt(x: nat, w: nat)
    requires w > 0
    ensures x == (x / w) * w + x % w
    ensures 0 <= x % w < w
  {
  }

  /** Halving the block size halves the quotient. */
  lemma QuotientOfDouble(x: nat, w: nat)
    requires w > 0
    ensures x / w / 2 == x / (2 * w)
  {
    var q := x / (2 * w);
    SplitAt(x, 2 * w);
    SplitAt(x, w);
    var r := x % (2 * w);
    assert x == 2 * q * w + r;
    if r < w {
      DivOfMultiple(2 * q, w, r);
    } else {
      assert x == (2 * q + 1) * w + (r - w);
      DivOfMultiple(2 * q + 1, w, r - w);
    }
  }

  lemma {:induction false} SamePrefixMonotone(x: nat, y: nat, b: nat, c: nat)
    requires SamePrefix(x, y, b) && b <= c
    ensures SamePrefix(x, y, c)
    decreases c - b
  {
    if b < c {
      QuotientOfDouble(x, Pow2(b));
      QuotientOfDouble(y, Pow2(b));
      SamePrefixMonotone(x, y, b + 1, c);
    }
  }

  /** Lying in an aligned block is the same as sharing its prefix. */
  lemma WithinIsSamePrefix(x: nat, start: nat, endInclusive: nat, bits: nat)
    requires Aligned(start, endInclusive, bits)
    ensures Within(x, start, endInclusive) <==> SamePrefix(x, start, bits)
  {
    var w := Pow2(bits);
    SplitAt(start, w);
    SplitAt(x, w);
    if Within(x, start, endInclusive) {
      DivOfMultiple(start / w, w, x - start);
    }
  }

  /** The two halves of an aligned block. */
  lemma Halves(start: nat, endInclusive: nat, bits: nat)
    requires Aligned(start, endInclusive, bits) && bits >= 1
    ensures var w := Pow2(bits - 1);
            && Aligned(start, start + w - 1, bits - 1)
            && Aligned(start + w, endInclusive, bits - 1)
  {
    var w := Pow2(bits - 1);
    var q := start / (2 * w);
    SplitAt(start, 2 * w);
    assert start == (2 * q) * w;
    DivOfMultiple(2 * q, w, 0);
    assert start + w == (2 * q + 1) * w;
    DivOfMultiple(2 * q + 1, w, 0);
  }

  /** Setting and clearing one bit of an id, seen through the block it belongs to. */
  lemma BitOfBlock(start: nat, endInclusive: nat, bits: nat)
    requires Aligned(start, endInclusive, bits) && 1 <= bits <= ID_BITS
    ensures !GetBit(start, ID_BITS - bits)
    ensures GetBit(endInclusive, ID_BITS - bits)
  {
    var w := Pow2(bits - 1);
    assert Weight(ID_BITS - bits) == w;
    var q := start / (2 * w);
    SplitAt(start, 2 * w);
    assert start == (2 * q) * w;
    DivOfMultiple(2 * q, w, 0);
    assert endInclusive == (2 * q + 1) * w + (w - 1);
    DivOfMultiple(2 * q + 1, w, w - 1);
  }

  /** Splits the block `[start, endInclusive]` of `2^bits` ids in two. */
  function ComputeSplitStartEnd(start: nat, endInclusive: nat, bits: nat): (r: ((nat, nat), (nat, nat)))
    requires 1 <= bits <= ID_BITS
    ensures Aligned(start, endInclusive, bits) ==>
              && Aligned(r.0.0, r.0.1, bits - 1) && Aligned(r.1.0, r.1.1, bits - 1)
              && r.0.0 == start && r.1.1 == endInclusive && r.1.0 == r.0.1 + 1
              // the three debug assertions of the code hold exactly when bits >= 2
              && (r.0.0 < r.0.1 < r.1.0 < r.1.1 <==> bits >= 2)
  {
    var changingBit := ID_BITS - bits;
    var newLeftEnd := SetBit(endInclusive, changingBit, false);
    var newRightStart := SetBit(start, changingBit, true);
    assert Aligned(start, endInclusive, bits) ==>
        && newLeftEnd == start + Pow2(bits - 1) - 1
        && newRightStart == start + Pow2(bits - 1) by {
      if Aligned(start, endInclusive, bits) { BitOfBlock(start, endInclusive, bits); }
    }
    assert Aligned(start, endInclusive, bits) ==>
        && Aligned(start, newLeftEnd, bits - 1) && Aligned(newRightStart, endInclusive, bits - 1)  by {
      if Aligned(start, endInclusive, bits) { Halves(start, endInclusive, bits); }
    }
    ((start, newLeftEnd), (newRightStart, endInclusive))
  }

  /** Writing one bit: the bits above it and the bits below it keep their values. */
  lemma SetBitEffect(id: nat, bit: nat, value: bool)
    requires bit < ID_BITS
    ensures var w := Weight(bit); var r := SetBit(id, bit, value);
            && r / (2 * w) == id / (2 * w)
            && r % w == id % w
            && GetBit(r, bit) == value
  {
    var w := Weight(bit);
    var q, m := id / w, id % w;
    SplitAt(id, w);
    QuotientOfDouble(id, w);
    var q2 := if (q % 2 == 1) == value then q else if value then q + 1 else q - 1;
    var r := q2 * w + m;
    assert q >= 0;
    if q2 == q + 1 { assert r == id + w; } else if q2 == q - 1 { assert r == id - w; }
    assert r == SetBit(id, bit, value);
    DivOfMultiple(q2, w, m);
    QuotientOfDouble(r, w);
  }

  lemma {:induction false} Pow2Sum(a: nat, b: nat)
    ensures Pow2(a + b) == Pow2(a) * Pow2(b)
  {
    if a > 0 { Pow2Sum(a - 1, b); }
  }

  lemma ModOfProduct(x: nat, v: nat, w: nat)
    requires v > 0 && w > 0 && v * w > 0
    ensures x % (v * w) % w == x % w
  {
    var q, m := x / (v * w), x % (v * w);
    SplitAt(x, v * w);
    SplitAt(m, w);
    var a, b := m / w, m % w;
    calc {
      x;
      q * (v * w) + m;
      (q * v) * w + (a * w + b);
      (q * v + a) * w + b;
    }
    DivOfMultiple(q * v + a, w, b);
  }

  /** Congruent modulo a power of two, hence modulo every smaller one. */
  lemma SameLowBits(x: nat, y: nat, big: nat, small: nat)
    requires small <= big && x % Pow2(big) == y % Pow2(big)
    ensures x % Pow2(small) == y % Pow2(small)
  {
    Pow2Sum(big - small, small);
    ModOfProduct(x, Pow2(big - small), Pow2(small));
    ModOfProduct(y, Pow2(big - small), Pow2(small));
  }

  lemma PrefixGrows(x: nat, y: nat, bit: nat)
    requires bit < ID_BITS
    requires SamePrefix(x, y, ID_BITS - bit) && GetBit(x, bit) == GetBit(y, bit)
    ensures SamePrefix(x, y, ID_BITS - bit - 1)
  {
    var w := Weight(bit);
    QuotientOfDouble(x, w);
    QuotientOfDouble(y, w);
    assert Pow2(ID_BITS - bit) == 2 * w;
  }

  /** A random id inside the block: its leading bits are the block's, its low bits stay random. */
  method GenerateRandomId(start: nat, bits: nat, random: nat) returns (r: nat)
    requires bits <= ID_BITS && random < Pow2(ID_BITS) && start < Pow2(ID_BITS)
    ensures SamePrefix(r, start, bits)
    ensures r % Pow2(bits) == random % Pow2(bits)
    ensures forall e :: Aligned(start, e, bits) ==> Within(r, start, e)
  {
    r := random;
    assert SamePrefix(r, start, ID_BITS) by {
      DivOfMultiple(0, Pow2(ID_BITS), r);
      DivOfMultiple(0, Pow2(ID_BITS), start);
    }
    for bit := 0 to ID_BITS - bits
      invariant SamePrefix(r, start, ID_BITS - bit)
      invariant r % Pow2(bits) == random % Pow2(bits)
    {
      SetBitEffect(r, bit, GetBit(start, bit));
      ghost var before := r;
      r := SetBit(r, bit, GetBit(start, bit));
      assert SamePrefix(r, start, ID_BITS - bit) by { assert Pow2(ID_BITS - bit) == 2 * Weight(bit); }
      PrefixGrows(r, start, bit);
      SameLowBits(r, before, ID_BITS - 1 - bit, bits);
    }
    forall e | Aligned(start, e, bits) ensures Within(r, start, e) {
      WithinIsSamePrefix(r, start, e, bits);
    }
  }
}
