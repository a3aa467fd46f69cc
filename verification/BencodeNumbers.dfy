/** Decimal numbers as the bencode parser and printer see them. */
module BencodeNumbers {
  import opened Prelude

  type Octet = x: nat | x < 256

  const BYTE_0: Octet := 48
  const BYTE_9: Octet := 57
  const BYTE_PLUS: Octet := 43
  const BYTE_MINUS: Octet := 45
  const BYTE_COLON: Octet := 58
  const BYTE_D: Octet := 100
  const BYTE_E: Octet := 101
  const BYTE_I: Octet := 105
  const BYTE_L: Octet := 108

  const TWO_63: nat := 0x8000_0000_0000_0000
  const TWO_64: nat := 0x1_0000_0000_0000_0000

  type I64 = x: int | 0 - TWO_63 <= x < TWO_63

  /** Two's complement wrap-around. */
  function WrapI64(x: int): I64 {
    (x + TWO_63) % TWO_64 - TWO_63
  }

  predicate IsDigit(b: Octet) {
    BYTE_0 <= b <= BYTE_9
  }

  function Decimal(n: nat): (r: seq<Octet>) {
    if n < 10 then [BYTE_0 + n] else Decimal(n / 10) + [BYTE_0 + n % 10]
  }

  function DecimalSigned(n: int): seq<Octet> {
    if n < 0 then [BYTE_MINUS] + Decimal(0 - n) else Decimal(n)
  }

  /** How many digits the buffer starts with. */
  function DigitsLen(s: seq<Octet>): (r: nat)
    ensures r <= |s|
  {
    if s == [] || !IsDigit(s[0]) then 0 else 1 + DigitsLen(s[1..])
  }

  /** The number the first `k` digits stand for. */
  function DigitsValue(s: seq<Octet>, k: nat): nat
    requires k <= |s|
    requires forall i :: 0 <= i < k ==> IsDigit(s[i])
  {
    if k == 0 then 0 else
      assert IsDigit(s[k - 1]);
      DigitsValue(s, k - 1) * 10 + (s[k - 1] - BYTE_0)
  }

  lemma {:induction false} DigitsLenAreDigits(s: seq<Octet>)
    ensures forall i :: 0 <= i < DigitsLen(s) ==> IsDigit(s[i])
    ensures DigitsLen(s) < |s| ==> !IsDigit(s[DigitsLen(s)])
  {
    if s != [] && IsDigit(s[0]) {
      DigitsLenAreDigits(s[1..]);
      forall i | 0 <= i < DigitsLen(s) ensures IsDigit(s[i]) {
        if i > 0 { assert s[i] == s[1..][i - 1]; }
      }
    }
  }

  /** The number and how many bytes it took, wrapping around at 64 bits. */
  function FromRadix10(s: seq<Octet>): (nat, nat) {
    var len := DigitsLen(s);
    DigitsLenAreDigits(s);
    (DigitsValue(s, len) % TWO_64, len)
  }

  /** As above with an optional sign, which counts as a byte even without digits after it. */
  function FromRadix10Signed(s: seq<Octet>): (I64, nat) {
    if s != [] && s[0] == BYTE_MINUS then
      var len := DigitsLen(s[1..]);
      DigitsLenAreDigits(s[1..]);
      (WrapI64(0 - DigitsValue(s[1..], len)), len + 1)
    else if s != [] && s[0] == BYTE_PLUS then
      var len := DigitsLen(s[1..]);
      DigitsLenAreDigits(s[1..]);
      (WrapI64(DigitsValue(s[1..], len)), len + 1)
    else
      var len := DigitsLen(s);
      DigitsLenAreDigits(s);
      (WrapI64(DigitsValue(s, len)), len)
  }

  /** The number of leading digits is where the first non-digit is. */
  lemma {:induction false} DigitsLenIs(s: seq<Octet>, k: nat)
    requires k <= |s| && (forall i :: 0 <= i < k ==> IsDigit(s[i])) && (k < |s| ==> !IsDigit(s[k]))
    ensures DigitsLen(s) == k
  {
    if k > 0 {
      assert forall i :: 0 <= i < k - 1 ==> s[1..][i] == s[i + 1];
      DigitsLenIs(s[1..], k - 1);
    }
  }

  lemma {:induction false} DigitsValuePrefix(s: seq<Octet>, t: seq<Octet>, k: nat)
    requires k <= |s| && k <= |t| && s[..k] == t[..k]
    requires forall i :: 0 <= i < k ==> IsDigit(s[i])
    ensures forall i :: 0 <= i < k ==> IsDigit(t[i])
    ensures DigitsValue(s, k) == DigitsValue(t, k)
  {
    forall i | 0 <= i < k ensures t[i] == s[i] { assert s[..k][i] == t[..k][i]; }
    if k > 0 {
      assert s[..k - 1] == s[..k][..k - 1] == t[..k][..k - 1] == t[..k - 1];
      DigitsValuePrefix(s, t, k - 1);
    }
  }

  lemma {:induction false} DecimalDigits(n: nat)
    ensures |Decimal(n)| > 0
    ensures forall i :: 0 <= i < |Decimal(n)| ==> IsDigit(Decimal(n)[i])
    ensures DigitsValue(Decimal(n), |Decimal(n)|) == n
  {
    if n >= 10 {
      DecimalDigits(n / 10);
      var s := Decimal(n);
      assert s[..|s| - 1] == Decimal(n / 10);
      DigitsValuePrefix(Decimal(n / 10), s, |s| - 1);
    } else {
      assert DigitsValue(Decimal(n), 0) == 0;
    }
  }

  /** Reading back a printed number that is followed by something else. */
  lemma FromRadix10OfDecimal(n: nat, rest: seq<Octet>)
    requires n < TWO_64 && (rest != [] ==> !IsDigit(rest[0]))
    ensures FromRadix10(Decimal(n) + rest) == (n, |Decimal(n)|)
  {
    DecimalValue(n, rest);
  }

  lemma DecimalValue(n: nat, rest: seq<Octet>)
    requires rest != [] ==> !IsDigit(rest[0])
    ensures DigitsLen(Decimal(n) + rest) == |Decimal(n)| > 0
    ensures forall i :: 0 <= i < |Decimal(n)| ==> IsDigit((Decimal(n) + rest)[i])
    ensures DigitsValue(Decimal(n) + rest, |Decimal(n)|) == n
  {
    DecimalDigits(n);
    var s := Decimal(n) + rest;
    DigitsLenIs(s, |Decimal(n)|);
    assert s[..|Decimal(n)|] == Decimal(n)[..|Decimal(n)|];
    DigitsValuePrefix(Decimal(n), s, |Decimal(n)|);
  }

  lemma FromRadix10SignedOfDecimal(n: I64, rest: seq<Octet>)
    requires rest != [] ==> !IsDigit(rest[0])
    ensures FromRadix10Signed(DecimalSigned(n) + rest) == (n, |DecimalSigned(n)|)
    ensures |DecimalSigned(n)| > 0
  {
    var m: nat := if n < 0 then 0 - n else n;
    DecimalValue(m, rest);
    var s := DecimalSigned(n) + rest;
    if n < 0 {
      assert s[1..] == Decimal(m) + rest;
    } else {
      assert IsDigit(s[0]);
    }
  }

  /** Appending bytes after a number that is already delimited changes nothing. */
  lemma {:induction false} DigitsLenAppend(s: seq<Octet>, x: seq<Octet>)
    requires DigitsLen(s) < |s|
    ensures DigitsLen(s + x) == DigitsLen(s)
  {
    DigitsLenAreDigits(s);
    assert forall i :: 0 <= i < |s| ==> (s + x)[i] == s[i];
    DigitsLenIs(s + x, DigitsLen(s));
  }

  lemma FromRadix10Append(s: seq<Octet>, x: seq<Octet>)
    requires FromRadix10(s).1 < |s|
    ensures FromRadix10(s + x) == FromRadix10(s)
  {
    DigitsLenAppend(s, x);
    DigitsLenAreDigits(s);
    var k := DigitsLen(s);
    assert (s + x)[..k] == s[..k];
    DigitsValuePrefix(s, s + x, k);
  }

  lemma FromRadix10SignedAppend(s: seq<Octet>, x: seq<Octet>)
    requires FromRadix10Signed(s).1 < |s|
    ensures FromRadix10Signed(s + x) == FromRadix10Signed(s)
  {
    if s[0] == BYTE_MINUS || s[0] == BYTE_PLUS {
      var t := s[1..];
      assert (s + x)[1..] == t + x;
      DigitsLenAppend(t, x);
      DigitsLenAreDigits(t);
      assert (t + x)[..DigitsLen(t)] == t[..DigitsLen(t)];
      DigitsValuePrefix(t, t + x, DigitsLen(t));
    } else {
      DigitsLenAppend(s, x);
      DigitsLenAreDigits(s);
      assert (s + x)[..DigitsLen(s)] == s[..DigitsLen(s)];
      DigitsValuePrefix(s, s + x, DigitsLen(s));
    }
  }
}
