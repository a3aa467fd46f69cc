/** Sampling the pieces of a partial file that another client left behind. */
module Sampling {
  import opened Prelude
  import opened FileTrees

  datatype AdoptFile = AdoptFile(fileId: nat, rel: Path, len: nat, offset: nat)

  datatype Sample = Verified | Zeros | NoFullPiece | Mismatch

  /** Piece length and hashes of the torrent, with the hash function. */
  datatype Pieces = Pieces(pieceLen: nat, totalLen: nat, hashes: seq<seq<Byte>>, hash: seq<Byte> -> seq<Byte>)

  // ------------------------------------------------------------- which pieces can be sampled

  /** Pieces `first` up to, not including, `last` are looked at for a file that starts at `start`
      and of which the bytes before `limit` are there. */
  function SampleRange(start: nat, limit: nat, pieceLen: nat, totalLen: nat): (nat, nat)
    requires pieceLen > 0
  {
    var first := (start + pieceLen - 1) / pieceLen;
    if first * pieceLen < limit then
      var last := first + (limit - first * pieceLen) / pieceLen;
      if last * pieceLen < totalLen && Min((last + 1) * pieceLen, totalLen) <= limit then (first, last + 1)
        else (first, last)
    else (first, first)
  }

  /** Piece `i` of the torrent lies inside the bytes from `start` to `limit`. */
  predicate PieceInside(i: nat, start: nat, limit: nat, pieceLen: nat, totalLen: nat) {
    i * pieceLen < totalLen && start <= i * pieceLen && Min((i + 1) * pieceLen, totalLen) <= limit
  }

  lemma MulNonNegative(x: nat, n: nat)
    ensures x * n >= 0
  {
  }

  lemma MulLess(a: nat, b: nat, n: nat)
    requires a < b
    ensures a * n + n <= b * n
  {
    MulNonNegative(b - a - 1, n);
    assert b * n == a * n + n + (b - a - 1) * n;
  }

  lemma MulNext(i: nat, n: nat)
    ensures (i + 1) * n == i * n + n
  {
  }

  lemma CeilDiv(start: nat, n: nat)
    requires n > 0
    ensures var c := (start + n - 1) / n; start <= c * n < start + n
  {
    var c := (start + n - 1) / n;
    assert start + n - 1 == c * n + (start + n - 1) % n;
  }

  lemma FloorDiv(x: nat, n: nat)
    requires n > 0
    ensures x / n * n <= x < x / n * n + n
  {
    assert x == x / n * n + x % n;
  }

  /** Given as the byte where a piece starts. */
  predicate InsideAt(p: nat, start: nat, limit: nat, pieceLen: nat, totalLen: nat) {
    p < totalLen && start <= p && Min(p + pieceLen, totalLen) <= limit
  }

  lemma BeforeFirst(start: nat, limit: nat, n: nat, total: nat, first: nat, i: nat)
    requires i < first && first * n < start + n
    ensures !InsideAt(i * n, start, limit, n, total)
  {
    MulLess(i, first, n);
  }

  lemma PastLimit(start: nat, limit: nat, n: nat, total: nat, p: nat)
    requires limit <= total && p + n > limit && p >= limit
    ensures !InsideAt(p, start, limit, n, total)
  {
  }

  lemma Between(start: nat, limit: nat, n: nat, total: nat, first: nat, last: nat, i: nat)
    requires n > 0 && limit <= total && first <= i < last && start <= first * n && last * n <= limit
    ensures InsideAt(i * n, start, limit, n, total)
  {
    MulLess(i, last, n);
    if first < i { MulLess(first, i, n); }
  }

  /** The sampled range is exactly the pieces that lie inside both the file and the candidate. */
  lemma SampleRangeExact(start: nat, limit: nat, pieceLen: nat, totalLen: nat, i: nat)
    requires pieceLen > 0 && start <= limit <= totalLen
    ensures var (first, last) := SampleRange(start, limit, pieceLen, totalLen);
            first <= i < last <==> PieceInside(i, start, limit, pieceLen, totalLen)
  {
    var n, first := pieceLen, (start + pieceLen - 1) / pieceLen;
    CeilDiv(start, n);
    MulNext(i, n);
    assert PieceInside(i, start, limit, n, totalLen) <==> InsideAt(i * n, start, limit, n, totalLen);
    if i < first {
      BeforeFirst(start, limit, n, totalLen, first, i);
    } else if first * n >= limit {
      if first < i { MulLess(first, i, n); }
      PastLimit(start, limit, n, totalLen, i * n);
    } else {
      FromFirst(start, limit, n, totalLen, first, i);
    }
  }

  lemma FromFirst(start: nat, limit: nat, n: nat, total: nat, first: nat, i: nat)
    requires n > 0 && start <= limit <= total && start <= first * n < limit && first <= i
    ensures var last := first + (limit - first * n) / n;
            InsideAt(i * n, start, limit, n, total) <==>
              i < last || (i == last && last * n < total && Min((last + 1) * n, total) <= limit)
  {
    var k := (limit - first * n) / n;
    var last := first + k;
    FloorDiv(limit - first * n, n);
    assert last * n == first * n + k * n;
    MulNext(last, n);
    if i < last {
      Between(start, limit, n, total, first, last, i);
    } else if i == last {
      MulNonNegative(k, n);
    } else {
      MulLess(last, i, n);
      PastLimit(start, limit, n, total, i * n);
    }
  }

  // ------------------------------------------------------------- picking a few of them

  /** Up to `n` indices below `count`, the first and the last among them. */
  function Spread(count: nat, n: nat): seq<nat>
    requires n > 1
  {
    if count <= n then seq(count, k => k) else seq(n, k requires 0 <= k < n => SpreadAt(count, n, k))
  }

  function SpreadAt(count: nat, n: nat, k: nat): nat
    requires count > 0 && n > 1
  {
    MulNonNegative(k, count - 1);
    k * (count - 1) / (n - 1)
  }

  lemma SpreadBelow(count: nat, n: nat, j: nat)
    requires n > 1 && count > 0 && j < n
    ensures SpreadAt(count, n, j) < count
  {
    var m, q := n - 1, j * (count - 1) / (n - 1);
    MulNonNegative(j, count - 1);
    FloorDiv(j * (count - 1), m);
    MulNonNegative(m - j, count - 1);
    assert m * (count - 1) == j * (count - 1) + (m - j) * (count - 1);
    if q > count - 1 { MulLess(count - 1, q, m); }
  }

  lemma SpreadLast(count: nat, n: nat)
    requires n > 1 && count > 0
    ensures SpreadAt(count, n, n - 1) == count - 1
  {
    var m, q := n - 1, (n - 1) * (count - 1) / (n - 1);
    MulNonNegative(m, count - 1);
    FloorDiv(m * (count - 1), m);
    if q < count - 1 { MulLess(q, count - 1, m); }
    if q > count - 1 { MulLess(count - 1, q, m); }
  }

  /** The indices are in range, and the two ends are among them. */
  lemma SpreadCovers(count: nat, n: nat)
    requires n > 1 && count > 0
    ensures forall k :: k in Spread(count, n) ==> k < count
    ensures 0 in Spread(count, n) && count - 1 in Spread(count, n)
  {
    var v := Spread(count, n);
    if count <= n {
      assert v[0] == 0 && v[count - 1] == count - 1;
    } else {
      forall j | 0 <= j < n ensures v[j] < count {
        SpreadBelow(count, n, j);
      }
      assert v[0] == SpreadAt(count, n, 0) == 0;
      SpreadLast(count, n);
      assert v[n - 1] == count - 1;
    }
  }

  // ------------------------------------------------------------- sampling a candidate

  /** The range of pieces that lie inside both the file and what is there of the candidate. */
  function RangeFor(f: AdoptFile, candLen: nat, ps: Pieces): (nat, nat)
    requires ps.pieceLen > 0
  {
    SampleRange(f.offset, f.offset + Min(f.len, candLen), ps.pieceLen, ps.totalLen)
  }

  /** The bytes of piece `i` in the candidate. */
  function PieceBytes(bytes: seq<Byte>, f: AdoptFile, ps: Pieces, i: nat): seq<Byte> {
    var start, end := i * ps.pieceLen, Min((i + 1) * ps.pieceLen, ps.totalLen);
    if f.offset <= start <= end <= f.offset + |bytes| then bytes[start - f.offset..end - f.offset] else []
  }

  function Reader(bytes: seq<Byte>, f: AdoptFile, ps: Pieces): nat -> seq<Byte> {
    (i: nat) => PieceBytes(bytes, f, ps, i)
  }

  /** Piece `i` of the candidate has the torrent's hash. */
  predicate PieceMatches(read: nat -> seq<Byte>, ps: Pieces, i: nat) {
    i < |ps.hashes| && ps.hash(read(i)) == ps.hashes[i]
  }

  /** Piece `i` of the candidate has not been written. */
  predicate PieceIsZero(read: nat -> seq<Byte>, i: nat) {
    forall k :: 0 <= k < |read(i)| ==> read(i)[k] == 0
  }

  function Good(read: nat -> seq<Byte>, ps: Pieces): nat -> bool {
    (i: nat) => PieceMatches(read, ps, i)
  }

  function Blank(read: nat -> seq<Byte>): nat -> bool {
    (i: nat) => PieceIsZero(read, i)
  }

  /** The pieces that are sampled when `n` are asked for. */
  function Spots(first: nat, last: nat, n: nat): seq<nat>
    requires first <= last && n > 1
  {
    var v := Spread(last - first, n);
    seq(|v|, j requires 0 <= j < |v| => first + v[j])
  }

  predicate AnyOf(p: nat -> bool, ks: seq<nat>) {
    exists i :: i in ks && p(i)
  }

  predicate AllOf(p: nat -> bool, ks: seq<nat>) {
    forall i :: i in ks ==> p(i)
  }

  /** A few pieces first, more when these are not conclusive. */
  function Verdict(good: nat -> bool, blank: nat -> bool, few: seq<nat>, many: seq<nat>): Sample {
    if AnyOf(good, few) then Verified
    else if AllOf(blank, few) then Zeros
    else if AnyOf(good, many) then Verified
    else Mismatch
  }

  /** What a candidate of the given length looks like. */
  function SampleFrom(read: nat -> seq<Byte>, f: AdoptFile, candLen: nat, ps: Pieces): Sample {
    if ps.pieceLen == 0 then NoFullPiece else
    var (first, last) := RangeFor(f, candLen, ps);
    if last <= first then NoFullPiece
    else Verdict(Good(read, ps), Blank(read), Spots(first, last, 3), Spots(first, last, 16))
  }

  function SampleOf(bytes: seq<Byte>, f: AdoptFile, ps: Pieces): Sample {
    SampleFrom(Reader(bytes, f, ps), f, |bytes|, ps)
  }

  lemma SpotsCover(first: nat, last: nat, n: nat)
    requires first < last && n > 1
    ensures forall i :: i in Spots(first, last, n) ==> first <= i < last
    ensures first in Spots(first, last, n) && last - 1 in Spots(first, last, n)
  {
    var v, s := Spread(last - first, n), Spots(first, last, n);
    SpreadCovers(last - first, n);
    forall i | i in s ensures first <= i < last {
      var j :| 0 <= j < |s| && s[j] == i;
      assert v[j] in v;
    }
    var a :| 0 <= a < |v| && v[a] == 0;
    var b :| 0 <= b < |v| && v[b] == last - first - 1;
    assert s[a] == first && s[b] == last - 1;
  }

  /** Piece `i` can be looked at in the candidate. */
  predicate Samplable(f: AdoptFile, candLen: nat, ps: Pieces, i: nat) {
    PieceInside(i, f.offset, f.offset + Min(f.len, candLen), ps.pieceLen, ps.totalLen)
  }

  lemma RangeIsSamplable(f: AdoptFile, candLen: nat, ps: Pieces, first: nat, last: nat)
    requires ps.pieceLen > 0 && f.offset + f.len <= ps.totalLen && RangeFor(f, candLen, ps) == (first, last)
    ensures forall i: nat :: first <= i < last <==> Samplable(f, candLen, ps, i)
  {
    forall i: nat ensures first <= i < last <==> Samplable(f, candLen, ps, i) {
      SampleRangeExact(f.offset, f.offset + Min(f.len, candLen), ps.pieceLen, ps.totalLen, i);
    }
  }

  /** A piece that can be looked at is read whole. */
  lemma ReadsWholePiece(bytes: seq<Byte>, f: AdoptFile, ps: Pieces, i: nat)
    requires Samplable(f, |bytes|, ps, i)
    ensures var start, end := i * ps.pieceLen, Min((i + 1) * ps.pieceLen, ps.totalLen);
            f.offset <= start <= end <= f.offset + |bytes|
              && Reader(bytes, f, ps)(i) == bytes[start - f.offset..end - f.offset]
  {
    MulNext(i, ps.pieceLen);
  }

  lemma VerdictMeans(good: nat -> bool, blank: nat -> bool, first: nat, last: nat)
    requires first < last
    ensures var v := Verdict(good, blank, Spots(first, last, 3), Spots(first, last, 16));
            && !v.NoFullPiece?
            && (v.Verified? ==> exists i :: first <= i < last && good(i))
            && (v.Mismatch? ==> !good(first) && !good(last - 1) && exists i :: first <= i < last && !blank(i))
            && (v.Zeros? ==> blank(first) && blank(last - 1))
  {
    SpotsCover(first, last, 3);
    SpotsCover(first, last, 16);
  }

  lemma GoodAt(read: nat -> seq<Byte>, ps: Pieces, i: nat)
    ensures Good(read, ps)(i) <==> PieceMatches(read, ps, i)
  {
  }

  lemma BlankAt(read: nat -> seq<Byte>, i: nat)
    ensures Blank(read)(i) <==> PieceIsZero(read, i)
  {
  }

  lemma VerifiedMeans(read: nat -> seq<Byte>, ps: Pieces, first: nat, last: nat)
    requires first < last
    requires Verdict(Good(read, ps), Blank(read), Spots(first, last, 3), Spots(first, last, 16)).Verified?
    ensures exists i :: first <= i < last && PieceMatches(read, ps, i)
  {
    var good := Good(read, ps);
    VerdictMeans(good, Blank(read), first, last);
    var i :| first <= i < last && good(i);
    GoodAt(read, ps, i);
  }

  lemma MismatchMeans(read: nat -> seq<Byte>, ps: Pieces, first: nat, last: nat)
    requires first < last
    requires Verdict(Good(read, ps), Blank(read), Spots(first, last, 3), Spots(first, last, 16)).Mismatch?
    ensures !PieceMatches(read, ps, first) && !PieceMatches(read, ps, last - 1)
    ensures exists i :: first <= i < last && !PieceIsZero(read, i)
  {
    var blank := Blank(read);
    VerdictMeans(Good(read, ps), blank, first, last);
    GoodAt(read, ps, first);
    GoodAt(read, ps, last - 1);
    var i :| first <= i < last && !blank(i);
    BlankAt(read, i);
  }

  lemma ZerosMeans(read: nat -> seq<Byte>, ps: Pieces, first: nat, last: nat)
    requires first < last
    requires Verdict(Good(read, ps), Blank(read), Spots(first, last, 3), Spots(first, last, 16)).Zeros?
    ensures PieceIsZero(read, first) && PieceIsZero(read, last - 1)
  {
    VerdictMeans(Good(read, ps), Blank(read), first, last);
    BlankAt(read, first);
    BlankAt(read, last - 1);
  }

  /** A candidate counts as verified only if a whole piece inside it has the torrent's hash, and as a
      mismatch only if its first and its last whole piece have not and some whole piece is not blank.
      Without a whole piece, and only then, nothing is said. */
  lemma SampleMeans(read: nat -> seq<Byte>, f: AdoptFile, candLen: nat, ps: Pieces)
    requires ps.pieceLen > 0 && f.offset + f.len <= ps.totalLen
    ensures SampleFrom(read, f, candLen, ps).NoFullPiece? <==> forall i :: !Samplable(f, candLen, ps, i)
    ensures SampleFrom(read, f, candLen, ps).Verified? ==>
              exists i :: Samplable(f, candLen, ps, i) && PieceMatches(read, ps, i)
    ensures SampleFrom(read, f, candLen, ps).Mismatch? ==>
              && (exists i :: Samplable(f, candLen, ps, i) && !PieceIsZero(read, i))
              && var (first, last) := RangeFor(f, candLen, ps);
                 first < last && !PieceMatches(read, ps, first) && !PieceMatches(read, ps, last - 1)
    ensures SampleFrom(read, f, candLen, ps).Zeros? ==>
              var (first, last) := RangeFor(f, candLen, ps);
              first < last && PieceIsZero(read, first) && PieceIsZero(read, last - 1)
  {
    var (first, last) := RangeFor(f, candLen, ps);
    RangeIsSamplable(f, candLen, ps, first, last);
    if first < last {
      assert Samplable(f, candLen, ps, first);
      VerdictMeans(Good(read, ps), Blank(read), first, last);
      if SampleFrom(read, f, candLen, ps).Verified? {
        VerifiedMeans(read, ps, first, last);
      } else if SampleFrom(read, f, candLen, ps).Mismatch? {
        MismatchMeans(read, ps, first, last);
      } else {
        ZerosMeans(read, ps, first, last);
      }
    }
  }

  /** Looks at the given pieces, each only once, until one matches. */
  method SampleRound(good: nat -> bool, blank: nat -> bool, ks: seq<nat>, sampled0: seq<nat>, zero0: bool)
    returns (verified: bool, sampled: seq<nat>, zero: bool)
    requires !AnyOf(good, sampled0) && zero0 == AllOf(blank, sampled0)
    ensures verified == AnyOf(good, ks)
    ensures !verified ==> !AnyOf(good, sampled) && zero == AllOf(blank, sampled)
    ensures !verified ==> forall i :: i in sampled <==> i in sampled0 || i in ks
  {
    sampled, zero := sampled0, zero0;
    for j := 0 to |ks|
      invariant !AnyOf(good, sampled) && zero == AllOf(blank, sampled)
      invariant forall i :: i in sampled <==> i in sampled0 || i in ks[..j]
    {
      var k := ks[j];
      assert ks[..j + 1] == ks[..j] + [k];
      if k !in sampled {
        if good(k) { return true, sampled, zero; }
        SampledOne(good, blank, sampled, k);
        sampled, zero := sampled + [k], zero && blank(k);
      }
    }
    assert ks[..|ks|] == ks;
    verified := false;
  }

  lemma SampledOne(good: nat -> bool, blank: nat -> bool, sampled: seq<nat>, k: nat)
    requires !AnyOf(good, sampled) && !good(k)
    ensures !AnyOf(good, sampled + [k])
    ensures AllOf(blank, sampled + [k]) <==> AllOf(blank, sampled) && blank(k)
  {
    assert k in sampled + [k];
    forall i | i in sampled ensures i in sampled + [k] {}
  }

  /** What a candidate looks like; nothing only when it cannot be read. */
  method SampleCandidate(bytes: seq<Byte>, f: AdoptFile, ps: Pieces, fails: bool) returns (r: Option<Sample>)
    ensures r.Some? ==> r.value == SampleOf(bytes, f, ps)
    ensures r.None? <==> fails && !SampleOf(bytes, f, ps).NoFullPiece?
  {
    if ps.pieceLen == 0 { return Some(NoFullPiece); }
    var (first, last) := RangeFor(f, |bytes|, ps);
    if last <= first { return Some(NoFullPiece); }
    if fails { return None; }
    var read := Reader(bytes, f, ps);
    var v := SampleRounds(Good(read, ps), Blank(read), Spots(first, last, 3), Spots(first, last, 16));
    r := Some(v);
  }

  method SampleRounds(good: nat -> bool, blank: nat -> bool, few: seq<nat>, many: seq<nat>) returns (r: Sample)
    ensures r == Verdict(good, blank, few, many)
  {
    var verified, sampled, zero := SampleRound(good, blank, few, [], true);
    if verified { return Verified; }
    assert AllOf(blank, sampled) <==> AllOf(blank, few);
    if zero { return Zeros; }
    ghost var before := sampled;
    verified, sampled, zero := SampleRound(good, blank, many, sampled, zero);
    if verified { return Verified; }
    assert !AllOf(blank, sampled) by {
      var i :| i in before && !blank(i);
      assert i in sampled;
    }
    if zero { return Zeros; }
    r := Mismatch;
  }
}
