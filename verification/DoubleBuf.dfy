/** A buffer that may be split into two slices, as a ring buffer hands them out. */
module DoubleBufs {
  import opened Prelude

  /** Two slices that stand for one buffer. */
  datatype DoubleBuf<T> = DoubleBuf(first: seq<T>, second: seq<T>)
  {
    function All(): seq<T> {
      first + second
    }

    function Len(): nat {
      |first| + |second|
    }

    /** The first `limit` bytes, still as two slices. */
    function AsIoSlices(limit: nat): (seq<T>, seq<T>) {
      var n0 := Min(|first|, limit);
      var n1 := Min(limit - n0, |second|);
      (first[..n0], second[..n1])
    }

    function Advance(offset: nat): DoubleBuf<T> {
      var a0 := Min(|first|, offset);
      var a1 := Min(offset - a0, |second|);
      DoubleBuf(first[a0..], second[a1..])
    }

    /** The next `n` bytes without copying, when one slice holds them all. */
    function GetContiguous(n: nat): Option<seq<T>> {
      if |first| >= n then Some(first[..n])
      else if |first| == 0 && |second| >= n then Some(second[..n])
      else None
    }

    function WithMaxLen(n: nat): DoubleBuf<T> {
      var (s0, s1) := AsIoSlices(n);
      DoubleBuf(s0, s1)
    }
  }

  /** The slices of a double buffer are a prefix of the whole, and advancing drops it. */
  lemma DoubleBufIsOne<T>(d: DoubleBuf<T>, n: nat)
    requires n <= d.Len()
    ensures d.AsIoSlices(n).0 + d.AsIoSlices(n).1 == d.All()[..n]
    ensures d.Advance(n).All() == d.All()[n..]
  {
  }

  /** A contiguous view exists exactly when the bytes do not straddle the split, and it is the
      front of the whole. */
  lemma ContiguousIsFront<T>(d: DoubleBuf<T>, n: nat)
    ensures d.GetContiguous(n).Some? <==> n <= |d.first| || (|d.first| == 0 && n <= |d.second|)
    ensures d.GetContiguous(n).Some? ==> n <= d.Len() && d.GetContiguous(n).value == d.All()[..n]
  {
  }
}
