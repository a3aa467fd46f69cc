/** The ring buffer that peer messages are read through. */
module ReadBuffers {
  import opened Prelude
  import opened BencodeNumbers
  import opened DoubleBufs
  import opened PeerMessages

  const BUFLEN: nat := 0x8000

  datatype ReadError = ReadBufFull(need: nat) | PeerDisconnected | Deserialize(e: Error) | BugMakeContiguous

  // ------------------------------------------------------------- the ring as a value

  function FirstLen(start: nat, len: nat): (r: nat)
    requires start < BUFLEN && len <= BUFLEN
    ensures r <= len && start + r <= BUFLEN
  {
    Min(len, BUFLEN - start)
  }

  /** The filled part: up to the end of the buffer, then from its beginning. */
  function Ring(b: seq<Octet>, start: nat, len: nat): DoubleBuf<Octet>
    requires |b| == BUFLEN && start < BUFLEN && len <= BUFLEN
  {
    var n := FirstLen(start, len);
    DoubleBuf(b[start..start + n], b[..len - n])
  }

  lemma RingLen(b: seq<Octet>, start: nat, len: nat)
    requires |b| == BUFLEN && start < BUFLEN && len <= BUFLEN
    ensures Ring(b, start, len).Len() == len == |Ring(b, start, len).All()|
    ensures Ring(b, start, len).second != [] <==> start + len > BUFLEN
  {
  }

  /** Index of the `i`-th byte counted from `start`. */
  function Pos(start: nat, i: nat): (r: nat)
    ensures start < BUFLEN && i <= BUFLEN ==> r == (if start + i < BUFLEN then start + i else start + i - BUFLEN)
    ensures r < BUFLEN
  {
    (start + i) % BUFLEN
  }

  lemma RingAt(b: seq<Octet>, start: nat, len: nat, i: nat)
    requires |b| == BUFLEN && start < BUFLEN && i < len <= BUFLEN
    ensures |Ring(b, start, len).All()| == len
    ensures Ring(b, start, len).All()[i] == b[Pos(start, i)]
  {
  }

  lemma RingAtFront(b: seq<Octet>, s: seq<Octet>)
    requires |b| == BUFLEN && |s| <= BUFLEN && forall k :: 0 <= k < |s| ==> b[k] == s[k]
    ensures Ring(b, 0, |s|).All() == s
  {
  }

  /** Consuming from the front is moving the start. */
  lemma RingAdvance(b: seq<Octet>, start: nat, len: nat, n: nat)
    requires |b| == BUFLEN && start < BUFLEN && n <= len <= BUFLEN
    ensures Ring(b, Pos(start, n), len - n).All() == Ring(b, start, len).All()[n..]
  {
    var was, now := Ring(b, start, len).All(), Ring(b, Pos(start, n), len - n).All();
    RingLen(b, start, len);
    RingLen(b, Pos(start, n), len - n);
    forall i | 0 <= i < len - n ensures now[i] == was[n + i] {
      RingAt(b, start, len, n + i);
      RingAt(b, Pos(start, n), len - n, i);
    }
    SameAfterDrop(now, was, n);
  }

  lemma SameAfterDrop(a: seq<Octet>, b: seq<Octet>, n: nat)
    requires n <= |b| && |a| == |b| - n && forall i :: 0 <= i < |a| ==> a[i] == b[n + i]
    ensures a == b[n..]
  {
  }

  /** The buffer `c` holds what `b` held in the filled part. */
  ghost predicate FilledKept(b: seq<Octet>, c: seq<Octet>, start: nat, len: nat)
    requires |b| == |c| == BUFLEN
  {
    forall i :: 0 <= i < len ==> c[Pos(start, i)] == b[Pos(start, i)]
  }

  /** The bytes after the filled part of `c` are `more`. */
  ghost predicate Follows(c: seq<Octet>, start: nat, len: nat, more: seq<Octet>)
    requires |c| == BUFLEN
  {
    forall i :: 0 <= i < |more| ==> c[Pos(start, len + i)] == more[i]
  }

  /** Bytes written right after the filled part are appended to the contents. */
  lemma RingExtend(b: seq<Octet>, c: seq<Octet>, start: nat, len: nat, more: seq<Octet>)
    requires |b| == |c| == BUFLEN && start < BUFLEN && len + |more| <= BUFLEN
    requires FilledKept(b, c, start, len) && Follows(c, start, len, more)
    ensures Ring(c, start, len + |more|).All() == Ring(b, start, len).All() + more
  {
    var was, now := Ring(b, start, len).All(), Ring(c, start, len + |more|).All();
    RingLen(b, start, len);
    RingLen(c, start, len + |more|);
    forall i | 0 <= i < len ensures now[i] == was[i] {
      RingAt(c, start, len + |more|, i);
      RingAt(b, start, len, i);
    }
    forall i | 0 <= i < |more| ensures now[len + i] == more[i] {
      RingAt(c, start, len + |more|, len + i);
    }
    SameAsAppended(now, was, more);
  }

  lemma SameAsAppended(a: seq<Octet>, b: seq<Octet>, c: seq<Octet>)
    requires |a| == |b| + |c| && (forall i :: 0 <= i < |b| ==> a[i] == b[i]) && forall i :: 0 <= i < |c| ==>
             a[|b| + i] == c[i]
    ensures a == b + c
  {
  }

  // ------------------------------------------------------------- what a stream of bytes yields

  function Window(s: seq<Octet>): (w: seq<Octet>)
    ensures |w| == Min(BUFLEN, |s|) && w <= s
  {
    s[..Min(BUFLEN, |s|)]
  }

  /** The outcome of reading one message when `s` is everything that is not consumed yet, and
      how many bytes that consumes. */
  function Expected(dec: Decoders, s: seq<Octet>): (Result<Message, ReadError>, nat) {
    var o := FrameOf(dec, Window(s));
    if o.Msg? then (Ok(o.m), o.size)
    else if o.Bad? then (Err(ReadError.Deserialize(o.e)), 0)
    else if o.NotEnoughData? && |s| >= BUFLEN then (Err(ReadBufFull(o.need % 0x1_0000)), 0)
    else (Err(PeerDisconnected), 0)
  }

  /** All messages up to the first error. */
  function Messages(dec: Decoders, s: seq<Octet>): (seq<Message>, ReadError)
    decreases |s|
  {
    var (r, n) := Expected(dec, s);
    if r.Err? then ([], r.error)
    else
      FrameSize(dec, Window(s));
      var (ms, e) := Messages(dec, s[n..]);
      ([r.value] + ms, e)
  }

  /** The frame at the front has arrived whole. */
  predicate WholeFrame(s: seq<Octet>) {
    |s| >= 4 && 4 + BigEndian(s[..4]) <= |s|
  }

  /** A frame that says "extended message" and nothing else. */
  predicate EmptyExtended(s: seq<Octet>) {
    |s| >= 5 && BigEndian(s[..4]) == 1 && s[4] == 20
  }

  /** Only an extended message without a body is asked for more although it is whole. */
  lemma WholeFrameIsDecided(dec: Decoders, s: seq<Octet>)
    ensures FrameOf(dec, s).NotEnoughData? <==> !WholeFrame(s) || EmptyExtended(s)
  {
    if |s| >= 4 {
      var n := BigEndian(s[..4]);
      assert |s| >= 5 ==> s[4..][0] == s[4];
    }
  }

  /** A frame that has arrived and fits the buffer is delivered or rejected, unless it is an
      empty extended message: that one never is, whatever follows it. */
  lemma DecidedIff(dec: Decoders, s: seq<Octet>)
    ensures var r := Expected(dec, s).0;
            r.Ok? || r.error.Deserialize? <==> WholeFrame(s) && 4 + BigEndian(s[..4]) <= BUFLEN && !EmptyExtended(s)
  {
    var w := Window(s);
    if |s| >= 4 { assert w[..4] == s[..4]; }
    WholeFrameIsDecided(dec, w);
    FrameSize(dec, w);
  }

  /** While no frame is longer than the buffer, the buffer's size plays no part. */
  lemma BufferSizeDoesNotMatter(dec: Decoders, s: seq<Octet>)
    requires |s| >= 4 ==> 4 + BigEndian(s[..4]) <= BUFLEN
    ensures FrameOf(dec, Window(s)) == FrameOf(dec, s)
  {
    if |s| > BUFLEN {
      var w, t := Window(s), s[BUFLEN..];
      assert s == w + t;
      assert w[..4] == s[..4];
      FrameMonotone(dec, w, t);
      WholeFrameIsDecided(dec, w);
      if EmptyExtended(w) {
        EmptyExtendedStays(dec, w);
        EmptyExtendedStays(dec, s);
      }
    } else {
      assert Window(s) == s;
    }
  }

  lemma EmptyExtendedStays(dec: Decoders, s: seq<Octet>)
    requires EmptyExtended(s)
    ensures FrameOf(dec, s) == NotEnoughData(1)
  {
    assert s[4..][0] == 20;
    assert s[4..][1..1] == [];
  }

  // ------------------------------------------------------------- the buffer object

  /** The bytes a peer will still send. */
  class Connection {
    var incoming: seq<Octet>
  }

  class ReadBuf {
    const buf: array<Octet>
    var start: nat
    var len: nat

    ghost predicate Valid()
      reads this
    {
      buf.Length == BUFLEN && start < BUFLEN && len <= BUFLEN
    }

    ghost function Contents(): seq<Octet>
      requires Valid()
      reads this, buf
    {
      Ring(buf[..], start, len).All()
    }

    constructor ()
      ensures Valid() && fresh(buf) && Contents() == []
    {
      buf := new Octet[BUFLEN](_ => 0);
      start, len := 0, 0;
      new;
      RingLen(buf[..], 0, 0);
    }

    method AsSlices() returns (d: DoubleBuf<Octet>)
      requires Valid()
      ensures d == Ring(buf[..], start, len)
    {
      var first := Min(len, BUFLEN - start);
      d := DoubleBuf(buf[start..start + first], buf[..SaturatingSub(len, first)]);
    }

    method Advance(n: nat)
      requires Valid()
      modifies this`start, this`len
      ensures Valid() && Contents() == old(Contents())[Min(n, old(len))..]
    {
      ghost var b := buf[..];
      RingLen(b, start, len);
      if n <= len {
        RingAdvance(b, start, len, n);
      } else {
        RingLen(b, Pos(start, n), 0);
      }
      len := SaturatingSub(len, n);
      start := Pos(start, n);
    }

    /** Where the next bytes go: two stretches that are exactly the unfilled part. */
    method UnfilledIoSlices() returns (writeStart: nat, firstLen: nat, secondLen: nat)
      requires Valid()
      ensures UnfilledAre(start, len, writeStart, firstLen, secondLen)
    {
      writeStart := Pos(start, len);
      var available := SaturatingSub(BUFLEN, len);
      firstLen := Min(SaturatingSub(BUFLEN, writeStart), available);
      secondLen := SaturatingSub(available, firstLen);
    }

    /** One vectored read: the connection chooses how much, nothing only when it has ended. */
    method ReadVectored(conn: Connection) returns (n: nat)
      requires Valid() && len < BUFLEN
      modifies this`len, buf, conn
      ensures Valid() && n <= |old(conn.incoming)| && (n == 0 <==> old(conn.incoming) == [])
      ensures len == old(len) + n
      ensures Contents() == old(Contents()) + old(conn.incoming)[..n] && conn.incoming == old(conn.incoming)[n..]
    {
      var ws, fl, sl := UnfilledIoSlices();
      if conn.incoming == [] {
        n := 0;
        assert Contents() == old(Contents()) + [];
        return;
      }
      n := SomeUpTo(Min(fl + sl, |conn.incoming|));
      Receive(conn.incoming[..n], ws, fl, sl);
      conn.incoming := conn.incoming[n..];
    }

    method Receive(data: seq<Octet>, ws: nat, fl: nat, sl: nat)
      requires Valid() && |data| <= fl + sl && UnfilledAre(start, len, ws, fl, sl)
      modifies this`len, buf
      ensures Valid() && len == old(len) + |data| && Contents() == old(Contents()) + data
    {
      ghost var before := buf[..];
      CopyIn(data, ws, fl, sl);
      RingExtend(before, buf[..], start, len, data);
      len := len + |data|;
    }

    method CopyIn(data: seq<Octet>, ws: nat, fl: nat, sl: nat)
      requires Valid() && |data| <= fl + sl && UnfilledAre(start, len, ws, fl, sl)
      modifies buf
      ensures FilledKept(old(buf[..]), buf[..], start, len) && Follows(buf[..], start, len, data)
    {
      for i := 0 to |data|
        invariant FilledKept(old(buf[..]), buf[..], start, len) && Follows(buf[..], start, len, data[..i])
      {
        ghost var was := buf[..];
        SlotIsPos(start, len, ws, fl, sl, i);
        buf[Slot(i, ws, fl)] := data[i];
        WriteNext(old(buf[..]), was, start, len, data[..i], data[i]);
        assert buf[..] == was[Pos(start, len + i) := data[i]];
        assert data[..i + 1] == data[..i] + [data[i]];
      }
      assert data[..|data|] == data;
    }

    /** `start + len` has not wrapped around. */
    predicate IsContiguous()
      requires Valid()
      reads this
    {
      start + len == (start + len) % BUFLEN
    }

    method Overwrite(data: seq<Octet>)
      requires buf.Length == BUFLEN && |data| <= BUFLEN
      modifies buf
      ensures forall k :: 0 <= k < |data| ==> buf[k] == data[k]
      ensures forall k :: |data| <= k < BUFLEN ==> buf[k] == 0
    {
      forall k | 0 <= k < BUFLEN {
        buf[k] := if k < |data| then data[k] else 0;
      }
    }

    /** Moves the contents to the front of the buffer. */
    method MakeContiguous() returns (r: Result<(), ReadError>)
      requires Valid()
      modifies this`start, buf
      ensures Valid() && Contents() == old(Contents())
      ensures r.Err? <==> old(start + len) < BUFLEN
      ensures r.Ok? ==> start == 0
    {
      if IsContiguous() { return Err(BugMakeContiguous); }
      var d := AsSlices();
      RingLen(buf[..], start, len);
      var joined := d.All();
      Overwrite(joined);
      start := 0;
      RingAtFront(buf[..], joined);
      r := Ok(());
    }

    /** Decodes where the bytes lie; joining them first is asked for only when they wrap around. */
    method TryDecode(dec: Decoders) returns (o: Outcome)
      requires Valid() && Stable(dec.header)
      ensures |Contents()| == len
      ensures o == FrameOf(dec, Contents()) || (o == NeedContiguous && start + len > BUFLEN)
      ensures o.Msg? ==> o.size <= len
      ensures o.NotEnoughData? ==> o.need > 0
    {
      var d := AsSlices();
      RingLen(buf[..], start, len);
      SplitDoesNotMatter(dec, d);
      FrameSize(dec, d.All());
      o := PeerMessages.Deserialize(dec, d);
    }

    /** Reads until `need` more bytes have come in. */
    method FillAtLeast(conn: Connection, need: nat) returns (failed: Option<ReadError>)
      requires Valid()
      modifies this`len, buf, conn
      ensures Valid() && Contents() + conn.incoming == old(Contents()) + old(conn.incoming)
      ensures len >= old(len) && |Contents()| == len && old(Contents()) <= Contents()
      ensures failed.None? ==> len >= old(len) + need && |conn.incoming| == |old(conn.incoming)| - (len - old(len))
      ensures failed.Some? ==> len < old(len) + need
      ensures failed.Some? ==> if len == BUFLEN then failed.value == ReadBufFull((need - (len - old(len))) % 0x1_0000)
                               else failed.value == PeerDisconnected && conn.incoming == []
    {
      var left := need;
      failed := None;
      RingLen(buf[..], start, len);
      while left > 0
        invariant Valid() && len >= old(len) && left == SaturatingSub(need, len - old(len))
        invariant Contents() + conn.incoming == old(Contents()) + old(conn.incoming)
        invariant |Contents()| == len && old(Contents()) <= Contents()
        invariant |conn.incoming| == |old(conn.incoming)| - (len - old(len))
      {
        if len == BUFLEN { return Some(ReadBufFull(left % 0x1_0000)); }
        ghost var c, inc := Contents(), conn.incoming;
        var n := ReadVectored(conn);
        RingLen(buf[..], start, len);
        FifoStep(c, inc, n);
        if n == 0 { return Some(PeerDisconnected); }
        left := SaturatingSub(left, n);
      }
    }

    /** More bytes for a frame that is `need` bytes short; an error answers the whole read. */
    method ReadMore(conn: Connection, need: nat, ghost dec: Decoders) returns (failed: Option<ReadError>)
      requires Valid() && need > 0 && FrameOf(dec, Contents()) == NotEnoughData(need)
      modifies this`len, buf, conn
      ensures Valid() && Contents() + conn.incoming == old(Contents()) + old(conn.incoming)
      ensures failed.Some? ==>
              Answers(dec, old(Contents()) + old(conn.incoming), Err(failed.value), Contents() + conn.incoming)
      ensures failed.None? ==> |conn.incoming| < |old(conn.incoming)|
    {
      ghost var c, s := Contents(), Contents() + conn.incoming;
      RingLen(buf[..], start, len);
      failed := FillAtLeast(conn, need);
      if failed.Some? { ShortOfData(dec, s, c, Contents(), conn.incoming, need); }
    }

    /** One turn of the reading loop: the answer, or progress with nothing lost. */
    method Attempt(conn: Connection, dec: Decoders) returns (r: Option<Result<Message, ReadError>>)
      requires Valid() && Stable(dec.header)
      modifies this, buf, conn
      ensures Valid()
      ensures r.Some? ==> Answers(dec, old(Contents()) + old(conn.incoming), r.value, Contents() + conn.incoming)
      ensures r.None? ==> Contents() + conn.incoming == old(Contents()) + old(conn.incoming)
      ensures r.None? ==> |conn.incoming| < |old(conn.incoming)| ||
                          (conn.incoming == old(conn.incoming) && start + len <= BUFLEN < old(start + len))
    {
      ghost var c, s := Contents(), Contents() + conn.incoming;
      var o := TryDecode(dec);
      r := None;
      if o.Msg? {
        DecidedNow(dec, s, c, conn.incoming);
        Advance(o.size);
        r := Some(Ok(o.m));
      } else if o.NotEnoughData? {
        var failed := ReadMore(conn, o.need, dec);
        r := if failed.Some? then Some(Err(failed.value)) else None;
      } else if o.NeedContiguous? {
        var joined := MakeContiguous();
      } else {
        DecidedNow(dec, s, c, conn.incoming);
        r := Some(Err(ReadError.Deserialize(o.e)));
      }
    }

    /** The result depends on the unconsumed bytes alone: not on how they are cut into reads, nor
        on where they lie in the ring. Exactly the message is consumed. */
    method ReadMessage(conn: Connection, dec: Decoders) returns (r: Result<Message, ReadError>)
      requires Valid() && Stable(dec.header)
      modifies this, buf, conn
      ensures Valid() && Answers(dec, old(Contents()) + old(conn.incoming), r, Contents() + conn.incoming)
    {
      ghost var s := Contents() + conn.incoming;
      while true
        invariant Valid() && Contents() + conn.incoming == s
        decreases |conn.incoming|, start + len > BUFLEN
      {
        var attempt := Attempt(conn, dec);
        if attempt.Some? { return attempt.value; }
      }
    }
  }

  /** The answer for the unconsumed bytes `s`, and what is left of them. */
  ghost predicate Answers(dec: Decoders, s: seq<Octet>, r: Result<Message, ReadError>, left: seq<Octet>) {
    var (e, n) := Expected(dec, s);
    r == e && n <= |s| && left == s[n..]
  }

  /** Any amount from one up. */
  method SomeUpTo(max: nat) returns (n: nat)
    requires max > 0
    ensures 0 < n <= max
  {
    n :| 0 < n <= max;
  }

  /** The two stretches lie inside the buffer and are, together, what is not filled. */
  ghost predicate UnfilledAre(start: nat, len: nat, ws: nat, fl: nat, sl: nat) {
    ws == Pos(start, len) && ws + fl <= BUFLEN && sl <= ws && fl + sl == BUFLEN - len && (sl > 0 ==> ws + fl == BUFLEN)
  }

  /** Every byte of the buffer is either filled or free to be written. */
  lemma FilledAndUnfilledPartition(start: nat, len: nat, ws: nat, fl: nat, sl: nat, k: nat)
    requires start < BUFLEN && len <= BUFLEN && UnfilledAre(start, len, ws, fl, sl) && k < BUFLEN
    ensures InFilled(k, start, len) <==> !InUnfilled(k, ws, fl, sl)
  {
  }

  lemma SlotIsPos(start: nat, len: nat, ws: nat, fl: nat, sl: nat, j: nat)
    requires start < BUFLEN && len <= BUFLEN && UnfilledAre(start, len, ws, fl, sl) && j < fl + sl
    ensures Slot(j, ws, fl) == Pos(start, len + j)
  {
  }

  lemma WriteNext(b: seq<Octet>, c: seq<Octet>, start: nat, len: nat, more: seq<Octet>, x: Octet)
    requires |b| == |c| == BUFLEN && start < BUFLEN && len + |more| < BUFLEN
    requires FilledKept(b, c, start, len) && Follows(c, start, len, more)
    ensures var d := c[Pos(start, len + |more|) := x];
            FilledKept(b, d, start, len) && Follows(d, start, len, more + [x])
  {
  }

  predicate InFilled(k: nat, start: nat, len: nat) {
    start <= k < start + len || k + BUFLEN < start + len
  }

  predicate InUnfilled(k: nat, ws: nat, fl: nat, sl: nat) {
    ws <= k < ws + fl || k < sl
  }

  /** The place of the `j`-th byte that is read. */
  function Slot(j: nat, ws: nat, fl: nat): nat {
    if j < fl then ws + j else j - fl
  }

  lemma FifoStep(c: seq<Octet>, inc: seq<Octet>, n: nat)
    requires n <= |inc|
    ensures (c + inc[..n]) + inc[n..] == c + inc
  {
  }

  /** What the buffered bytes decide is what the whole stream decides. */
  lemma DecidedNow(dec: Decoders, s: seq<Octet>, c: seq<Octet>, left: seq<Octet>)
    requires c + left == s && |c| <= BUFLEN && !FrameOf(dec, c).NotEnoughData?
    ensures FrameOf(dec, Window(s)) == FrameOf(dec, c)
    ensures FrameOf(dec, c).Msg? ==>
            FrameOf(dec, c).size <= |c| && c[FrameOf(dec, c).size..] + left == s[FrameOf(dec, c).size..]
    ensures s[0..] == s
  {
    var t := Window(s)[|c|..];
    assert Window(s) == c + t;
    FrameMonotone(dec, c, t);
    FrameSize(dec, c);
  }

  /** With the buffer full or the stream at its end, the frame is still short. */
  lemma ShortOfData(dec: Decoders, s: seq<Octet>, c: seq<Octet>, now: seq<Octet>, left: seq<Octet>, need: nat)
    requires FrameOf(dec, c) == NotEnoughData(need)
    requires c <= now && now + left == s && |now| <= BUFLEN && |now| < |c| + need && (|now| == BUFLEN || left == [])
    ensures FrameOf(dec, Window(s)) == NotEnoughData(need - (|now| - |c|)) && (|s| >= BUFLEN <==> |now| == BUFLEN)
    ensures s[0..] == s
  {
    assert Window(s) == now;
    var t := now[|c|..];
    assert now == c + t;
    FrameMonotone(dec, c, t);
  }

  /** Reading messages until something stops it yields the messages of the stream, in order. */
  method ReadAll(rb: ReadBuf, conn: Connection, dec: Decoders) returns (ms: seq<Message>, e: ReadError)
    requires rb.Valid() && Stable(dec.header)
    modifies rb, rb.buf, conn
    ensures (ms, e) == Messages(dec, old(rb.Contents()) + old(conn.incoming))
  {
    ghost var s := rb.Contents() + conn.incoming;
    ghost var rest := s;
    ms := [];
    assert [] + Messages(dec, s).0 == Messages(dec, s).0;
    while true
      invariant rb.Valid() && rb.Contents() + conn.incoming == rest
      invariant Messages(dec, s) == (ms + Messages(dec, rest).0, Messages(dec, rest).1)
      decreases |rest|
    {
      var r := rb.ReadMessage(conn, dec);
      ghost var n := Expected(dec, rest).1;
      if r.Err? {
        assert ms + [] == ms;
        return ms, r.error;
      }
      FrameSize(dec, Window(rest));
      MessagesStep(dec, rest, ms);
      ms := ms + [r.value];
      rest := rest[n..];
    }
  }

  lemma MessagesStep(dec: Decoders, s: seq<Octet>, ms: seq<Message>)
    requires Expected(dec, s).0.Ok? && Expected(dec, s).1 <= |s|
    ensures var next := Messages(dec, s[Expected(dec, s).1..]);
            Messages(dec, s).1 == next.1 && ms + Messages(dec, s).0 == (ms + [Expected(dec, s).0.value]) + next.0
  {
  }
}
