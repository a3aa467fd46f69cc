/** Framing and decoding of peer messages from a buffer that may be split in two. */
module PeerMessages {
  import opened Prelude
  import opened BencodeNumbers
  import opened BencodeValues
  import BencodeParsing
  import opened DoubleBufs

  const CHUNK_SIZE := 16384
  /** Length of the longest `ut_metadata` header that is looked at. */
  const MAX_HEADER := 55
  const UT_METADATA: Octet := 3

  datatype UtHeader = UtHeader(msgType: nat, piece: nat, totalSize: Option<nat>)

  datatype UtMetadata = UtRequest(piece: nat) | UtData(piece: nat, totalSize: nat,
    data: seq<Octet>) | UtReject(piece: nat)

  datatype ExtendedMessage = UtMessage(ut: UtMetadata) | Other(id: Octet, value: Value)

  /** A block of a piece is kept as the two slices joined. */
  datatype Message =
    | KeepAlive | Choke | Unchoke | Interested | NotInterested
    | Have(index: nat) | Bitfield(bits: seq<Octet>)
    | Request(index: nat, begin: nat, length: nat) | Cancel(index: nat, begin: nat, length: nat)
    | Piece(index: nat, begin: nat, block: seq<Octet>)
    | Extended(ext: ExtendedMessage)

  datatype Error =
    | UnsupportedMessageId(id: Octet) | IncorrectMsgLen(received: nat, expected: nat, msgId: Octet)
    | Bencode(e: BencodeParsing.Error)
    | TooLarge(len: nat) | TrailingBytes | MissingTotalSize | TypeUnknown(t: nat)
    | PieceOutOfBounds(totalPieces: nat, receivedPiece: nat) | SizeMismatch(expectedSize: nat, receivedSize: nat)

  datatype Outcome = Msg(m: Message, size: nat) | NotEnoughData(need: nat) | NeedContiguous | Bad(e: Error)

  /** The typed bencode decoders: the body of an extended message by its id, and the header of a
      `ut_metadata` message with its length. */
  datatype Decoders = Decoders(
    body: (Octet, seq<Octet>) -> Result<Value, BencodeParsing.Error>,
    header: seq<Octet> -> Result<(UtHeader, nat), BencodeParsing.Error>)

  /** A header that was decoded is decoded the same way when more bytes follow. */
  ghost predicate Stable(header: seq<Octet> -> Result<(UtHeader, nat), BencodeParsing.Error>) {
    forall p, q {:trigger header(p + q)} :: HeaderKept(header, p, q)
  }

  ghost predicate HeaderKept(header: seq<Octet> -> Result<(UtHeader, nat), BencodeParsing.Error>, p: seq<Octet>,
                             q: seq<Octet>) {
    header(p).Ok? ==> header(p).value.1 <= |p| && header(p + q) == header(p)
  }

  /** A decoder that projects a parsed value. */
  function Projected(proj: Value -> Result<UtHeader, BencodeParsing.Error>, limit: nat,
                     s: seq<Octet>): Result<(UtHeader, nat), BencodeParsing.Error> {
    match BencodeParsing.ParseAny(s, 0, limit)
    case Fail(e) => Err(e)
    case Done(v, rest) => if proj(v).Ok? then Ok((proj(v).value, |s| - |rest|)) else Err(proj(v).error)
  }

  /** Whatever is read off a parsed value does not change when more bytes follow it. */
  lemma ProjectedIsStable(proj: Value -> Result<UtHeader, BencodeParsing.Error>, limit: nat)
    ensures Stable(s => Projected(proj, limit, s))
  {
    var header := (s: seq<Octet>) => Projected(proj, limit, s);
    forall p, q ensures HeaderKept(header, p, q) {
      if header(p).Ok? { ProjectedKept(proj, limit, p, q); }
    }
  }

  lemma ProjectedKept(proj: Value -> Result<UtHeader, BencodeParsing.Error>, limit: nat, p: seq<Octet>, q: seq<Octet>)
    requires Projected(proj, limit, p).Ok?
    ensures Projected(proj, limit, p).value.1 <= |p| && Projected(proj, limit, p + q) == Projected(proj, limit, p)
  {
    BencodeParsing.ParseAppend(p, 0, limit, q);
  }

  function BigEndian(b: seq<Octet>): nat {
    if b == [] then 0 else 256 * BigEndian(b[..|b| - 1]) + b[|b| - 1]
  }

  // ------------------------------------------------------------- on one slice

  /** The checks a `ut_metadata` data message has to pass. */
  function ValidateData(piece: nat, total: nat, data: seq<Octet>): Result<UtMetadata, Error> {
    if total == 0 then Err(MissingTotalSize)
    else if |data| > CHUNK_SIZE then Err(TooLarge(|data|))
    else
      var pieces := (total + CHUNK_SIZE - 1) / CHUNK_SIZE;
      if piece >= pieces then Err(PieceOutOfBounds(pieces, piece))
      else
        var expected := Min(SaturatingSub(total, piece * CHUNK_SIZE), CHUNK_SIZE);
        if |data| != expected then Err(SizeMismatch(expected, |data|)) else Ok(UtData(piece, total, data))
  }

  function UtBody(h: UtHeader, data: seq<Octet>): Result<UtMetadata, Error> {
    if h.msgType == 0 then (if data != [] then Err(TrailingBytes) else Ok(UtRequest(h.piece)))
    else if h.msgType == 1 then
      if h.totalSize.None? then Err(MissingTotalSize) else ValidateData(h.piece, h.totalSize.value, data)
    else if h.msgType == 2 then (if data != [] then Err(TrailingBytes) else Ok(UtReject(h.piece)))
    else Err(TypeUnknown(h.msgType))
  }

  function UtOutcome(r: Result<UtMetadata, Error>, size: nat): Outcome {
    if r.Ok? then Msg(Extended(UtMessage(r.value)), size) else Bad(r.error)
  }

  function OtherOutcome(id: Octet, r: Result<Value, BencodeParsing.Error>, size: nat): Outcome {
    if r.Ok? then Msg(Extended(Other(id, r.value)), size) else Bad(Bencode(r.error))
  }

  /** An extended message whose body (after the message id) is `body`. An empty body is reported
      as one byte short. */
  function ExtendedOf(dec: Decoders, body: seq<Octet>): Outcome {
    if body == [] then NotEnoughData(1) else ExtendedBody(dec, body[0], body[1..], 5 + |body|)
  }

  function ExtendedBody(dec: Decoders, id: Octet, rest: seq<Octet>, size: nat): Outcome {
    if id == UT_METADATA then UtWhole(dec, rest, size) else OtherOutcome(id, dec.body(id, rest), size)
  }

  function UtWhole(dec: Decoders, rest: seq<Octet>, size: nat): Outcome {
    var h := dec.header(rest[..Min(MAX_HEADER, |rest|)]);
    if h.Err? then Bad(Bencode(h.error)) else UtOutcome(UtBody(h.value.0, rest[Min(h.value.1, |rest|)..]), size)
  }

  function Exact(id: Octet, len: nat, expected: nat, m: Message): Outcome {
    if len == expected then Msg(m, 5 + len) else Bad(IncorrectMsgLen(len, expected, id))
  }

  function RequestOf(id: Octet, b: seq<Octet>): Message
    requires |b| == 12
  {
    var (i, o, l) := (BigEndian(b[..4]), BigEndian(b[4..8]), BigEndian(b[8..]));
    if id == 6 then Request(i, o, l) else Cancel(i, o, l)
  }

  function PieceOf(body: seq<Octet>): Outcome {
    if |body| < 9 then Bad(IncorrectMsgLen(|body|, 9, 7))
    else Msg(Piece(BigEndian(body[..4]), BigEndian(body[4..8]), body[8..]), 5 + |body|)
  }

  /** The message with this id and body. */
  function MessageOf(dec: Decoders, id: Octet, body: seq<Octet>): Outcome {
    if id == 0 then Exact(id, |body|, 0, Choke)
    else if id == 1 then Exact(id, |body|, 0, Unchoke)
    else if id == 2 then Exact(id, |body|, 0, Interested)
    else if id == 3 then Exact(id, |body|, 0, NotInterested)
    else if id == 4 then Exact(id, |body|, 4, Have(BigEndian(body)))
    else if id == 5 then (if |body| < 1 then Bad(IncorrectMsgLen(|body|, 1, id)) else Msg(Bitfield(body), 5 + |body|))
    else if id == 6 || id == 8 then
      if |body| == 12 then Msg(RequestOf(id, body), 17) else Bad(IncorrectMsgLen(|body|, 12, id))
    else if id == 7 then PieceOf(body)
    else if id == 20 then ExtendedOf(dec, body)
    else Bad(UnsupportedMessageId(id))
  }

  /** What the bytes say when they are in one piece: a length, then that many bytes. */
  function FrameOf(dec: Decoders, s: seq<Octet>): Outcome {
    if |s| < 4 then NotEnoughData(4 - |s|) else AfterLength(dec, BigEndian(s[..4]), s[4..])
  }

  function AfterLength(dec: Decoders, n: nat, r: seq<Octet>): Outcome {
    if n == 0 then Msg(KeepAlive, 4)
    else if |r| < n then NotEnoughData(n - |r|)
    else MessageOf(dec, r[0], r[1..n])
  }

  lemma FrameSize(dec: Decoders, s: seq<Octet>)
    ensures FrameOf(dec, s).Msg? ==> 4 <= FrameOf(dec, s).size <= |s|
    ensures FrameOf(dec, s).NotEnoughData? ==> FrameOf(dec, s).need > 0
    ensures !FrameOf(dec, s).NeedContiguous?
  {
  }

  /** More bytes do not change a message or an error, and bytes that are still too few only
      reduce the shortage. */
  lemma FrameMonotone(dec: Decoders, s: seq<Octet>, t: seq<Octet>)
    ensures var r := FrameOf(dec, s);
            if r.NotEnoughData? then |t| < r.need ==> FrameOf(dec, s + t) == NotEnoughData(r.need - |t|)
            else FrameOf(dec, s + t) == r
  {
    if |s| >= 4 {
      assert (s + t)[..4] == s[..4];
      assert (s + t)[4..] == s[4..] + t;
      AfterLengthMonotone(dec, BigEndian(s[..4]), s[4..], t);
    }
  }

  lemma AfterLengthMonotone(dec: Decoders, n: nat, r: seq<Octet>, t: seq<Octet>)
    ensures var o := AfterLength(dec, n, r);
            if o.NotEnoughData? then |t| < o.need ==> AfterLength(dec, n, r + t) == NotEnoughData(o.need - |t|)
            else AfterLength(dec, n, r + t) == o
  {
    if 0 < n <= |r| {
      assert (r + t)[1..n] == r[1..n];
      if t == [] { assert r + t == r; }
    }
  }

  // ------------------------------------------------------------- on two slices

  /** Two slices of a frame's contents, read where they lie. */
  function MessageFrom(dec: Decoders, id: Octet, len: nat, d: DoubleBuf<Octet>): Outcome
    requires len <= d.Len()
  {
    if id == 0 then Exact(id, len, 0, Choke)
    else if id == 1 then Exact(id, len, 0, Unchoke)
    else if id == 2 then Exact(id, len, 0, Interested)
    else if id == 3 then Exact(id, len, 0, NotInterested)
    else if id == 4 then Exact(id, len, 4, Have(BigEndian(Taken(d, len))))
    else if id == 5 then
      if len < 1 then Bad(IncorrectMsgLen(len, 1, id))
      else
        match d.GetContiguous(len)
        case Some(bits) => Msg(Bitfield(bits), 5 + len)
        case None => NeedContiguous
    else if id == 6 || id == 8 then
      if len == 12 then Msg(RequestOf(id, Taken(d, 12)), 17) else Bad(IncorrectMsgLen(len, 12, id))
    else if id == 7 then
      if len < 9 then Bad(IncorrectMsgLen(len, 9, id))
      else
        var d4 := d.Advance(4);
        Msg(Piece(BigEndian(Taken(d, 4)), BigEndian(Taken(d4, 4)), Taken(d4.Advance(4), len - 8)), 5 + len)
    else if id == 20 then ExtendedFrom(dec, d.WithMaxLen(len))
    else Bad(UnsupportedMessageId(id))
  }

  /** The next `n` bytes of both slices. */
  function Taken(d: DoubleBuf<Octet>, n: nat): (r: seq<Octet>)
    ensures n <= d.Len() ==> |r| == n
  {
    d.AsIoSlices(n).0 + d.AsIoSlices(n).1
  }

  function ExtendedFrom(dec: Decoders, d: DoubleBuf<Octet>): Outcome {
    if d.Len() == 0 then NotEnoughData(1) else ExtendedRest(dec, Taken(d, 1)[0], d.Advance(1), 5 + d.Len())
  }

  function ExtendedRest(dec: Decoders, id: Octet, rest: DoubleBuf<Octet>, size: nat): Outcome {
    if id == UT_METADATA then UtFrom(dec, rest, size)
    else
      match rest.GetContiguous(rest.Len())
      case Some(body) => OtherOutcome(id, dec.body(id, body), size)
      case None => NeedContiguous
  }

  /** The header is looked for in one slice; when it is not there and the slices split inside the
      part that may hold it, they have to be joined first. */
  function UtFrom(dec: Decoders, d: DoubleBuf<Octet>, size: nat): Outcome {
    var view := d.GetContiguous(Min(MAX_HEADER, d.Len()));
    var h := dec.header(if view.Some? then view.value else d.first);
    if h.Err? then (if view.Some? then Bad(Bencode(h.error)) else NeedContiguous)
    else UtOutcome(UtBody(h.value.0, d.Advance(h.value.1).All()), size)
  }

  function Deserialize(dec: Decoders, d: DoubleBuf<Octet>): Outcome {
    if d.Len() < 4 then NotEnoughData(4 - d.Len()) else AfterLengthFrom(dec, BigEndian(Taken(d, 4)), d.Advance(4))
  }

  function AfterLengthFrom(dec: Decoders, n: nat, d: DoubleBuf<Octet>): Outcome {
    if n == 0 then Msg(KeepAlive, 4)
    else if d.Len() == 0 then NotEnoughData(n)
    else if d.Len() < n then NotEnoughData(n - d.Len())
    else MessageFrom(dec, Taken(d, 1)[0], n - 1, d.Advance(1))
  }

  /** Where the buffer is split never changes the outcome; it may only ask for the slices to be
      joined, and only when both hold something. */
  predicate SameOrJoin(o: Outcome, joined: Outcome, d: DoubleBuf<Octet>) {
    o == joined || (o == NeedContiguous && d.first != [] && d.second != [])
  }

  lemma TakenIsFront(d: DoubleBuf<Octet>, n: nat)
    requires n <= d.Len()
    ensures Taken(d, n) == d.All()[..n] && d.Advance(n).All() == d.All()[n..] && d.Advance(n).Len() == d.Len() - n
    ensures d.Advance(n).first != [] ==> d.first != []
    ensures d.Advance(n).second != [] ==> d.second != []
  {
    DoubleBufIsOne(d, n);
  }

  lemma UtSplit(dec: Decoders, d: DoubleBuf<Octet>, rest: seq<Octet>, size: nat)
    requires Stable(dec.header) && d.All() == rest
    ensures SameOrJoin(UtFrom(dec, d, size), UtWhole(dec, rest, size), d)
  {
    var w := Min(MAX_HEADER, |rest|);
    ContiguousIsFront(d, w);
    var view := d.GetContiguous(w);
    if view.None? {
      var more := rest[|d.first|..w];
      assert rest[..w] == d.first + more;
      assert HeaderKept(dec.header, d.first, more) by { assert dec.header(d.first + more) == dec.header(rest[..w]); }
    }
    var h := dec.header(if view.Some? then view.value else d.first);
    if h.Ok? {
      HeaderLen(dec, rest[..w]);
      DoubleBufIsOne(d, h.value.1);
    }
  }

  lemma HeaderLen(dec: Decoders, p: seq<Octet>)
    requires Stable(dec.header) && dec.header(p).Ok?
    ensures dec.header(p).value.1 <= |p|
  {
    assert p + [] == p;
    assert HeaderKept(dec.header, p, []) by { assert dec.header(p + []) == dec.header(p); }
  }

  lemma ExtendedRestSplit(dec: Decoders, id: Octet, d: DoubleBuf<Octet>, rest: seq<Octet>, size: nat)
    requires Stable(dec.header) && d.All() == rest
    ensures SameOrJoin(ExtendedRest(dec, id, d, size), ExtendedBody(dec, id, rest, size), d)
  {
    if id == UT_METADATA {
      UtSplit(dec, d, rest, size);
    } else {
      ContiguousIsFront(d, |rest|);
      assert rest[..|rest|] == rest;
    }
  }

  lemma ExtendedSplit(dec: Decoders, d: DoubleBuf<Octet>, body: seq<Octet>)
    requires Stable(dec.header) && d.All() == body
    ensures SameOrJoin(ExtendedFrom(dec, d), ExtendedOf(dec, body), d)
  {
    if body != [] {
      TakenIsFront(d, 1);
      ExtendedRestSplit(dec, body[0], d.Advance(1), body[1..], 5 + |body|);
    }
  }

  lemma PieceSplit(d: DoubleBuf<Octet>, s: seq<Octet>, len: nat)
    requires 9 <= len <= |s| && d.All() == s
    ensures var body, d4 := s[..len], d.Advance(4);
            Taken(d, 4) == body[..4] && Taken(d4, 4) == body[4..8] && Taken(d4.Advance(4), len - 8) == body[8..]
  {
    TakenIsFront(d, 4);
    AdvanceFrom(d.Advance(4), s, 4, 4);
    PieceWords(d, d.Advance(4), d.Advance(4).Advance(4), s, len);
  }

  lemma PieceWords(d: DoubleBuf<Octet>, e: DoubleBuf<Octet>, f: DoubleBuf<Octet>, s: seq<Octet>, len: nat)
    requires 9 <= len <= |s| && d.All() == s && e.All() == s[4..] && f.All() == s[8..]
    ensures Taken(d, 4) == s[..len][..4] && Taken(e, 4) == s[..len][4..8] && Taken(f, len - 8) == s[..len][8..]
  {
    assert s == s[0..];
    TakenFrom(d, s, 0, 4);
    TakenFrom(e, s, 4, 4);
    TakenFrom(f, s, 8, len - 8);
    PrefixSlices(s, len);
  }

  lemma PrefixSlices(s: seq<Octet>, len: nat)
    requires 9 <= len <= |s|
    ensures s[0..4] == s[..len][..4] && s[4..8] == s[..len][4..8] && s[8..len] == s[..len][8..]
  {
  }

  lemma AdvanceFrom(e: DoubleBuf<Octet>, s: seq<Octet>, a: nat, n: nat)
    requires a + n <= |s| && e.All() == s[a..]
    ensures e.Advance(n).All() == s[a + n..]
  {
    TakenIsFront(e, n);
    assert s[a..][n..] == s[a + n..];
  }

  lemma TakenFrom(e: DoubleBuf<Octet>, s: seq<Octet>, a: nat, n: nat)
    requires a + n <= |s| && e.All() == s[a..]
    ensures Taken(e, n) == s[a..a + n]
  {
    TakenIsFront(e, n);
    DropTake(s, a, n);
  }

  lemma DropTake(s: seq<Octet>, a: nat, n: nat)
    requires a + n <= |s|
    ensures s[a..][..n] == s[a..a + n]
  {
  }

  lemma WordsSplit(dec: Decoders, id: Octet, len: nat, d: DoubleBuf<Octet>, s: seq<Octet>)
    requires (id == 4 || id == 6 || id == 8) && len <= |s| && d.All() == s
    ensures MessageFrom(dec, id, len, d) == MessageOf(dec, id, s[..len])
  {
    TakenIsFront(d, len);
  }

  lemma BitfieldSplit(dec: Decoders, len: nat, d: DoubleBuf<Octet>, s: seq<Octet>)
    requires len <= |s| && d.All() == s
    ensures SameOrJoin(MessageFrom(dec, 5, len, d), MessageOf(dec, 5, s[..len]), d)
  {
    ContiguousIsFront(d, len);
  }

  lemma PieceMessageSplit(dec: Decoders, len: nat, d: DoubleBuf<Octet>, s: seq<Octet>)
    requires len <= |s| && d.All() == s
    ensures MessageFrom(dec, 7, len, d) == MessageOf(dec, 7, s[..len])
  {
    if len >= 9 { PieceSplit(d, s, len); }
  }

  lemma ExtendedMessageSplit(dec: Decoders, len: nat, d: DoubleBuf<Octet>, s: seq<Octet>)
    requires Stable(dec.header) && len <= |s| && d.All() == s
    ensures SameOrJoin(MessageFrom(dec, 20, len, d), MessageOf(dec, 20, s[..len]), d)
  {
    MaxLenFacts(d, len);
    ExtendedSplit(dec, d.WithMaxLen(len), s[..len]);
  }

  lemma MaxLenFacts(d: DoubleBuf<Octet>, len: nat)
    requires len <= d.Len()
    ensures var e := d.WithMaxLen(len);
            e.All() == d.All()[..len] && (e.first != [] ==> d.first != []) && (e.second != [] ==> d.second != [])
  {
    DoubleBufIsOne(d, len);
  }

  lemma MessageSplit(dec: Decoders, id: Octet, len: nat, d: DoubleBuf<Octet>, s: seq<Octet>)
    requires Stable(dec.header) && len <= |s| && d.All() == s
    ensures SameOrJoin(MessageFrom(dec, id, len, d), MessageOf(dec, id, s[..len]), d)
  {
    if id == 20 {
      ExtendedMessageSplit(dec, len, d, s);
    } else if id == 7 {
      PieceMessageSplit(dec, len, d, s);
    } else if id == 5 {
      BitfieldSplit(dec, len, d, s);
    } else if id == 4 || id == 6 || id == 8 {
      WordsSplit(dec, id, len, d, s);
    }
  }

  lemma RestSplit(dec: Decoders, n: nat, e: DoubleBuf<Octet>, r: seq<Octet>)
    requires Stable(dec.header) && 0 < n <= |r| && e.All() == r[1..]
    ensures SameOrJoin(MessageFrom(dec, r[0], n - 1, e), MessageOf(dec, r[0], r[1..n]), e)
  {
    MessageSplit(dec, r[0], n - 1, e, r[1..]);
    DropTake(r, 1, n - 1);
  }

  lemma AfterLengthSplit(dec: Decoders, n: nat, d: DoubleBuf<Octet>, r: seq<Octet>)
    requires Stable(dec.header) && d.All() == r
    ensures SameOrJoin(AfterLengthFrom(dec, n, d), AfterLength(dec, n, r), d)
  {
    if 0 < n <= |r| {
      TakenIsFront(d, 1);
      RestSplit(dec, n, d.Advance(1), r);
    }
  }

  /** Decoding from two slices is decoding their concatenation, wherever the split is. */
  lemma SplitDoesNotMatter(dec: Decoders, d: DoubleBuf<Octet>)
    requires Stable(dec.header)
    ensures SameOrJoin(Deserialize(dec, d), FrameOf(dec, d.All()), d)
  {
    if d.Len() >= 4 {
      TakenIsFront(d, 4);
      AfterLengthSplit(dec, BigEndian(Taken(d, 4)), d.Advance(4), d.All()[4..]);
    }
  }
}
