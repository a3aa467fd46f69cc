/** What the bencode parser returns for a buffer, and the round trip with printing. */
module BencodeParsing {
  import opened Prelude
  import opened BencodeNumbers
  import opened BencodeValues

  datatype Error = InvalidValue | Eof | DepthLimit(limit: nat) | BytesRemaining(count: nat)

  /** A parsed value and the bytes after it. */
  datatype Parsed<+T> = Done(value: T, rest: seq<Octet>) | Fail(error: Error)

  function ParseInteger(buf: seq<Octet>): Parsed<Value> {
    if buf == [] then Fail(Eof)
    else if buf[0] != BYTE_I then Fail(InvalidValue)
    else
      var s := buf[1..];
      var (v, len) := FromRadix10Signed(s);
      if len > 0 && len < |s| && s[len] == BYTE_E then Done(Integer(v), s[len + 1..]) else Fail(InvalidValue)
  }

  function ParseBytes(buf: seq<Octet>): Parsed<seq<Octet>> {
    var (n, len) := FromRadix10(buf);
    if len > 0 && len < |buf| && buf[len] == BYTE_COLON then
      var s := buf[len + 1..];
      if n <= |s| then Done(s[..n], s[n..]) else Fail(Eof)
    else Fail(InvalidValue)
  }

  /** `depth` containers are open; no more than `limit` may be. */
  function ParseAny(buf: seq<Octet>, depth: nat, limit: nat): (r: Parsed<Value>)
    ensures r.Done? ==> |r.rest| < |buf|
    decreases |buf|, 1
  {
    if buf == [] then Fail(Eof)
    else if buf[0] == BYTE_D then
      if depth >= limit then Fail(DepthLimit(limit)) else ParseDict(buf[1..], depth + 1, limit, map[])
    else if buf[0] == BYTE_I then ParseInteger(buf)
    else if buf[0] == BYTE_L then
      if depth >= limit then Fail(DepthLimit(limit)) else ParseList(buf[1..], depth + 1, limit, [])
    else
      match ParseBytes(buf)
      case Done(b, rest) => Done(Bytes(b), rest)
      case Fail(e) => Fail(e)
  }

  function ParseList(buf: seq<Octet>, depth: nat, limit: nat, acc: seq<Value>): (r: Parsed<Value>)
    ensures r.Done? ==> |r.rest| < |buf|
    decreases |buf|, 2
  {
    if buf != [] && buf[0] == BYTE_E then Done(List(acc), buf[1..])
    else
      match ParseAny(buf, depth, limit)
      case Done(v, rest) => ParseList(rest, depth, limit, acc + [v])
      case Fail(e) => Fail(e)
  }

  function ParseDict(buf: seq<Octet>, depth: nat, limit: nat, acc: map<Key, Value>): (r: Parsed<Value>)
    ensures r.Done? ==> |r.rest| < |buf|
    decreases |buf|, 2
  {
    if buf != [] && buf[0] == BYTE_E then Done(Dict(acc), buf[1..])
    else
      match ParseBytes(buf)
      case Fail(e) => Fail(e)
      case Done(k, rest) =>
        match ParseAny(rest, depth, limit)
        case Done(v, rest2) => ParseDict(rest2, depth, limit, acc[k := v])
        case Fail(e) => Fail(e)
  }

  // ------------------------------------------------------------- round trip

  lemma ParseIntegerOfPrint(i: I64, rest: seq<Octet>)
    ensures ParseInteger([BYTE_I] + DecimalSigned(i) + [BYTE_E] + rest) == Done(Integer(i), rest)
  {
    var s := DecimalSigned(i) + ([BYTE_E] + rest);
    FromRadix10SignedOfDecimal(i, [BYTE_E] + rest);
    var buf := [BYTE_I] + DecimalSigned(i) + [BYTE_E] + rest;
    assert buf[1..] == s;
    assert s[|DecimalSigned(i)| + 1..] == rest;
  }

  lemma ParseBytesOfPrint(b: seq<Octet>, rest: seq<Octet>)
    requires |b| < TWO_64
    ensures ParseBytes(PrintBytes(false, b) + rest) == Done(b, rest)
    ensures IsDigit(PrintBytes(false, b)[0])
  {
    var d := Decimal(|b|);
    var tail := [BYTE_COLON] + b + rest;
    DecimalDigits(|b|);
    FromRadix10OfDecimal(|b|, tail);
    var buf := PrintBytes(false, b) + rest;
    assert buf == d + tail;
    assert buf[|d| + 1..] == b + rest;
    assert (b + rest)[..|b|] == b && (b + rest)[|b|..] == rest;
    assert IsDigit(buf[0]);
  }

  /** What parsing a printed value gives: the value and exactly the bytes after it when it fits
      under the limit, the depth error otherwise. */
  ghost function Expected(v: Value, rest: seq<Octet>, depth: nat, limit: nat): Parsed<Value> {
    if depth + Depth(v) <= limit then Done(v, rest) else Fail(DepthLimit(limit))
  }

  lemma AnyOfContainer(inner: seq<Octet>, depth: nat, limit: nat)
    ensures ParseAny([BYTE_L] + inner, depth, limit) == if depth >= limit then Fail(DepthLimit(limit))
            else ParseList(inner, depth + 1, limit, [])
    ensures ParseAny([BYTE_D] + inner, depth, limit) == if depth >= limit then Fail(DepthLimit(limit))
            else ParseDict(inner, depth + 1, limit, map[])
  {
    assert ([BYTE_L] + inner)[1..] == inner;
    assert ([BYTE_D] + inner)[1..] == inner;
  }

  lemma AnyOfLeaf(v: Value, rest: seq<Octet>, depth: nat, limit: nat)
    requires (v.Integer? || v.Bytes?) && Representable(v)
    ensures ParseAny(Print(false, v) + rest, depth, limit) == Done(v, rest)
  {
    match v
    case Integer(i) =>
      ParseIntegerOfPrint(i, rest);
      assert (Print(false, v) + rest)[0] == BYTE_I;
    case Bytes(b) =>
      ParseBytesOfPrint(b, rest);
      assert (Print(false, v) + rest)[0] == Print(false, v)[0];
  }

  lemma PrintContainer(v: Value, rest: seq<Octet>)
    ensures v.List? ==> Print(false, v) + rest == [BYTE_L] + (PrintItems(false, v.items) + ([BYTE_E] + rest))
    ensures v.Dict? ==>
            Print(false, v) + rest == [BYTE_D] + (PrintEntries(false, v,
              SortedKeys(v.entries.Keys)) + ([BYTE_E] + rest))
  {
  }

  /** Parsing a printed value followed by any bytes. */
  lemma {:induction false} RoundTrip(v: Value, rest: seq<Octet>, depth: nat, limit: nat)
    requires Representable(v) && depth <= limit
    ensures ParseAny(Print(false, v) + rest, depth, limit) == Expected(v, rest, depth, limit)
    decreases v, 1
  {
    match v
    case Integer(_) => AnyOfLeaf(v, rest, depth, limit);
    case Bytes(_) => AnyOfLeaf(v, rest, depth, limit);
    case List(items) =>
      PrintContainer(v, rest);
      RoundTripList(v, rest, depth, limit);
    case Dict(m) =>
      PrintContainer(v, rest);
      SortedKeysSorted(m.Keys);
      RoundTripDict(v, SortedKeys(m.Keys), rest, depth, limit);
  }

  lemma {:induction false} RoundTripDict(v: Value, ks: seq<Key>, rest: seq<Octet>, depth: nat, limit: nat)
    requires v.Dict? && KeysOf(v, ks) && Representable(v) && depth <= limit
    ensures ParseAny([BYTE_D] + (PrintEntries(false, v, ks) + ([BYTE_E] + rest)), depth, limit)
         == if depth + 1 + DepthEntries(v, ks) <= limit then Done(v, rest) else Fail(DepthLimit(limit))
    decreases v, 0, |ks| + 2
  {
    AnyOfContainer(PrintEntries(false, v, ks) + ([BYTE_E] + rest), depth, limit);
    if depth < limit {
      RoundTripAllEntries(v, ks, rest, depth + 1, limit);
    }
  }

  lemma {:induction false} RoundTripAllEntries(v: Value, ks: seq<Key>, rest: seq<Octet>, depth: nat, limit: nat)
    requires v.Dict? && KeysOf(v, ks) && Representable(v) && 0 < depth <= limit
    ensures ParseDict(PrintEntries(false, v, ks) + ([BYTE_E] + rest), depth, limit, map[])
         == if depth + DepthEntries(v, ks) <= limit then Done(v, rest) else Fail(DepthLimit(limit))
    decreases v, 0, |ks| + 1
  {
    assert ks[0..] == ks;
    assert FirstEntries(v, ks, 0) == map[];
    RoundTripEntries(v, ks, 0, rest, depth, limit);
  }

  lemma {:induction false} RoundTripList(v: Value, rest: seq<Octet>, depth: nat, limit: nat)
    requires v.List? && Representable(v) && depth <= limit
    ensures ParseAny([BYTE_L] + (PrintItems(false, v.items) + ([BYTE_E] + rest)), depth, limit)
         == if depth + 1 + DepthItems(v.items) <= limit then Done(v, rest) else Fail(DepthLimit(limit))
    decreases v, 0, |v.items| + 2
  {
    AnyOfContainer(PrintItems(false, v.items) + ([BYTE_E] + rest), depth, limit);
    if depth < limit {
      RoundTripAllItems(v, rest, depth + 1, limit);
    }
  }

  lemma {:induction false} RoundTripAllItems(v: Value, rest: seq<Octet>, depth: nat, limit: nat)
    requires v.List? && Representable(v) && 0 < depth <= limit
    ensures ParseList(PrintItems(false, v.items) + ([BYTE_E] + rest), depth, limit, [])
         == if depth + DepthItems(v.items) <= limit then Done(v, rest) else Fail(DepthLimit(limit))
    decreases v, 0, |v.items| + 1
  {
    assert v.items[0..] == v.items && v.items[..0] == [];
    RoundTripItems(v, 0, rest, depth, limit);
  }

  /** Parsing goes on behind the first `i` items of a list. */
  lemma {:induction false} RoundTripItems(v: Value, i: nat, rest: seq<Octet>, depth: nat, limit: nat)
    requires v.List? && i <= |v.items| && Representable(v) && 0 < depth <= limit
    ensures ParseList(PrintItems(false, v.items[i..]) + ([BYTE_E] + rest), depth, limit, v.items[..i])
         == if depth + DepthItems(v.items[i..]) <= limit then Done(v, rest) else Fail(DepthLimit(limit))
    decreases v, 0, |v.items| - i
  {
    if i == |v.items| {
      assert v.items[i..] == [] && v.items[..i] == v.items;
      assert ([BYTE_E] + rest)[1..] == rest;
      assert [] + ([BYTE_E] + rest) == [BYTE_E] + rest;
    } else {
      var tail := PrintItems(false, v.items[i + 1..]) + ([BYTE_E] + rest);
      RoundTrip(v.items[i], tail, depth, limit);
      assert v.items[..i] + [v.items[i]] == v.items[..i + 1];
      RoundTripItems(v, i + 1, rest, depth, limit);
      ItemThenRest(v.items[i], tail, depth, limit, v.items[..i], Depth(v.items[i]), DepthItems(v.items[i + 1..]), v,
        rest);
      PrintItemsStep(v.items, i, [BYTE_E] + rest);
    }
  }

  /** One item, and then the rest of the list. */
  lemma ItemThenRest(x: Value, tail: seq<Octet>, depth: nat, limit: nat, acc: seq<Value>, d1: nat, d2: nat, v: Value,
                     rest: seq<Octet>)
    requires ParseAny(Print(false, x) + tail, depth, limit) == if depth + d1 <= limit then Done(x, tail)
             else Fail(DepthLimit(limit))
    requires ParseList(tail, depth, limit, acc + [x]) == if depth + d2 <= limit then Done(v, rest)
             else Fail(DepthLimit(limit))
    ensures ParseList(Print(false, x) + tail, depth, limit, acc)
         == if depth + Max(d1, d2) <= limit then Done(v, rest) else Fail(DepthLimit(limit))
  {
    ParseListStep(x, tail, depth, limit, acc);
  }

  lemma PrintItemsStep(items: seq<Value>, i: nat, after: seq<Octet>)
    requires i < |items|
    ensures PrintItems(false, items[i..]) + after ==
            Print(false, items[i]) + (PrintItems(false, items[i + 1..]) + after)
    ensures DepthItems(items[i..]) == Max(Depth(items[i]), DepthItems(items[i + 1..]))
  {
    assert items[i..][1..] == items[i + 1..] && items[i..][0] == items[i];
  }

  lemma {:induction false} ParseListStep(x: Value, after: seq<Octet>, depth: nat, limit: nat, acc: seq<Value>)
    ensures var r := ParseAny(Print(false, x) + after, depth, limit);
            ParseList(Print(false, x) + after, depth, limit, acc) ==
            if r.Done? then ParseList(r.rest, depth, limit, acc + [r.value]) else r
  {
    FirstByte(x);
    assert (Print(false, x) + after)[0] == Print(false, x)[0];
  }

  /** A printed value never starts with the byte that ends a container. */
  lemma FirstByte(v: Value)
    ensures |Print(false, v)| > 0 && Print(false, v)[0] != BYTE_E
    ensures v.Bytes? ==> IsDigit(Print(false, v)[0])
  {
    if v.Bytes? { DecimalDigits(|v.b|); }
  }

  ghost predicate KeysOf(v: Value, ks: seq<Key>)
    requires v.Dict?
  {
    StrictlyIncreasing(ks) && forall k :: k in ks <==> k in v.entries
  }

  /** The entries of the first `i` keys. */
  ghost function FirstEntries(v: Value, ks: seq<Key>, i: nat): map<Key, Value>
    requires v.Dict? && KeysOf(v, ks) && i <= |ks|
  {
    map k | k in v.entries && k in ks[..i] :: v.entries[k]
  }

  lemma FirstEntriesStep(v: Value, ks: seq<Key>, i: nat)
    requires v.Dict? && KeysOf(v, ks) && i < |ks|
    ensures ks[i] in v.entries
    ensures FirstEntries(v, ks, i)[ks[i] := v.entries[ks[i]]] == FirstEntries(v, ks, i + 1)
    ensures FirstEntries(v, ks, 0) == map[] && FirstEntries(v, ks, |ks|) == v.entries
  {
    assert ks[i] in ks;
    assert ks[..i + 1] == ks[..i] + [ks[i]];
    assert ks[..|ks|] == ks;
  }

  /** One entry of a dictionary. */
  lemma {:induction false} ParseDictStep(k: Key, after: seq<Octet>, depth: nat, limit: nat, acc: map<Key, Value>)
    requires |k| < TWO_64
    ensures var r := ParseAny(after, depth, limit);
            ParseDict(PrintBytes(false, k) + after, depth, limit, acc) ==
            if r.Done? then ParseDict(r.rest, depth, limit, acc[k := r.value]) else r
  {
    ParseBytesOfPrint(k, after);
    assert (PrintBytes(false, k) + after)[0] == PrintBytes(false, k)[0];
  }

  lemma PrintEntriesStep(v: Value, ks: seq<Key>, i: nat, after: seq<Octet>)
    requires v.Dict? && i < |ks| && ks[i] in v.entries
    ensures PrintEntries(false, v, ks[i..]) + after
         == PrintBytes(false, ks[i]) + (Print(false, v.entries[ks[i]]) + (PrintEntries(false, v, ks[i + 1..]) + after))
    ensures DepthEntries(v, ks[i..]) == Max(Depth(v.entries[ks[i]]), DepthEntries(v, ks[i + 1..]))
  {
    assert ks[i..][1..] == ks[i + 1..] && ks[i..][0] == ks[i];
  }

  /** Parsing goes on behind the entries of the first `i` keys of a dictionary. */
  lemma {:induction false} RoundTripEntries(v: Value, ks: seq<Key>, i: nat, rest: seq<Octet>, depth: nat, limit: nat)
    requires v.Dict? && KeysOf(v, ks) && i <= |ks| && Representable(v) && 0 < depth <= limit
    ensures ParseDict(PrintEntries(false, v, ks[i..]) + ([BYTE_E] + rest), depth, limit, FirstEntries(v, ks, i))
         == if depth + DepthEntries(v, ks[i..]) <= limit then Done(v, rest) else Fail(DepthLimit(limit))
    decreases v, 0, |ks| - i
  {
    if i == |ks| {
      DictEnd(v, ks, rest, depth, limit);
    } else {
      FirstEntriesStep(v, ks, i);
      var x := v.entries[ks[i]];
      var tail := PrintEntries(false, v, ks[i + 1..]) + ([BYTE_E] + rest);
      RoundTrip(x, tail, depth, limit);
      RoundTripEntries(v, ks, i + 1, rest, depth, limit);
      EntryThenRest(ks[i], x, tail, depth, limit, FirstEntries(v, ks, i), Depth(x), DepthEntries(v, ks[i + 1..]), v,
        rest);
      PrintEntriesStep(v, ks, i, [BYTE_E] + rest);
    }
  }

  /** One entry, and then the rest of the dictionary. */
  lemma EntryThenRest(k: Key, x: Value, tail: seq<Octet>, depth: nat, limit: nat, acc: map<Key, Value>, d1: nat,
                      d2: nat, v: Value, rest: seq<Octet>)
    requires |k| < TWO_64
    requires ParseAny(Print(false, x) + tail, depth, limit) == if depth + d1 <= limit then Done(x, tail)
             else Fail(DepthLimit(limit))
    requires ParseDict(tail, depth, limit, acc[k := x]) == if depth + d2 <= limit then Done(v, rest)
             else Fail(DepthLimit(limit))
    ensures ParseDict(PrintBytes(false, k) + (Print(false, x) + tail), depth, limit, acc)
         == if depth + Max(d1, d2) <= limit then Done(v, rest) else Fail(DepthLimit(limit))
  {
    ParseDictStep(k, Print(false, x) + tail, depth, limit, acc);
  }

  lemma DictEnd(v: Value, ks: seq<Key>, rest: seq<Octet>, depth: nat, limit: nat)
    requires v.Dict? && KeysOf(v, ks) && 0 < depth <= limit
    ensures ParseDict(PrintEntries(false, v, ks[|ks|..]) + ([BYTE_E] + rest), depth, limit,
              FirstEntries(v, ks, |ks|)) == Done(v, rest)
    ensures DepthEntries(v, ks[|ks|..]) == 0
  {
    assert ks[..|ks|] == ks;
    assert FirstEntries(v, ks, |ks|) == v.entries;
    var buf := PrintEntries(false, v, ks[|ks|..]) + ([BYTE_E] + rest);
    assert buf == [BYTE_E] + rest && buf[1..] == rest;
  }

  // ------------------------------------------------------------- consequences

  /** A printed value parses exactly when its nesting is within the limit. */
  lemma ParsesIffWithinLimit(v: Value, rest: seq<Octet>, limit: nat)
    requires Representable(v)
    ensures ParseAny(Print(false, v) + rest, 0, limit).Done? <==> Depth(v) <= limit
  {
    RoundTrip(v, rest, 0, limit);
  }

  /** Printing is injective and prefix-free: two printed values that agree as prefixes of one
      buffer are the same value. */
  lemma PrintIsPrefixFree(v: Value, w: Value, r: seq<Octet>, s: seq<Octet>)
    requires Representable(v) && Representable(w)
    requires Print(false, v) + r == Print(false, w) + s
    ensures v == w && r == s
  {
    var limit := Max(Depth(v), Depth(w));
    RoundTrip(v, r, 0, limit);
    RoundTrip(w, s, 0, limit);
  }

  /** However a map is walked, its entries come out in the one strictly increasing key order. */
  lemma DictPrintsInKeyOrder(v: Value, ks: seq<Key>)
    requires v.Dict? && KeysOf(v, ks)
    ensures Print(false, v) == [BYTE_D] + PrintEntries(false, v, ks) + [BYTE_E]
  {
    SortedKeysSorted(v.entries.Keys);
    IncreasingIsUnique(ks, SortedKeys(v.entries.Keys));
  }

  // ------------------------------------------------------------- locality

  /** `rest` is what is left of `buf`, and `c` is what was consumed. */
  ghost predicate Consumed(buf: seq<Octet>, c: seq<Octet>, rest: seq<Octet>) {
    buf == c + rest
  }

  lemma ParseIntegerLocal(buf: seq<Octet>, y: seq<Octet>) returns (c: seq<Octet>)
    requires ParseInteger(buf).Done?
    ensures Consumed(buf, c, ParseInteger(buf).rest)
    ensures ParseInteger(c + y) == Done(ParseInteger(buf).value, y)
    ensures c != [] && c[0] == buf[0]
  {
    var s := buf[1..];
    var len := FromRadix10Signed(s).1;
    c := buf[..len + 2];
    var t := s[..len + 1];
    assert s == t + s[len + 1..];
    SignedLocal(t, s[len + 1..], len);
    SignedLocal(t, y, len);
    assert (c + y)[1..] == t + y;
    assert (t + y)[len + 1..] == y;
  }

  /** A signed number ends inside `t`, so what follows `t` does not matter. */
  lemma SignedLocal(t: seq<Octet>, y: seq<Octet>, len: nat)
    requires |t| == len + 1 && t[len] == BYTE_E && (exists x :: FromRadix10Signed(t + x).1 == len)
    ensures FromRadix10Signed(t + y) == FromRadix10Signed(t) && FromRadix10Signed(t).1 == len
  {
    var x :| FromRadix10Signed(t + x).1 == len;
    SignedLen(t, x, len);
    FromRadix10SignedAppend(t, y);
  }

  lemma SignedLen(t: seq<Octet>, x: seq<Octet>, len: nat)
    requires |t| == len + 1 && t[len] == BYTE_E && FromRadix10Signed(t + x).1 == len
    ensures FromRadix10Signed(t).1 == len
  {
    var s := t + x;
    if len > 0 && (t[0] == BYTE_MINUS || t[0] == BYTE_PLUS) {
      DigitsLenAreDigits(s[1..]);
      assert forall i :: 0 <= i < len ==> t[1..][i] == s[1..][i];
      DigitsLenIs(t[1..], len - 1);
    } else {
      DigitsLenAreDigits(s);
      assert forall i :: 0 <= i <= len ==> t[i] == s[i];
      DigitsLenIs(t, len);
    }
  }

  lemma ParseBytesLocal(buf: seq<Octet>, y: seq<Octet>) returns (c: seq<Octet>)
    requires ParseBytes(buf).Done?
    ensures Consumed(buf, c, ParseBytes(buf).rest)
    ensures ParseBytes(c + y) == Done(ParseBytes(buf).value, y)
    ensures c != [] && c[0] == buf[0] && IsDigit(c[0])
  {
    var (n, len) := FromRadix10(buf);
    DigitsLenAreDigits(buf);
    c := buf[..len + 1 + n];
    var d := buf[..len + 1];
    DigitsLenIs(d, len);
    FromRadix10Append(d, buf[len + 1..]);
    assert buf == d + buf[len + 1..];
    FromRadix10Append(d, buf[len + 1..len + 1 + n] + y);
    assert c + y == d + (buf[len + 1..len + 1 + n] + y);
    assert (c + y)[len + 1..] == buf[len + 1..len + 1 + n] + y;
    assert (buf[len + 1..len + 1 + n] + y)[..n] == buf[len + 1..][..n];
    assert (buf[len + 1..len + 1 + n] + y)[n..] == y;
  }

  lemma ConsumedTwice(buf: seq<Octet>, c1: seq<Octet>, mid: seq<Octet>, c2: seq<Octet>, rest: seq<Octet>, y: seq<Octet>)
    requires Consumed(buf, c1, mid) && Consumed(mid, c2, rest)
    ensures Consumed(buf, c1 + c2, rest)
    ensures (c1 + c2) + y == c1 + (c2 + y)
  {
    assert buf == (c1 + c2) + rest;
  }

  lemma ScalarLocal(buf: seq<Octet>, depth: nat, limit: nat, y: seq<Octet>) returns (c: seq<Octet>)
    requires buf != [] && buf[0] != BYTE_D && buf[0] != BYTE_L
    requires ParseAny(buf, depth, limit).Done?
    ensures Consumed(buf, c, ParseAny(buf, depth, limit).rest)
    ensures ParseAny(c + y, depth, limit) == Done(ParseAny(buf, depth, limit).value, y)
    ensures c != [] && c[0] == buf[0] != BYTE_E
  {
    if buf[0] == BYTE_I {
      c := ParseIntegerLocal(buf, y);
      assert (c + y)[0] == BYTE_I;
    } else {
      c := ParseBytesLocal(buf, y);
      assert (c + y)[0] == buf[0];
    }
  }

  /** What a successful parse consumed is enough on its own: followed by any other bytes it
      parses to the same value and leaves exactly those bytes. */
  lemma {:induction false} ParseAnyLocal(buf: seq<Octet>, depth: nat, limit: nat, y: seq<Octet>) returns (c: seq<Octet>)
    requires ParseAny(buf, depth, limit).Done?
    ensures Consumed(buf, c, ParseAny(buf, depth, limit).rest)
    ensures ParseAny(c + y, depth, limit) == Done(ParseAny(buf, depth, limit).value, y)
    ensures c != [] && c[0] == buf[0] != BYTE_E
    decreases |buf|, 1
  {
    if buf[0] != BYTE_D && buf[0] != BYTE_L {
      c := ScalarLocal(buf, depth, limit, y);
      return;
    }
    var inner := buf[1..];
    assert buf == [buf[0]] + inner;
    AnyOfContainer(inner, depth, limit);
    var c1: seq<Octet>;
    if buf[0] == BYTE_D {
      c1 := ParseDictLocal(inner, depth + 1, limit, map[], y);
    } else {
      c1 := ParseListLocal(inner, depth + 1, limit, [], y);
    }
    c := [buf[0]] + c1;
    AnyOfContainer(c1 + y, depth, limit);
    ConsumedTwice(buf, [buf[0]], inner, c1, ParseAny(buf, depth, limit).rest, y);
  }

  lemma ListOfElement(buf: seq<Octet>, depth: nat, limit: nat, acc: seq<Value>)
    requires buf != [] && buf[0] != BYTE_E
    ensures var r := ParseAny(buf, depth, limit);
            ParseList(buf, depth, limit, acc) == if r.Done? then ParseList(r.rest, depth, limit, acc + [r.value])
              else Fail(r.error)
  {
  }

  lemma {:induction false} ParseListLocal(buf: seq<Octet>, depth: nat, limit: nat, acc: seq<Value>, y: seq<Octet>)
      returns (c: seq<Octet>)
    requires ParseList(buf, depth, limit, acc).Done?
    ensures Consumed(buf, c, ParseList(buf, depth, limit, acc).rest)
    ensures ParseList(c + y, depth, limit, acc) == Done(ParseList(buf, depth, limit, acc).value, y)
    decreases |buf|, 2
  {
    if buf[0] == BYTE_E {
      c := [BYTE_E];
      assert buf == c + buf[1..];
      assert (c + y)[1..] == y;
    } else {
      ListOfElement(buf, depth, limit, acc);
      var r := ParseAny(buf, depth, limit);
      var c2 := ParseListLocal(r.rest, depth, limit, acc + [r.value], y);
      var c1 := ParseAnyLocal(buf, depth, limit, c2 + y);
      c := c1 + c2;
      ConsumedTwice(buf, c1, r.rest, c2, ParseList(buf, depth, limit, acc).rest, y);
      assert (c1 + (c2 + y))[0] == c1[0];
      ListOfElement(c1 + (c2 + y), depth, limit, acc);
    }
  }

  /** One key and its value read off the front of a dictionary's contents. */
  lemma DictOfEntry(buf: seq<Octet>, depth: nat, limit: nat, acc: map<Key, Value>)
    requires buf != [] && buf[0] != BYTE_E
    ensures var k := ParseBytes(buf);
            if !k.Done? then ParseDict(buf, depth, limit, acc) == Fail(k.error) else
            var r := ParseAny(k.rest, depth, limit);
            ParseDict(buf, depth, limit, acc) == if r.Done? then
              ParseDict(r.rest, depth, limit, acc[k.value := r.value]) else Fail(r.error)
  {
  }

  lemma {:induction false} ParseDictLocal(buf: seq<Octet>, depth: nat, limit: nat, acc: map<Key, Value>, y: seq<Octet>)
      returns (c: seq<Octet>)
    requires ParseDict(buf, depth, limit, acc).Done?
    ensures Consumed(buf, c, ParseDict(buf, depth, limit, acc).rest)
    ensures ParseDict(c + y, depth, limit, acc) == Done(ParseDict(buf, depth, limit, acc).value, y)
    decreases |buf|, 2
  {
    if buf[0] == BYTE_E {
      c := [BYTE_E];
      assert buf == c + buf[1..];
      assert (c + y)[1..] == y;
    } else {
      DictOfEntry(buf, depth, limit, acc);
      var k := ParseBytes(buf);
      var r := ParseAny(k.rest, depth, limit);
      var c3 := ParseDictLocal(r.rest, depth, limit, acc[k.value := r.value], y);
      var c2 := ParseAnyLocal(k.rest, depth, limit, c3 + y);
      var c1 := ParseBytesLocal(buf, c2 + (c3 + y));
      ghost var last := ParseDict(buf, depth, limit, acc).rest;
      ConsumedTwice(k.rest, c2, r.rest, c3, last, y);
      ConsumedTwice(buf, c1, k.rest, c2 + c3, last, y);
      c := c1 + (c2 + c3);
      var whole := c1 + (c2 + (c3 + y));
      assert whole[0] == c1[0];
      DictOfEntry(whole, depth, limit, acc);
    }
  }

  /** Bytes that follow a parsed value are left over and change nothing else. */
  lemma ParseAppend(buf: seq<Octet>, depth: nat, limit: nat, q: seq<Octet>)
    requires ParseAny(buf, depth, limit).Done?
    ensures var r := ParseAny(buf, depth, limit); ParseAny(buf + q, depth, limit) == Done(r.value, r.rest + q)
  {
    var r := ParseAny(buf, depth, limit);
    var c := ParseAnyLocal(buf, depth, limit, r.rest + q);
    assert buf + q == c + (r.rest + q);
  }

  /** The raw bytes captured next to a parsed value are exactly what it was parsed from. */
  lemma RawBytesAreTheValue(buf: seq<Octet>, depth: nat, limit: nat)
    requires ParseAny(buf, depth, limit).Done?
    ensures var r := ParseAny(buf, depth, limit);
            var raw := buf[..|buf| - |r.rest|];
            buf == raw + r.rest && ParseAny(raw, depth, limit) == Done(r.value, [])
  {
    var r := ParseAny(buf, depth, limit);
    var c := ParseAnyLocal(buf, depth, limit, []);
    assert c + [] == c;
    assert buf[..|buf| - |r.rest|] == c;
  }

  /** `from_bytes`: the whole buffer must be one value. */
  function FromBytes(buf: seq<Octet>, limit: nat): Parsed<Value> {
    match ParseAny(buf, 0, limit)
    case Fail(e) => Fail(e)
    case Done(v, rest) => if rest == [] then Done(v, []) else Fail(BytesRemaining(|rest|))
  }

  /** A buffer is accepted whole exactly when it is a value with nothing after it; a printed
      value comes back, with anything after it the count of the extra bytes is reported. */
  lemma FromBytesOfPrint(v: Value, extra: seq<Octet>, limit: nat)
    requires Representable(v) && Depth(v) <= limit
    ensures FromBytes(Print(false, v) + extra, limit) == if extra == [] then Done(v, [])
            else Fail(BytesRemaining(|extra|))
  {
    RoundTrip(v, extra, 0, limit);
  }
}
