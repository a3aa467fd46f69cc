/** The bencode deserializer: a cursor over the buffer, a nesting counter, and the bounded trail
    of dictionary keys that is reported with an error. */
module BencodeDeserialization {
  import opened Prelude
  import opened BencodeNumbers
  import opened BencodeValues
  import opened BencodeParsing

  const DEFAULT_MAX_DEPTH := 128
  const CONTEXT_CAP := 4
  const OVERFLOW_MAX := 255

  // ------------------------------------------------------------- the key trail

  /** The keys that fit and a saturating count of the ones that did not. */
  datatype Trail = Trail(keys: seq<Key>, didNotFit: nat) {
    function Push(k: Key): Trail {
      if |keys| < CONTEXT_CAP then Trail(keys + [k], didNotFit)
      else Trail(keys, Min(OVERFLOW_MAX, didNotFit + 1))
    }

    function Pop(): Trail {
      if didNotFit > 0 then Trail(keys, didNotFit - 1)
      else Trail(if keys == [] then [] else keys[..|keys| - 1], 0)
    }
  }

  function FirstKeys(open: seq<Key>): seq<Key> {
    open[..Min(CONTEXT_CAP, |open|)]
  }

  /** The trail of exactly these open keys. */
  predicate Tracks(t: Trail, open: seq<Key>) {
    t.keys == FirstKeys(open) && t.didNotFit == Max(0, |open| - CONTEXT_CAP)
  }

  lemma PushTracks(t: Trail, open: seq<Key>, k: Key)
    requires Tracks(t, open)
    ensures Tracks(t.Push(k), open + [k]) <==> |open| < CONTEXT_CAP + OVERFLOW_MAX
  {
  }

  lemma PopTracks(t: Trail, open: seq<Key>)
    requires Tracks(t, open) && open != []
    ensures Tracks(t.Pop(), open[..|open| - 1])
  {
  }

  function PushAll(t: Trail, ks: seq<Key>): Trail {
    if ks == [] then t else PushAll(t, ks[..|ks| - 1]).Push(ks[|ks| - 1])
  }

  function PopMany(t: Trail, n: nat): Trail {
    if n == 0 then t else PopMany(t, n - 1).Pop()
  }

  /** Descending through `ks` and coming back up `n` levels shows the keys of the first levels. */
  ghost predicate ShownRight(ks: seq<Key>, n: nat)
    requires n <= |ks|
  {
    PopMany(PushAll(Trail([], 0), ks), n).keys == FirstKeys(ks[..|ks| - n])
  }

  lemma {:induction false} PushAllTracks(ks: seq<Key>)
    requires |ks| <= CONTEXT_CAP + OVERFLOW_MAX
    ensures Tracks(PushAll(Trail([], 0), ks), ks)
  {
    if ks != [] {
      var init, last := ks[..|ks| - 1], ks[|ks| - 1];
      PushAllTracks(init);
      PushTracks(PushAll(Trail([], 0), init), init, last);
      assert init + [last] == ks;
    }
  }

  lemma {:induction false} PopManyTracks(ks: seq<Key>, n: nat)
    requires n <= |ks| <= CONTEXT_CAP + OVERFLOW_MAX
    ensures Tracks(PopMany(PushAll(Trail([], 0), ks), n), ks[..|ks| - n])
  {
    if n == 0 {
      PushAllTracks(ks);
      assert ks[..|ks| - 0] == ks;
    } else {
      PopManyTracks(ks, n - 1);
      var open := ks[..|ks| - (n - 1)];
      PopTracks(PopMany(PushAll(Trail([], 0), ks), n - 1), open);
      assert open[..|open| - 1] == ks[..|ks| - n];
    }
  }

  /** Past the saturation point the count of lost keys stays at its maximum. */
  lemma {:induction false} PushAllSaturates(ks: seq<Key>)
    requires |ks| >= CONTEXT_CAP + OVERFLOW_MAX
    ensures PushAll(Trail([], 0), ks) == Trail(FirstKeys(ks), OVERFLOW_MAX)
  {
    if |ks| == CONTEXT_CAP + OVERFLOW_MAX {
      PushAllTracks(ks);
    } else {
      PushAllSaturates(ks[..|ks| - 1]);
    }
  }

  lemma {:induction false} PopManyOverflow(t: Trail, n: nat)
    requires n <= t.didNotFit
    ensures PopMany(t, n) == Trail(t.keys, t.didNotFit - n)
  {
    if n > 0 { PopManyOverflow(t, n - 1); }
  }

  /** The trail is right on the whole way back up exactly when the nesting stayed within what the
      four slots and the byte-wide counter can hold. */
  lemma TrailRightIff(ks: seq<Key>)
    ensures (forall n :: 0 <= n <= |ks| ==> ShownRight(ks, n)) <==> |ks| <= CONTEXT_CAP + OVERFLOW_MAX
  {
    if |ks| <= CONTEXT_CAP + OVERFLOW_MAX {
      forall n | 0 <= n <= |ks| ensures ShownRight(ks, n) {
        PopManyTracks(ks, n);
      }
    } else {
      PushAllSaturates(ks);
      var t := PushAll(Trail([], 0), ks);
      PopManyOverflow(t, OVERFLOW_MAX);
      assert PopMany(t, OVERFLOW_MAX + 1) == PopMany(t, OVERFLOW_MAX).Pop();
      assert |PopMany(t, OVERFLOW_MAX + 1).keys| == CONTEXT_CAP - 1;
      assert !ShownRight(ks, OVERFLOW_MAX + 1);
    }
  }

  // ------------------------------------------------------------- where a parse fails

  /** The keys of the dictionary values that enclose the place where parsing stopped. */
  ghost function FailPath(buf: seq<Octet>, depth: nat, limit: nat): seq<Key>
    decreases |buf|, 1
  {
    if buf == [] || depth >= limit then []
    else if buf[0] == BYTE_D then FailPathDict(buf[1..], depth + 1, limit)
    else if buf[0] == BYTE_L then FailPathList(buf[1..], depth + 1, limit)
    else []
  }

  ghost function FailPathList(buf: seq<Octet>, depth: nat, limit: nat): seq<Key>
    decreases |buf|, 2
  {
    if buf != [] && buf[0] == BYTE_E then []
    else
      match ParseAny(buf, depth, limit)
      case Done(_, rest) => FailPathList(rest, depth, limit)
      case Fail(_) => FailPath(buf, depth, limit)
  }

  ghost function FailPathDict(buf: seq<Octet>, depth: nat, limit: nat): seq<Key>
    decreases |buf|, 2
  {
    if buf != [] && buf[0] == BYTE_E then []
    else
      match ParseBytes(buf)
      case Fail(_) => []
      case Done(k, rest) =>
        match ParseAny(rest, depth, limit)
        case Done(_, rest2) => FailPathDict(rest2, depth, limit)
        case Fail(_) => [k] + FailPath(rest, depth, limit)
  }

  // ------------------------------------------------------------- the deserializer

  class BencodeDeserializer {
    var buf: seq<Octet>
    var trail: Trail
    var parsingKey: bool
    var depth: nat
    const maxDepth: nat
    /** The keys whose values are being parsed, outermost first. */
    ghost var openKeys: seq<Key>

    ghost predicate Valid()
      reads this
    {
      depth <= maxDepth && |openKeys| <= depth && TrailRight()
    }

    ghost predicate TrailRight()
      reads this
    {
      maxDepth <= CONTEXT_CAP + OVERFLOW_MAX ==> Tracks(trail, openKeys)
    }

    constructor (input: seq<Octet>, limit: nat)
      ensures Valid() && buf == input && maxDepth == limit
      ensures depth == 0 && !parsingKey && openKeys == [] && trail == Trail([], 0)
    {
      buf, trail, parsingKey, depth, maxDepth := input, Trail([], 0), false, 0, limit;
      openKeys := [];
    }

    method ParseFirstByte(c: Octet) returns (r: Result<(), Error>)
      modifies this`buf
      ensures if old(buf) != [] && old(buf)[0] == c then r == Ok(()) && buf == old(buf)[1..]
              else buf == old(buf) && r == Err(if buf == [] then Eof else InvalidValue)
    {
      if buf == [] {
        r := Err(Eof);
      } else if buf[0] == c {
        buf := buf[1..];
        r := Ok(());
      } else {
        r := Err(InvalidValue);
      }
    }

    method DeserializeI64() returns (r: Result<Value, Error>)
      modifies this`buf
      ensures Agrees(ParseInteger(old(buf)), r, buf)
    {
      var first := ParseFirstByte(BYTE_I);
      if first.Err? { return Err(first.error); }
      var (v, len) := FromRadix10Signed(buf);
      if len > 0 && len < |buf| && buf[len] == BYTE_E {
        buf := buf[len + 1..];
        r := Ok(Integer(v));
      } else {
        r := Err(InvalidValue);
      }
    }

    /** A key that was parsed joins the open keys; the trail keeps it or counts it. */
    method ParseByteString() returns (r: Result<seq<Octet>, Error>)
      requires TrailRight() && (parsingKey ==> |openKeys| < depth <= maxDepth)
      modifies this
      ensures depth == old(depth) && parsingKey == old(parsingKey) && TrailRight()
      ensures Agrees(ParseBytes(old(buf)), r, buf)
      ensures openKeys == if r.Ok? && parsingKey then old(openKeys) + [r.value] else old(openKeys)
    {
      var (n, len) := FromRadix10(buf);
      if !(len > 0 && len < |buf| && buf[len] == BYTE_COLON) { return Err(InvalidValue); }
      buf := buf[len + 1..];
      if n > |buf| { return Err(Eof); }
      var b := buf[..n];
      buf := buf[n..];
      r := Ok(b);
      if parsingKey {
        if maxDepth <= CONTEXT_CAP + OVERFLOW_MAX { PushTracks(trail, openKeys, b); }
        trail := trail.Push(b);
        openKeys := openKeys + [b];
      }
    }

    method EnterContainer() returns (r: Result<(), Error>)
      modifies this`depth
      ensures if old(depth) >= maxDepth then r == Err(DepthLimit(maxDepth)) && depth == old(depth)
              else r == Ok(()) && depth == old(depth) + 1
    {
      if depth >= maxDepth { return Err(DepthLimit(maxDepth)); }
      depth := depth + 1;
      r := Ok(());
    }

    /** The result of the parsing function, the cursor just past the value, the nesting counter and
        the open keys restored; on failure the open keys are those that enclose the failure. */
    method DeserializeAny() returns (r: Result<Value, Error>)
      requires Valid() && !parsingKey
      modifies this
      ensures depth == old(depth) && TrailRight() && (r.Ok? ==> Valid())
      ensures Stepped(ParseAny(old(buf), old(depth), maxDepth), r, FailPath(old(buf), old(depth), maxDepth),
                old(openKeys))
      decreases |buf|, 1
    {
      if buf == [] {
        r := Err(Eof);
        assert openKeys == openKeys + [];
      } else if buf[0] == BYTE_D {
        r := DeserializeMap();
      } else if buf[0] == BYTE_I {
        r := DeserializeI64();
        assert openKeys == openKeys + [];
      } else if buf[0] == BYTE_L {
        r := DeserializeSeq();
      } else {
        var b := ParseByteString();
        r := if b.Ok? then Ok(Bytes(b.value)) else Err(b.error);
        assert openKeys == openKeys + [];
      }
    }

    method DeserializeSeq() returns (r: Result<Value, Error>)
      requires Valid() && !parsingKey && buf != [] && buf[0] == BYTE_L
      modifies this
      ensures depth == old(depth) && TrailRight() && (r.Ok? ==> Valid())
      ensures Stepped(ParseAny(old(buf), old(depth), maxDepth), r, FailPath(old(buf), old(depth), maxDepth),
                old(openKeys))
      decreases |buf|, 0
    {
      var first := ParseFirstByte(BYTE_L);
      var entered := EnterContainer();
      if entered.Err? {
        assert openKeys == openKeys + [];
        return Err(entered.error);
      }
      r := VisitSeq();
      depth := depth - 1;
    }

    method VisitSeq() returns (r: Result<Value, Error>)
      requires Valid() && !parsingKey && |openKeys| < depth
      modifies this
      ensures depth == old(depth) && TrailRight() && (r.Ok? ==> Valid())
      ensures Stepped(ParseList(old(buf), old(depth), maxDepth, []), r, FailPathList(old(buf), old(depth), maxDepth),
                old(openKeys))
      decreases |buf|, 2
    {
      var items := [];
      ghost var goal, path := ParseList(buf, depth, maxDepth, []), FailPathList(buf, depth, maxDepth);
      while true
        invariant Valid() && !parsingKey && depth == old(depth) && openKeys == old(openKeys) && |buf| <= |old(buf)|
        invariant ParseList(buf, depth, maxDepth, items) == goal && FailPathList(buf, depth, maxDepth) == path
        decreases |buf|
      {
        if buf != [] && buf[0] == BYTE_E {
          buf := buf[1..];
          return Ok(List(items));
        }
        var v := DeserializeAny();
        if v.Err? { return v; }
        items := items + [v.value];
      }
    }

    method DeserializeMap() returns (r: Result<Value, Error>)
      requires Valid() && !parsingKey && buf != [] && buf[0] == BYTE_D
      modifies this
      ensures depth == old(depth) && TrailRight() && (r.Ok? ==> Valid())
      ensures Stepped(ParseAny(old(buf), old(depth), maxDepth), r, FailPath(old(buf), old(depth), maxDepth),
                old(openKeys))
      decreases |buf|, 0
    {
      var first := ParseFirstByte(BYTE_D);
      var entered := EnterContainer();
      if entered.Err? {
        assert openKeys == openKeys + [];
        return Err(entered.error);
      }
      r := VisitMap();
      depth := depth - 1;
    }

    method VisitMap() returns (r: Result<Value, Error>)
      requires Valid() && !parsingKey && |openKeys| < depth
      modifies this
      ensures depth == old(depth) && TrailRight() && (r.Ok? ==> Valid())
      ensures Stepped(ParseDict(old(buf), old(depth), maxDepth, map[]), r,
                FailPathDict(old(buf), old(depth), maxDepth), old(openKeys))
      decreases |buf|, 2
    {
      var hmap: map<Key, Value> := map[];
      ghost var goal, path := ParseDict(buf, depth, maxDepth, map[]), FailPathDict(buf, depth, maxDepth);
      while true
        invariant Valid() && !parsingKey && depth == old(depth) && openKeys == old(openKeys) && |buf| <= |old(buf)|
        invariant ParseDict(buf, depth, maxDepth, hmap) == goal && FailPathDict(buf, depth, maxDepth) == path
        decreases |buf|
      {
        var key := NextKey();
        if key.Err? {
          PathEnd(openKeys);
          return Err(key.error);
        }
        if key.value.None? { return Ok(Dict(hmap)); }
        ghost var rest := buf;
        var v := NextValue();
        if v.Err? {
          PathStep(old(openKeys), key.value.value, FailPath(rest, depth, maxDepth));
          return v;
        }
        hmap := hmap[key.value.value := v.value];
      }
    }

    /** The end of the dictionary, or a key, which is open from here on. */
    method NextKey() returns (r: Result<Option<Key>, Error>)
      requires Valid() && !parsingKey && |openKeys| < depth
      modifies this
      ensures depth == old(depth) && TrailRight()
      ensures var k := ParseBytes(old(buf));
              if old(buf) != [] && old(buf)[0] == BYTE_E then r == Ok(None) && buf == old(buf)[1..]
                && openKeys == old(openKeys)
              else if k.Done? then r == Ok(Some(k.value)) && buf == k.rest && openKeys == old(openKeys) + [k.value]
              else r == Err(k.error) && openKeys == old(openKeys)
      ensures r.Ok? ==> !parsingKey
    {
      if buf != [] && buf[0] == BYTE_E {
        buf := buf[1..];
        return Ok(None);
      }
      parsingKey := true;
      var key := ParseByteString();
      if key.Err? { return Err(key.error); }
      parsingKey := false;
      r := Ok(Some(key.value));
    }

    /** The value of the innermost open key, which is closed again on success only. */
    method NextValue() returns (r: Result<Value, Error>)
      requires Valid() && !parsingKey && openKeys != []
      modifies this
      ensures depth == old(depth) && TrailRight() && (r.Ok? ==> !parsingKey)
      ensures Agrees(ParseAny(old(buf), old(depth), maxDepth), r, buf)
      ensures openKeys == if r.Ok? then old(openKeys)[..|old(openKeys)| - 1]
                          else old(openKeys) + FailPath(old(buf), old(depth), maxDepth)
      decreases |buf|, 2
    {
      r := DeserializeAny();
      if r.Ok? {
        if maxDepth <= CONTEXT_CAP + OVERFLOW_MAX { PopTracks(trail, openKeys); }
        trail := trail.Pop();
        openKeys := openKeys[..|openKeys| - 1];
      }
    }

    ghost predicate Stepped(p: Parsed<Value>, r: Result<Value, Error>, path: seq<Key>, before: seq<Key>)
      reads this
    {
      Agrees(p, r, buf) &&
      if p.Done? then !parsingKey && openKeys == before else openKeys == before + path
    }
  }

  lemma PathStep(open: seq<Key>, k: Key, path: seq<Key>)
    ensures (open + [k]) + path == open + ([k] + path)
  {
  }

  lemma PathEnd(open: seq<Key>)
    ensures open + [] == open
  {
  }

  /** The outcome of a step as a parsing function gives it. On failure the cursor may be anywhere. */
  ghost predicate Agrees<T>(p: Parsed<T>, r: Result<T, Error>, buf: seq<Octet>) {
    if p.Done? then r == Ok(p.value) && buf == p.rest else r == Err(p.error)
  }

  /** The whole buffer as one value; on failure, the error and the keys shown with it. */
  method DeserializeFromBytes(input: seq<Octet>) returns (r: Result<Value, Error>, context: seq<Key>)
    ensures var p := FromBytes(input, DEFAULT_MAX_DEPTH); if p.Done? then r == Ok(p.value) else r == Err(p.error)
    ensures context == if ParseAny(input, 0, DEFAULT_MAX_DEPTH).Fail? then
            FirstKeys(FailPath(input, 0, DEFAULT_MAX_DEPTH)) else []
  {
    var de := new BencodeDeserializer(input, DEFAULT_MAX_DEPTH);
    r := de.DeserializeAny();
    context := [];
    if r.Err? {
      context := de.trail.keys;
      assert [] + FailPath(input, 0, DEFAULT_MAX_DEPTH) == FailPath(input, 0, DEFAULT_MAX_DEPTH);
    } else if de.buf != [] {
      r := Err(BytesRemaining(|de.buf|));
    }
  }
}
