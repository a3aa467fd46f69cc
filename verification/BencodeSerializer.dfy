/** The bencode serializer: a writer, a flag that suppresses byte-string prefixes, and
    dictionaries that are collected, sorted by key and only then written. */
module BencodeSerialization {
  import opened Prelude
  import opened BencodeNumbers
  import opened BencodeValues

  datatype Entry = Entry(key: Key, value: seq<Octet>)

  function Keys(s: seq<Entry>): (ks: seq<Key>)
    ensures |ks| == |s| && forall i :: 0 <= i < |s| ==> ks[i] == s[i].key
  {
    seq(|s|, i requires 0 <= i < |s| => s[i].key)
  }

  ghost predicate DistinctKeys(s: seq<Entry>) {
    forall i, j :: 0 <= i < j < |s| ==> s[i].key != s[j].key
  }

  /** The entry goes before the first one with a greater key. */
  method InsertEntry(s: seq<Entry>, e: Entry) returns (r: seq<Entry>)
    requires StrictlyIncreasing(Keys(s)) && forall i :: 0 <= i < |s| ==> s[i].key != e.key
    ensures StrictlyIncreasing(Keys(r))
    ensures forall x :: x in r <==> x in s || x == e
  {
    var i := |s|;
    while i > 0 && Less(e.key, s[i - 1].key)
      invariant 0 <= i <= |s|
      invariant forall j :: i <= j < |s| ==> Less(e.key, s[j].key)
    {
      i := i - 1;
    }
    if i > 0 { LessTotal(e.key, s[i - 1].key); }
    forall j | 0 <= j < i ensures Less(s[j].key, e.key) {
      if j < i - 1 {
        assert Less(Keys(s)[j], Keys(s)[i - 1]);
        LessTransitive(s[j].key, s[i - 1].key, e.key);
      }
    }
    r := s[..i] + [e] + s[i..];
    forall a, b | 0 <= a < b < |r| ensures Less(Keys(r)[a], Keys(r)[b]) {
      SplicedOrder(s, e, i, a, b);
    }
    assert s == s[..i] + s[i..];
  }

  lemma SplicedOrder(s: seq<Entry>, e: Entry, i: nat, a: nat, b: nat)
    requires i <= |s| && a < b <= |s| && StrictlyIncreasing(Keys(s))
    requires forall j :: 0 <= j < i ==> Less(s[j].key, e.key)
    requires forall j :: i <= j < |s| ==> Less(e.key, s[j].key)
    ensures var r := s[..i] + [e] + s[i..]; Less(r[a].key, r[b].key)
  {
    var ia, ib := if a < i then a else a - 1, if b < i then b else b - 1;
    if a != i && b != i {
      assert Less(Keys(s)[ia], Keys(s)[ib]);
    }
  }

  /** `sort_unstable_by` on the collected entries. */
  method SortEntries(tmp: seq<Entry>) returns (r: seq<Entry>)
    requires DistinctKeys(tmp)
    ensures StrictlyIncreasing(Keys(r))
    ensures forall x :: x in r <==> x in tmp
  {
    r := [];
    for n := 0 to |tmp|
      invariant StrictlyIncreasing(Keys(r))
      invariant forall x :: x in r <==> x in tmp[..n]
    {
      forall i | 0 <= i < |r| ensures r[i].key != tmp[n].key {
        assert r[i] in r;
        var j :| 0 <= j < n && tmp[..n][j] == r[i];
      }
      r := InsertEntry(r, tmp[n]);
      assert tmp[..n + 1] == tmp[..n] + [tmp[n]];
    }
    assert tmp[..|tmp|] == tmp;
  }

  /** What has been collected of a dictionary: its first `done` keys, each with its printed value. */
  ghost predicate Collected(v: Value, tmp: seq<Entry>, done: set<Key>)
    requires v.Dict? && done <= v.entries.Keys
  {
    DistinctKeys(tmp) &&
    (forall e :: e in tmp ==> e.key in done && e.value == Print(false, v.entries[e.key])) &&
    forall k :: k in done ==> Entry(k, Print(false, v.entries[k])) in tmp
  }

  ghost predicate PrintedEntries(v: Value, s: seq<Entry>)
    requires v.Dict?
  {
    forall i :: 0 <= i < |s| ==> s[i].key in v.entries && s[i].value == Print(false, v.entries[s[i].key])
  }

  lemma CollectedStep(v: Value, tmp: seq<Entry>, done: set<Key>, e: Entry)
    requires v.Dict? && done <= v.entries.Keys && Collected(v, tmp, done)
    requires e.key in v.entries && e.key !in done && e.value == Print(false, v.entries[e.key])
    ensures Collected(v, tmp + [e], done + {e.key})
  {
    forall i, j | 0 <= i < j < |tmp + [e]| ensures (tmp + [e])[i].key != (tmp + [e])[j].key {
      assert tmp[i] in tmp;
    }
    forall k | k in done + {e.key} ensures Entry(k, Print(false, v.entries[k])) in tmp + [e] {
      if k == e.key { assert (tmp + [e])[|tmp|] == e; }
    }
  }

  /** Sorted, the collected entries are the dictionary's keys in increasing order. */
  lemma CollectedInOrder(v: Value, tmp: seq<Entry>, r: seq<Entry>)
    requires v.Dict? && Collected(v, tmp, v.entries.Keys)
    requires StrictlyIncreasing(Keys(r)) && forall x :: x in r <==> x in tmp
    ensures Keys(r) == SortedKeys(v.entries.Keys)
    ensures PrintedEntries(v, r)
  {
    var ks := SortedKeys(v.entries.Keys);
    SortedKeysSorted(v.entries.Keys);
    forall i | 0 <= i < |r| ensures r[i].key in v.entries && r[i].value == Print(false, v.entries[r[i].key]) {
      assert r[i] in r;
    }
    forall k ensures k in Keys(r) <==> k in ks {
      if k in ks {
        var e := Entry(k, Print(false, v.entries[k]));
        assert e in r;
        var i :| 0 <= i < |r| && r[i] == e;
        assert Keys(r)[i] == k;
      }
      if k in Keys(r) {
        var i :| 0 <= i < |r| && Keys(r)[i] == k;
        assert r[i] in r;
      }
    }
    IncreasingIsUnique(Keys(r), ks);
  }

  class BencodeSerializer {
    var writer: seq<Octet>
    var hackNoBytestringPrefix: bool

    constructor ()
      ensures writer == [] && !hackNoBytestringPrefix
    {
      writer := [];
      hackNoBytestringPrefix := false;
    }

    method WriteRaw(b: seq<Octet>)
      modifies this`writer
      ensures writer == old(writer) + b
    {
      writer := writer + b;
    }

    method WriteBytes(b: seq<Octet>)
      modifies this`writer
      ensures writer == old(writer) + PrintBytes(hackNoBytestringPrefix, b)
    {
      if !hackNoBytestringPrefix {
        WriteRaw(Decimal(|b|) + [BYTE_COLON]);
      }
      WriteRaw(b);
    }

    /** Whatever is already written stays, the value's printed form follows it, and the flag is
        as it was. */
    method Serialize(v: Value)
      modifies this
      ensures writer == old(writer) + Print(old(hackNoBytestringPrefix), v)
      ensures hackNoBytestringPrefix == old(hackNoBytestringPrefix)
      decreases v, 1
    {
      match v
      case Bytes(b) => WriteBytes(b);
      case Integer(i) => WriteRaw([BYTE_I] + DecimalSigned(i) + [BYTE_E]);
      case List(_) => SerializeSeq(v);
      case Dict(_) => SerializeMap(v);
    }

    method SerializeSeq(v: Value)
      requires v.List?
      modifies this
      ensures writer == old(writer) + Print(old(hackNoBytestringPrefix), v)
      ensures hackNoBytestringPrefix == old(hackNoBytestringPrefix)
      decreases v, 0
    {
      ghost var raw, w := hackNoBytestringPrefix, writer;
      WriteRaw([BYTE_L]);
      ghost var printed := [];
      var i := 0;
      while i < |v.items|
        invariant 0 <= i <= |v.items|
        invariant hackNoBytestringPrefix == raw
        invariant writer == w + [BYTE_L] + printed
        invariant printed + PrintItems(raw, v.items[i..]) == PrintItems(raw, v.items)
      {
        ItemsStep(raw, v.items, i, printed);
        Serialize(v.items[i]);
        Append(w + [BYTE_L], printed, Print(raw, v.items[i]));
        printed := printed + Print(raw, v.items[i]);
        i := i + 1;
      }
      WriteRaw([BYTE_E]);
      ItemsEnd(raw, v, printed, w);
    }

    method SerializeMap(v: Value)
      requires v.Dict?
      modifies this
      ensures writer == old(writer) + Print(old(hackNoBytestringPrefix), v)
      ensures hackNoBytestringPrefix == old(hackNoBytestringPrefix)
      decreases v, 0
    {
      ghost var raw, w := hackNoBytestringPrefix, writer;
      WriteRaw([BYTE_D]);
      var tmp := CollectEntries(v);
      var sorted := SortEntries(tmp);
      CollectedInOrder(v, tmp, sorted);
      WriteEntries(v, sorted);
      WriteRaw([BYTE_E]);
      EntriesEnd(raw, v, w);
    }

    method WriteEntries(v: Value, sorted: seq<Entry>)
      requires v.Dict? && PrintedEntries(v, sorted)
      modifies this`writer
      ensures writer == old(writer) + PrintEntries(hackNoBytestringPrefix, v, Keys(sorted))
    {
      ghost var raw, ks, w := hackNoBytestringPrefix, Keys(sorted), writer;
      ghost var printed := [];
      var i := 0;
      while i < |sorted|
        invariant 0 <= i <= |sorted|
        invariant writer == w + printed
        invariant printed + PrintEntries(raw, v, ks[i..]) == PrintEntries(raw, v, ks)
      {
        EntriesStep(raw, v, ks, i, printed);
        WriteBytes(sorted[i].key);
        Append(w, printed, PrintBytes(raw, ks[i]));
        WriteRaw(sorted[i].value);
        Append(w, printed + PrintBytes(raw, ks[i]), Print(false, v.entries[ks[i]]));
        printed := printed + PrintBytes(raw, ks[i]) + Print(false, v.entries[ks[i]]);
        i := i + 1;
      }
      assert ks[i..] == [];
      assert printed + [] == printed;
    }
  }

  lemma Append(a: seq<Octet>, b: seq<Octet>, c: seq<Octet>)
    ensures (a + b) + c == a + (b + c)
  {
  }

  lemma ItemsStep(raw: bool, items: seq<Value>, i: nat, printed: seq<Octet>)
    requires i < |items|
    ensures printed + PrintItems(raw, items[i..]) == (printed + Print(raw, items[i])) + PrintItems(raw, items[i + 1..])
  {
    assert items[i..][0] == items[i] && items[i..][1..] == items[i + 1..];
    Append(printed, Print(raw, items[i]), PrintItems(raw, items[i + 1..]));
  }

  lemma ItemsEnd(raw: bool, v: Value, printed: seq<Octet>, w: seq<Octet>)
    requires v.List? && printed + PrintItems(raw, v.items[|v.items|..]) == PrintItems(raw, v.items)
    ensures w + [BYTE_L] + printed + [BYTE_E] == w + Print(raw, v)
  {
    assert v.items[|v.items|..] == [];
    assert printed == PrintItems(raw, v.items);
  }

  lemma EntriesStep(raw: bool, v: Value, ks: seq<Key>, i: nat, printed: seq<Octet>)
    requires v.Dict? && i < |ks| && ks[i] in v.entries
    ensures printed + PrintEntries(raw, v, ks[i..])
         == (printed + PrintBytes(raw, ks[i]) + Print(false, v.entries[ks[i]])) + PrintEntries(raw, v, ks[i + 1..])
  {
    assert ks[i..][0] == ks[i] && ks[i..][1..] == ks[i + 1..];
  }

  lemma EntriesEnd(raw: bool, v: Value, w: seq<Octet>)
    requires v.Dict?
    ensures w + [BYTE_D] + PrintEntries(raw, v, SortedKeys(v.entries.Keys)) + [BYTE_E] == w + Print(raw, v)
  {
  }

  /** Each value is serialized into a buffer of its own, in whatever order the map yields its keys. */
  method CollectEntries(v: Value) returns (tmp: seq<Entry>)
    requires v.Dict?
    ensures Collected(v, tmp, v.entries.Keys)
    decreases v, 0, 0
  {
    tmp := [];
    var keys := v.entries.Keys;
    var pending := keys;
    while pending != {}
      invariant pending <= keys && Collected(v, tmp, keys - pending)
      decreases |pending|
    {
      var k :| k in pending;
      var b := SerializeAlone(v.entries[k]);
      CollectedStep(v, tmp, keys - pending, Entry(k, b));
      assert (keys - pending) + {k} == keys - (pending - {k});
      tmp := tmp + [Entry(k, b)];
      pending := pending - {k};
    }
    assert keys - {} == keys;
  }

  /** A value on its own is printed with its prefixes. */
  method SerializeAlone(v: Value) returns (b: seq<Octet>)
    ensures b == Print(false, v)
    decreases v, 2
  {
    var ser := new BencodeSerializer();
    ser.Serialize(v);
    b := ser.writer;
    assert [] + Print(false, v) == Print(false, v);
  }
}
