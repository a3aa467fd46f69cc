/** Dynamic bencode values and their printed form. */
module BencodeValues {
  import opened Prelude
  import opened BencodeNumbers

  type Key = seq<Octet>

  datatype Value = Bytes(b: seq<Octet>) | Integer(i: I64) | List(items: seq<Value>) | Dict(entries: map<Key, Value>)

  // ------------------------------------------------------------- key order

  /** Strict byte-wise order. */
  predicate Less(a: Key, b: Key) {
    b != [] && (a == [] || a[0] < b[0] || (a[0] == b[0] && Less(a[1..], b[1..])))
  }

  lemma {:induction false} LessIrreflexive(a: Key)
    ensures !Less(a, a)
  {
    if a != [] { LessIrreflexive(a[1..]); }
  }

  lemma {:induction false} LessTotal(a: Key, b: Key)
    ensures Less(a, b) || a == b || Less(b, a)
    ensures !(Less(a, b) && Less(b, a))
  {
    if a != [] && b != [] {
      LessTotal(a[1..], b[1..]);
      if a[0] == b[0] && a[1..] == b[1..] { assert a == [a[0]] + a[1..] == b; }
    }
  }

  lemma {:induction false} LessTransitive(a: Key, b: Key, c: Key)
    requires Less(a, b) && Less(b, c)
    ensures Less(a, c)
  {
    if a != [] && a[0] == b[0] && b[0] == c[0] { LessTransitive(a[1..], b[1..], c[1..]); }
  }

  predicate StrictlyIncreasing(s: seq<Key>) {
    forall i, j :: 0 <= i < j < |s| ==> Less(s[i], s[j])
  }

  function InsertKey(s: seq<Key>, k: Key): seq<Key> {
    if s == [] || Less(s[|s| - 1], k) then s + [k] else InsertKey(s[..|s| - 1], k) + [s[|s| - 1]]
  }

  lemma {:induction false} InsertKeySorts(s: seq<Key>, k: Key)
    requires StrictlyIncreasing(s) && k !in s
    ensures StrictlyIncreasing(InsertKey(s, k))
    ensures forall x :: x in InsertKey(s, k) <==> x in s || x == k
  {
    if s == [] {
    } else if Less(s[|s| - 1], k) {
      forall i | 0 <= i < |s| ensures Less(s[i], k) {
        if i < |s| - 1 { LessTransitive(s[i], s[|s| - 1], k); }
      }
    } else {
      var init, last := s[..|s| - 1], s[|s| - 1];
      assert s == init + [last];
      InsertKeySorts(init, k);
      LessTotal(last, k);
      var r := InsertKey(init, k);
      forall i | 0 <= i < |r| ensures Less(r[i], last) {
        assert r[i] in r;
      }
    }
  }

  /** The keys of a dictionary in increasing order. */
  ghost function SortedKeys(keys: set<Key>): seq<Key> {
    if keys == {} then [] else var k :| k in keys; InsertKey(SortedKeys(keys - {k}), k)
  }

  lemma {:induction false} SortedKeysSorted(keys: set<Key>)
    ensures StrictlyIncreasing(SortedKeys(keys))
    ensures forall x :: x in SortedKeys(keys) <==> x in keys
  {
    if keys != {} {
      var k :| k in keys && SortedKeys(keys) == InsertKey(SortedKeys(keys - {k}), k);
      SortedKeysSorted(keys - {k});
      InsertKeySorts(SortedKeys(keys - {k}), k);
    }
  }

  lemma {:induction false} IncreasingIsUnique(s: seq<Key>, t: seq<Key>)
    requires StrictlyIncreasing(s) && StrictlyIncreasing(t) && forall x :: x in s <==> x in t
    ensures s == t
  {
    if s == [] || t == [] {
      NoMembers(s);
      NoMembers(t);
    } else {
      assert s[0] in t;
      assert t[0] in s;
      LessTotal(s[0], t[0]);
      FirstIsLeast(s, t[0]);
      FirstIsLeast(t, s[0]);
      var a, b := s[1..], t[1..];
      forall x ensures x in a <==> x in b {
        TailMembers(s, x);
        TailMembers(t, x);
      }
      IncreasingIsUnique(a, b);
    }
  }

  lemma NoMembers(s: seq<Key>)
    ensures s == [] <==> forall x :: x !in s
  {
    if s != [] { assert s[0] in s; }
  }

  lemma FirstIsLeast(s: seq<Key>, x: Key)
    requires StrictlyIncreasing(s) && x in s
    ensures x == s[0] || Less(s[0], x)
  {
  }

  lemma TailMembers(s: seq<Key>, x: Key)
    requires StrictlyIncreasing(s) && s != []
    ensures x in s[1..] <==> x in s && x != s[0]
  {
    LessIrreflexive(x);
    if x in s[1..] {
      var i :| 0 <= i < |s[1..]| && s[1..][i] == x;
      assert Less(s[0], s[i + 1]);
    }
    if x in s && x != s[0] {
      var i :| 0 <= i < |s| && s[i] == x;
      assert s[1..][i - 1] == x;
    }
  }

  // ------------------------------------------------------------- printing

  /** The printed form. `raw` leaves out the length prefix of byte strings; dictionary values
      are always printed with it. */
  ghost function Print(raw: bool, v: Value): seq<Octet>
    decreases v, 1
  {
    match v
    case Bytes(b) => PrintBytes(raw, b)
    case Integer(i) => [BYTE_I] + DecimalSigned(i) + [BYTE_E]
    case List(items) => [BYTE_L] + PrintItems(raw, items) + [BYTE_E]
    case Dict(m) => [BYTE_D] + PrintEntries(raw, v, SortedKeys(m.Keys)) + [BYTE_E]
  }

  function PrintBytes(raw: bool, b: seq<Octet>): seq<Octet> {
    (if raw then [] else Decimal(|b|) + [BYTE_COLON]) + b
  }

  ghost function PrintItems(raw: bool, items: seq<Value>): seq<Octet>
    decreases items
  {
    if items == [] then [] else Print(raw, items[0]) + PrintItems(raw, items[1..])
  }

  /** Entries in the given key order; keys that are not in the dictionary print nothing. */
  ghost function PrintEntries(raw: bool, v: Value, ks: seq<Key>): seq<Octet>
    requires v.Dict?
    decreases v, 0, |ks|
  {
    if ks == [] then []
    else (if ks[0] in v.entries then PrintBytes(raw, ks[0]) + Print(false, v.entries[ks[0]]) else [])
         + PrintEntries(raw, v, ks[1..])
  }

  /** How many containers are open at the deepest point. */
  ghost function Depth(v: Value): nat
    decreases v, 1
  {
    match v
    case Bytes(_) => 0
    case Integer(_) => 0
    case List(items) => 1 + DepthItems(items)
    case Dict(m) => 1 + DepthEntries(v, SortedKeys(m.Keys))
  }

  ghost function DepthItems(items: seq<Value>): nat
    decreases items
  {
    if items == [] then 0 else Max(Depth(items[0]), DepthItems(items[1..]))
  }

  ghost function DepthEntries(v: Value, ks: seq<Key>): nat
    requires v.Dict?
    decreases v, 0, |ks|
  {
    if ks == [] then 0
    else Max(if ks[0] in v.entries then Depth(v.entries[ks[0]]) else 0, DepthEntries(v, ks[1..]))
  }

  /** Every byte string is short enough for its length to be a machine word. */
  ghost predicate Representable(v: Value)
    decreases v
  {
    match v
    case Bytes(b) => |b| < TWO_64
    case Integer(_) => true
    case List(items) => forall i :: 0 <= i < |items| ==> Representable(items[i])
    case Dict(m) => forall k :: k in m ==> |k| < TWO_64 && Representable(m[k])
  }
}
