/** The size-capped event log: one current segment and rotated ones, newest first. */
module EventLogs {
  import opened Prelude
  import opened BencodeNumbers

  const MIN_CAP: nat := 256 * 1024
  const MAX_CAP: nat := 1024 * 1024 * 1024
  const MIN_SEGMENT: nat := 32 * 1024
  const NEWLINE: Octet := 10

  function SegmentSize(cap: nat): (r: nat)
    ensures 1 <= r && (cap >= 1 ==> r <= cap)
  {
    Min(Max(cap / 8, MIN_SEGMENT), Max(cap, 1))
  }

  function ClampCap(cap: nat): nat {
    Max(MIN_CAP, Min(cap, MAX_CAP))
  }

  /** What rotated segments may take up together. */
  function Budget(cap: nat): nat {
    SaturatingSub(cap, SegmentSize(cap))
  }

  // ------------------------------------------------------------- the log as a value

  type Segment = seq<Octet>

  datatype Log = Log(cap: nat, cur: Segment, rotated: seq<Segment>)

  function Sum(segs: seq<Segment>): nat {
    if segs == [] then 0 else Sum(segs[..|segs| - 1]) + |segs[|segs| - 1]|
  }

  function Total(log: Log): nat {
    |log.cur| + Sum(log.rotated)
  }

  /** Oldest first, the current segment last. */
  function Live(log: Log): seq<Octet> {
    Oldest(log.rotated) + log.cur
  }

  function Oldest(segs: seq<Segment>): seq<Octet> {
    if segs == [] then [] else Oldest(segs[1..]) + segs[0]
  }

  /** Segments that are left when the oldest go until the rest and `extra` fit. */
  function DropOldest(segs: seq<Segment>, extra: nat, budget: nat): seq<Segment> {
    if segs != [] && Sum(segs) + extra > budget then DropOldest(segs[..|segs| - 1], extra, budget) else segs
  }

  function AfterNewline(s: Segment): Segment {
    if s == [] then [] else if s[0] == NEWLINE then s[1..] else AfterNewline(s[1..])
  }

  /** The last `keep` bytes, from the first line that starts in them. */
  function TrimToTail(s: Segment, keep: nat): Segment {
    if |s| <= keep then s else AfterNewline(s[|s| - keep..])
  }

  function Rotated(log: Log): Log {
    var budget := Budget(log.cap);
    var seg := if |log.cur| > budget then TrimToTail(log.cur, budget) else log.cur;
    Log(log.cap, [], DropOldest([seg] + DropOldest(log.rotated, |seg|, budget), 0, budget))
  }

  function Appended(log: Log, line: seq<Octet>): Log {
    var l := if |log.cur| > 0 && |log.cur| + |line| > SegmentSize(log.cap) then Rotated(log) else log;
    l.(cur := l.cur + line)
  }

  function Enforced(log: Log): Log {
    if |log.cur| > SegmentSize(log.cap) then Rotated(log)
    else log.(rotated := DropOldest(log.rotated, 0, Budget(log.cap)))
  }

  /** A fresh log after appending these lines. */
  function Run(cap: nat, lines: seq<seq<Octet>>): Log {
    if lines == [] then Log(cap, [], []) else Appended(Run(cap, lines[..|lines| - 1]), lines[|lines| - 1])
  }

  // ------------------------------------------------------------- the cap

  lemma {:induction false} DropOldestFits(segs: seq<Segment>, extra: nat, budget: nat)
    ensures var r := DropOldest(segs, extra, budget); r <= segs && (r == [] || Sum(r) + extra <= budget)
    ensures Sum(segs) + extra <= budget ==> DropOldest(segs, extra, budget) == segs
  {
    if segs != [] && Sum(segs) + extra > budget {
      DropOldestFits(segs[..|segs| - 1], extra, budget);
    }
  }

  lemma {:induction false} SumCons(s: Segment, segs: seq<Segment>)
    ensures Sum([s] + segs) == |s| + Sum(segs)
  {
    var all := [s] + segs;
    if segs == [] {
      assert all[..|all| - 1] == [];
    } else {
      SumCons(s, segs[..|segs| - 1]);
      assert all[..|all| - 1] == [s] + segs[..|segs| - 1];
    }
  }

  lemma {:induction false} AfterNewlineShorter(s: Segment)
    ensures |AfterNewline(s)| <= |s| && AfterNewline(s) == s[|s| - |AfterNewline(s)|..]
  {
    if s != [] && s[0] != NEWLINE { AfterNewlineShorter(s[1..]); }
  }

  lemma TrimToTailFits(s: Segment, keep: nat)
    ensures |TrimToTail(s, keep)| <= |s| && (|s| > keep ==> |TrimToTail(s, keep)| <= keep)
    ensures TrimToTail(s, keep) == s[|s| - |TrimToTail(s, keep)|..]
  {
    if |s| > keep { AfterNewlineShorter(s[|s| - keep..]); }
  }

  /** The part that a rotation puts in front of the older segments. */
  function Head(log: Log): Segment {
    if |log.cur| > Budget(log.cap) then TrimToTail(log.cur, Budget(log.cap)) else log.cur
  }

  /** A rotation keeps the newest segments that fit together with the one just finished. */
  lemma RotatedFits(log: Log)
    ensures var older := DropOldest(log.rotated, |Head(log)|, Budget(log.cap));
            Rotated(log) == Log(log.cap, [], [Head(log)] + older) && Sum([Head(log)] + older) <= Budget(log.cap)
              && older <= log.rotated
  {
    var budget := Budget(log.cap);
    TrimToTailFits(log.cur, budget);
    var seg := Head(log);
    var older := DropOldest(log.rotated, |seg|, budget);
    DropOldestFits(log.rotated, |seg|, budget);
    SumCons(seg, older);
    DropOldestFits([seg] + older, 0, budget);
  }

  /** The current segment and the rotated ones are each within their share. */
  ghost predicate WithinCap(log: Log) {
    |log.cur| <= SegmentSize(log.cap) && Sum(log.rotated) <= Budget(log.cap)
  }

  /** Within their shares the segments are within the cap, as soon as the cap is not zero. */
  lemma WithinCapTotal(log: Log)
    requires WithinCap(log)
    ensures Total(log) <= Max(log.cap, 1)
  {
  }

  lemma AppendKeepsCap(log: Log, line: seq<Octet>)
    requires WithinCap(log) && |line| <= SegmentSize(log.cap)
    ensures WithinCap(Appended(log, line))
  {
    RotatedFits(log);
  }

  lemma EnforceMakesCap(log: Log)
    ensures WithinCap(Enforced(log)) && Enforced(log).cap == log.cap
  {
    RotatedFits(log);
    DropOldestFits(log.rotated, 0, Budget(log.cap));
  }

  /** With a cap of zero one byte is still stored. */
  lemma ZeroCapHoldsAByte(b: Octet)
    ensures WithinCap(Run(0, [[b]])) && Total(Run(0, [[b]])) == 1
  {
    assert [[b]][..0] == [];
    assert Run(0, []) == Log(0, [], []);
    assert Run(0, [[b]]) == Log(0, [b], []);
  }

  // ------------------------------------------------------------- nothing is lost in the middle

  function Concat(lines: seq<seq<Octet>>): seq<Octet> {
    if lines == [] then [] else Concat(lines[..|lines| - 1]) + lines[|lines| - 1]
  }

  /** The log holds exactly the lines from some point on. */
  ghost predicate HoldsSuffix(log: Log, lines: seq<seq<Octet>>) {
    exists k :: 0 <= k <= |lines| && Live(log) == Concat(lines[k..])
  }

  ghost predicate LinesFit(cap: nat, lines: seq<seq<Octet>>) {
    forall i :: 0 <= i < |lines| ==> IsLine(lines[i]) && |lines[i]| <= SegmentSize(cap)
  }

  /** One newline, at the end. */
  predicate IsLine(s: seq<Octet>) {
    s != [] && s[|s| - 1] == NEWLINE && NEWLINE !in s[..|s| - 1]
  }

  lemma {:induction false} ConcatAppend(a: seq<seq<Octet>>, b: seq<seq<Octet>>)
    ensures Concat(a + b) == Concat(a) + Concat(b)
  {
    if b == [] {
      assert a + b == a;
    } else {
      ConcatAppend(a, b[..|b| - 1]);
      assert (a + b)[..|a + b| - 1] == a + b[..|b| - 1];
    }
  }

  /** The segments, newest first, are consecutive runs of lines that end before line `end`. */
  ghost predicate Chain(segs: seq<Segment>, lines: seq<seq<Octet>>, end: nat)
    requires end <= |lines|
    decreases |segs|
  {
    segs == [] || exists m :: 0 <= m <= end && segs[0] == Concat(lines[m..end]) && Chain(segs[1..], lines, m)
  }

  lemma {:induction false} ChainPrefix(segs: seq<Segment>, more: seq<Segment>, lines: seq<seq<Octet>>, end: nat)
    requires end <= |lines| && segs <= more && Chain(more, lines, end)
    ensures Chain(segs, lines, end)
    decreases |segs|
  {
    if segs != [] {
      var m :| 0 <= m <= end && more[0] == Concat(lines[m..end]) && Chain(more[1..], lines, m);
      ChainPrefix(segs[1..], more[1..], lines, m);
    }
  }

  lemma {:induction false} ChainIsRun(segs: seq<Segment>, lines: seq<seq<Octet>>, end: nat) returns (k: nat)
    requires end <= |lines| && Chain(segs, lines, end)
    ensures k <= end && Oldest(segs) == Concat(lines[k..end])
    decreases |segs|
  {
    if segs == [] {
      k := end;
      assert lines[end..end] == [];
    } else {
      var m :| 0 <= m <= end && segs[0] == Concat(lines[m..end]) && Chain(segs[1..], lines, m);
      k := ChainIsRun(segs[1..], lines, m);
      JoinRuns(lines, k, m, end);
    }
  }

  lemma JoinRuns(lines: seq<seq<Octet>>, k: nat, m: nat, end: nat)
    requires k <= m <= end <= |lines|
    ensures Concat(lines[k..m]) + Concat(lines[m..end]) == Concat(lines[k..end])
  {
    ConcatAppend(lines[k..m], lines[m..end]);
    assert lines[k..m] + lines[m..end] == lines[k..end];
  }

  lemma {:induction false} ChainMoreLines(segs: seq<Segment>, lines: seq<seq<Octet>>, line: seq<Octet>, end: nat)
    requires end <= |lines| && Chain(segs, lines, end)
    ensures Chain(segs, lines + [line], end)
    decreases |segs|
  {
    if segs != [] {
      var m :| 0 <= m <= end && segs[0] == Concat(lines[m..end]) && Chain(segs[1..], lines, m);
      assert (lines + [line])[m..end] == lines[m..end];
      ChainMoreLines(segs[1..], lines, line, m);
    }
  }

  /** Every segment, the current one included, is a run of lines, one after the other. */
  ghost predicate Contiguous(log: Log, lines: seq<seq<Octet>>) {
    exists m :: 0 <= m <= |lines| && log.cur == Concat(lines[m..]) && Chain(log.rotated, lines, m)
  }

  /** A full current segment still fits beside the budget: rotation never cuts a segment. */
  predicate RoomForTwo(cap: nat) {
    2 * SegmentSize(cap) <= cap
  }

  lemma {:induction false} RunContiguous(cap: nat, lines: seq<seq<Octet>>)
    requires RoomForTwo(cap) && LinesFit(cap, lines)
    ensures WithinCap(Run(cap, lines)) && Run(cap, lines).cap == cap && Contiguous(Run(cap, lines), lines)
  {
    if lines == [] {
      assert Log(cap, [], []).cur == Concat(lines[0..]) && Chain([], lines, 0);
    } else {
      var before, line := lines[..|lines| - 1], lines[|lines| - 1];
      RunContiguous(cap, before);
      AppendKeepsCap(Run(cap, before), line);
      AppendContiguous(Run(cap, before), before, line);
      assert before + [line] == lines;
      RotatedFits(Run(cap, before));
    }
  }

  lemma AppendContiguous(log: Log, lines: seq<seq<Octet>>, line: seq<Octet>)
    requires RoomForTwo(log.cap) && WithinCap(log) && Contiguous(log, lines)
    ensures Contiguous(Appended(log, line), lines + [line])
  {
    var m :| 0 <= m <= |lines| && log.cur == Concat(lines[m..]) && Chain(log.rotated, lines, m);
    var n, more := |lines|, lines + [line];
    ChainMoreLines(log.rotated, lines, line, m);
    if |log.cur| > 0 && |log.cur| + |line| > SegmentSize(log.cap) {
      RotatedFits(log);
      var older := DropOldest(log.rotated, |log.cur|, Budget(log.cap));
      ChainPrefix(older, log.rotated, more, m);
      var segs := [log.cur] + older;
      assert more[m..n] == lines[m..];
      assert segs[1..] == older;
      assert Chain(segs, more, n);
      assert more[n..] == [line];
      OneLine(line);
      assert [] + line == line;
      assert Appended(log, line) == Log(log.cap, [] + line, segs);
    } else {
      assert more[m..] == lines[m..] + [line];
      ConcatSnoc(lines[m..], line);
    }
  }

  lemma OneLine(line: seq<Octet>)
    ensures Concat([line]) == line
  {
    assert [line][..0] == [];
  }

  lemma ConcatSnoc(lines: seq<seq<Octet>>, line: seq<Octet>)
    ensures Concat(lines + [line]) == Concat(lines) + line
  {
    assert (lines + [line])[..|lines|] == lines;
  }

  lemma ContiguousHoldsSuffix(log: Log, lines: seq<seq<Octet>>)
    requires Contiguous(log, lines)
    ensures HoldsSuffix(log, lines)
  {
    var m :| 0 <= m <= |lines| && log.cur == Concat(lines[m..]) && Chain(log.rotated, lines, m);
    var k := ChainIsRun(log.rotated, lines, m);
    SuffixFrom(log, lines, k, m);
  }

  lemma SuffixFrom(log: Log, lines: seq<seq<Octet>>, k: nat, m: nat)
    requires k <= m <= |lines| && Oldest(log.rotated) == Concat(lines[k..m]) && log.cur == Concat(lines[m..])
    ensures HoldsSuffix(log, lines)
  {
    assert lines[m..] == lines[m..|lines|] && lines[k..] == lines[k..|lines|];
    JoinRuns(lines, k, m, |lines|);
    assert Live(log) == Concat(lines[k..]);
  }

  /** Whatever the cap, the current segment is the last lines. */
  lemma {:induction false} CurrentIsRun(cap: nat, lines: seq<seq<Octet>>)
    ensures exists m :: 0 <= m <= |lines| && Run(cap, lines).cur == Concat(lines[m..])
  {
    if lines == [] {
      assert Run(cap, lines).cur == Concat(lines[0..]);
    } else {
      var before, line := lines[..|lines| - 1], lines[|lines| - 1];
      CurrentIsRun(cap, before);
      var m :| 0 <= m <= |before| && Run(cap, before).cur == Concat(before[m..]);
      var log := Run(cap, before);
      if |log.cur| > 0 && |log.cur| + |line| > SegmentSize(log.cap) {
        assert lines[|before|..] == [line];
        OneLine(line);
        assert [] + line == line;
      } else {
        assert lines[m..] == before[m..] + [line];
        ConcatSnoc(before[m..], line);
      }
    }
  }

  lemma {:induction false} NothingSummed(segs: seq<Segment>)
    requires Sum(segs) == 0
    ensures Oldest(segs) == []
  {
    if segs != [] {
      SumCons(segs[0], segs[1..]);
      assert [segs[0]] + segs[1..] == segs;
      NothingSummed(segs[1..]);
    }
  }

  lemma {:induction false} RunWithinCap(cap: nat, lines: seq<seq<Octet>>)
    requires LinesFit(cap, lines)
    ensures WithinCap(Run(cap, lines)) && Run(cap, lines).cap == cap
  {
    if lines != [] {
      RunWithinCap(cap, lines[..|lines| - 1]);
      AppendKeepsCap(Run(cap, lines[..|lines| - 1]), lines[|lines| - 1]);
    }
  }

  // ------------------------------------------------------------- when a rotation cuts the middle

  lemma {:induction false} NewlineAtEnd(s: Segment)
    requires IsLine(s)
    ensures AfterNewline(s) == []
  {
    if |s| > 1 {
      assert s[0] in s[..|s| - 1];
      assert IsLine(s[1..]) by { assert s[1..][..|s| - 2] == s[..|s| - 1][1..]; }
      NewlineAtEnd(s[1..]);
    }
  }

  lemma TailOfLine(s: Segment, keep: nat)
    requires IsLine(s) && 0 < keep < |s|
    ensures TrimToTail(s, keep) == []
  {
    var t := s[|s| - keep..];
    assert t[..keep - 1] == s[..|s| - 1][|s| - keep..];
    NewlineAtEnd(t);
  }

  function LongLine(n: nat): (r: seq<Octet>)
    requires n >= 1
    ensures |r| == n && IsLine(r)
  {
    seq(n - 1, _ => 0) + [NEWLINE]
  }

  /** A short line, one that fills a segment, a short line: the middle one is trimmed away while
      the first is still kept. */
  lemma MiddleIsCut(cap: nat) returns (lines: seq<seq<Octet>>)
    requires 0 < Budget(cap) < SegmentSize(cap)
    ensures LinesFit(cap, lines) && !HoldsSuffix(Run(cap, lines), lines)
  {
    var long := LongLine(SegmentSize(cap));
    lines := [[NEWLINE], long, [NEWLINE]];
    ThreeFit(cap, long);
    RunOfThree(cap, long);
    LiveOfThree(cap);
    NotSuffix(Log(cap, [NEWLINE], [[], [NEWLINE]]), long);
  }

  lemma ThreeFit(cap: nat, long: Segment)
    requires IsLine(long) && |long| <= SegmentSize(cap)
    ensures LinesFit(cap, [[NEWLINE], long, [NEWLINE]])
  {
  }

  lemma NotSuffix(log: Log, long: Segment)
    requires |Live(log)| == 2 && |long| >= 2
    ensures !HoldsSuffix(log, [[NEWLINE], long, [NEWLINE]])
  {
    SuffixLengths(long, [[NEWLINE], long, [NEWLINE]]);
  }

  lemma RunOfTwo(cap: nat, long: Segment)
    requires 0 < Budget(cap) && |long| == SegmentSize(cap)
    ensures Run(cap, [[NEWLINE], long]) == Log(cap, long, [[NEWLINE]])
  {
    var a, b := [[NEWLINE]], [[NEWLINE], long];
    assert a[..0] == [] && b[..1] == a;
    assert Run(cap, []) == Log(cap, [], []);
    assert Run(cap, a) == Log(cap, [NEWLINE], []) by { assert [] + [NEWLINE] == [NEWLINE]; }
    RotateShort(cap);
    assert [] + long == long;
  }

  lemma RunOfThree(cap: nat, long: Segment)
    requires 0 < Budget(cap) < SegmentSize(cap) == |long| && IsLine(long)
    ensures Run(cap, [[NEWLINE], long, [NEWLINE]]) == Log(cap, [NEWLINE], [[], [NEWLINE]])
  {
    var b, lines := [[NEWLINE], long], [[NEWLINE], long, [NEWLINE]];
    assert lines[..2] == b;
    RunOfTwo(cap, long);
    TailOfLine(long, Budget(cap));
    RotateLong(cap, long);
    assert [] + [NEWLINE] == [NEWLINE];
  }

  lemma RotateShort(cap: nat)
    requires Budget(cap) > 0
    ensures Rotated(Log(cap, [NEWLINE], [])) == Log(cap, [], [[NEWLINE]])
  {
    RotatedFits(Log(cap, [NEWLINE], []));
  }

  lemma RotateLong(cap: nat, long: Segment)
    requires 0 < Budget(cap) < |long| && TrimToTail(long, Budget(cap)) == []
    ensures Rotated(Log(cap, long, [[NEWLINE]])) == Log(cap, [], [[], [NEWLINE]])
  {
    var log := Log(cap, long, [[NEWLINE]]);
    RotatedFits(log);
    SumCons([NEWLINE], []);
    assert [[NEWLINE]] + [] == [[NEWLINE]];
    assert Sum([[NEWLINE]]) == 1;
    DropOldestFits([[NEWLINE]], 0, Budget(cap));
    assert [[]] + [[NEWLINE]] == [[], [NEWLINE]];
  }

  lemma LiveOfThree(cap: nat)
    ensures Live(Log(cap, [NEWLINE], [[], [NEWLINE]])) == [NEWLINE, NEWLINE]
  {
    var segs: seq<Segment> := [[], [NEWLINE]];
    assert segs[1..] == [[NEWLINE]] && [[NEWLINE]][1..] == [];
    assert Oldest([[NEWLINE]]) == [NEWLINE];
  }

  lemma SuffixLengths(long: Segment, lines: seq<seq<Octet>>)
    requires lines == [[NEWLINE], long, [NEWLINE]] && |long| >= 2
    ensures forall k :: 0 <= k <= 3 ==> |Concat(lines[k..])| != 2
  {
    OneLine([NEWLINE]);
    ConcatSnoc([long], [NEWLINE]);
    OneLine(long);
    ConcatSnoc([[NEWLINE], long], [NEWLINE]);
    ConcatSnoc([[NEWLINE]], long);
    assert lines[3..] == [] && lines[2..] == [[NEWLINE]] && lines[1..] == [long] + [[NEWLINE]]
           && lines[0..] == [[NEWLINE], long] + [[NEWLINE]];
    assert [[NEWLINE], long] == [[NEWLINE]] + [long];
  }

  /** With a fixed cap the log holds the last lines, without a gap, for every run exactly when the
      budget has room for a whole segment, or for nothing at all. */
  lemma SuffixIff(cap: nat)
    ensures (forall lines :: LinesFit(cap, lines) ==> HoldsSuffix(Run(cap, lines), lines)) <==>
            RoomForTwo(cap) || Budget(cap) == 0
  {
    if RoomForTwo(cap) {
      forall lines | LinesFit(cap, lines) ensures HoldsSuffix(Run(cap, lines), lines) {
        RunContiguous(cap, lines);
        ContiguousHoldsSuffix(Run(cap, lines), lines);
      }
    } else if Budget(cap) == 0 {
      forall lines | LinesFit(cap, lines) ensures HoldsSuffix(Run(cap, lines), lines) {
        RunWithinCap(cap, lines);
        CurrentIsRun(cap, lines);
        NothingSummed(Run(cap, lines).rotated);
        assert Live(Run(cap, lines)) == Run(cap, lines).cur;
      }
    } else {
      var lines := MiddleIsCut(cap);
    }
  }

  /** Every cap that the settings allow has that room. */
  lemma ClampedCapHasRoom(cap: nat)
    ensures RoomForTwo(ClampCap(cap))
  {
  }
}
