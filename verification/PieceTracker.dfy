/** Which piece each peer downloads, on top of the chunk tracker. */
module PieceTrackers {
  import opened Prelude
  import opened TorrentLengths
  import opened PieceCounters
  import opened ChunkTrackers
  import opened DownloadOrder

  datatype InflightPiece = InflightPiece(peer: nat, started: nat)

  datatype AcquireResult = Reserved(piece: nat) | Stolen(piece: nat, fromPeer: nat) | NoneAvailable

  datatype AcquireRequest = AcquireRequest(
    peer: nat,
    peerAvgTime: Option<nat>,
    priorityPieces: seq<nat>,
    filePriorities: seq<nat>,
    fileInfos: seq<FileInfo>,
    pieceOrder: Option<seq<nat>>,
    peerHas: nat -> bool,
    canSteal: nat -> bool)

  // ------------------------------------------------------------- the queue in picking order

  /** The ids in `order` that are queued pieces of this torrent. */
  function FilterQueued(queue: seq<bool>, total: nat, order: seq<nat>): seq<nat> {
    if order == [] then []
    else
      var rest := FilterQueued(queue, total, order[1..]);
      if order[0] < |queue| && queue[order[0]] && order[0] < total then [order[0]] + rest else rest
  }

  /** Files by priority, finished ones skipped, each with its first and last piece first. */
  function NaturalOrder(perFile: seq<nat>, priorities: seq<nat>, files: seq<FileInfo>): seq<nat>
    requires |perFile| == |files| && forall i :: 0 <= i < |files| ==> files[i].pieceEnd < USIZE_RANGE
  {
    if priorities == [] then []
    else
      var id := priorities[0];
      (if id < |files| && perFile[id] != files[id].len
       then IterPiecePriorities(files[id].pieceStart, files[id].pieceEnd) else [])
      + NaturalOrder(perFile, priorities[1..], files)
  }

  lemma {:induction false} FilterQueuedMembers(queue: seq<bool>, total: nat, order: seq<nat>, p: nat)
    ensures p in FilterQueued(queue, total, order) <==> p in order && p < |queue| && queue[p] && p < total
  {
    if order != [] {
      FilterQueuedMembers(queue, total, order[1..], p);
    }
  }

  lemma {:induction false} NaturalOrderHas(perFile: seq<nat>, priorities: seq<nat>, files: seq<FileInfo>, id: nat,
                                           p: nat)
    requires |perFile| == |files| && forall i :: 0 <= i < |files| ==> files[i].pieceEnd < USIZE_RANGE
    requires id in priorities && id < |files| && perFile[id] != files[id].len && files[id].HasPiece(p)
    ensures p in NaturalOrder(perFile, priorities, files)
  {
    if priorities[0] == id {
      var f := files[id];
      DefaultIsHistorical(f.pieceStart, f.pieceEnd, x => x);
      FilePieceOrderPermutes(f.pieceStart, f.pieceEnd, true, true, x => x);
      MembersOf(IterPiecePriorities(f.pieceStart, f.pieceEnd), Range(f.pieceStart, f.pieceEnd));
      InRange(f.pieceStart, f.pieceEnd, p);
    } else {
      NaturalOrderHas(perFile, priorities[1..], files, id, p);
    }
  }

  /** The priorities name every file that is not padding. */
  ghost predicate CoversFiles(priorities: seq<nat>, files: seq<FileInfo>) {
    forall i :: 0 <= i < |files| && !files[i].padding ==> i in priorities
  }

  /** No file's counter is ahead of what we have of it. */
  ghost predicate NotAhead(l: Lengths, have: seq<bool>, files: seq<FileInfo>, perFile: seq<nat>) {
    && |perFile| == |files|
    && forall i :: 0 <= i < |files| ==>
         files[i].pieceEnd <= |have| && perFile[i] <= FileHaveBytes(l, have, files[i], files[i].pieceEnd)
  }

  /** Skipping finished files loses nothing: a queued piece of a non-padding file is in the
      natural order, because its file's counter cannot have reached its length. */
  lemma NaturalOrderComplete(l: Lengths, have: seq<bool>, queue: seq<bool>, perFile: seq<nat>, priorities: seq<nat>,
                             files: seq<FileInfo>, p: nat)
    requires LayoutOk(l, files) && l.TotalPieces() <= |have| && l.TotalPieces() < USIZE_RANGE
    requires NotAhead(l, have, files, perFile) && CoversFiles(priorities, files)
    requires Disjoint(have, queue) && p < l.TotalPieces() && queue[p] && NonPaddingPiece(files, p)
    requires forall i :: 0 <= i < |files| ==> files[i].pieceEnd < USIZE_RANGE
    ensures p in FilterQueued(queue, l.TotalPieces(), NaturalOrder(perFile, priorities, files))
  {
    var i :| 0 <= i < |files| && !files[i].padding && files[i].HasPiece(p);
    assert FileOk(l, files[i]);
    InRangeIsOverlap(l, files[i], p);
    FileCompleteIffAllPieces(l, have, files[i]);
    NaturalOrderHas(perFile, priorities, files, i, p);
    FilterQueuedMembers(queue, l.TotalPieces(), NaturalOrder(perFile, priorities, files), p);
  }

  /** The picker's list for a request. */
  function PickList(queue: seq<bool>, total: nat, perFile: seq<nat>, req: AcquireRequest): seq<nat>
    requires |perFile| == |req.fileInfos|
    requires forall i :: 0 <= i < |req.fileInfos| ==> req.fileInfos[i].pieceEnd < USIZE_RANGE
  {
    FilterQueued(queue, total,
                 if req.pieceOrder.Some? then req.pieceOrder.value
                 else NaturalOrder(perFile, req.filePriorities, req.fileInfos))
  }

  function FirstWith(s: seq<nat>, ok: nat -> bool): Option<nat> {
    if s == [] then None else if ok(s[0]) then Some(s[0]) else FirstWith(s[1..], ok)
  }

  lemma {:induction false} FirstWithNone(s: seq<nat>, ok: nat -> bool, p: nat)
    requires FirstWith(s, ok).None? && p in s
    ensures !ok(p)
  {
    if s[0] != p { FirstWithNone(s[1..], ok, p); }
  }

  lemma {:induction false} FirstWithSome(s: seq<nat>, ok: nat -> bool)
    requires FirstWith(s, ok).Some?
    ensures FirstWith(s, ok).value in s && ok(FirstWith(s, ok).value)
  {
    if !ok(s[0]) { FirstWithSome(s[1..], ok); }
  }

  /** Not had, not already in flight, and held by the asking peer. */
  function Eligible(have: seq<bool>, inflight: set<nat>, req: AcquireRequest): nat -> bool {
    (p: nat) => p < |have| && !have[p] && p !in inflight && req.peerHas(p)
  }

  /** The piece a request reserves: the first eligible priority piece, else the first queued
      piece in picking order that the peer has. */
  function WantedPiece(have: seq<bool>, queue: seq<bool>, total: nat, perFile: seq<nat>, inflight: set<nat>,
                       req: AcquireRequest): Option<nat>
    requires |perFile| == |req.fileInfos|
    requires forall i :: 0 <= i < |req.fileInfos| ==> req.fileInfos[i].pieceEnd < USIZE_RANGE
  {
    var first := FirstWith(req.priorityPieces, Eligible(have, inflight, req));
    if first.Some? then first else FirstWith(PickList(queue, total, perFile, req), req.peerHas)
  }

  // ------------------------------------------------------------- stealing

  function Elapsed(i: InflightPiece, now: nat): nat {
    SaturatingSub(now, i.started)
  }

  /** Pieces of other peers that the asking peer has and that take `factor` times its average or longer. */
  function StealCandidates(inflight: map<nat, InflightPiece>, req: AcquireRequest, factor: nat, now: nat): set<nat>
    requires req.peerAvgTime.Some?
  {
    set p | p in inflight && inflight[p].peer != req.peer && req.peerHas(p)
      && Elapsed(inflight[p], now) >= factor * req.peerAvgTime.value
  }

  ghost predicate Slowest(inflight: map<nat, InflightPiece>, cands: set<nat>, now: nat, p: nat) {
    && cands <= inflight.Keys && p in cands
    && forall q :: q in cands ==> Elapsed(inflight[q], now) <= Elapsed(inflight[p], now)
  }

  method FindSlowest(inflight: map<nat, InflightPiece>, cands: set<nat>, now: nat) returns (best: nat)
    requires cands <= inflight.Keys && cands != {}
    ensures Slowest(inflight, cands, now, best)
  {
    best :| best in cands;
    var rest := cands - {best};
    while rest != {}
      invariant rest <= cands
      invariant Slowest(inflight, cands - rest, now, best)
      decreases |rest|
    {
      var q :| q in rest;
      if Elapsed(inflight[q], now) >= Elapsed(inflight[best], now) {
        best := q;
      }
      rest := rest - {q};
    }
    assert cands - {} == cands;
  }

  /** A steal takes the slowest candidate over; nothing else changes. */
  ghost predicate StealSpec(before: map<nat, InflightPiece>, after: map<nat, InflightPiece>, req: AcquireRequest,
                            factor: nat, now: nat, r: AcquireResult)
  {
    && req.peerAvgTime.Some? && r.Stolen?
    && Slowest(before, StealCandidates(before, req, factor, now), now, r.piece)
    && req.canSteal(r.piece)
    && r.fromPeer == before[r.piece].peer != req.peer
    && after == before[r.piece := InflightPiece(req.peer, now)]
  }

  /** No piece is slow enough, or the slowest of those is locked. */
  ghost predicate NoSteal(inflight: map<nat, InflightPiece>, req: AcquireRequest, factor: nat, now: nat) {
    req.peerAvgTime.Some? && StealCandidates(inflight, req, factor, now) != {} ==>
      exists p :: Slowest(inflight, StealCandidates(inflight, req, factor, now), now, p) && !req.canSteal(p)
  }

  // ------------------------------------------------------------- the tracker

  /** Every wanted piece we lack is somewhere: queued, in flight, being checked or held back; except
      for those that an earlier pause has lost. */
  ghost predicate NoneLost(total: nat, selected: seq<bool>, have: seq<bool>, queue: seq<bool>,
                           inflight: set<nat>, checking: set<nat>, deferred: set<nat>, lost: set<nat>)
  {
    forall p :: 0 <= p < total && p < |selected| && p < |have| && p < |queue| && selected[p] && !have[p] ==>
      queue[p] || p in inflight || p in checking || p in deferred || p in lost
  }

  /** Wanted pieces that are neither queued nor held back. */
  ghost function Unaccounted(total: nat, selected: seq<bool>, have: seq<bool>, queue: seq<bool>,
                             held: set<nat>): set<nat> {
    set p: nat | p < total && p < |selected| && p < |have| && p < |queue| && selected[p] && !have[p] && !queue[p]
      && p !in held
  }

  /** The queue gained the given pieces, except those we have. */
  ghost predicate Requeued(before: seq<bool>, after: seq<bool>, have: seq<bool>, pieces: set<nat>) {
    && |before| == |after| == |have|
    && forall p :: 0 <= p < |have| ==> (after[p] <==> before[p] || (p in pieces && !have[p]))
  }

  lemma RequeuedMore(a: seq<bool>, b: seq<bool>, c: seq<bool>, have: seq<bool>, pieces: set<nat>, p: nat)
    requires Requeued(a, b, have, pieces) && Requeued(b, c, have, {p})
    ensures Requeued(a, c, have, pieces + {p})
  {
  }

  function OwnedBy(inflight: map<nat, InflightPiece>, peer: nat): set<nat> {
    set p | p in inflight && inflight[p].peer == peer
  }

  class PieceTracker {
    const chunks: ChunkTracker
    var inflight: map<nat, InflightPiece>
    /** Pieces whose chunks are all there and whose hash is being checked. */
    ghost var checking: set<nat>
    /** Pieces held back after an I/O error. They are remembered outside, also over a pause. */
    ghost var deferred: set<nat>
    /** Pieces whose verdict will not come, because of a pause or because they could not be read, and
        that were not queued. */
    ghost var lost: set<nat>

    ghost predicate Valid()
      reads this, chunks
    {
      && chunks.Valid()
      && (forall p :: p in inflight ==> p < chunks.lengths.TotalPieces())
      && NoneLost(chunks.lengths.TotalPieces(), chunks.selected, chunks.have, chunks.queuePieces,
                  inflight.Keys, checking, deferred, lost)
    }

    /** A tracker on what another one left, or on a new torrent; `held` are the pieces held back. */
    constructor (chunks: ChunkTracker, ghost held: set<nat>)
      requires chunks.Valid()
      ensures Valid() && this.chunks == chunks && inflight == map[] && checking == {} && deferred == held
      ensures lost == Unaccounted(chunks.lengths.TotalPieces(), chunks.selected, chunks.have, chunks.queuePieces, held)
    {
      this.chunks := chunks;
      this.inflight := map[];
      this.checking := {};
      this.deferred := held;
      this.lost := Unaccounted(chunks.lengths.TotalPieces(), chunks.selected, chunks.have, chunks.queuePieces, held);
    }

    /** Moves the given in-flight pieces back to the queue, except those we have. */
    method Requeue(pieces: set<nat>)
      requires Valid() && pieces <= inflight.Keys
      modifies this`inflight, chunks`queuePieces, chunks`chunkStatus
      ensures Valid() && inflight == old(inflight) - pieces
      ensures Requeued(old(chunks.queuePieces), chunks.queuePieces, chunks.have, pieces)
    {
      var rest := pieces;
      assert old(inflight) - {} == old(inflight);
      while rest != {}
        invariant rest <= pieces && Valid() && inflight == old(inflight) - (pieces - rest)
        invariant Requeued(old(chunks.queuePieces), chunks.queuePieces, chunks.have, pieces - rest)
        decreases |rest|
      {
        var p :| p in rest;
        ghost var queue := chunks.queuePieces;
        RequeueOne(p);
        RequeuedMore(old(chunks.queuePieces), queue, chunks.queuePieces, chunks.have, pieces - rest, p);
        assert pieces - (rest - {p}) == pieces - rest + {p};
        rest := rest - {p};
      }
    }

    method RequeueOne(p: nat)
      requires Valid() && p in inflight
      modifies this`inflight, chunks`queuePieces, chunks`chunkStatus
      ensures Valid() && inflight == old(inflight) - {p}
      ensures Requeued(old(chunks.queuePieces), chunks.queuePieces, chunks.have, {p})
    {
      inflight := inflight - {p};
      chunks.MarkPieceBrokenIfNotHave(p);
    }

    /** Puts every in-flight piece back in the queue: afterwards a wanted piece is queued,
        being checked or held back. */
    method IntoChunks()
      requires Valid()
      modifies this`inflight, chunks`queuePieces, chunks`chunkStatus
      ensures Valid() && inflight == map[]
      ensures Requeued(old(chunks.queuePieces), chunks.queuePieces, chunks.have, old(inflight).Keys)
    {
      Requeue(inflight.Keys);
    }

    /** Removes a piece from the queue and assigns it to a peer. */
    method ReservePiece(p: nat, peer: nat, now: nat)
      requires Valid() && p < chunks.lengths.TotalPieces()
      modifies this`inflight, chunks`queuePieces
      ensures Valid()
      ensures inflight == old(inflight)[p := InflightPiece(peer, now)]
      ensures chunks.queuePieces == old(chunks.queuePieces)[p := false]
    {
      chunks.ReserveNeededPiece(p);
      inflight := inflight[p := InflightPiece(peer, now)];
    }

    /** A piece whose chunks all arrived leaves the in-flight map for its hash check. */
    method TakeInflight(p: nat, now: nat) returns (r: Option<nat>)
      requires Valid()
      modifies this`inflight, this`checking
      ensures Valid() && (r.Some? <==> p in old(inflight))
      ensures inflight == old(inflight) - {p} && checking == old(checking) + (if r.Some? then {p} else {})
      ensures r.Some? ==> r.value == SaturatingSub(now, old(inflight)[p].started)
    {
      if p !in inflight { return None; }
      r := Some(SaturatingSub(now, inflight[p].started));
      inflight := inflight - {p};
      checking := checking + {p};
    }

    method MarkPieceHashOk(p: nat)
      requires Valid() && p < chunks.lengths.TotalPieces()
      modifies this`checking, this`deferred, this`lost, chunks`queuePieces, chunks`have, chunks`hns
      ensures Valid() && checking == old(checking) - {p} && deferred == old(deferred) - {p} && lost == old(lost) - {p}
      ensures chunks.have == old(chunks.have)[p := true] && chunks.queuePieces == old(chunks.queuePieces)[p := false]
    {
      chunks.MarkPieceDownloaded(p);
      checking, deferred, lost := checking - {p}, deferred - {p}, lost - {p};
    }

    method MarkPieceHashFailed(p: nat)
      requires Valid() && p < chunks.lengths.TotalPieces()
      modifies this`checking, this`deferred, this`lost, chunks`queuePieces, chunks`chunkStatus
      ensures Valid() && checking == old(checking) - {p} && deferred == old(deferred) - {p} && lost == old(lost) - {p}
      ensures chunks.queuePieces == if chunks.have[p] then old(chunks.queuePieces)
              else old(chunks.queuePieces)[p := true]
    {
      chunks.MarkPieceBrokenIfNotHave(p);
      checking, deferred, lost := checking - {p}, deferred - {p}, lost - {p};
    }

    method DeferPiece(p: nat)
      requires Valid() && p < chunks.lengths.TotalPieces()
      modifies this, chunks`queuePieces, chunks`chunkStatus
      ensures Valid() && inflight == old(inflight) - {p} && checking == old(checking) - {p} && lost == old(lost) - {p}
      ensures deferred == old(deferred) + (if chunks.have[p] then {} else {p})
      ensures chunks.queuePieces == if chunks.have[p] then old(chunks.queuePieces)
              else old(chunks.queuePieces)[p := false]
    {
      inflight := inflight - {p};
      chunks.MarkPieceDeferred(p);
      checking, lost := checking - {p}, lost - {p};
      deferred := deferred + (if chunks.have[p] then {} else {p});
    }

    /** The piece is wanted, and neither queued nor on its way nor held back. */
    ghost predicate Nowhere(p: nat)
      requires Valid()
      reads this, chunks
    {
      && p < chunks.lengths.TotalPieces() && chunks.selected[p] && !chunks.have[p] && !chunks.queuePieces[p]
      && p !in inflight && p !in checking && p !in deferred
    }

    /** The hash check of a piece ends without a verdict because its files cannot be read. Unless soft
        recovery holds it back, nothing is done about the piece: it is lost exactly if it is wanted and
        was not queued, reserved or held back in the meantime. */
    method CheckFails(p: nat, softRecover: bool)
      requires Valid() && p in checking && p < chunks.lengths.TotalPieces()
      modifies this, chunks`queuePieces, chunks`chunkStatus
      ensures Valid() && checking == old(checking) - {p}
      ensures Nowhere(p) <==>
                && !softRecover && chunks.selected[p] && !chunks.have[p] && !old(chunks.queuePieces)[p]
                && p !in old(inflight) && p !in old(deferred)
      ensures lost == if softRecover then old(lost) - {p} else old(lost) + (if Nowhere(p) then {p} else {})
      ensures softRecover && !chunks.have[p] ==> p in deferred && !chunks.queuePieces[p]
      ensures !softRecover ==>
                inflight == old(inflight) && deferred == old(deferred) && chunks.queuePieces == old(chunks.queuePieces)
    {
      if softRecover {
        DeferPiece(p);
      } else {
        checking := checking - {p};
        lost := lost + (if chunks.selected[p] && !chunks.have[p] && !chunks.queuePieces[p] && p !in inflight &&
                           p !in deferred then {p} else {});
      }
    }

    /** Returns a dead peer's pieces to the queue. */
    method ReleasePiecesOwnedBy(peer: nat) returns (count: nat)
      requires Valid()
      modifies this`inflight, chunks`queuePieces, chunks`chunkStatus
      ensures Valid()
      ensures inflight == old(inflight) - OwnedBy(old(inflight), peer)
      ensures count == |OwnedBy(old(inflight), peer)|
      ensures Requeued(old(chunks.queuePieces), chunks.queuePieces, chunks.have, OwnedBy(old(inflight), peer))
    {
      var owned := OwnedBy(inflight, peer);
      count := |owned|;
      Requeue(owned);
    }

    method UpdateOnlyFiles(files: seq<FileInfo>, only: set<nat>)
      requires Valid()
      requires forall i :: 0 <= i < |files| ==> files[i].pieceEnd <= chunks.lengths.TotalPieces()
      modifies chunks`selected, chunks`queuePieces, chunks`chunkStatus, chunks`hns
      ensures Valid()
      ensures forall p :: 0 <= p < |chunks.selected| ==> (chunks.selected[p] <==> IsSelected(files, only, p))
      ensures forall p :: 0 <= p < |chunks.queuePieces| ==>
                (chunks.queuePieces[p] <==>
                  chunks.selected[p] && (old(chunks.queuePieces)[p] || (!old(chunks.selected)[p] && !chunks.have[p])))
    {
      chunks.UpdateOnlyFiles(files, only);
    }

    /** Only the slowest candidate is tried; if it is locked, nothing is stolen. */
    method TrySteal(req: AcquireRequest, factor: nat, now: nat) returns (r: Option<AcquireResult>)
      requires Valid()
      modifies this`inflight
      ensures Valid()
      ensures r.Some? ==> StealSpec(old(inflight), inflight, req, factor, now, r.value)
      ensures r.None? ==> inflight == old(inflight) && NoSteal(inflight, req, factor, now)
    {
      if req.peerAvgTime.None? { return None; }
      var cands := StealCandidates(inflight, req, factor, now);
      if cands == {} { return None; }
      var p := FindSlowest(inflight, cands, now);
      if !req.canSteal(p) { return None; }
      r := Some(Stolen(p, inflight[p].peer));
      inflight := inflight[p := InflightPiece(req.peer, now)];
    }

    method FindWanted(req: AcquireRequest) returns (r: Option<nat>)
      requires Valid() && |chunks.perFileBytes| == |req.fileInfos|
      requires forall i :: 0 <= i < |req.fileInfos| ==> req.fileInfos[i].pieceEnd < USIZE_RANGE
      requires forall i :: 0 <= i < |req.priorityPieces| ==> req.priorityPieces[i] < chunks.lengths.TotalPieces()
      ensures r == WantedPiece(chunks.have, chunks.queuePieces, chunks.lengths.TotalPieces(), chunks.perFileBytes,
                inflight.Keys, req)
      ensures r.Some? ==> r.value < chunks.lengths.TotalPieces() && !chunks.have[r.value] && req.peerHas(r.value)
    {
      ghost var eligible := Eligible(chunks.have, inflight.Keys, req);
      for i := 0 to |req.priorityPieces|
        invariant FirstWith(req.priorityPieces, eligible) == FirstWith(req.priorityPieces[i..], eligible)
      {
        var p := req.priorityPieces[i];
        if !chunks.have[p] && p !in inflight && req.peerHas(p) {
          return Some(p);
        }
      }
      var queued := PickList(chunks.queuePieces, chunks.lengths.TotalPieces(), chunks.perFileBytes, req);
      for i := 0 to |queued|
        invariant FirstWith(queued, req.peerHas) == FirstWith(queued[i..], req.peerHas)
      {
        if req.peerHas(queued[i]) {
          PickListQueued(chunks.queuePieces, chunks.lengths.TotalPieces(), chunks.perFileBytes, req, queued[i]);
          return Some(queued[i]);
        }
      }
      return None;
    }

    /** Steal from a ten times slower peer, else reserve, else steal from a three times slower one. */
    method AcquirePiece(req: AcquireRequest, now: nat) returns (r: AcquireResult)
      requires Valid() && |chunks.perFileBytes| == |req.fileInfos|
      requires forall i :: 0 <= i < |req.fileInfos| ==> req.fileInfos[i].pieceEnd < USIZE_RANGE
      requires forall i :: 0 <= i < |req.priorityPieces| ==> req.priorityPieces[i] < chunks.lengths.TotalPieces()
      modifies this`inflight, chunks`queuePieces
      ensures Valid()
      ensures var wanted := old(WantedPiece(chunks.have, chunks.queuePieces, chunks.lengths.TotalPieces(),
                                            chunks.perFileBytes, inflight.Keys, req));
              match r
              case Stolen(_, _) =>
                && chunks.queuePieces == old(chunks.queuePieces)
                && (StealSpec(old(inflight), inflight, req, 10, now, r)
                    || (wanted.None? && NoSteal(old(inflight), req, 10, now)
                      && StealSpec(old(inflight), inflight, req, 3, now, r)))
              case Reserved(p) =>
                && NoSteal(old(inflight), req, 10, now) && wanted == Some(p) && req.peerHas(p) && p < |chunks.have|
                && !chunks.have[p]
                && inflight == old(inflight)[p := InflightPiece(req.peer, now)]
                && chunks.queuePieces == old(chunks.queuePieces)[p := false]
              case NoneAvailable =>
                && wanted.None? && NoSteal(old(inflight), req, 10, now) && NoSteal(old(inflight), req, 3, now)
                && inflight == old(inflight) && chunks.queuePieces == old(chunks.queuePieces)
    {
      var stolen := TrySteal(req, 10, now);
      if stolen.Some? { return stolen.value; }
      var wanted := FindWanted(req);
      if wanted.Some? {
        ReservePiece(wanted.value, req.peer, now);
        return Reserved(wanted.value);
      }
      stolen := TrySteal(req, 3, now);
      return if stolen.Some? then stolen.value else NoneAvailable;
    }
  }

  // ------------------------------------------------------------- pausing

  /** A wanted piece that waits for its verdict or is lost already, and is not queued, in flight or
      held back as well. */
  ghost predicate WouldBeLost(t: PieceTracker, p: nat)
    requires t.Valid()
    reads t, t.chunks
  {
    && p < t.chunks.lengths.TotalPieces() && t.chunks.selected[p] && !t.chunks.have[p] && !t.chunks.queuePieces[p]
    && (p in t.checking || p in t.lost) && p !in t.inflight && p !in t.deferred
  }

  /** A pause and a resume lose exactly these: their verdicts come to a tracker that is gone. */
  method PauseAndResume(t: PieceTracker) returns (t': PieceTracker)
    requires t.Valid()
    modifies t`inflight, t.chunks`queuePieces, t.chunks`chunkStatus
    ensures fresh(t') && t'.Valid() && t'.chunks == t.chunks && t'.inflight == map[] && t'.deferred == t.deferred
    ensures t'.checking == {} && forall p :: p in t'.lost ==> p < |t.chunks.queuePieces| && !t.chunks.queuePieces[p]
    ensures forall p :: p in t'.lost <==> old(WouldBeLost(t, p))
    ensures t'.lost == {} <==> !old(exists p :: WouldBeLost(t, p))
  {
    t.IntoChunks();
    t' := new PieceTracker(t.chunks, t.deferred);
    forall p ensures p in t'.lost <==> old(WouldBeLost(t, p)) {
    }
  }

  /** A run that loses a piece: its last chunk arrives, a pause comes before the verdict, and after
      the resume it is wanted but neither had, queued, in flight, being checked nor held back. */
  method VerdictLostByPause(t: PieceTracker, p: nat, now: nat) returns (t': PieceTracker)
    requires t.Valid() && p in t.inflight && p !in t.deferred && t.chunks.selected[p]
    requires !t.chunks.have[p] && !t.chunks.queuePieces[p]
    modifies t`inflight, t`checking, t.chunks`queuePieces, t.chunks`chunkStatus
    ensures fresh(t') && t'.Valid() && t'.chunks == t.chunks && p in t'.lost
    ensures t'.chunks.selected[p] && !t'.chunks.have[p] && !t'.chunks.queuePieces[p]
    ensures p !in t'.inflight && p !in t'.checking && p !in t'.deferred
  {
    var taken := t.TakeInflight(p, now);
    assert WouldBeLost(t, p);
    t' := PauseAndResume(t);
  }

  /** A run that loses a piece: its last chunk arrives, and its files cannot be read for the check.
      When the peer is dropped for it, nothing brings the piece back. */
  method PieceLostByReadError(t: PieceTracker, p: nat, peer: nat, now: nat)
    requires t.Valid() && p in t.inflight && p !in t.deferred && t.chunks.selected[p]
    requires !t.chunks.have[p] && !t.chunks.queuePieces[p]
    modifies t, t.chunks`queuePieces, t.chunks`chunkStatus
    ensures t.Valid() && t.Nowhere(p) && p in t.lost
  {
    var taken := t.TakeInflight(p, now);
    t.CheckFails(p, false);
    var count := t.ReleasePiecesOwnedBy(peer);
  }

  lemma PickListQueued(queue: seq<bool>, total: nat, perFile: seq<nat>, req: AcquireRequest, p: nat)
    requires |perFile| == |req.fileInfos|
    requires forall i :: 0 <= i < |req.fileInfos| ==> req.fileInfos[i].pieceEnd < USIZE_RANGE
    requires p in PickList(queue, total, perFile, req)
    ensures p < total && p < |queue| && queue[p]
  {
    FilterQueuedMembers(queue, total,
                        if req.pieceOrder.Some? then req.pieceOrder.value
                        else NaturalOrder(perFile, req.filePriorities, req.fileInfos), p);
  }

  /** The picker is complete: when a request finds nothing to reserve, no queued piece of a
      non-padding file is held by the peer. */
  lemma NothingWantedMeansNothingQueued(l: Lengths, have: seq<bool>, queue: seq<bool>, perFile: seq<nat>,
                                        inflight: set<nat>, req: AcquireRequest, p: nat)
    requires LayoutOk(l, req.fileInfos) && l.TotalPieces() <= |have| && l.TotalPieces() < USIZE_RANGE
    requires forall i :: 0 <= i < |req.fileInfos| ==> req.fileInfos[i].pieceEnd < USIZE_RANGE
    requires Disjoint(have, queue) && |perFile| == |req.fileInfos|
    // either an explicit order that lists every piece, or priorities for every file and no counter ahead
    requires match req.pieceOrder
             case Some(order) => forall q :: NonPaddingPiece(req.fileInfos, q) ==> q in order
             case None => CoversFiles(req.filePriorities, req.fileInfos) && NotAhead(l, have, req.fileInfos, perFile)
    requires WantedPiece(have, queue, l.TotalPieces(), perFile, inflight, req).None?
    requires p < l.TotalPieces() && queue[p] && NonPaddingPiece(req.fileInfos, p)
    ensures !req.peerHas(p)
  {
    var list := PickList(queue, l.TotalPieces(), perFile, req);
    match req.pieceOrder {
      case Some(order) => FilterQueuedMembers(queue, l.TotalPieces(), order, p);
      case None => NaturalOrderComplete(l, have, queue, perFile, req.filePriorities, req.fileInfos, p);
    }
    FirstWithNone(list, req.peerHas, p);
  }
}
