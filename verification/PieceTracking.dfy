/** lib/bittorrent/swarm/piece.go: cached pieces and the tracker that holds them. */
module PieceTracking {
  import opened Words
  import opened Common
  import opened IO
  import opened MetaInfo
  import opened Bitfields
  import opened Storage
  import opened Blocks
  import opened Protocol

  lemma BlockAt(length: nat, k: nat)
    requires k * BLOCK_SIZE < length
    ensures k * BLOCK_SIZE / BLOCK_SIZE == k < NumBlocks(length)
  {
  }

  /** If the search ends, the offset does not wrap before it does. */
  lemma NoWrapYet(c: Cached, k: nat)
    requires SearchEnds(c) && FirstFree(c, 0) == FirstFree(c, k + 1)
    ensures k * BLOCK_SIZE < c.length ==> (k * BLOCK_SIZE + BLOCK_SIZE) % U32_MOD == (k + 1) * BLOCK_SIZE
  {
    if FirstFree(c, k + 1).Some? {
      assert (k + 1) * BLOCK_SIZE <= FirstFree(c, k + 1).value * BLOCK_SIZE < c.length;
    }
    if k * BLOCK_SIZE < c.length {
      assert (k + 1) * BLOCK_SIZE < U32_MOD;
      DivModUnique((k + 1) * BLOCK_SIZE, U32_MOD, 0, (k + 1) * BLOCK_SIZE);
    }
  }

  lemma PastLast(length: nat, k: nat)
    requires length <= k * BLOCK_SIZE
    ensures NumBlocks(length) <= k
  {
  }

  lemma NextIs(index: u32, c: Cached, k: nat)
    requires c.Free(k) && FirstFree(c, 0) == FirstFree(c, k)
    ensures NextBlock(index, c) == (c.(pending := c.pending + {k}), Some(RequestFor(index, c.length, k)))
  {
  }

  class CachedPiece {
    const pending: Bitfield
    const obtained: Bitfield
    const index: u32
    const length: u32
    /** What the bits stand for, with the data put for each obtained block. */
    ghost var value: Cached

    ghost predicate Valid()
      reads this, pending, obtained
    {
      && pending != obtained && pending.owner == this && obtained.owner == this
      && pending.Length == NumBlocks(length) <= pending.Value().room
      && obtained.Length == NumBlocks(length) <= obtained.Value().room
      && value.length == length && pending.Value().members == value.pending
      && obtained.Value().members == value.accepted.Keys
    }

    /** The piece newPiece makes. */
    constructor (piece: u32, sz: u32)
      ensures Valid() && fresh(pending) && fresh(obtained)
      ensures index == piece && value == Cached(sz, {}, map[])
    {
      var bits: u32 := sz / BLOCK_SIZE;
      if sz % BLOCK_SIZE != 0 {
        bits := bits + 1;
      }
      pending := new Bitfield(bits, None);
      obtained := new Bitfield(bits, None);
      index := piece;
      length := sz;
      value := Cached(sz, {}, map[]);
      new;
      pending.owner := this;
      obtained.owner := this;
    }

    /** accept: a block of the piece, up to the block whose end wraps to 0. */
    method Accept(offset: u32, n: u32) returns (ok: bool)
      ensures ok == Blocks.Accept(length, offset, n)
      ensures length >= 1 && offset + n < U32_MOD ==> (ok <==> IsBlock(length, offset, n))
    {
      if length >= 1 {
        AcceptIsBlock(length, offset, n);
      }
      if offset % BLOCK_SIZE != 0 {
        return false;
      }
      if (offset + n) % U32_MOD > length {
        return false;
      }
      if offset / BLOCK_SIZE == FinalIndex(length) {
        if n != FinalLength(length) {
          return false;
        }
      } else {
        if n != BLOCK_SIZE {
          return false;
        }
      }
      return true;
    }

    /** done */
    method Done() returns (all: bool)
      requires Valid()
      ensures all == value.Done()
    {
      all := obtained.Completed();
      assert obtained.Value().members <= Below(obtained.Length);
    }

    /** put: the block is obtained and no longer pending; past the last block there is nothing to obtain. */
    method Put(offset: u32, ghost data: seq<byte>)
      requires Valid()
      modifies this`value, pending`Data, pending`Length, obtained`Data, obtained`Length
      ensures Valid() && value == old(value).Put(offset, data)
    {
      var idx := offset / BLOCK_SIZE;
      obtained.Set(idx);
      pending.Unset(idx);
      value := value.Put(offset, data);
    }

    /** cancel */
    method Cancel(offset: u32)
      requires Valid()
      modifies this`value, pending`Data, pending`Length
      ensures Valid() && value == old(value).Cancel(offset)
    {
      pending.Unset(offset / BLOCK_SIZE);
      value := value.Cancel(offset);
    }

    /** pending.Zero(), on expiry */
    method ZeroPending()
      requires Valid()
      modifies this`value, pending`Data, pending`Length
      ensures Valid() && value == old(value).(pending := {})
    {
      pending.Zero();
      value := value.(pending := {});
    }

    /** The end of nextRequest: the free block found is pending now, and asked for. */
    method AskFor(begin: u32, ghost k: nat) returns (r: PieceRequest)
      requires Valid() && k < NumBlocks(length) && begin == k * BLOCK_SIZE < length
      modifies this`value, pending`Data, pending`Length
      ensures Valid() && value == old(value).(pending := old(value).pending + {k}) && r == RequestFor(index, length, k)
    {
      var idx := begin / BLOCK_SIZE;
      BlockAt(length, k);
      FinalBlock(length, k);
      var len := BLOCK_SIZE;
      if idx == FinalIndex(length) {
        len := FinalLength(length);
      }
      pending.Set(idx);
      value := value.(pending := value.pending + {k});
      return PieceRequest(index, begin, len);
    }

    /** nextRequest: the search over block offsets, in 32 bits, where it comes to an end. */
    method NextRequest() returns (r: Option<PieceRequest>)
      requires Valid() && SearchEnds(value)
      modifies this`value, pending`Data, pending`Length
      ensures Valid() && (value, r) == NextBlock(index, old(value))
    {
      var begin: u32 := 0;
      ghost var k: nat := 0;
      ghost var c := value;
      while begin < length
        invariant begin == k * BLOCK_SIZE && FirstFree(c, 0) == FirstFree(c, k)
        invariant Valid() && value == c
        decreases length - begin
      {
        var idx := begin / BLOCK_SIZE;
        BlockAt(length, k);
        if pending.Has(idx) || obtained.Has(idx) {
          assert !c.Free(k);
          NoWrapYet(c, k);
          begin := (begin + BLOCK_SIZE) % U32_MOD;
          k := k + 1;
        } else {
          assert c.Free(k);
          NextIs(index, c, k);
          var req := AskFor(begin, k);
          return Some(req);
        }
      }
      PastLast(length, k);
      return None;
    }
  }

  lemma CancelVia(env: Env, rs: Requests, r: PieceRequest)
    requires r.length != 0
    ensures var c := Protocol.Visit(env, rs, r.index);
            rs[r.index := c][r.index := c.Cancel(r.begin)] == CancelOne(env, rs, r)
  {
  }

  lemma AskVia(env: Env, rs: Requests, idx: u32)
    ensures var c := Protocol.Visit(env, rs, idx); var (c', r) := NextBlock(idx, c);
            (rs[idx := c][idx := c'], r) == Protocol.AskPiece(env, rs, idx)
  {
    var c := Protocol.Visit(env, rs, idx);
    var c' := NextBlock(idx, c).0;
    assert rs[idx := c][idx := c'] == rs[idx := c'];
  }

  /** handlePieceData from its parts, when the block is refused. */
  lemma HandleRefused(env: Env, t: Tracker, d: PieceData, w: WriteResult, v: Verdict, flat: seq<byte>)
    requires var c := Protocol.Visit(env, t.requests, d.index); !Blocks.Accept(c.length, d.begin, |d.data| % U32_MOD)
    ensures Tracker(t.requests[d.index := Protocol.Visit(env, t.requests, d.index)], t.flat, t.owned, t.unchecked)
         == HandleInto(env, t, d, w, v, flat) == Handle(env, t, d, w, v)
    ensures !Completes(env, t, d, w) && !Announces(env, t, d, w, v)
  {
  }

  /** And when it is taken: settling the piece that was visited before. */
  lemma HandleTaken(env: Env, t: Tracker, d: PieceData, w: WriteResult, v: Verdict, flat: seq<byte>)
    requires Blocks.Accept(Protocol.Visit(env, t.requests, d.index).length, d.begin, |d.data| % U32_MOD)
    ensures var c := Protocol.Visit(env, t.requests, d.index);
            && Settle(t.(requests := t.requests[d.index := c]), d.index, AfterWrite(c, d, w), flat, v)
               == HandleInto(env, t, d, w, v, flat)
            && (Completes(env, t, d, w) <==> AfterWrite(c, d, w).Done())
            && (Announces(env, t, d, w, v) <==> AfterWrite(c, d, w).Done() && v == Verified)
  {
    var c := Protocol.Visit(env, t.requests, d.index);
    var c' := AfterWrite(c, d, w);
    assert t.requests[d.index := c][d.index := c'] == t.requests[d.index := c'];
    assert t.requests[d.index := c] - {d.index} == t.requests - {d.index};
  }

  /** Settling a piece that has been updated already. */
  lemma SettleVia(t: Tracker, idx: u32, c: Cached, flat: seq<byte>, v: Verdict)
    ensures Is(Settle(Tracker(t.requests[idx := c], flat, t.owned, t.unchecked), idx, c, flat, v), Settle(t, idx, c, flat, v))
  {
    assert t.requests[idx := c][idx := c] == t.requests[idx := c];
    assert t.requests[idx := c] - {idx} == t.requests - {idx};
  }

  /** A piece's length leaves room for the offset past its last block; past the last piece it is that of a full one. */
  lemma PieceFits(info: Info, idx: u32)
    requires info.WellFormed() && info.pieceLength <= WRAPPING
    ensures 1 <= info.LengthOfPiece(idx) <= WRAPPING
  {
    WellFormedFacts(info);
    if idx < info.Count() {
      LengthOfPieceIsExact(info, idx);
      PieceInside(info, idx);
    }
  }

  predicate Fits(info: Info, d: PieceData) {
    info.Start(d.index) + d.begin + |d.data| <= info.Total() <= I64_MAX
  }

  lemma AcceptedInPiece(length: u32, begin: u32, n: u32)
    requires length >= 1 && begin != WRAPPING && Blocks.Accept(length, begin, n)
    ensures begin + n <= length && begin / BLOCK_SIZE < NumBlocks(length)
  {
    AcceptIsBlock(length, begin, n);
    BlocksTile(length, begin, begin / BLOCK_SIZE);
  }

  /** If piece `idx` is cached, it is so at its own length. */
  predicate Sized(info: Info, rs: Requests, idx: u32) {
    idx in rs ==> rs[idx].length == info.LengthOfPiece(idx)
  }

  lemma VisitedLength(env: Env, rs: Requests, idx: u32)
    requires env.info.WellFormed() && idx < env.info.Count() && Sized(env.info, rs, idx)
    ensures Inside(env.info, idx, Protocol.Visit(env, rs, idx).length)
  {
    WellFormedFacts(env.info);
    LengthOfPieceIsExact(env.info, idx);
    PieceInside(env.info, idx);
  }

  predicate Inside(info: Info, idx: u32, length: u32) {
    length >= 1 && info.Start(idx) + length <= info.Total() <= I64_MAX
  }

  /** A block that is accepted lies inside the torrent. */
  lemma AcceptedFits(info: Info, d: PieceData, length: u32)
    requires Inside(info, d.index, length) && d.begin != WRAPPING && |d.data| < U32_MOD
    requires Blocks.Accept(length, d.begin, |d.data| % U32_MOD)
    ensures Fits(info, d) && d.begin / BLOCK_SIZE < NumBlocks(length)
  {
    var n: u32 := |d.data|;
    assert |d.data| % U32_MOD == n;
    AcceptedInPiece(length, d.begin, n);
  }

  function WriteOf(ok: bool, done: nat): WriteResult {
    if ok then Wrote else WriteFailed(done)
  }

  ghost predicate LeftAs(info: Info, before: Disk, after: Disk, d: PieceData, w: WriteResult, segs: seq<Seg>, done: nat) {
    && WrittenAs(info.GetFiles(), before, after, d.data, info.Start(d.index) + d.begin, segs, done)
    && (w.WriteFailed? ==> w.done == done)
  }

  /** What a write of `d` that came to `w` may leave on the disk. */
  ghost predicate LeftBy(info: Info, before: Disk, after: Disk, d: PieceData, w: WriteResult) {
    exists segs, done: nat :: LeftAs(info, before, after, d, w, segs, done)
  }

  lemma LeftAlone(info: Info, disk: Disk, d: PieceData)
    requires OnDisk(info.GetFiles(), disk)
    ensures LeftBy(info, disk, disk, d, WriteFailed(0))
  {
    assert LeftAs(info, disk, disk, d, WriteFailed(0), [], 0);
  }

  lemma ChunkWritten(env: Env, before: Disk, after: Disk, flat: seq<byte>, flat': seq<byte>, d: PieceData, done: nat, ok: bool)
    requires HasWritten(env.info.GetFiles(), before, after, d.data, env.info.Start(d.index) + d.begin, done)
    requires Is(flat, Flat(env.info.GetFiles(), before)) && Is(flat', Flat(env.info.GetFiles(), after))
    requires ok ==> done == |d.data|
    ensures flat' == FlatAfter(env, flat, d, WriteOf(ok, done))
  {
    assert d.data[..done] == Chunk(d.data, WriteOf(ok, done));
  }

  /** PutChunk without its segments. */
  method PutSome(st: FsTorrent, d: PieceData) returns (ok: bool, ghost done: nat)
    requires st.FilesValid()
    modifies st`disk
    ensures st.FilesValid() && LeftBy(st.info, old(st.disk), st.disk, d, WriteOf(ok, done))
    ensures st.WritesWhole() && Fits(st.info, d) ==>
              && (ok ==> done == |d.data|)
              && HasWritten(st.info.GetFiles(), old(st.disk), st.disk, d.data, st.info.Start(d.index) + d.begin, done)
  {
    var err;
    ghost var segs;
    err, done, segs := st.PutChunk(d);
    ok := err == Ok;
    assert LeftAs(st.info, old(st.disk), st.disk, d, WriteOf(ok, done), segs, done);
  }

  /** PutChunk: if the data fits and the driver writes whole files or fails, all of it is written, or a part. */
  method WriteChunk(st: FsTorrent, d: PieceData) returns (ok: bool, ghost w: WriteResult)
    requires st.Valid()
    modifies st`disk
    ensures st.Valid() && ok == w.Wrote? && LeftBy(st.info, old(st.disk), st.disk, d, w)
    ensures st.WritesWhole() && Fits(st.info, d) ==>
              st.Contents() == FlatAfter(Env(st.info, st.sha1), old(st.Contents()), d, w)
  {
    ghost var done;
    ok, done := PutSome(st, d);
    w := WriteOf(ok, done);
    if st.WritesWhole() && Fits(st.info, d) {
      ChunkWritten(Env(st.info, st.sha1), old(st.disk), st.disk, old(st.Contents()), st.Contents(), d, done, ok);
    }
  }

  class PieceTracker {
    var requests: map<u32, CachedPiece>
    const st: FsTorrent
    /** The pieces whose bit no successful read backs. */
    ghost var unchecked: set<nat>
    /** The values of the cached pieces, and the objects they are made of. */
    ghost var view: Requests
    ghost var Repr: set<object>

    /** The piece cached under `k` has that index and is made of this tracker's own objects. */
    ghost predicate Entry(k: u32)
      requires k in requests
      reads this, requests[k], requests[k].pending, requests[k].obtained
    {
      var pc := requests[k];
      pc in Repr && pc.pending in Repr && pc.obtained in Repr && pc.index == k && pc.Valid()
    }

    ghost predicate Owned(k: u32)
      requires k in requests
      reads this
    {
      requests[k] in Repr && requests[k].pending in Repr && requests[k].obtained in Repr
    }

    ghost predicate Valid()
      reads this, Repr
    {
      && st.bf !in Repr && this !in Repr && st !in Repr && requests.Keys == view.Keys
      && forall k :: k in requests ==> Owned(k) && Entry(k) && Is(requests[k].value, view[k])
    }

    ghost function Fixed(): Env {
      Env(st.info, st.sha1)
    }

    /** The tracker with the contents and the bits of its storage. */
    ghost function Model(): Tracker
      requires st.FilesValid()
      reads this, st, st.bf
    {
      Tracker(view, st.Contents(), st.bf.Value().members, unchecked)
    }

    // ----- frames: one piece changes, the others stay -----

    /** The piece cached under `k`, with the objects it is made of, is as it was. */
    twostate predicate Same(k: u32)
      requires k in requests
      reads this, requests[k], requests[k].pending, requests[k].obtained
    {
      && k in old(requests) && requests[k] == old(requests)[k]
      && unchanged(requests[k]) && unchanged(requests[k].pending) && unchanged(requests[k].obtained)
    }

    twostate lemma EntryKept(k: u32)
      requires k in old(requests) && k in requests && old(Owned(k) && Entry(k)) && Same(k) && old(Repr) <= Repr
      ensures Owned(k) && Entry(k)
    {
    }

    twostate lemma OneChanged(idx: u32)
      requires old(Valid()) && idx in requests && requests == old(requests) && Repr == old(Repr)
      requires requests[idx].Valid() && view == old(view)[idx := requests[idx].value]
      requires forall k :: k in requests && k != idx ==> Same(k)
      ensures Valid()
    {
      forall k | k in requests
        ensures Owned(k) && Entry(k) && Is(requests[k].value, view[k])
      {
        if k != idx {
          EntryKept(k);
        }
      }
    }

    twostate lemma OneAdded(idx: u32, new pc: CachedPiece)
      requires old(Valid()) && requests == old(requests)[idx := pc]
      requires fresh(pc) && fresh(pc.pending) && fresh(pc.obtained) && Repr == old(Repr) + {pc, pc.pending, pc.obtained}
      requires pc.Valid() && pc.index == idx && view == old(view)[idx := pc.value]
      requires forall k :: k in old(requests) && k != idx ==> Same(k)
      ensures Valid()
    {
      forall k | k in requests
        ensures Owned(k) && Entry(k) && Is(requests[k].value, view[k])
      {
        if k != idx {
          EntryKept(k);
        }
      }
    }

    constructor (st: FsTorrent)
      ensures this.st == st && requests == map[] && view == map[] && Valid() && Repr == {}
      ensures unchecked == Below(st.info.Count())
    {
      this.st := st;
      requests := map[];
      unchecked := Below(st.info.Count());
      Repr := {};
      view := map[];
    }

    /** newPiece: whatever was cached under the index is replaced. */
    method NewPiece(piece: u32)
      requires Valid()
      modifies this`requests, this`view, this`Repr
      ensures Valid() && fresh(Repr - old(Repr))
      ensures piece in requests && view == old(view)[piece := FreshPiece(Fixed(), piece)]
    {
      var sz := st.info.LengthOfPiece(piece);
      var pc := new CachedPiece(piece, sz);
      Repr := Repr + {pc, pc.pending, pc.obtained};
      requests := requests[piece := pc];
      view := view[piece := pc.value];
      forall k | k in old(requests) && k != piece
        ensures Same(k)
      {
        assert old(Owned(k));
      }
      OneAdded(piece, pc);
    }

    /** visitCached without its visitor: the cached piece, made anew when there is none. */
    method Visit(idx: u32)
      requires Valid()
      modifies this`requests, this`view, this`Repr
      ensures Valid() && idx in requests
      ensures fresh(Repr - old(Repr))
      ensures view == old(view)[idx := Protocol.Visit(Fixed(), old(view), idx)]
    {
      if idx !in requests {
        NewPiece(idx);
      }
    }

    /** removePiece */
    method RemovePiece(idx: u32)
      requires Valid()
      modifies this`requests, this`view
      ensures Valid() && view == old(view) - {idx}
    {
      requests := requests - {idx};
      view := view - {idx};
    }

    /** PendingPieces, in whatever order the map is walked. */
    method PendingPieces() returns (exclude: seq<u32>)
      requires Valid()
      ensures forall k: u32 :: k in exclude <==> k as nat in Protocol.PendingPieces(view)
    {
      exclude := [];
      var todo := requests.Keys;
      while todo != {}
        invariant todo <= requests.Keys
        invariant forall k: u32 :: k in exclude <==> k in requests && k !in todo && view[k].pending != {}
      {
        var k :| k in todo;
        todo := todo - {k};
        assert Owned(k) && Entry(k) && Is(requests[k].value, view[k]);
        var any := requests[k].pending.AnySet();
        if any {
          exclude := exclude + [k];
        }
      }
    }

    method HasPending(idx: u32) returns (any: bool)
      requires Valid() && idx in requests
      ensures any == (view[idx].pending != {})
    {
      assert Owned(idx) && Entry(idx) && Is(requests[idx].value, view[idx]);
      any := requests[idx].pending.AnySet();
    }

    // ----- what is done to a visited piece -----

    method CancelBlock(idx: u32, begin: u32)
      requires Valid() && idx in requests
      modifies this`view, Repr
      ensures Valid() && view == old(view)[idx := old(view)[idx].Cancel(begin)]
    {
      var pc := requests[idx];
      assert Owned(idx) && Entry(idx) && Is(pc.value, view[idx]);
      pc.Cancel(begin);
      view := view[idx := pc.value];
      forall k | k in requests && k != idx
        ensures Same(k)
      {
        assert old(Owned(k) && Entry(k));
      }
      OneChanged(idx);
    }

    method PutBlock(idx: u32, begin: u32, ghost data: seq<byte>)
      requires Valid() && idx in requests
      modifies this`view, Repr
      ensures Valid() && view == old(view)[idx := old(view)[idx].Put(begin, data)]
    {
      var pc := requests[idx];
      assert Owned(idx) && Entry(idx) && Is(pc.value, view[idx]);
      pc.Put(begin, data);
      view := view[idx := pc.value];
      forall k | k in requests && k != idx
        ensures Same(k)
      {
        assert old(Owned(k) && Entry(k));
      }
      OneChanged(idx);
    }

    method AskBlock(idx: u32) returns (r: Option<PieceRequest>)
      requires Valid() && idx in requests && SearchEnds(view[idx])
      modifies this`view, Repr
      ensures Valid() && view == old(view)[idx := NextBlock(idx, old(view)[idx]).0]
      ensures r == NextBlock(idx, old(view)[idx]).1
    {
      var pc := requests[idx];
      assert Owned(idx) && Entry(idx) && Is(pc.value, view[idx]);
      r := pc.NextRequest();
      view := view[idx := pc.value];
      forall k | k in requests && k != idx
        ensures Same(k)
      {
        assert old(Owned(k) && Entry(k));
      }
      OneChanged(idx);
    }

    /** The expiry of one piece: nothing of it is pending any more. */
    method ZeroPending(idx: u32)
      requires Valid() && idx in requests
      modifies this`view, Repr
      ensures Valid() && view == old(view)[idx := old(view)[idx].(pending := {})]
    {
      var pc := requests[idx];
      assert Owned(idx) && Entry(idx) && Is(pc.value, view[idx]);
      pc.ZeroPending();
      view := view[idx := pc.value];
      forall k | k in requests && k != idx
        ensures Same(k)
      {
        assert old(Owned(k) && Entry(k));
      }
      OneChanged(idx);
    }

    /** canceledRequest */
    method CanceledRequest(r: PieceRequest)
      requires Valid()
      modifies this`requests, this`view, this`Repr, Repr
      ensures Valid() && fresh(Repr - old(Repr))
      ensures view == CancelOne(Fixed(), old(view), r)
    {
      if r.length == 0 {
        return;
      }
      CancelVia(Fixed(), view, r);
      Visit(r.index);
      CancelBlock(r.index, r.begin);
    }

    /** One half of NextRequest: another block of piece `idx`, where the search for one ends. */
    method AskPiece(idx: u32) returns (r: Option<PieceRequest>)
      requires Valid() && SearchEnds(Protocol.Visit(Fixed(), view, idx))
      modifies this`requests, this`view, this`Repr, Repr
      ensures Valid() && fresh(Repr - old(Repr))
      ensures (view, r) == Protocol.AskPiece(Fixed(), old(view), idx)
    {
      AskVia(Fixed(), view, idx);
      Visit(idx);
      r := AskBlock(idx);
    }

    /** done */
    method PieceDone(idx: u32) returns (all: bool)
      requires Valid() && idx in requests
      ensures all == view[idx].Done()
    {
      assert Owned(idx) && Entry(idx) && Is(requests[idx].value, view[idx]);
      all := requests[idx].Done();
    }

    method AcceptsBlock(d: PieceData) returns (ok: bool)
      requires Valid() && d.index in requests
      ensures ok == Blocks.Accept(view[d.index].length, d.begin, |d.data| % U32_MOD)
    {
      assert Owned(d.index) && Entry(d.index) && Is(requests[d.index].value, view[d.index]);
      ok := requests[d.index].Accept(d.begin, |d.data| % U32_MOD);
    }

    /** The middle of handlePieceData: the block is written, and then obtained, or cancelled if that failed. */
    method StoreBlock(d: PieceData) returns (ghost w: WriteResult)
      requires Valid() && st.Valid() && d.index in requests
      modifies this`view, Repr, st`disk
      ensures Valid() && st.Valid() && LeftBy(st.info, old(st.disk), st.disk, d, w)
      ensures view == old(view)[d.index := AfterWrite(old(view)[d.index], d, w)]
      ensures st.WritesWhole() && Fits(st.info, d) ==> st.Contents() == FlatAfter(Fixed(), old(st.Contents()), d, w)
    {
      var ok;
      ok, w := WriteChunk(st, d);
      if ok {
        PutBlock(d.index, d.begin, d.data);
      } else {
        CancelBlock(d.index, d.begin);
      }
    }

    /** The end of handlePieceData: a complete piece is verified and forgotten. */
    method FinishPiece(idx: u32) returns (v: Verdict)
      requires Valid() && st.Valid() && idx in requests
      modifies this`requests, this`view, this`unchecked, st.bf
      ensures Valid() && st.Valid() && (idx < st.info.Count() ==> True(st.info, st.sha1, st.Contents(), idx, v))
      ensures Model() == Tracker(old(view) - {idx}, old(st.Contents()),
                                 Rated(old(Model()).owned, idx, v), Recheck(old(unchecked), idx, v))
      ensures st.reliable && idx < st.info.Count() ==> v != Unread
    {
      v := st.VerifyPiece(idx);
      unchecked := Recheck(unchecked, idx, v);
      RemovePiece(idx);
    }

    /** The completeness check, and what follows from it. */
    method SettlePiece(idx: u32) returns (v: Verdict, announce: bool)
      requires Valid() && st.Valid() && idx in requests
      modifies this`requests, this`view, this`unchecked, st.bf
      ensures Valid() && st.Valid() && (idx < st.info.Count() ==> True(st.info, st.sha1, st.Contents(), idx, v))
      ensures Model() == Settle(old(Model()), idx, old(view)[idx], old(st.Contents()), v)
      ensures announce <==> old(view)[idx].Done() && v == Verified
      ensures st.reliable && idx < st.info.Count() && old(view)[idx].Done() ==> v != Unread
    {
      v, announce := Unread, false;
      var done := PieceDone(idx);
      if !done {
        assert view[idx := view[idx]] == view;
        return;
      }
      v := FinishPiece(idx);
      announce := v == Verified;
    }

    /** handlePieceData, once the block is accepted. */
    method TakeBlock(d: PieceData) returns (ghost w: WriteResult, ghost v: Verdict, announce: bool)
      requires Valid() && st.Valid() && d.index in requests
      modifies this`requests, this`view, this`unchecked, Repr, st`disk, st.bf
      ensures Valid() && st.Valid() && LeftBy(st.info, old(st.disk), st.disk, d, w)
      ensures Model() == Settle(old(Model()), d.index, AfterWrite(old(view)[d.index], d, w), st.Contents(), v)
      ensures announce <==> AfterWrite(old(view)[d.index], d, w).Done() && v == Verified
      ensures st.WritesWhole() && Fits(st.info, d) ==> st.Contents() == FlatAfter(Fixed(), old(st.Contents()), d, w)
      ensures d.index < st.info.Count() ==> True(st.info, st.sha1, st.Contents(), d.index, v)
      ensures st.reliable && d.index < st.info.Count() && AfterWrite(old(view)[d.index], d, w).Done() ==> v != Unread
    {
      ghost var t := Model();
      w := StoreBlock(d);
      v, announce := SettlePiece(d.index);
      SettleVia(t, d.index, AfterWrite(t.requests[d.index], d, w), st.Contents(), v);
    }

    /** What can be an answer to a request for a block of the torrent. */
    ghost predicate IsExpected(d: PieceData)
      reads this
    {
      && st.WritesWhole() && st.info.WellFormed() && d.index < st.info.Count() && |d.data| < U32_MOD && d.begin != WRAPPING
      && Sized(st.info, view, d.index)
    }

    /**
     * handlePieceData, for whatever data. The announcement the source makes through its callback is left to the caller:
     * `announce` says that it is due. What the write leaves on the disk is up to the driver; expected data is written in
     * its place, or a part of it is.
     */
    method HandlePieceData(d: PieceData) returns (ghost w: WriteResult, ghost v: Verdict, announce: bool)
      requires Valid() && st.Valid()
      modifies this, Repr, st`disk, st.bf
      ensures Valid() && st.Valid() && fresh(Repr - old(Repr))
      ensures LeftBy(st.info, old(st.disk), st.disk, d, w)
      ensures Model() == HandleInto(Fixed(), old(Model()), d, w, v, st.Contents())
      ensures announce <==> Announces(Fixed(), old(Model()), d, w, v)
      ensures d.index < st.info.Count() ==> True(st.info, st.sha1, st.Contents(), d.index, v)
      ensures old(IsExpected(d)) ==>
                && Model() == Handle(Fixed(), old(Model()), d, w, v)
                && True(st.info, st.sha1, FlatAfter(Fixed(), old(st.Contents()), d, w), d.index, v)
      ensures st.reliable && d.index < st.info.Count() && Completes(Fixed(), old(Model()), d, w) ==> v != Unread
    {
      ghost var t := Model();
      w, v, announce := WriteFailed(0), Unread, false;
      ghost var expected := IsExpected(d);
      if expected {
        VisitedLength(Fixed(), view, d.index);
      }
      Visit(d.index);
      ghost var c := view[d.index];
      var ok := AcceptsBlock(d);
      if !ok {
        HandleRefused(Fixed(), t, d, w, v, st.Contents());
        LeftAlone(st.info, st.disk, d);
        return;
      }
      if expected {
        AcceptedFits(st.info, d, c.length);
      }
      w, v, announce := TakeBlock(d);
      HandleTaken(Fixed(), t, d, w, v, st.Contents());
    }
  }
}
