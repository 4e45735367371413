/** What a block write does to the stored bytes, and what a finished piece is made of. */
module Assembly {
  import opened Words
  import opened Common
  import opened MetaInfo
  import opened Bitfields
  import opened Storage
  import opened Blocks
  import opened Protocol
  import opened Correspondence

  /** The bits tell the truth about every piece that is neither being downloaded nor unread. */
  ghost predicate BitsTrue(env: Env, t: Tracker)
    requires env.Ok() && |t.flat| == env.info.Total()
  {
    forall i: u32 :: i < env.info.Count() && i !in t.requests && i as nat !in t.unchecked ==>
      (i as nat in t.owned <==> Good(env.info, env.sha1, t.flat, i))
  }

  ghost predicate TrackerOk(env: Env, t: Tracker) {
    && env.Ok() && |t.flat| == env.info.Total()
    && RequestsOk(env, t.flat, t.requests)
    && t.owned <= Below(env.info.Count())
    && BitsTrue(env, t)
  }

  // ----- frames of a write -----

  lemma CutFrame(s: seq<byte>, off: nat, data: seq<byte>, a: nat, n: nat)
    requires a + n <= off || off + |data| <= a
    ensures Cut(PutAt(s, off, data), a, n) == Cut(s, a, n)
  {
  }

  lemma PieceIsCut(info: Info, flat: seq<byte>, i: nat)
    requires info.WellFormed() && i < info.Count() && |flat| == info.Total()
    ensures PieceBytes(info, flat, i) == Cut(flat, info.Start(i), info.PieceLen(i))
  {
    PieceInside(info, i);
  }

  /** A write inside piece `idx`, as a chunk of it. */
  predicate Inside(info: Info, idx: nat, off: nat, n: nat) {
    idx < info.Count() && info.Start(idx) <= off && off + n <= info.Start(idx) + info.PieceLen(idx)
  }

  /** A write stays inside its piece: no other piece's bytes change. */
  lemma OtherPieceKept(info: Info, flat: seq<byte>, idx: nat, off: nat, data: seq<byte>, j: nat)
    requires info.WellFormed() && |flat| == info.Total() && Inside(info, idx, off, |data|)
    requires j < info.Count() && j != idx
    ensures PieceBytes(info, PutAt(flat, off, data), j) == PieceBytes(info, flat, j)
  {
    PieceIsCut(info, flat, j);
    PieceIsCut(info, PutAt(flat, off, data), j);
    if j < idx {
      PiecesDisjoint(info, j, idx, 0);
    } else {
      PiecesDisjoint(info, idx, j, 0);
    }
    CutFrame(flat, off, data, info.Start(j), info.PieceLen(j));
  }

  /** A stored block of a piece is untouched by a write elsewhere. */
  lemma BlockKept(env: Env, flat: seq<byte>, i: u32, c: Cached, k: nat, off: nat, data: seq<byte>)
    requires k in c.accepted && BlockStored(env, flat, i, c, k)
    requires var a := env.info.Start(i) + k * BLOCK_SIZE; a + BlockLength(c.length, k) <= off || off + |data| <= a
    ensures BlockStored(env, PutAt(flat, off, data), i, c, k)
  {
    CutFrame(flat, off, data, env.info.Start(i) + k * BLOCK_SIZE, BlockLength(c.length, k));
  }

  lemma BlockInPiece(length: nat, k: nat)
    requires k < NumBlocks(length)
    ensures 1 <= BlockLength(length, k) && k * BLOCK_SIZE + BlockLength(length, k) <= length
    ensures BlockLength(length, k) <= BLOCK_SIZE
  {
  }

  /** A block of another piece lies off the write. */
  lemma OtherPieceApart(info: Info, idx: nat, off: nat, n: nat, j: nat, a: nat, m: nat)
    requires info.WellFormed() && Inside(info, idx, off, n) && Inside(info, j, a, m) && j != idx
    ensures a + m <= off || off + n <= a
  {
    if j < idx {
      PiecesDisjoint(info, j, idx, 0);
    } else {
      PiecesDisjoint(info, idx, j, 0);
    }
  }

  lemma BlockInside(env: Env, flat: seq<byte>, i: u32, c: Cached, k: nat)
    requires CachedOk(env, flat, i, c) && k < NumBlocks(c.length)
    ensures Inside(env.info, i, env.info.Start(i) + k * BLOCK_SIZE, BlockLength(c.length, k))
  {
    BlockInPiece(c.length, k);
  }

  /** A write inside one piece leaves the other cached pieces as they were. */
  lemma OtherCachedKept(env: Env, flat: seq<byte>, idx: u32, off: nat, data: seq<byte>, j: u32, c: Cached)
    requires env.Ok() && |flat| == env.info.Total() && Inside(env.info, idx, off, |data|) && j != idx
    requires CachedOk(env, flat, j, c)
    ensures CachedOk(env, PutAt(flat, off, data), j, c)
  {
    forall k | k in c.accepted
      ensures BlockStored(env, PutAt(flat, off, data), j, c, k)
    {
      BlockInside(env, flat, j, c, k);
      OtherPieceApart(env.info, idx, off, |data|, j, env.info.Start(j) + k * BLOCK_SIZE, BlockLength(c.length, k));
      BlockKept(env, flat, j, c, k, off, data);
    }
  }

  lemma BlocksApart(length: nat, k: nat, j: nat)
    requires k < NumBlocks(length) && j < NumBlocks(length) && k != j
    ensures k * BLOCK_SIZE + BlockLength(length, k) <= j * BLOCK_SIZE || j * BLOCK_SIZE + BlockLength(length, j) <= k * BLOCK_SIZE
  {
  }

  /** The blocks already taken in survive a write to another block of the same piece. */
  lemma SamePieceKept(env: Env, flat: seq<byte>, i: u32, c: Cached, k0: nat, off: nat, data: seq<byte>)
    requires CachedOk(env, flat, i, c) && k0 < NumBlocks(c.length) && k0 !in c.accepted
    requires off == env.info.Start(i) + k0 * BLOCK_SIZE && |data| <= BlockLength(c.length, k0)
    ensures forall k :: k in c.accepted ==> BlockStored(env, PutAt(flat, off, data), i, c, k)
  {
    forall k | k in c.accepted
      ensures BlockStored(env, PutAt(flat, off, data), i, c, k)
    {
      BlocksApart(c.length, k, k0);
      BlockKept(env, flat, i, c, k, off, data);
    }
  }

  // ----- one block taken in -----

  lemma BlockAccepted(length: u32, begin: u32, n: u32)
    requires IsBlock(length, begin, n)
    ensures Accept(length, begin, n)
  {
    AcceptIsBlock(length, begin, n);
  }

  /** A block that answers a pending request: where it goes, and that accept takes it. */
  lemma PendingBlock(env: Env, flat: seq<byte>, rs: Requests, d: PieceData)
    requires env.Ok() && RequestsOk(env, flat, rs) && |d.data| < U32_MOD
    requires IsPending(rs, PieceRequest(d.index, d.begin, |d.data|))
    ensures var c := rs[d.index]; var k: nat := d.begin / BLOCK_SIZE;
            && d.begin == k * BLOCK_SIZE && k in c.pending && k < NumBlocks(c.length) && k !in c.accepted
            && |d.data| == BlockLength(c.length, k) > 0
            && Accept(c.length, d.begin, |d.data|)
            && Inside(env.info, d.index, env.info.Start(d.index) + d.begin, |d.data|)
  {
    var c := rs[d.index];
    var k: nat := d.begin / BLOCK_SIZE;
    assert CachedOk(env, flat, d.index, c);
    assert d.begin == k * BLOCK_SIZE;
    BlockInPiece(c.length, k);
    BlockAccepted(c.length, d.begin, |d.data|);
  }

  lemma StoredCarries(env: Env, flat: seq<byte>, i: u32, c: Cached, c': Cached, k: nat)
    requires k in c.accepted && BlockStored(env, flat, i, c, k)
    requires c'.length == c.length && k in c'.accepted && c'.accepted[k] == c.accepted[k]
    ensures BlockStored(env, flat, i, c', k)
  {
  }

  /** A block that was written is stored at its place. */
  lemma NewStored(env: Env, flat: seq<byte>, d: PieceData, c': Cached, k: nat)
    requires env.Ok() && d.index < env.info.Count() && |flat| == env.info.Total() && c'.length == env.info.PieceLen(d.index)
    requires k < NumBlocks(c'.length) && d.begin == k * BLOCK_SIZE && |d.data| == BlockLength(c'.length, k)
    requires k in c'.accepted && c'.accepted[k] == d.data
    ensures BlockStored(env, FlatAfter(env, flat, d, Wrote), d.index, c', k)
  {
    PieceInside(env.info, d.index);
    BlockInPiece(c'.length, k);
    CutOfPut(flat, env.info.Start(d.index) + d.begin, d.data);
  }

  /** The piece after the block is written or the write failed, before the completeness check. */
  lemma AfterWriteOk(env: Env, flat: seq<byte>, rs: Requests, d: PieceData, w: WriteResult)
    requires env.Ok() && |flat| == env.info.Total() && RequestsOk(env, flat, rs) && |d.data| < U32_MOD
    requires IsPending(rs, PieceRequest(d.index, d.begin, |d.data|))
    ensures var c' := AfterWrite(rs[d.index], d, w); var flat' := FlatAfter(env, flat, d, w);
            && c'.length == rs[d.index].length
            && (forall k :: k in c'.pending ==> k < NumBlocks(c'.length) && k !in c'.accepted)
            && (forall k :: k in c'.accepted ==> BlockStored(env, flat', d.index, c', k))
            && (w.WriteFailed? ==> !c'.Done())
  {
    var c := rs[d.index];
    var k0: nat := d.begin / BLOCK_SIZE;
    var c', flat' := AfterWrite(c, d, w), FlatAfter(env, flat, d, w);
    PendingBlock(env, flat, rs, d);
    SamePieceKept(env, flat, d.index, c, k0, env.info.Start(d.index) + d.begin, Chunk(d.data, w));
    forall k | k in c'.accepted
      ensures BlockStored(env, flat', d.index, c', k)
    {
      if k in c.accepted {
        StoredCarries(env, flat', d.index, c, c', k);
      } else {
        assert k == k0 && w == Wrote;
        NewStored(env, flat, d, c', k);
      }
    }
  }

  /** Where the write lands, failed or not. */
  lemma WriteInside(env: Env, flat: seq<byte>, rs: Requests, d: PieceData, w: WriteResult)
    requires env.Ok() && RequestsOk(env, flat, rs) && |d.data| < U32_MOD
    requires IsPending(rs, PieceRequest(d.index, d.begin, |d.data|))
    ensures Inside(env.info, d.index, env.info.Start(d.index) + d.begin, |Chunk(d.data, w)|)
  {
    PendingBlock(env, flat, rs, d);
  }

  lemma OneCachedAfterWrite(env: Env, flat: seq<byte>, d: PieceData, w: WriteResult, i: u32, c: Cached)
    requires env.Ok() && |flat| == env.info.Total() && i != d.index && CachedOk(env, flat, i, c)
    requires Inside(env.info, d.index, env.info.Start(d.index) + d.begin, |Chunk(d.data, w)|)
    ensures CachedOk(env, FlatAfter(env, flat, d, w), i, c)
  {
    OtherCachedKept(env, flat, d.index, env.info.Start(d.index) + d.begin, Chunk(d.data, w), i, c);
  }

  /** The other cached pieces do not notice the write. */
  lemma OtherCachedAfterWrite(env: Env, flat: seq<byte>, rs: Requests, d: PieceData, w: WriteResult)
    requires env.Ok() && |flat| == env.info.Total() && RequestsOk(env, flat, rs) && |d.data| < U32_MOD
    requires IsPending(rs, PieceRequest(d.index, d.begin, |d.data|))
    ensures forall i :: i in rs && i != d.index ==> CachedOk(env, FlatAfter(env, flat, d, w), i, rs[i])
  {
    WriteInside(env, flat, rs, d, w);
    forall i | i in rs && i != d.index
      ensures CachedOk(env, FlatAfter(env, flat, d, w), i, rs[i])
    {
      OneCachedAfterWrite(env, flat, d, w, i, rs[i]);
    }
  }

  /** Nor do the hashes of the other pieces. */
  lemma OtherGoodAfterWrite(env: Env, flat: seq<byte>, rs: Requests, d: PieceData, w: WriteResult)
    requires env.Ok() && |flat| == env.info.Total() && RequestsOk(env, flat, rs) && |d.data| < U32_MOD
    requires IsPending(rs, PieceRequest(d.index, d.begin, |d.data|))
    ensures forall i: u32 :: i < env.info.Count() && i != d.index ==>
              (Good(env.info, env.sha1, FlatAfter(env, flat, d, w), i) <==> Good(env.info, env.sha1, flat, i))
  {
    WriteInside(env, flat, rs, d, w);
    forall i: u32 | i < env.info.Count() && i != d.index
      ensures Good(env.info, env.sha1, FlatAfter(env, flat, d, w), i) <==> Good(env.info, env.sha1, flat, i)
    {
      OtherPieceKept(env.info, flat, d.index, env.info.Start(d.index) + d.begin, Chunk(d.data, w), i);
    }
  }

  // ----- handlePieceData -----

  /** No other cached piece has changed. */
  ghost predicate OthersStay(t: Tracker, t': Tracker, idx: u32) {
    && (forall i :: i != idx ==> (i in t'.requests <==> i in t.requests))
    && (forall i :: i != idx && i in t.requests ==> t'.requests[i] == t.requests[i])
  }

  /** Data that is refused changes nothing, except that a piece that was not cached is made, with nothing asked for or in. */
  lemma DataRefused(env: Env, t: Tracker, d: PieceData, w: WriteResult, v: Verdict, flat: seq<byte>)
    requires !Accept(Visit(env, t.requests, d.index).length, d.begin, |d.data| % U32_MOD)
    ensures var t' := HandleInto(env, t, d, w, v, flat);
            && OthersStay(t, t', d.index) && d.index in t'.requests
            && t'.flat == t.flat && t'.owned == t.owned && t'.unchecked == t.unchecked
            && (d.index in t.requests ==> t'.requests[d.index] == t.requests[d.index])
            && (d.index !in t.requests ==> t'.requests[d.index].pending == {} && t'.requests[d.index].accepted == map[])
  {
  }

  /**
   * Data that is taken leaves its block not asked for, and obtained if it was written; with all blocks obtained the piece is
   * forgotten and its bit is set, cleared or kept as the check says.
   */
  lemma DataTaken(env: Env, t: Tracker, d: PieceData, w: WriteResult, v: Verdict, flat: seq<byte>)
    requires d.index in t.requests && Accept(t.requests[d.index].length, d.begin, |d.data| % U32_MOD)
    ensures var t' := HandleInto(env, t, d, w, v, flat); var c := t.requests[d.index]; var k := d.begin / 16384;
            && OthersStay(t, t', d.index) && t'.flat == flat
            && (d.index in t'.requests ==>
                  && t'.requests[d.index].pending == c.pending - {k} && t'.requests[d.index].length == c.length
                  && (forall j: nat :: j in t'.requests[d.index].accepted
                                  <==> j in c.accepted || (w == Wrote && j == k < NumBlocks(c.length)))
                  && t'.owned == t.owned)
            && (d.index !in t'.requests <==>
                  forall j: nat :: j < NumBlocks(c.length) ==> j in c.accepted || (w == Wrote && j == k))
            && (d.index !in t'.requests ==>
                  forall i: nat :: i in t'.owned <==> if i == d.index && v != Unread then v == Verified else i in t.owned)
  {
    var c := t.requests[d.index];
    var c' := AfterWrite(c, d, w);
    assert Is(Visit(env, t.requests, d.index), c);
    assert Is(HandleInto(env, t, d, w, v, flat), Settle(t, d.index, c', flat, v));
    TakenDone(c, d, w);
  }

  lemma TakenDone(c: Cached, d: PieceData, w: WriteResult)
    ensures AfterWrite(c, d, w).Done()
       <==> forall j: nat :: j < NumBlocks(c.length) ==> j in c.accepted || (w == Wrote && j == d.begin / 16384)
  {
    var c' := AfterWrite(c, d, w);
    forall j: nat | j < NumBlocks(c.length)
      ensures j in c'.accepted <==> j in c.accepted || (w == Wrote && j == d.begin / 16384)
    {
    }
    assert c'.Done() <==> forall j: nat :: j < NumBlocks(c.length) ==> j in Below(NumBlocks(c.length)) && j in c'.accepted;
  }

  /** A block that was asked for is never rejected. */
  lemma HandleForm(env: Env, t: Tracker, d: PieceData, w: WriteResult, v: Verdict)
    requires TrackerOk(env, t) && |d.data| < U32_MOD && IsPending(t.requests, PieceRequest(d.index, d.begin, |d.data|))
    ensures Handle(env, t, d, w, v)
         == Settle(t, d.index, AfterWrite(t.requests[d.index], d, w), FlatAfter(env, t.flat, d, w), v)
  {
    PendingBlock(env, t.flat, t.requests, d);
    AcceptedForm(env, t, d, w, v);
  }

  lemma AcceptedForm(env: Env, t: Tracker, d: PieceData, w: WriteResult, v: Verdict)
    requires |d.data| < U32_MOD && d.index in t.requests && Accept(t.requests[d.index].length, d.begin, |d.data|)
    ensures Handle(env, t, d, w, v)
         == Settle(t, d.index, AfterWrite(t.requests[d.index], d, w), FlatAfter(env, t.flat, d, w), v)
  {
    var c := t.requests[d.index];
    assert Is(Visit(env, t.requests, d.index), c) && |d.data| % U32_MOD == |d.data|;
    assert Is(Handle(env, t, d, w, v), Settle(t, d.index, AfterWrite(c, d, w), FlatAfter(env, t.flat, d, w), v));
  }

  lemma NothingIdle(pending: set<nat>, all: set<nat>, have: set<nat>)
    requires pending <= all <= have && pending !! have
    ensures pending == {}
  {
  }

  /** A complete piece has no pending block. */
  lemma DoneIsIdle(c: Cached, n: nat)
    requires n == NumBlocks(c.length) && c.Done() && c.pending !! c.accepted.Keys
    requires forall k :: k in c.pending ==> k < n
    ensures c.pending == {}
  {
    NothingIdle(c.pending, Below(n), c.accepted.Keys);
  }

  /** The tracker's requests once the block is in, before a completed piece is forgotten. */
  lemma TakenIn(env: Env, t: Tracker, d: PieceData, w: WriteResult)
    requires TrackerOk(env, t) && |d.data| < U32_MOD && IsPending(t.requests, PieceRequest(d.index, d.begin, |d.data|))
    ensures var c' := AfterWrite(t.requests[d.index], d, w); var flat' := FlatAfter(env, t.flat, d, w);
            && (if c'.Done() then c'.pending == {} && RequestsOk(env, flat', t.requests - {d.index})
                else RequestsOk(env, flat', t.requests[d.index := c']))
            && (forall x :: IsPending(t.requests[d.index := c'], x)
                       <==> IsPending(t.requests, x) && x != PieceRequest(d.index, d.begin, |d.data|))
  {
    var c' := AfterWrite(t.requests[d.index], d, w);
    PendingBlock(env, t.flat, t.requests, d);
    AfterWriteOk(env, t.flat, t.requests, d, w);
    OtherCachedAfterWrite(env, t.flat, t.requests, d, w);
    PendingAfterClear(t.requests, PieceRequest(d.index, d.begin, |d.data|), c');
    if c'.Done() {
      DoneIsIdle(c', NumBlocks(c'.length));
    } else {
      assert CachedOk(env, FlatAfter(env, t.flat, d, w), d.index, c');
    }
  }

  /** The requests after handlePieceData: the block is no longer pending, a completed piece is gone. */
  lemma HandleRequests(env: Env, t: Tracker, d: PieceData, w: WriteResult, v: Verdict)
    requires TrackerOk(env, t) && |d.data| < U32_MOD && IsPending(t.requests, PieceRequest(d.index, d.begin, |d.data|))
    ensures var t' := Handle(env, t, d, w, v); var c' := AfterWrite(t.requests[d.index], d, w);
            && t'.flat == FlatAfter(env, t.flat, d, w)
            && RequestsOk(env, t'.flat, t'.requests)
            && (forall x :: IsPending(t'.requests, x)
                       <==> IsPending(t.requests, x) && x != PieceRequest(d.index, d.begin, |d.data|))
            && t'.requests.Keys == t.requests.Keys - if c'.Done() then {d.index} else {}
  {
    HandleForm(env, t, d, w, v);
    TakenIn(env, t, d, w);
    ForgetIdle(t.requests, d.index, AfterWrite(t.requests[d.index], d, w));
  }

  /** A piece with no pending block can be forgotten: nothing is asked for it. */
  lemma ForgetIdle(rs: Requests, idx: u32, c: Cached)
    ensures c.pending == {} ==> forall x :: IsPending(rs - {idx}, x) <==> IsPending(rs[idx := c], x)
  {
  }

  /** handlePieceData keeps the tracker in order, whatever the write and the verification come to. */
  lemma HandleOk(env: Env, t: Tracker, d: PieceData, w: WriteResult, v: Verdict)
    requires TrackerOk(env, t) && |d.data| < U32_MOD && IsPending(t.requests, PieceRequest(d.index, d.begin, |d.data|))
    requires True(env.info, env.sha1, FlatAfter(env, t.flat, d, w), d.index, v)
    ensures TrackerOk(env, Handle(env, t, d, w, v))
  {
    HandleRequests(env, t, d, w, v);
    PendingBlock(env, t.flat, t.requests, d);
    HandleForm(env, t, d, w, v);
    OtherGoodAfterWrite(env, t.flat, t.requests, d, w);
    var c, flat := AfterWrite(t.requests[d.index], d, w), FlatAfter(env, t.flat, d, w);
    var t' := Settle(t, d.index, c, flat, v);
    forall i: u32 | i < env.info.Count() && i !in t'.requests && i as nat !in t'.unchecked
      ensures i as nat in t'.owned <==> Good(env.info, env.sha1, t'.flat, i)
    {
      SettledBit(env, t, d.index, c, flat, v, i);
    }
  }

  /** The bit of a piece, once piece `idx` is settled. */
  lemma SettledBit(env: Env, t: Tracker, idx: u32, c: Cached, flat: seq<byte>, v: Verdict, i: u32)
    requires TrackerOk(env, t) && |flat| == env.info.Total() && idx < env.info.Count() && i < env.info.Count()
    requires idx in t.requests && True(env.info, env.sha1, flat, idx, v)
    requires i != idx ==> (Good(env.info, env.sha1, flat, i) <==> Good(env.info, env.sha1, t.flat, i))
    requires var t' := Settle(t, idx, c, flat, v); i !in t'.requests && i as nat !in t'.unchecked
    ensures i as nat in Settle(t, idx, c, flat, v).owned <==> Good(env.info, env.sha1, flat, i)
  {
    if i != idx {
      assert i !in t.requests && i as nat !in t.unchecked;
    }
  }

  // ----- a finished piece -----

  lemma PrefixLength(length: nat, n: nat)
    requires 1 <= n <= NumBlocks(length)
    ensures Min((n - 1) * BLOCK_SIZE, length) == (n - 1) * BLOCK_SIZE
    ensures Min(n * BLOCK_SIZE, length) == (n - 1) * BLOCK_SIZE + BlockLength(length, n - 1)
    ensures n == NumBlocks(length) ==> Min(n * BLOCK_SIZE, length) == length
  {
  }

  lemma CutJoin(s: seq<byte>, a: nat, m: nat, l: nat, x: seq<byte>)
    requires a + m + l <= |s| && Cut(s, a + m, l) == x
    ensures Cut(s, a, m) + x == Cut(s, a, m + l)
  {
    CutAppend(s, a, m, l);
  }

  lemma StoredStep(env: Env, flat: seq<byte>, i: u32, c: Cached, k: nat, x: seq<byte>)
    requires k < NumBlocks(c.length) && k in c.accepted && BlockStored(env, flat, i, c, k)
    requires env.info.Start(i) + c.length <= |flat| && x == Cut(flat, env.info.Start(i), k * BLOCK_SIZE)
    ensures x + c.accepted[k] == Cut(flat, env.info.Start(i), k * BLOCK_SIZE + BlockLength(c.length, k))
  {
    BlockInPiece(c.length, k);
    CutJoin(flat, env.info.Start(i), k * BLOCK_SIZE, BlockLength(c.length, k), c.accepted[k]);
  }

  /** The first `n` blocks of a piece, from stored data. */
  lemma {:induction false} StoredPrefix(env: Env, flat: seq<byte>, i: u32, c: Cached, n: nat)
    requires n <= NumBlocks(c.length)
    requires forall k: nat :: k < n ==> k in c.accepted && BlockStored(env, flat, i, c, k)
    requires env.info.Start(i) + c.length <= |flat|
    ensures JoinBlocks(c.accepted, n) == Cut(flat, env.info.Start(i), Min(n * BLOCK_SIZE, c.length))
  {
    if n > 0 {
      StoredPrefix(env, flat, i, c, n - 1);
      PrefixLength(c.length, n);
      StoredStep(env, flat, i, c, n - 1, JoinBlocks(c.accepted, n - 1));
    }
  }

  lemma PieceFromBlocks(env: Env, flat: seq<byte>, i: u32, c: Cached)
    requires env.Ok() && |flat| == env.info.Total() && i < env.info.Count() && c.length == env.info.PieceLen(i) >= 1
    requires c.Done() && forall k :: k in c.accepted ==> BlockStored(env, flat, i, c, k)
    ensures forall k: nat :: k < NumBlocks(c.length) ==> k in c.accepted
    ensures PieceBytes(env.info, flat, i) == JoinBlocks(c.accepted, NumBlocks(c.length))
  {
    var n := NumBlocks(c.length);
    forall k: nat | k < n
      ensures k in c.accepted
    {
      assert k in Below(n);
    }
    PieceInside(env.info, i);
    PieceIsCut(env.info, flat, i);
    PrefixLength(c.length, n);
    StoredPrefix(env, flat, i, c, n);
  }

  /**
   * When the last block of a piece has been taken in, the stored bytes of the piece are the accepted blocks laid end
   * to end, so the verification that follows judges exactly the data the peers sent in this attempt.
   */
  lemma FinishedPiece(env: Env, t: Tracker, d: PieceData, w: WriteResult)
    requires TrackerOk(env, t) && |d.data| < U32_MOD && IsPending(t.requests, PieceRequest(d.index, d.begin, |d.data|))
    requires AfterWrite(t.requests[d.index], d, w).Done()
    ensures var c' := AfterWrite(t.requests[d.index], d, w); var flat' := FlatAfter(env, t.flat, d, w);
            && w == Wrote
            && (forall k: nat :: k < NumBlocks(c'.length) ==> k in c'.accepted)
            && PieceBytes(env.info, flat', d.index) == JoinBlocks(c'.accepted, NumBlocks(c'.length))
  {
    var c' := AfterWrite(t.requests[d.index], d, w);
    var flat' := FlatAfter(env, t.flat, d, w);
    PendingBlock(env, t.flat, t.requests, d);
    AfterWriteOk(env, t.flat, t.requests, d, w);
    PieceFromBlocks(env, flat', d.index, c');
  }
}
