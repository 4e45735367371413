/** lib/bittorrent/swarm/piece.go, one piece: its blocks, and what is asked for and taken in for each. */
module Blocks {
  import opened Words
  import opened Common
  import opened MetaInfo
  import opened Bitfields

  // ----- accept -----

  function FinalIndex(length: u32): u32 {
    (length - 1) % U32_MOD / BLOCK_SIZE
  }

  function FinalLength(length: u32): u32 {
    if length % BLOCK_SIZE == 0 then BLOCK_SIZE else length % BLOCK_SIZE
  }

  /** accept, with the 32-bit sum of the source. */
  predicate Accept(length: u32, offset: u32, n: u32) {
    && offset % BLOCK_SIZE == 0
    && (offset + n) % U32_MOD <= length
    && n == if offset / BLOCK_SIZE == FinalIndex(length) then FinalLength(length) else BLOCK_SIZE
  }

  predicate IsBlock(length: u32, offset: u32, n: u32) {
    offset % BLOCK_SIZE == 0 && offset < length && n == BlockLength(length, offset / BLOCK_SIZE)
  }

  /** The offset whose block ends exactly where 32-bit offsets wrap. */
  const WRAPPING: u32 := U32_MOD - BLOCK_SIZE

  /**
   * accept takes exactly the blocks of the piece, and one more: the full block that ends at 2^32, whose end wraps
   * to 0. Only pieces longer than 2^32 - 16384 are spared that one.
   */
  lemma AcceptIsBlock(length: u32, offset: u32, n: u32)
    requires length >= 1
    ensures Accept(length, offset, n)
       <==> IsBlock(length, offset, n) || (length <= WRAPPING && offset == WRAPPING && n == BLOCK_SIZE)
  {
    var f: nat := FinalIndex(length);
    FinalIsLast(length);
    if offset % BLOCK_SIZE == 0 {
      var k: nat := offset / BLOCK_SIZE;
      assert offset == k * BLOCK_SIZE;
      if k < f {
      } else if k == f {
      } else {
        assert length <= offset;
      }
    }
  }

  lemma FinalIsLast(length: u32)
    requires length >= 1
    ensures var f: nat := FinalIndex(length);
            && f * BLOCK_SIZE < length <= (f + 1) * BLOCK_SIZE && FinalLength(length) == length - f * BLOCK_SIZE
            && NumBlocks(length) == f + 1
  {
  }

  /** A block far past the end of a one-block piece is accepted. */
  lemma AcceptWraps()
    ensures Accept(16384, 0xFFFF_C000, 16384) && !IsBlock(16384, 0xFFFF_C000, 16384)
  {
  }

  // ----- a piece being downloaded -----

  /** What is known of a cached piece: `accepted` keeps the data of the obtained blocks. */
  datatype Cached = Cached(length: u32, pending: set<nat>, accepted: map<nat, seq<byte>>) {

    predicate Free(k: nat) {
      k < NumBlocks(length) && k !in pending && k !in accepted
    }

    /** done: the obtained bits are all set. */
    predicate Done() {
      Below(NumBlocks(length)) <= accepted.Keys
    }

    /** put: past the last block there is no bit to set. */
    function Put(begin: u32, data: seq<byte>): Cached {
      var k := begin / BLOCK_SIZE;
      this.(pending := pending - {k}, accepted := if k < NumBlocks(length) then accepted[k := data] else accepted)
    }

    function Cancel(begin: u32): Cached {
      this.(pending := pending - {begin / BLOCK_SIZE})
    }
  }

  /** The request for block `k`. */
  function RequestFor(index: u32, length: u32, k: nat): PieceRequest
    requires k < NumBlocks(length)
  {
    PieceRequest(index, k * BLOCK_SIZE, BlockLength(length, k))
  }

  /** The search of nextRequest, from block `k` on. */
  function FirstFree(c: Cached, k: nat): (r: Option<nat>)
    ensures r.Some? ==> k <= r.value && c.Free(r.value) && forall j :: k <= j < r.value ==> !c.Free(j)
    ensures r.None? ==> forall j :: k <= j ==> !c.Free(j)
    decreases NumBlocks(c.length) - k
  {
    if k >= NumBlocks(c.length) then None
    else if k in c.pending || k in c.accepted then FirstFree(c, k + 1)
    else Some(k)
  }

  // ----- when the search ends -----

  /** The offset the search of nextRequest is at after `n` blocks, in 32 bits. */
  function SearchOffset(n: nat): u32 {
    n * BLOCK_SIZE % U32_MOD
  }

  /** There the search stops: past the end, or at a block that can be asked for. */
  predicate StopsAt(c: Cached, begin: u32) {
    begin >= c.length || c.Free(begin / BLOCK_SIZE)
  }

  predicate SearchEnds(c: Cached) {
    c.length <= WRAPPING || FirstFree(c, 0).Some?
  }

  lemma OffsetStaysBelow(n: nat)
    ensures SearchOffset(n) % BLOCK_SIZE == 0 && SearchOffset(n) <= WRAPPING
    ensures n * BLOCK_SIZE < U32_MOD ==> SearchOffset(n) == n * BLOCK_SIZE && SearchOffset(n) / BLOCK_SIZE == n
  {
    var q := n * BLOCK_SIZE / U32_MOD;
    var k := n - q * (U32_MOD / BLOCK_SIZE);
    DivMod(n * BLOCK_SIZE, U32_MOD);
    assert SearchOffset(n) == k * BLOCK_SIZE;
    DivModUnique(SearchOffset(n), BLOCK_SIZE, k, 0);
  }

  lemma StopsMeans(c: Cached, n: nat)
    requires StopsAt(c, SearchOffset(n))
    ensures SearchEnds(c)
  {
    OffsetStaysBelow(n);
  }

  lemma StopsAtFree(c: Cached, k: nat)
    requires c.Free(k)
    ensures StopsAt(c, SearchOffset(k))
  {
    assert k * BLOCK_SIZE < c.length;
    OffsetStaysBelow(k);
  }

  lemma StopsPastEnd(c: Cached)
    requires c.length <= WRAPPING
    ensures StopsAt(c, SearchOffset(NumBlocks(c.length)))
  {
    assert c.length <= NumBlocks(c.length) * BLOCK_SIZE < U32_MOD;
    OffsetStaysBelow(NumBlocks(c.length));
  }

  /**
   * The search comes to an end if and only if the piece leaves room for the offset past its last block, or has a free
   * block: otherwise the offset wraps to 0 and the search goes round for ever.
   */
  lemma SearchEndsExactly(c: Cached)
    ensures (exists n: nat :: StopsAt(c, SearchOffset(n))) <==> SearchEnds(c)
  {
    if n: nat :| StopsAt(c, SearchOffset(n)) {
      StopsMeans(c, n);
    }
    if FirstFree(c, 0).Some? {
      StopsAtFree(c, FirstFree(c, 0).value);
    } else if c.length <= WRAPPING {
      StopsPastEnd(c);
    }
  }

  /** nextRequest: the lowest free block becomes pending and is asked for. */
  function NextBlock(index: u32, c: Cached): (Cached, Option<PieceRequest>) {
    match FirstFree(c, 0)
    case None => (c, None)
    case Some(k) => (c.(pending := c.pending + {k}), Some(RequestFor(index, c.length, k)))
  }

  lemma RequestIsBlock(index: u32, length: u32, k: nat)
    requires k < NumBlocks(length)
    ensures var r := RequestFor(index, length, k); IsBlock(length, r.begin, r.length)
  {
  }

  /** Below the wrap, accept takes exactly the blocks nextRequest can ask for. */
  lemma AcceptIsRequestable(index: u32, length: u32, offset: u32, n: u32)
    requires length >= 1 && offset + n < U32_MOD
    ensures Accept(length, offset, n)
       <==> exists k: nat {:trigger RequestFor(index, length, k)} :: k < NumBlocks(length)
              && RequestFor(index, length, k) == PieceRequest(index, offset, n)
  {
    AcceptIsBlock(length, offset, n);
    if IsBlock(length, offset, n) {
      var k: nat := offset / BLOCK_SIZE;
      assert RequestFor(index, length, k) == PieceRequest(index, offset, n);
    }
    if k: nat {:trigger RequestFor(index, length, k)} :| k < NumBlocks(length)
                                                        && RequestFor(index, length, k) == PieceRequest(index, offset, n) {
      RequestIsBlock(index, length, k);
    }
  }

  /** The final-chunk rule of the source gives the same length as the block arithmetic. */
  lemma FinalBlock(length: u32, k: nat)
    requires length >= 1 && k < NumBlocks(length)
    ensures k <= FinalIndex(length)
    ensures BlockLength(length, k) == if k == FinalIndex(length) then FinalLength(length) else BLOCK_SIZE
  {
  }

  // ----- blocks laid end to end -----

  function JoinBlocks(accepted: map<nat, seq<byte>>, n: nat): seq<byte>
    requires forall k: nat :: k < n ==> k in accepted
  {
    if n == 0 then [] else JoinBlocks(accepted, n - 1) + accepted[n - 1]
  }
}
