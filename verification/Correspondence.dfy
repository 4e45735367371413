/** Pending bits and request lists: the one-to-one correspondence, and what each tracker operation does to it. */
module Correspondence {
  import opened Words
  import opened Common
  import opened MetaInfo
  import opened Bitfields
  import opened Storage
  import opened Blocks
  import opened Protocol

  // ----- request lists -----

  type Lists<!P> = map<P, seq<PieceRequest>>

  function ListsOf<P>(peers: map<P, Peer>): Lists<P> {
    map p | p in peers :: peers[p].downloading
  }

  predicate Distinct(ds: seq<PieceRequest>) {
    forall i, j :: 0 <= i < j < |ds| ==> ds[i] != ds[j]
  }

  lemma {:induction false} KeepHas(ds: seq<PieceRequest>, test: PieceRequest -> bool, r: PieceRequest)
    ensures r in Keep(ds, test) <==> r in ds && test(r)
  {
    if ds != [] {
      var front, last := ds[..|ds| - 1], ds[|ds| - 1];
      KeepHas(front, test, r);
      assert ds == front + [last];
    }
  }

  lemma {:induction false} KeepDistinct(ds: seq<PieceRequest>, test: PieceRequest -> bool)
    requires Distinct(ds)
    ensures Distinct(Keep(ds, test)) && |Keep(ds, test)| <= |ds|
  {
    if ds != [] {
      var front, last := ds[..|ds| - 1], ds[|ds| - 1];
      KeepDistinct(front, test);
      KeepHas(front, test, last);
    }
  }

  lemma DistinctPrefix(ds: seq<PieceRequest>)
    requires Distinct(ds) && ds != []
    ensures Distinct(ds[..|ds| - 1]) && ds[|ds| - 1] !in ds[..|ds| - 1]
    ensures forall r :: r in ds <==> r in ds[..|ds| - 1] || r == ds[|ds| - 1]
  {
    assert ds == ds[..|ds| - 1] + [ds[|ds| - 1]];
  }

  // ----- pending blocks, as requests -----

  /** `r` asks for a block whose pending bit is set. */
  predicate IsPending(rs: Requests, r: PieceRequest) {
    && r.index in rs
    && r.begin % BLOCK_SIZE == 0
    && r.begin / BLOCK_SIZE in rs[r.index].pending
    && r.length == BlockLength(rs[r.index].length, r.begin / BLOCK_SIZE)
  }

  ghost predicate Held<P>(ls: Lists<P>, r: PieceRequest) {
    exists p :: p in ls && r in ls[p]
  }

  /**
   * The pending bits and the entries of all request lists correspond one to one: a request is in some list exactly
   * when its block is pending, no list repeats a request, and no two lists share one.
   */
  ghost predicate Corresponds<P>(ls: Lists<P>, rs: Requests) {
    && (forall p, r :: p in ls && r in ls[p] ==> IsPending(rs, r))
    && (forall r :: IsPending(rs, r) ==> Held(ls, r))
    && (forall p :: p in ls ==> Distinct(ls[p]))
    && (forall p, q, r :: p in ls && q in ls && p != q && r in ls[p] ==> r !in ls[q])
  }

  /** One peer asks for a block that was not pending. */
  lemma CorrespondsAfterAdd<P>(ls: Lists<P>, rs: Requests, p: P, r: PieceRequest, rs': Requests)
    requires Corresponds(ls, rs) && p in ls && !IsPending(rs, r)
    requires forall x :: IsPending(rs', x) <==> IsPending(rs, x) || x == r
    ensures Corresponds(ls[p := ls[p] + [r]], rs')
  {
    var ls' := ls[p := ls[p] + [r]];
    forall x | IsPending(rs', x)
      ensures Held(ls', x)
    {
      if x == r {
        assert x in ls'[p];
      } else {
        var q :| q in ls && x in ls[q];
        assert x in ls'[q];
      }
    }
  }

  /** Some requests of one peer disappear together with their pending bits. */
  lemma CorrespondsAfterDrop<P>(ls: Lists<P>, rs: Requests, p: P, kept: seq<PieceRequest>, rs': Requests)
    requires Corresponds(ls, rs) && p in ls && Distinct(kept)
    requires forall r :: r in kept ==> r in ls[p]
    requires forall x :: IsPending(rs', x) <==> IsPending(rs, x) && (x in ls[p] ==> x in kept)
    ensures Corresponds(ls[p := kept], rs')
  {
    var ls' := ls[p := kept];
    forall x | IsPending(rs', x)
      ensures Held(ls', x)
    {
      var q :| q in ls && x in ls[q];
      assert x in ls'[q];
    }
  }

  /** A peer with no requests may come and go. */
  lemma CorrespondsWithout<P>(ls: Lists<P>, rs: Requests, p: P)
    requires Corresponds(ls, rs) && p in ls && ls[p] == []
    ensures Corresponds(ls - {p}, rs)
  {
    var ls' := ls - {p};
    forall x | IsPending(rs, x)
      ensures Held(ls', x)
    {
      var q :| q in ls && x in ls[q];
      assert q in ls' && x in ls'[q];
    }
  }

  lemma CorrespondsWithNew<P>(ls: Lists<P>, rs: Requests, p: P)
    requires Corresponds(ls, rs) && p !in ls
    ensures Corresponds(ls[p := []], rs)
  {
    var ls' := ls[p := []];
    forall x | IsPending(rs, x)
      ensures Held(ls', x)
    {
      var q :| q in ls && x in ls[q];
      assert q in ls' && x in ls'[q];
    }
  }

  function AllWithout<P>(ls: Lists<P>, idx: u32): Lists<P> {
    map q | q in ls :: Keep(ls[q], OfPiece(idx, false))
  }

  /** All requests for one piece disappear together with its pending bits. */
  lemma CorrespondsAfterExpiry<P>(ls: Lists<P>, rs: Requests, idx: u32, rs': Requests)
    requires Corresponds(ls, rs)
    requires forall x :: IsPending(rs', x) <==> IsPending(rs, x) && x.index != idx
    ensures Corresponds(AllWithout(ls, idx), rs')
  {
    var test := OfPiece(idx, false);
    var ls' := AllWithout(ls, idx);
    forall q | q in ls
      ensures Distinct(ls'[q]) && forall r :: r in ls'[q] <==> r in ls[q] && r.index != idx
    {
      KeepDistinct(ls[q], test);
      forall r ensures r in ls'[q] <==> r in ls[q] && r.index != idx {
        KeepHas(ls[q], test, r);
      }
    }
    forall x | IsPending(rs', x)
      ensures Held(ls', x)
    {
      var q :| q in ls && x in ls[q];
      assert x in ls'[q];
    }
  }

  // ----- cached pieces -----

  predicate CachedOk(env: Env, flat: seq<byte>, idx: u32, c: Cached)
  {
    && idx < env.info.Count() && c.length == env.info.PieceLen(idx) >= 1
    && (forall k :: k in c.pending ==> k < NumBlocks(c.length) && k !in c.accepted)
    && (forall k :: k in c.accepted ==> BlockStored(env, flat, idx, c, k))
    && !c.Done()
  }

  /** The data taken in for block `k` is what the torrent's bytes hold at its place. */
  predicate BlockStored(env: Env, flat: seq<byte>, idx: u32, c: Cached, k: nat)
    requires k in c.accepted
  {
    && k < NumBlocks(c.length) && |c.accepted[k]| == BlockLength(c.length, k)
    && Cut(flat, env.info.Start(idx) + k * BLOCK_SIZE, BlockLength(c.length, k)) == c.accepted[k]
  }

  predicate RequestsOk(env: Env, flat: seq<byte>, rs: Requests) {
    forall i :: i in rs ==> CachedOk(env, flat, i, rs[i])
  }

  lemma ReplaceOk(env: Env, flat: seq<byte>, rs: Requests, idx: u32, c: Cached)
    requires RequestsOk(env, flat, rs) && CachedOk(env, flat, idx, c)
    ensures RequestsOk(env, flat, rs[idx := c])
  {
  }

  lemma FreshOk(env: Env, flat: seq<byte>, idx: u32)
    requires env.Ok() && idx < env.info.Count()
    ensures CachedOk(env, flat, idx, FreshPiece(env, idx))
  {
    WellFormedFacts(env.info);
    LengthOfPieceIsExact(env.info, idx);
    PieceInside(env.info, idx);
    assert 0 in Below(NumBlocks(env.info.PieceLen(idx)));
  }

  /** Re-creating a piece changes no pending bit. */
  lemma VisitOk(env: Env, flat: seq<byte>, rs: Requests, idx: u32)
    requires env.Ok() && RequestsOk(env, flat, rs) && idx < env.info.Count()
    ensures CachedOk(env, flat, idx, Visit(env, rs, idx))
    ensures RequestsOk(env, flat, rs[idx := Visit(env, rs, idx)])
    ensures forall x :: IsPending(rs[idx := Visit(env, rs, idx)], x) <==> IsPending(rs, x)
  {
    FreshOk(env, flat, idx);
  }

  /** One bit of one cached piece becomes pending. */
  lemma PendingAfterAsk(rs: Requests, idx: u32, k: nat)
    requires idx in rs && k < NumBlocks(rs[idx].length)
    ensures var c := rs[idx];
            forall x :: IsPending(rs[idx := c.(pending := c.pending + {k})], x)
                   <==> IsPending(rs, x) || x == RequestFor(idx, c.length, k)
  {
    var c := rs[idx];
    var rs' := rs[idx := c.(pending := c.pending + {k})];
    var r := RequestFor(idx, c.length, k);
    forall x
      ensures IsPending(rs', x) <==> IsPending(rs, x) || x == r
    {
      if IsPending(rs', x) && !IsPending(rs, x) {
        assert x.begin / BLOCK_SIZE == k;
      }
    }
  }

  /** One bit of one cached piece is cleared, whatever else happens to that piece. */
  lemma PendingAfterClear(rs: Requests, r: PieceRequest, c': Cached)
    requires IsPending(rs, r)
    requires c'.length == rs[r.index].length && c'.pending == rs[r.index].pending - {r.begin / BLOCK_SIZE}
    ensures forall x :: IsPending(rs[r.index := c'], x) <==> IsPending(rs, x) && x != r
  {
    var rs' := rs[r.index := c'];
    forall x
      ensures IsPending(rs', x) <==> IsPending(rs, x) && x != r
    {
      if IsPending(rs, x) && x.index == r.index && x.begin / BLOCK_SIZE == r.begin / BLOCK_SIZE {
        assert x.begin == r.begin;
      }
    }
  }

  lemma AskedOk(env: Env, flat: seq<byte>, idx: u32, c: Cached, k: nat)
    requires CachedOk(env, flat, idx, c) && c.Free(k)
    ensures CachedOk(env, flat, idx, c.(pending := c.pending + {k}))
  {
    assert forall j :: j in c.accepted ==> BlockStored(env, flat, idx, c, j) ==>
             BlockStored(env, flat, idx, c.(pending := c.pending + {k}), j);
  }

  lemma NewRequest(rs: Requests, idx: u32, k: nat)
    requires idx in rs && rs[idx].Free(k)
    ensures var r := RequestFor(idx, rs[idx].length, k);
            r.index == idx && r.length > 0 && !IsPending(rs, r)
  {
  }

  lemma AskFreeOk(env: Env, flat: seq<byte>, rs: Requests, idx: u32, k: nat, rs': Requests, r: PieceRequest)
    requires RequestsOk(env, flat, rs) && idx in rs && rs[idx].Free(k)
    requires rs' == rs[idx := rs[idx].(pending := rs[idx].pending + {k})] && r == RequestFor(idx, rs[idx].length, k)
    ensures RequestsOk(env, flat, rs')
    ensures r.index == idx && r.length > 0 && !IsPending(rs, r)
    ensures forall x :: IsPending(rs', x) <==> IsPending(rs, x) || x == r
  {
    var c' := rs[idx].(pending := rs[idx].pending + {k});
    AskedOk(env, flat, idx, rs[idx], k);
    ReplaceOk(env, flat, rs, idx, c');
    NewRequest(rs, idx, k);
    PendingAfterAsk(rs, idx, k);
  }

  lemma UpdateTwice(rs: Requests, idx: u32, c: Cached, c': Cached)
    ensures rs[idx := c][idx := c'] == rs[idx := c']
  {
  }

  function Asked(rs: Requests, idx: u32, k: nat): (Requests, Option<PieceRequest>)
    requires idx in rs && k < NumBlocks(rs[idx].length)
  {
    (rs[idx := rs[idx].(pending := rs[idx].pending + {k})], Some(RequestFor(idx, rs[idx].length, k)))
  }

  /** The two outcomes of AskPiece. */
  lemma AskPieceForm(env: Env, rs: Requests, idx: u32)
    ensures var rs1 := rs[idx := Visit(env, rs, idx)]; var f := FirstFree(rs1[idx], 0);
            AskPiece(env, rs, idx) == if f.None? then (rs1, None) else Asked(rs1, idx, f.value)
  {
    var c := Visit(env, rs, idx);
    if FirstFree(c, 0).Some? {
      UpdateTwice(rs, idx, c, c.(pending := c.pending + {FirstFree(c, 0).value}));
    }
  }

  /** AskPiece: if a block is free, its bit and the request appear together; nothing else changes. */
  lemma AskPieceOk(env: Env, flat: seq<byte>, rs: Requests, idx: u32)
    requires env.Ok() && RequestsOk(env, flat, rs) && idx < env.info.Count()
    ensures var (rs', r) := AskPiece(env, rs, idx);
            && RequestsOk(env, flat, rs')
            && (r.Some? ==> r.value.index == idx && r.value.length > 0 && !IsPending(rs, r.value))
            && forall x :: IsPending(rs', x) <==> IsPending(rs, x) || r == Some(x)
  {
    var c := Visit(env, rs, idx);
    var rs1 := rs[idx := c];
    var (rs', r) := AskPiece(env, rs, idx);
    VisitOk(env, flat, rs, idx);
    AskPieceForm(env, rs, idx);
    if r.Some? {
      AskFreeOk(env, flat, rs1, idx, FirstFree(c, 0).value, rs', r.value);
    }
  }

  lemma CancelledOk(env: Env, flat: seq<byte>, idx: u32, c: Cached, begin: u32)
    requires CachedOk(env, flat, idx, c)
    ensures CachedOk(env, flat, idx, c.Cancel(begin))
  {
    assert forall j :: j in c.accepted ==> BlockStored(env, flat, idx, c, j) ==>
             BlockStored(env, flat, idx, c.Cancel(begin), j);
  }

  lemma PendingLength(env: Env, flat: seq<byte>, rs: Requests, r: PieceRequest)
    requires RequestsOk(env, flat, rs) && IsPending(rs, r)
    ensures r.length > 0
  {
    assert r.begin / BLOCK_SIZE < NumBlocks(rs[r.index].length);
  }

  /** A request without a length is not given back, and one that is caches its piece. */
  lemma GivesBackIfAny(env: Env, rs: Requests, r: PieceRequest)
    ensures r.length == 0 ==> CancelOne(env, rs, r) == rs
    ensures r.length > 0 ==> CancelOne(env, rs, r).Keys == rs.Keys + {r.index}
  {
  }

  lemma CancelOneForm(env: Env, rs: Requests, r: PieceRequest)
    requires r.index in rs && r.length > 0
    ensures CancelOne(env, rs, r) == rs[r.index := rs[r.index].Cancel(r.begin)]
  {
  }

  lemma CancelOneOk(env: Env, flat: seq<byte>, rs: Requests, r: PieceRequest)
    requires RequestsOk(env, flat, rs) && IsPending(rs, r)
    ensures RequestsOk(env, flat, CancelOne(env, rs, r))
    ensures forall x :: IsPending(CancelOne(env, rs, r), x) <==> IsPending(rs, x) && x != r
  {
    PendingLength(env, flat, rs, r);
    CancelOneForm(env, rs, r);
    PendingAfterClear(rs, r, rs[r.index].Cancel(r.begin));
    CancelledOk(env, flat, r.index, rs[r.index], r.begin);
    ReplaceOk(env, flat, rs, r.index, rs[r.index].Cancel(r.begin));
  }

  lemma {:induction false} CancelAllOk(env: Env, flat: seq<byte>, rs: Requests, ds: seq<PieceRequest>)
    requires RequestsOk(env, flat, rs) && Distinct(ds)
    requires forall r :: r in ds ==> IsPending(rs, r)
    ensures RequestsOk(env, flat, CancelAll(env, rs, ds))
    ensures forall x :: IsPending(CancelAll(env, rs, ds), x) <==> IsPending(rs, x) && x !in ds
  {
    if ds != [] {
      var front, last := ds[..|ds| - 1], ds[|ds| - 1];
      DistinctPrefix(ds);
      CancelAllOk(env, flat, rs, front);
      CancelOneOk(env, flat, CancelAll(env, rs, front), last);
    }
  }

  lemma ExpireOk(env: Env, flat: seq<byte>, rs: Requests, idx: u32)
    requires RequestsOk(env, flat, rs) && idx in rs
    ensures RequestsOk(env, flat, rs[idx := rs[idx].(pending := {})])
    ensures forall x :: IsPending(rs[idx := rs[idx].(pending := {})], x) <==> IsPending(rs, x) && x.index != idx
  {
  }
}
