/** Which piece the next request is for, and where that keeps a download from getting on. */
module Progress {
  import opened Words
  import opened Common
  import opened MetaInfo
  import opened Bitfields
  import opened Storage
  import opened Blocks
  import opened Protocol
  import opened Correspondence
  import opened Assembly
  import opened Invariants
  import opened Safety

  /**
   * Progress: when the picker names a piece, a request comes out of it. A named piece has no pending block, and no
   * cached piece is left complete, so a block is free.
   */
  lemma PickGivesRequest<P>(env: Env, s: State<P>, p: P, pick: Option<u32>)
    requires Inv(env, s) && p in s.peers && s.peers[p].bf.Some? && LegalAnswer(env, s, p, pick) && pick.Some?
    ensures NextRequest(env, s.tracker.requests, s.peers[p].lastRequest, pick).1.Some?
  {
    var last := s.peers[p].lastRequest;
    var (rs1, r) := AskLast(env, s.tracker.requests, last);
    if last.Some? {
      AskPieceOk(env, s.tracker.flat, s.tracker.requests, last.value.index);
    }
    if r.None? {
      var k := pick.value;
      VisitOk(env, s.tracker.flat, rs1, k);
      FreeBlockLeft(env, s.tracker.flat, k, Visit(env, rs1, k));
    }
  }

  /** A cached piece with nothing pending has a free block. */
  lemma FreeBlockLeft(env: Env, flat: seq<byte>, idx: u32, c: Cached)
    requires CachedOk(env, flat, idx, c) && c.pending == {}
    ensures FirstFree(c, 0).Some?
  {
    var k :| k in Below(NumBlocks(c.length)) && k !in c.accepted.Keys;
    assert c.Free(k);
  }

  /** A piece that peer `p` has and we do not own, and of which nobody is asked for a block. */
  ghost predicate Untouched<P>(s: State<P>, p: P, i: nat)
    requires p in s.peers
  {
    && i !in s.tracker.owned && HasPiece(s.peers[p], i)
    && forall q, r :: q in s.peers && r in s.peers[q].downloading ==> r.index != i
  }

  /** What the picker may name is exactly that. */
  lemma CandidateIsUntouched<P>(env: Env, s: State<P>, p: P, rs: Requests, i: nat)
    requires Inv(env, s) && p in s.peers && s.peers[p].bf.Some? && RequestsOk(env, s.tracker.flat, rs)
    requires forall x :: IsPending(rs, x) <==> IsPending(s.tracker.requests, x)
    ensures Candidate(s.peers[p].bf.value, Excluded(s.tracker, rs), i) <==> Untouched(s, p, i)
  {
    var ls := ListsOf(s.peers);
    forall q, r | q in s.peers && r in s.peers[q].downloading && r.index == i
      ensures i in PendingPieces(rs)
    {
      assert r in ls[q] && IsPending(rs, r);
    }
    if i in PendingPieces(rs) {
      var k: u32 :| k in rs && rs[k].pending != {} && k as nat == i;
      var b :| b in rs[k].pending;
      BitIsPending(env, s.tracker.flat, rs, k, b);
      var r := RequestFor(k, rs[k].length, b);
      assert Held(ls, r);
    }
  }

  /**
   * When the picker is asked it names a piece that the peer has and we do not own, of which nobody is asked for a block,
   * and no such piece is had by fewer peers; it names none only if there is none.
   */
  lemma PickIsRarest<P>(env: Env, s: State<P>, p: P, pick: Option<u32>)
    requires Inv(env, s) && p in s.peers && s.peers[p].bf.Some? && LegalAnswer(env, s, p, pick)
    requires AskLast(env, s.tracker.requests, s.peers[p].lastRequest).1.None?
    ensures match pick
            case None => forall i :: !Untouched(s, p, i)
            case Some(k) =>
              && Untouched(s, p, k)
              && forall i :: Untouched(s, p, i) ==>
                   |set q | q in s.peers && s.peers[q].bf.Some? && k in s.peers[q].bf.value.members|
                   <= |set q | q in s.peers && s.peers[q].bf.Some? && i in s.peers[q].bf.value.members|
  {
    var last := s.peers[p].lastRequest;
    var rs1 := AskLast(env, s.tracker.requests, last).0;
    if last.Some? {
      AskPieceOk(env, s.tracker.flat, s.tracker.requests, last.value.index);
    }
    forall i: nat
      ensures Candidate(s.peers[p].bf.value, Excluded(s.tracker, rs1), i) <==> Untouched(s, p, i)
      ensures Rarity(s.peers, i) == |set q | q in s.peers && s.peers[q].bf.Some? && i in s.peers[q].bf.value.members|
    {
      CandidateIsUntouched(env, s, p, rs1, i);
      RarityIs(s.peers, i);
    }
  }

  lemma RarityIs<P>(peers: map<P, Peer>, i: nat)
    ensures Rarity(peers, i) == |set q | q in peers && peers[q].bf.Some? && i in peers[q].bf.value.members|
  {
    assert (set q | q in peers && HasPiece(peers[q], i)) == set q | q in peers && peers[q].bf.Some? && i in peers[q].bf.value.members;
  }

  lemma PickIsUntouched<P>(env: Env, s: State<P>, p: P, pick: Option<u32>)
    requires Inv(env, s) && p in s.peers && s.peers[p].bf.Some? && LegalAnswer(env, s, p, pick) && pick.Some?
    requires AskLast(env, s.tracker.requests, s.peers[p].lastRequest).1.None?
    ensures Untouched(s, p, pick.value)
  {
    PickIsRarest(env, s, p, pick);
  }

  /** A forgotten piece always has a free block to ask for again. */
  lemma ForgottenIsAskedAgain(env: Env, rs: Requests, idx: u32)
    requires env.Ok() && idx < env.info.Count() && idx !in rs
    ensures FirstFree(Visit(env, rs, idx), 0) == Some(0)
  {
    FreshOk(env, [], idx);
  }

  /** Peer `p` was asked for a block of piece `idx` last. */
  predicate LastIs<P>(s: State<P>, p: P, idx: u32) {
    p in s.peers && s.peers[p].lastRequest.Some? && s.peers[p].lastRequest.value.index == idx
  }

  /** Some peer is asked for a block of piece `idx`. */
  predicate Outstanding<P>(s: State<P>, idx: u32) {
    exists q, r :: q in s.peers && r in s.peers[q].downloading && r.index == idx
  }

  /**
   * The tracker leaves the piece a peer was asked for last exactly when that piece has no free block, and then a request
   * for it is outstanding somewhere: no cached piece is left complete.
   */
  lemma LeavesLastWhilePending<P>(env: Env, s: State<P>, p: P)
    requires Inv(env, s) && p in s.peers && s.peers[p].lastRequest.Some?
    ensures var idx := s.peers[p].lastRequest.value.index;
            var r := AskLast(env, s.tracker.requests, s.peers[p].lastRequest).1;
            && (r.Some? ==> r.value.index == idx)
            && (r.None? <==> idx in s.tracker.requests && FirstFree(s.tracker.requests[idx], 0).None?)
            && (r.None? ==> Outstanding(s, idx))
  {
    var rs, last := s.tracker.requests, s.peers[p].lastRequest;
    var idx := last.value.index;
    AskPieceOk(env, s.tracker.flat, rs, idx);
    if idx !in rs {
      ForgottenIsAskedAgain(env, rs, idx);
    } else if FirstFree(rs[idx], 0).None? {
      if rs[idx].pending == {} {
        FreeBlockLeft(env, s.tracker.flat, idx, rs[idx]);
      }
      var k :| k in rs[idx].pending;
      var q, j := PendingIsHeld(env, s, idx, k);
      assert s.peers[q].downloading[j] in s.peers[q].downloading;
    }
  }

  /** So with one peer and nothing outstanding the next request is for the piece asked for last, whatever the picker says. */
  lemma LonePeerStays<P>(env: Env, s: State<P>, p: P, pick: Option<u32>)
    requires Inv(env, s) && s.peers.Keys == {p} && s.peers[p].downloading == [] && s.peers[p].lastRequest.Some?
    ensures var r := NextRequest(env, s.tracker.requests, s.peers[p].lastRequest, pick).1;
            r.Some? && r.value.index == s.peers[p].lastRequest.value.index
  {
    LeavesLastWhilePending(env, s, p);
  }

  lemma BegunKeepsLast(peer: Peer, before: Peer)
    ensures Begun(peer, before).lastRequest == peer.lastRequest
  {
  }

  lemma HaveKeepsLast(env: Env, owned: set<nat>, peer: Peer, i: u32)
    ensures HeardHave(env, owned, peer, i).lastRequest == peer.lastRequest
  {
  }

  lemma BroadcastKeepsLast<P>(env: Env, peers: map<P, Peer>, owned: set<nat>, idx: u32, p: P)
    requires p in peers
    ensures Broadcast(env, peers, owned, idx)[p].lastRequest == peers[p].lastRequest
  {
  }

  lemma ReceivedKeepsLast<P>(env: Env, s: State<P>, q: P, d: PieceData, w: WriteResult, v: Verdict, p: P)
    requires q in s.peers && p in s.peers
    ensures p in Received(env, s, q, d, w, v).peers
    ensures Received(env, s, q, d, w, v).peers[p].lastRequest == s.peers[p].lastRequest
  {
    var peers := s.peers[q := Answered(s.peers[q], d)];
    BroadcastKeepsLast(env, peers, Handle(env, s.tracker, d, w, v).owned, d.index, p);
  }

  /** Only a download tick changes what a peer was asked for last. */
  lemma LastStays<P>(env: Env, s: State<P>, step: Step<P>, p: P)
    requires Concerns(step, s.peers) && !step.TickDownload? && p in s.peers && p in Next(env, s, step).peers
    ensures Next(env, s, step).peers[p].lastRequest == s.peers[p].lastRequest
  {
    match step
    case GotBitfield(q, bits) => BegunKeepsLast(WithBits(env, s.tracker.owned, s.peers[q], bits), s.peers[q]);
    case GotHave(q, i) => HaveKeepsLast(env, s.tracker.owned, s.peers[q], i);
    case GotPiece(q, d, w, v) => ReceivedKeepsLast(env, s, q, d, w, v, p);
    case _ =>
  }

  /** The step does not ask peer `p` for another block while one of piece `idx` is outstanding. */
  predicate AsksIdle<P>(env: Env, s: State<P>, step: Step<P>, p: P, idx: u32)
    requires Concerns(step, s.peers)
  {
    step.TickDownload? && step.p == p && Asks(env, s, p) ==> !Outstanding(s, idx)
  }

  /** A tick that finds nothing of the last piece outstanding stays with it. */
  lemma TickStays<P>(env: Env, s: State<P>, q: P, due: bool, pick: Option<u32>, p: P, idx: u32)
    requires Inv(env, s) && q in s.peers && LastIs(s, p, idx) && (q == p && Asks(env, s, p) ==> !Outstanding(s, idx))
    ensures LastIs(Ticked(env, s, q, due, pick), p, idx)
  {
    if q == p && Asks(env, s, p) {
      LeavesLastWhilePending(env, s, p);
    }
  }

  lemma StaysAt<P>(env: Env, states: seq<State<P>>, steps: seq<Step<P>>, i: nat, p: P, idx: u32)
    requires Run(env, states, steps) && Inv(env, states[0]) && i < |steps|
    requires LastIs(states[i], p, idx) && p in states[i + 1].peers
    requires Concerns(steps[i], states[i].peers) && AsksIdle(env, states[i], steps[i], p, idx)
    ensures LastIs(states[i + 1], p, idx)
  {
    RunOk(env, states, steps, i);
    assert Transition(env, states, steps, i);
    if steps[i].TickDownload? {
      TickStays(env, states[i], steps[i].p, steps[i].due, steps[i].pick, p, idx);
    } else {
      LastStays(env, states[i], steps[i], p);
    }
  }

  /**
   * No progress, with any number of peers and any windows: as long as nothing of its last piece is outstanding whenever
   * a connected peer is asked for another block, it is asked for blocks of that one piece, however often it is completed.
   */
  lemma {:induction false} StaysOnPiece<P>(env: Env, states: seq<State<P>>, steps: seq<Step<P>>, a: nat, n: nat,
                                           p: P, idx: u32)
    requires Run(env, states, steps) && Inv(env, states[0]) && a <= n < |states| && LastIs(states[a], p, idx)
    requires forall k :: a <= k <= n ==> p in states[k].peers
    requires forall k :: a <= k < n ==> Concerns(steps[k], states[k].peers) && AsksIdle(env, states[k], steps[k], p, idx)
    ensures LastIs(states[n], p, idx)
  {
    if a < n {
      StaysOnPiece(env, states, steps, a, n - 1, p, idx);
      StaysAt(env, states, steps, n - 1, p, idx);
    }
  }

  lemma LoneIsIdle<P>(env: Env, states: seq<State<P>>, steps: seq<Step<P>>, i: nat, p: P, idx: u32)
    requires Run(env, states, steps) && i < |steps|
    requires states[i].peers.Keys == {p} && states[i].peers[p].window <= 1
    ensures Concerns(steps[i], states[i].peers) && AsksIdle(env, states[i], steps[i], p, idx)
  {
    assert Transition(env, states, steps, i);
    var s := states[i];
    if q, r :| q in s.peers && r in s.peers[q].downloading {
      assert q in s.peers.Keys;
    }
  }

  /** So it is in every run with a single peer while the piece window is at most 1, whatever it was before. */
  lemma LonePeerIsStuck<P>(env: Env, states: seq<State<P>>, steps: seq<Step<P>>, a: nat, n: nat, p: P, idx: u32)
    requires Run(env, states, steps) && Inv(env, states[0]) && a <= n < |states| && LastIs(states[a], p, idx)
    requires forall k :: a <= k <= n ==> states[k].peers.Keys == {p} && states[k].peers[p].window <= 1
    ensures LastIs(states[n], p, idx)
  {
    forall k | a <= k < n
      ensures Concerns(steps[k], states[k].peers) && AsksIdle(env, states[k], steps[k], p, idx)
    {
      LoneIsIdle(env, states, steps, k, p, idx);
    }
    forall k | a <= k <= n
      ensures p in states[k].peers
    {
      assert p in states[k].peers.Keys;
    }
    StaysOnPiece(env, states, steps, a, n, p, idx);
  }

  /** Which piece a request is for. */
  lemma RequestFrom(env: Env, rs: Requests, last: Option<PieceRequest>, pick: Option<u32>)
    ensures AskLast(env, rs, last).1.Some? <==> last.Some? && FirstFree(Visit(env, rs, last.value.index), 0).Some?
    ensures var r := NextRequest(env, rs, last, pick).1;
            if AskLast(env, rs, last).1.Some? then r.Some? && r.value.index == last.value.index
            else r.Some? ==> pick.Some? && r.value.index == pick.value
  {
  }

  /**
   * What a peer is asked for may be owned already: exactly when the piece it was asked for last is owned and still has
   * a free block. A piece that was completed and forgotten always has, since visiting it makes it anew.
   */
  lemma AsksOwnedIffLastOwned<P>(env: Env, s: State<P>, p: P, pick: Option<u32>)
    requires Inv(env, s) && p in s.peers && s.peers[p].bf.Some? && LegalAnswer(env, s, p, pick)
    ensures var last := s.peers[p].lastRequest;
            var r := NextRequest(env, s.tracker.requests, last, pick).1;
            (r.Some? && r.value.index as nat in s.tracker.owned) <==>
              (last.Some? && last.value.index as nat in s.tracker.owned
               && FirstFree(Visit(env, s.tracker.requests, last.value.index), 0).Some?)
  {
    RequestFrom(env, s.tracker.requests, s.peers[p].lastRequest, pick);
    if AskLast(env, s.tracker.requests, s.peers[p].lastRequest).1.None? && pick.Some? {
      PickIsUntouched(env, s, p, pick);
    }
  }

  /**
   * That happens whenever a peer completes the piece it was asked for last: the piece is owned and announced, and the
   * next request to that peer is for its first block, whatever the picker says.
   */
  lemma RequestedAgain<P>(env: Env, s: State<P>, p: P, d: PieceData, w: WriteResult, v: Verdict, pick: Option<u32>)
    requires Inv(env, s) && Enabled(env, s, GotPiece(p, d, w, v))
    requires Keep(s.peers[p].downloading, MatchedBy(d, true)) != [] && Announces(env, s.tracker, d, w, v)
    requires s.peers[p].lastRequest.Some? && s.peers[p].lastRequest.value.index == d.index
    ensures var s' := Next(env, s, GotPiece(p, d, w, v));
            var r := NextRequest(env, s'.tracker.requests, s'.peers[p].lastRequest, pick).1;
            && d.index as nat in s'.tracker.owned
            && r.Some? && r.value.index == d.index && r.value.begin == 0
  {
    var s' := Next(env, s, GotPiece(p, d, w, v));
    HaveIsTrue(env, s, p, d, w, v);
    assert s'.peers[p].lastRequest == s.peers[p].lastRequest;
    ForgottenIsAskedAgain(env, s'.tracker.requests, d.index);
  }

  /** The first block of a piece that is visited anew. */
  lemma FreshBlock(env: Env, idx: u32)
    requires env.Ok() && idx < env.info.Count()
    ensures var c := FreshPiece(env, idx);
            && c.length == env.info.PieceLen(idx) >= 1 && 0 < NumBlocks(c.length)
            && RequestFor(idx, c.length, 0) == PieceRequest(idx, 0, Min(BLOCK_SIZE, c.length))
            && c.(pending := c.pending + {0}) == c.(pending := {0})
  {
    FreshOk(env, [], idx);
  }

  /** The request for the first block of a piece that is visited anew. */
  lemma FirstAsked(env: Env, rs: Requests, last: Option<PieceRequest>, pick: Option<u32>)
    requires env.Ok() && last.Some? && last.value.index < env.info.Count() && last.value.index !in rs
    ensures var idx := last.value.index; var c := FreshPiece(env, idx); var (rs', r) := NextRequest(env, rs, last, pick);
            && c.length == env.info.PieceLen(idx) >= 1
            && rs' == rs[idx := c.(pending := {0})] && r == Some(PieceRequest(idx, 0, Min(BLOCK_SIZE, c.length)))
  {
    FreshBlock(env, last.value.index);
    ForgottenIsAskedAgain(env, rs, last.value.index);
  }

  /** Writing the first bytes of a stretch. */
  lemma SpliceOfCut(s: seq<byte>, off: nat, n: nat, data: seq<byte>)
    requires off + n <= |s| && |data| <= n
    ensures PutAt(s, off, data)[off..off + n] == Splice(s[off..off + n], 0, data)
  {
    var t := PutAt(s, off, data)[off..off + n];
    assert t[..|data|] == data;
    assert t[|data|..] == s[off..off + n][|data|..];
  }

  lemma SpliceOfPiece(info: Info, flat: seq<byte>, idx: nat, data: seq<byte>)
    requires info.WellFormed() && idx < info.Count() && |flat| == info.Total() && |data| <= info.PieceLen(idx)
    ensures |PieceBytes(info, flat, idx)| == info.PieceLen(idx)
    ensures PieceBytes(info, PutAt(flat, info.Start(idx), data), idx) == Splice(PieceBytes(info, flat, idx), 0, data)
  {
    PieceInside(info, idx);
    SpliceOfCut(flat, info.Start(idx), info.PieceLen(idx), data);
  }

  /** Asking for the first block of a piece that is visited anew, as a step. */
  lemma FirstTick<P>(env: Env, s: State<P>, p: P, pick: Option<u32>)
    requires Inv(env, s) && p in s.peers && Asks(env, s, p) && LegalAnswer(env, s, p, pick)
    requires s.peers[p].lastRequest.Some? && s.peers[p].lastRequest.value.index !in s.tracker.requests
    ensures var idx := s.peers[p].lastRequest.value.index; var c := FreshPiece(env, idx);
            var s1 := Ticked(env, s, p, true, pick);
            && Inv(env, s1) && p in s1.peers && idx < env.info.Count() && c.length == env.info.PieceLen(idx) >= 1
            && s1.tracker == s.tracker.(requests := s.tracker.requests[idx := c.(pending := {0})])
            && PieceRequest(idx, 0, Min(BLOCK_SIZE, c.length)) in s1.peers[p].downloading
  {
    FirstAsked(env, s.tracker.requests, s.peers[p].lastRequest, pick);
    TickedOk(env, s, p, true, pick);
  }

  /** A piece of more than one block is not complete with its first block. */
  lemma FirstOfMany(c: Cached, data: seq<byte>)
    requires c.accepted == map[] && c.length > BLOCK_SIZE
    ensures !c.Put(0, data).Done()
  {
    assert 1 in Below(NumBlocks(c.length)) && 1 !in c.Put(0, data).accepted;
  }

  /** Some entry of the list passes the test. */
  lemma KeepsSome(ds: seq<PieceRequest>, test: PieceRequest -> bool, r: PieceRequest)
    requires r in ds && test(r)
    ensures Keep(ds, test) != []
  {
    KeepHas(ds, test, r);
  }

  /** An answer to a listed request reaches the tracker. */
  lemma ListedIsHandled<P>(env: Env, s: State<P>, p: P, d: PieceData, w: WriteResult, v: Verdict)
    requires p in s.peers && |d.data| < U32_MOD
    requires PieceRequest(d.index, d.begin, |d.data|) in s.peers[p].downloading
    ensures Received(env, s, p, d, w, v).tracker == Handle(env, s.tracker, d, w, v)
  {
    KeepsSome(s.peers[p].downloading, MatchedBy(d, true), PieceRequest(d.index, d.begin, |d.data|));
  }

  lemma ListedIsPending<P>(env: Env, s: State<P>, p: P, r: PieceRequest)
    requires Inv(env, s) && p in s.peers && r in s.peers[p].downloading
    ensures IsPending(s.tracker.requests, r)
  {
    assert ListsOf(s.peers)[p] == s.peers[p].downloading;
  }

  /** The answer to a request for the first block of a piece. */
  lemma FirstOverwritten(env: Env, t: Tracker, idx: u32, data: seq<byte>)
    requires TrackerOk(env, t) && |data| == BLOCK_SIZE && IsPending(t.requests, PieceRequest(idx, 0, BLOCK_SIZE))
    requires t.requests[idx].accepted == map[] && t.requests[idx].length > BLOCK_SIZE
    ensures var t' := Handle(env, t, PieceData(idx, 0, data), Wrote, Unread);
            && idx < env.info.Count() && t'.owned == t.owned && idx in t'.requests
            && t'.flat == PutAt(t.flat, env.info.Start(idx), data)
  {
    assert CachedOk(env, t.flat, idx, t.requests[idx]);
    FirstOfMany(t.requests[idx], data);
    HandleForm(env, t, PieceData(idx, 0, data), Wrote, Unread);
  }

  /**
   * What asking again does to a piece of more than one block that is owned and forgotten: the peer is asked for its first
   * block, and whatever it answers then stands in the stored bytes while the bit is set. So the owned piece is good only
   * as long as the bytes with the new ones over them hash to the promised digest.
   */
  lemma OwnedNotGood<P>(env: Env, s: State<P>, p: P, pick: Option<u32>, data: seq<byte>)
    requires Inv(env, s) && p in s.peers && Asks(env, s, p) && LegalAnswer(env, s, p, pick)
    requires s.peers[p].lastRequest.Some? && s.peers[p].lastRequest.value.index !in s.tracker.requests
    requires s.peers[p].lastRequest.value.index as nat in s.tracker.owned
    requires env.info.PieceLen(s.peers[p].lastRequest.value.index) > |data| == BLOCK_SIZE
    ensures var idx := s.peers[p].lastRequest.value.index; var s1 := Ticked(env, s, p, true, pick);
            && Inv(env, s1) && p in s1.peers && PieceRequest(idx, 0, BLOCK_SIZE) in s1.peers[p].downloading
            && var t := Received(env, s1, p, PieceData(idx, 0, data), Wrote, Unread).tracker;
               && idx < env.info.Count() && |t.flat| == env.info.Total() && idx as nat in t.owned && idx in t.requests
               && |PieceBytes(env.info, s.tracker.flat, idx)| >= BLOCK_SIZE
               && (Good(env.info, env.sha1, t.flat, idx)
                   <==> env.sha1(Splice(PieceBytes(env.info, s.tracker.flat, idx), 0, data)) == env.info.Expected(idx))
  {
    var idx := s.peers[p].lastRequest.value.index;
    var s1 := Ticked(env, s, p, true, pick);
    FirstTick(env, s, p, pick);
    ListedIsHandled(env, s1, p, PieceData(idx, 0, data), Wrote, Unread);
    ListedIsPending(env, s1, p, PieceRequest(idx, 0, BLOCK_SIZE));
    FirstOverwritten(env, s1.tracker, idx, data);
    SpliceOfPiece(env.info, s.tracker.flat, idx, data);
  }
}
