/** What holds in every run of the download protocol. */
module Safety {
  import opened Words
  import opened Common
  import opened MetaInfo
  import opened Bitfields
  import opened Storage
  import opened Blocks
  import opened Protocol
  import opened Correspondence
  import opened Assembly
  import opened Invariants

  // ----- runs -----

  /** No peer, no cached piece; nothing is known yet about the stored bits. */
  function Start<P>(env: Env, flat: seq<byte>, owned: set<nat>, window: int): State<P> {
    State(map[], Tracker(map[], flat, owned, Below(env.info.Count())), window, window)
  }

  ghost predicate Transition<P>(env: Env, states: seq<State<P>>, steps: seq<Step<P>>, i: nat)
    requires i < |steps| == |states| - 1
  {
    && env.Ok() && |states[i].tracker.flat| == env.info.Total() && Enabled(env, states[i], steps[i])
    && states[i + 1] == Next(env, states[i], steps[i])
  }

  /** `states` is what the run of `steps` goes through, every step being possible where it is taken. */
  ghost predicate Run<P>(env: Env, states: seq<State<P>>, steps: seq<Step<P>>) {
    |states| == |steps| + 1 && forall i: nat :: i < |steps| ==> Transition(env, states, steps, i)
  }

  lemma StartOk<P>(env: Env, flat: seq<byte>, owned: set<nat>, window: int)
    requires env.Ok() && |flat| == env.info.Total() && owned <= Below(env.info.Count())
    ensures Inv(env, Start<P>(env, flat, owned, window))
  {
  }

  /** The invariant holds all along any run that starts in order. */
  lemma {:induction false} RunOk<P>(env: Env, states: seq<State<P>>, steps: seq<Step<P>>, n: nat)
    requires Run(env, states, steps) && Inv(env, states[0]) && n < |states|
    ensures Inv(env, states[n])
  {
    if n > 0 {
      RunOk(env, states, steps, n - 1);
      assert Transition(env, states, steps, n - 1);
      NextOk(env, states[n - 1], steps[n - 1]);
    }
  }

  /** One more step is taken. */
  lemma Longer<P>(env: Env, states: seq<State<P>>, steps: seq<Step<P>>, step: Step<P>)
    requires Run(env, states, steps) && env.Ok()
    requires var s := states[|steps|]; |s.tracker.flat| == env.info.Total() && Enabled(env, s, step)
    ensures Run(env, states + [Next(env, states[|steps|], step)], steps + [step])
  {
    var states', steps' := states + [Next(env, states[|steps|], step)], steps + [step];
    forall i: nat | i < |steps'|
      ensures Transition(env, states', steps', i)
    {
      if i < |steps| {
        assert Transition(env, states, steps, i);
      }
    }
  }

  /** The bitfield of a peer that has everything. */
  function Everything(np: nat): Bits {
    Bits(np, np, Below(np))
  }

  // ----- pending bits and request lists -----

  /** Entry `j` of peer `p`'s list. */
  predicate At<P>(s: State<P>, p: P, j: nat, r: PieceRequest) {
    p in s.peers && j < |s.peers[p].downloading| && s.peers[p].downloading[j] == r
  }

  /** A set pending bit has an entry in some peer's list. */
  lemma PendingIsHeld<P>(env: Env, s: State<P>, i: u32, k: nat) returns (p: P, j: nat)
    requires Inv(env, s) && i in s.tracker.requests && k in s.tracker.requests[i].pending
    ensures k < NumBlocks(s.tracker.requests[i].length)
    ensures At(s, p, j, RequestFor(i, s.tracker.requests[i].length, k))
  {
    var ls, rs := ListsOf(s.peers), s.tracker.requests;
    BitIsPending(env, s.tracker.flat, rs, i, k);
    var r := RequestFor(i, rs[i].length, k);
    assert Held(ls, r);
    p :| p in ls && r in ls[p];
    j :| 0 <= j < |ls[p]| && ls[p][j] == r;
  }

  lemma BitIsPending(env: Env, flat: seq<byte>, rs: Requests, i: u32, k: nat)
    requires RequestsOk(env, flat, rs) && i in rs && k in rs[i].pending
    ensures k < NumBlocks(rs[i].length) && IsPending(rs, RequestFor(i, rs[i].length, k))
  {
    assert CachedOk(env, flat, i, rs[i]);
    RequestForBlock(i, rs[i].length, k);
  }

  lemma RequestForBlock(i: u32, length: u32, k: nat)
    requires k < NumBlocks(length)
    ensures RequestFor(i, length, k).begin % BLOCK_SIZE == 0 && RequestFor(i, length, k).begin / BLOCK_SIZE == k
  {
  }

  /** Every entry of a list has its pending bit, in a cached piece. */
  lemma HeldIsPending<P>(env: Env, s: State<P>, p: P, j: nat, r: PieceRequest)
    requires Inv(env, s) && At(s, p, j, r)
    ensures IsPending(s.tracker.requests, r)
  {
    assert r in ListsOf(s.peers)[p];
  }

  /** No request is in two places. */
  lemma HeldOnce<P>(env: Env, s: State<P>, p: P, j: nat, q: P, l: nat, r: PieceRequest)
    requires Inv(env, s) && At(s, p, j, r) && At(s, q, l, r)
    ensures p == q && j == l
  {
    var ls := ListsOf(s.peers);
    assert r in ls[p] && r in ls[q];
    assert ls[p][j] == ls[q][l];
  }

  /**
   * One to one, in every state of every run: a set pending bit has exactly one entry in exactly one peer's list, and
   * every entry has its pending bit in a cached piece.
   */
  lemma OneToOne<P>(env: Env, states: seq<State<P>>, steps: seq<Step<P>>, n: nat)
    requires Run(env, states, steps) && Inv(env, states[0]) && n < |states|
    ensures var s := states[n];
            && (forall i, k :: i in s.tracker.requests && k in s.tracker.requests[i].pending ==>
                  k < NumBlocks(s.tracker.requests[i].length)
                  && exists p, j: nat :: At(s, p, j, RequestFor(i, s.tracker.requests[i].length, k)))
            && (forall p, j: nat, r :: At(s, p, j, r) ==> IsPending(s.tracker.requests, r))
            && (forall p, j: nat, q, l: nat, r :: At(s, p, j, r) && At(s, q, l, r) ==> p == q && j == l)
  {
    var s := states[n];
    RunOk(env, states, steps, n);
    forall i, k | i in s.tracker.requests && k in s.tracker.requests[i].pending
      ensures k < NumBlocks(s.tracker.requests[i].length)
              && exists p, j: nat :: At(s, p, j, RequestFor(i, s.tracker.requests[i].length, k))
    {
      var p, j := PendingIsHeld(env, s, i, k);
    }
    forall p, j: nat, r | At(s, p, j, r)
      ensures IsPending(s.tracker.requests, r)
    {
      HeldIsPending(env, s, p, j, r);
    }
    forall p, j: nat, q, l: nat, r | At(s, p, j, r) && At(s, q, l, r)
      ensures p == q && j == l
    {
      HeldOnce(env, s, p, j, q, l, r);
    }
  }

  /** A piece that is no longer cached has no outstanding request, and a cached one is never left complete. */
  lemma NothingLeftOver<P>(env: Env, s: State<P>, i: u32)
    requires Inv(env, s)
    ensures i !in s.tracker.requests ==> forall p, j: nat, r :: At(s, p, j, r) ==> r.index != i
    ensures i in s.tracker.requests ==> s.tracker.requests[i].pending !! s.tracker.requests[i].accepted.Keys
    ensures i in s.tracker.requests ==> !s.tracker.requests[i].Done()
  {
    forall p, j: nat, r | At(s, p, j, r)
      ensures r.index in s.tracker.requests
    {
      HeldIsPending(env, s, p, j, r);
    }
    assert i in s.tracker.requests ==> CachedOk(env, s.tracker.flat, i, s.tracker.requests[i]);
  }

  // ----- owned pieces -----

  /** A set bit of a piece that is neither cached nor unread means its stored bytes hash to the promised digest. */
  lemma OwnedIsGood<P>(env: Env, s: State<P>, i: u32)
    requires Inv(env, s) && i < env.info.Count() && i !in s.tracker.requests && i as nat !in s.tracker.unchecked
    ensures i as nat in s.tracker.owned <==> Good(env.info, env.sha1, s.tracker.flat, i)
  {
  }

  /** The step reads a piece to verify it, and the read fails. */
  predicate ReadsFail<P>(env: Env, s: State<P>, step: Step<P>)
    requires Concerns(step, s.peers)
  {
    match step
    case GotPiece(p, d, w, v) =>
      v == Unread && Keep(s.peers[p].downloading, MatchedBy(d, true)) != [] && Completes(env, s.tracker, d, w)
    case VerifyAll(vs) => Unread in vs
    case _ => false
  }

  lemma ReceivedUnchecked<P>(env: Env, s: State<P>, p: P, d: PieceData, w: WriteResult, v: Verdict)
    requires Inv(env, s) && p in s.peers && |d.data| < U32_MOD && !ReadsFail(env, s, GotPiece(p, d, w, v))
    ensures Received(env, s, p, d, w, v).tracker.unchecked <= s.tracker.unchecked
  {
    if Keep(s.peers[p].downloading, MatchedBy(d, true)) != [] {
      assert ListsOf(s.peers)[p] == s.peers[p].downloading;
      MatchIsPending(ListsOf(s.peers), s.tracker.requests, p, d);
      HandleForm(env, s.tracker, d, w, v);
    }
  }

  /** Only a failed read makes a piece unchecked. */
  lemma UncheckedGrows<P>(env: Env, s: State<P>, step: Step<P>)
    requires Inv(env, s) && Enabled(env, s, step) && !ReadsFail(env, s, step)
    ensures Next(env, s, step).tracker.unchecked <= s.tracker.unchecked
    ensures step.VerifyAll? ==> Next(env, s, step).tracker.unchecked * Below(env.info.Count()) == {}
  {
    match step
    case VerifyAll(vs) => assert forall i: nat :: i < |vs| ==> vs[i] in vs;
    case GotPiece(p, d, w, v) => ReceivedUnchecked(env, s, p, d, w, v);
    case _ =>
  }

  /** Step `k` of a run is a failed read. */
  predicate ReadFails<P>(env: Env, states: seq<State<P>>, steps: seq<Step<P>>, k: int)
    requires |states| == |steps| + 1
  {
    0 <= k < |steps| && Concerns(steps[k], states[k].peers) && ReadsFail(env, states[k], steps[k])
  }

  lemma {:induction false} NothingUnchecked<P>(env: Env, states: seq<State<P>>, steps: seq<Step<P>>, a: nat, n: nat)
    requires Run(env, states, steps) && Inv(env, states[0]) && a < n < |states| && steps[a].VerifyAll?
    requires forall k :: a <= k < n ==> !ReadFails(env, states, steps, k)
    ensures states[n].tracker.unchecked * Below(env.info.Count()) == {}
  {
    RunOk(env, states, steps, n - 1);
    assert Transition(env, states, steps, n - 1);
    assert !ReadFails(env, states, steps, n - 1);
    UncheckedGrows(env, states[n - 1], steps[n - 1]);
    if n > a + 1 {
      NothingUnchecked(env, states, steps, a, n - 1);
    }
  }

  /**
   * After a verification of the whole torrent, and as long as reads succeed, the bit of every piece that is not being
   * downloaded says exactly whether its stored bytes are good.
   */
  lemma IntegrityOverRuns<P>(env: Env, states: seq<State<P>>, steps: seq<Step<P>>, a: nat, n: nat, i: u32)
    requires Run(env, states, steps) && Inv(env, states[0]) && a < n < |states| && steps[a].VerifyAll?
    requires forall k :: a <= k < n ==> !ReadFails(env, states, steps, k)
    requires i < env.info.Count() && i !in states[n].tracker.requests
    ensures Inv(env, states[n])
    ensures i as nat in states[n].tracker.owned <==> Good(env.info, env.sha1, states[n].tracker.flat, i)
  {
    RunOk(env, states, steps, n);
    NothingUnchecked(env, states, steps, a, n);
    assert i as nat in Below(env.info.Count());
    OwnedIsGood(env, states[n], i);
  }

  /**
   * The other pieces are another matter: a block taken in for a piece we own, without completing it, is written over the
   * stored bytes, and the bit stays set.
   */
  lemma OverwrittenWhileOwned<P>(env: Env, s: State<P>, p: P, d: PieceData, w: WriteResult, v: Verdict)
    requires Inv(env, s) && Enabled(env, s, GotPiece(p, d, w, v)) && d.index as nat in s.tracker.owned
    requires Keep(s.peers[p].downloading, MatchedBy(d, true)) != [] && !Completes(env, s.tracker, d, w)
    ensures var t := Next(env, s, GotPiece(p, d, w, v)).tracker;
            d.index as nat in t.owned && d.index in t.requests && t.flat == FlatAfter(env, s.tracker.flat, d, w)
  {
    assert ListsOf(s.peers)[p] == s.peers[p].downloading;
    MatchIsPending(ListsOf(s.peers), s.tracker.requests, p, d);
    PendingBlock(env, s.tracker.flat, s.tracker.requests, d);
    HandleForm(env, s.tracker, d, w, v);
  }

  /** What is true of the tracker when a piece is announced. */
  ghost predicate Announced(env: Env, t: Tracker, idx: u32) {
    && env.Ok() && idx < env.info.Count() && |t.flat| == env.info.Total()
    && Good(env.info, env.sha1, t.flat, idx) && idx as nat in t.owned && idx !in t.requests
  }

  /**
   * A have broadcast tells the truth: the piece is owned and forgotten by the tracker, its stored bytes are the blocks
   * taken in during this attempt laid end to end, and they hash to the promised digest.
   */
  lemma HaveIsTrue<P>(env: Env, s: State<P>, p: P, d: PieceData, w: WriteResult, v: Verdict)
    requires Inv(env, s) && Enabled(env, s, GotPiece(p, d, w, v))
    requires Keep(s.peers[p].downloading, MatchedBy(d, true)) != [] && Announces(env, s.tracker, d, w, v)
    ensures var t := Next(env, s, GotPiece(p, d, w, v)).tracker;
            && d.index < env.info.Count() && |t.flat| == env.info.Total() && d.index in s.tracker.requests
            && d.index as nat in t.owned && d.index !in t.requests && d.index as nat !in t.unchecked
            && Good(env.info, env.sha1, t.flat, d.index)
            && var c := s.tracker.requests[d.index].Put(d.begin, d.data);
               (forall k: nat :: k < NumBlocks(c.length) ==> k in c.accepted)
               && PieceBytes(env.info, t.flat, d.index) == JoinBlocks(c.accepted, NumBlocks(c.length))
  {
    assert ListsOf(s.peers)[p] == s.peers[p].downloading;
    MatchIsPending(ListsOf(s.peers), s.tracker.requests, p, d);
    HandleForm(env, s.tracker, d, w, v);
    FinishedPiece(env, s.tracker, d, w);
    NextOk(env, s, GotPiece(p, d, w, v));
  }

  /** No accepted data of `c` is changed or lost in `c'`. */
  predicate Keeps(c: Cached, c': Cached) {
    forall k :: k in c.accepted ==> k in c'.accepted && c'.accepted[k] == c.accepted[k]
  }

  /** Data that is new in `c'` is the data of `d`, for a block that was pending in `c`. */
  predicate GainsOnly(c: Cached, c': Cached, d: PieceData) {
    forall k :: k in c'.accepted && k !in c.accepted ==>
      k in c.pending && d.begin == k * BLOCK_SIZE && c'.accepted[k] == d.data
  }

  /**
   * Within one download attempt a block is taken in once: no step changes or removes data already accepted for a piece
   * that stays cached, and new data comes only from the answer to a pending request for that very block.
   */
  lemma AcceptedOnce<P>(env: Env, s: State<P>, step: Step<P>, i: u32)
    requires Inv(env, s) && Enabled(env, s, step)
    requires i in s.tracker.requests && i in Next(env, s, step).tracker.requests
    ensures var c, c' := s.tracker.requests[i], Next(env, s, step).tracker.requests[i];
            && Keeps(c, c')
            && (c'.accepted == c.accepted
                || (step.GotPiece? && step.w == Wrote && step.d.index == i && GainsOnly(c, c', step.d)))
  {
    if step.GotPiece? {
      ReceivedKeeps(env, s, step.p, step.d, step.w, step.v, i);
    } else {
      OtherStepsKeep(env, s, step, i);
    }
  }

  lemma OtherStepsKeep<P>(env: Env, s: State<P>, step: Step<P>, i: u32)
    requires Concerns(step, s.peers) && !step.GotPiece? && i in s.tracker.requests
    ensures i in Next(env, s, step).tracker.requests
    ensures Next(env, s, step).tracker.requests[i].accepted == s.tracker.requests[i].accepted
  {
    var rs := s.tracker.requests;
    match step
    case TickDownload(p, due, pick) => AskKeeps(env, rs, s.peers[p].lastRequest, pick, i);
    case GotChoke(p) => CancelKeeps(env, rs, s.peers[p].downloading, i);
    case DoClose(p) => CancelKeeps(env, rs, s.peers[p].downloading, i);
    case TakeFromQueue(p) => TakenKeeps(env, s, p, i);
    case _ =>
  }

  lemma ReceivedKeeps<P>(env: Env, s: State<P>, p: P, d: PieceData, w: WriteResult, v: Verdict, i: u32)
    requires Inv(env, s) && p in s.peers && |d.data| < U32_MOD
    requires i in s.tracker.requests && i in Received(env, s, p, d, w, v).tracker.requests
    ensures var c, c' := s.tracker.requests[i], Received(env, s, p, d, w, v).tracker.requests[i];
            Keeps(c, c') && (c'.accepted == c.accepted || (w == Wrote && d.index == i && GainsOnly(c, c', d)))
  {
    var t := s.tracker;
    if Keep(s.peers[p].downloading, MatchedBy(d, true)) != [] {
      assert ListsOf(s.peers)[p] == s.peers[p].downloading;
      MatchIsPending(ListsOf(s.peers), t.requests, p, d);
      HandleForm(env, t, d, w, v);
      PendingBlock(env, t.flat, t.requests, d);
      var c' := AfterWrite(t.requests[d.index], d, w);
      assert Received(env, s, p, d, w, v).tracker == Settle(t, d.index, c', FlatAfter(env, t.flat, d, w), v);
      SettledPiece(t, d.index, c', FlatAfter(env, t.flat, d, w), v, i);
      if i == d.index {
        PutKeeps(t.requests[i], d, w);
      }
    }
  }

  lemma SettledPiece(t: Tracker, idx: u32, c: Cached, flat: seq<byte>, v: Verdict, i: u32)
    requires i in t.requests && i in Settle(t, idx, c, flat, v).requests
    ensures Settle(t, idx, c, flat, v).requests[i] == if i == idx then c else t.requests[i]
  {
  }

  lemma PutKeeps(c: Cached, d: PieceData, w: WriteResult)
    requires d.begin % BLOCK_SIZE == 0 && d.begin / BLOCK_SIZE in c.pending && d.begin / BLOCK_SIZE !in c.accepted
    ensures var c' := AfterWrite(c, d, w);
            Keeps(c, c') && (c'.accepted == c.accepted || (w == Wrote && GainsOnly(c, c', d)))
  {
  }

  lemma TakenKeeps<P>(env: Env, s: State<P>, p: P, i: u32)
    requires p in s.peers && i in s.tracker.requests
    ensures i in Taken(env, s, p).tracker.requests
    ensures Taken(env, s, p).tracker.requests[i].accepted == s.tracker.requests[i].accepted
  {
    if Drops(s.peers[p]) {
      CancelKeeps(env, s.tracker.requests, Keep(s.peers[p].downloading, EqualTo(s.peers[p].out.queue[0].r, true)), i);
    }
  }

  lemma {:induction false} CancelKeeps(env: Env, rs: Requests, ds: seq<PieceRequest>, i: u32)
    requires i in rs
    ensures i in CancelAll(env, rs, ds) && CancelAll(env, rs, ds)[i].accepted == rs[i].accepted
  {
    if ds != [] {
      CancelKeeps(env, rs, ds[..|ds| - 1], i);
    }
  }

  lemma AskKeeps(env: Env, rs: Requests, last: Option<PieceRequest>, pick: Option<u32>, i: u32)
    requires i in rs
    ensures var rs' := NextRequest(env, rs, last, pick).0; i in rs' && rs'[i].accepted == rs[i].accepted
  {
  }

  // ----- choking and windows -----

  /**
   * In every state of every run a choking peer has nothing outstanding, and no peer has more than the largest window
   * ever set; so a request dropped at write time because of a choke cancels nothing: only the queue moves.
   */
  lemma ChokedIsIdle<P>(env: Env, states: seq<State<P>>, steps: seq<Step<P>>, n: nat, p: P)
    requires Run(env, states, steps) && Inv(env, states[0]) && n < |states| && p in states[n].peers
    ensures var s := states[n];
            && (s.peers[p].choking ==> s.peers[p].downloading == [])
            && |s.peers[p].downloading| <= Max(0, s.maxWindow)
            && Next(env, s, TakeFromQueue(p)) == WithPeer(s, p, WithoutFirst(s.peers[p]))
  {
    RunOk(env, states, steps, n);
    DropCancelsNothing(env, states[n], p);
  }

  lemma DropCancelsNothing<P>(env: Env, s: State<P>, p: P)
    requires p in s.peers && (s.peers[p].choking ==> s.peers[p].downloading == [])
    ensures Next(env, s, TakeFromQueue(p))
         == WithPeer(s, p, WithoutFirst(s.peers[p]))
  {
    var peer := s.peers[p];
    if Drops(peer) {
      var r := peer.out.queue[0].r;
      assert Keep(peer.downloading, EqualTo(r, true)) == [] && Keep(peer.downloading, EqualTo(r, false)) == [];
    }
    assert WithRequests(s, s.tracker.requests) == s;
  }

  // ----- expiry -----

  /** The pieces of `order` expire one after the other. */
  function ExpiredAll<P>(env: Env, s: State<P>, order: seq<u32>): State<P> {
    if order == [] then s else Next(env, ExpiredAll(env, s, order[..|order| - 1]), Expire(order[|order| - 1]))
  }

  function NoneOf(order: seq<u32>): PieceRequest -> bool {
    (r: PieceRequest) => r.index !in order
  }

  function Cleared(rs: Requests, order: seq<u32>): Requests {
    map i | i in rs :: if i in order then rs[i].(pending := {}) else rs[i]
  }

  lemma KeepAppend(ds: seq<PieceRequest>, r: PieceRequest, test: PieceRequest -> bool)
    ensures Keep(ds + [r], test) == Keep(ds, test) + if test(r) then [r] else []
  {
    assert (ds + [r])[..|ds|] == ds;
  }

  lemma {:induction false} KeepTwice(ds: seq<PieceRequest>, order: seq<u32>, idx: u32)
    ensures Keep(Keep(ds, NoneOf(order)), OfPiece(idx, false)) == Keep(ds, NoneOf(order + [idx]))
  {
    if ds != [] {
      var front, last := ds[..|ds| - 1], ds[|ds| - 1];
      KeepTwice(front, order, idx);
      KeepAppend(Keep(front, NoneOf(order)), last, OfPiece(idx, false));
      assert last.index in order + [idx] <==> last.index in order || last.index == idx;
      assert Keep(front, NoneOf(order)) + [] == Keep(front, NoneOf(order));
    }
  }

  lemma {:induction false} KeepEvery(ds: seq<PieceRequest>, test: PieceRequest -> bool)
    requires forall r :: r in ds ==> test(r)
    ensures Keep(ds, test) == ds
  {
    if ds != [] {
      assert ds == ds[..|ds| - 1] + [ds[|ds| - 1]];
      KeepEvery(ds[..|ds| - 1], test);
    }
  }

  /** One expiry, also of a piece with nothing pending, of which then nothing is asked. */
  lemma ExpiredMeans<P>(env: Env, s: State<P>, idx: u32, p: P)
    requires Inv(env, s) && p in s.peers
    ensures p in Expired(s, idx).peers
    ensures Expired(s, idx).peers[p].downloading == Keep(s.peers[p].downloading, OfPiece(idx, false))
  {
    var rs := s.tracker.requests;
    if idx !in rs || rs[idx].pending == {} {
      forall r | r in s.peers[p].downloading
        ensures r.index != idx
      {
        assert r in ListsOf(s.peers)[p];
        assert IsPending(rs, r);
      }
      KeepEvery(s.peers[p].downloading, OfPiece(idx, false));
    }
  }

  lemma ClearedStep(rs: Requests, order: seq<u32>, idx: u32)
    ensures Cleared(rs, order + [idx]) == if idx in rs then Cleared(rs, order)[idx := rs[idx].(pending := {})] else Cleared(rs, order)
  {
  }

  lemma ExpiredTracker<P>(s: State<P>, rs: Requests, order: seq<u32>, idx: u32)
    requires s.tracker.requests == Cleared(rs, order)
    ensures Expired(s, idx).tracker == s.tracker.(requests := Cleared(rs, order + [idx]))
    ensures Expired(s, idx).peers.Keys == s.peers.Keys
  {
    ClearedStep(rs, order, idx);
    if idx in rs {
      var c := s.tracker.requests[idx];
      assert c.(pending := {}) == rs[idx].(pending := {});
      if c.pending == {} {
        assert s.tracker.requests[idx := c] == s.tracker.requests;
      }
    }
  }

  /**
   * What the expiry of the pieces in `order` comes to: nothing is pending any more of them, every list has lost exactly
   * the requests for them, and everything else of the tracker is as it was.
   */
  ghost predicate Lapsed<P>(env: Env, s: State<P>, s': State<P>, order: seq<u32>) {
    && Inv(env, s') && s'.tracker == s.tracker.(requests := Cleared(s.tracker.requests, order))
    && s'.peers.Keys == s.peers.Keys
    && forall p :: p in s.peers ==> s'.peers[p].downloading == Keep(s.peers[p].downloading, NoneOf(order))
  }

  /** The expiries of a tick come to that, in whatever order the cached pieces are walked. */
  lemma {:induction false} ExpiredAllMeans<P>(env: Env, s: State<P>, order: seq<u32>)
    requires Inv(env, s)
    ensures Lapsed(env, s, ExpiredAll(env, s, order), order)
  {
    if order == [] {
      NothingCleared(s);
      return;
    }
    var front, last := order[..|order| - 1], order[|order| - 1];
    assert order == front + [last];
    ExpiredAllMeans(env, s, front);
    LapsedMore(env, s, ExpiredAll(env, s, front), front, last);
  }

  lemma LapsedMore<P>(env: Env, s: State<P>, s': State<P>, order: seq<u32>, idx: u32)
    requires Lapsed(env, s, s', order)
    ensures Lapsed(env, s, Expired(s', idx), order + [idx])
  {
    ExpiredOk(env, s', idx);
    ExpiredTracker(s', s.tracker.requests, order, idx);
    forall p | p in s.peers
      ensures Expired(s', idx).peers[p].downloading == Keep(s.peers[p].downloading, NoneOf(order + [idx]))
    {
      assert p in s'.peers.Keys;
      OneExpiredMore(env, s', s.peers[p].downloading, order, idx, p);
    }
  }

  lemma OneExpiredMore<P>(env: Env, s: State<P>, ds: seq<PieceRequest>, order: seq<u32>, idx: u32, p: P)
    requires Inv(env, s) && p in s.peers && s.peers[p].downloading == Keep(ds, NoneOf(order))
    ensures p in Expired(s, idx).peers && Expired(s, idx).peers[p].downloading == Keep(ds, NoneOf(order + [idx]))
  {
    ExpiredMeans(env, s, idx, p);
    KeepTwice(ds, order, idx);
  }

  lemma NothingCleared<P>(s: State<P>)
    ensures Cleared(s.tracker.requests, []) == s.tracker.requests
    ensures forall p :: p in s.peers ==> Keep(s.peers[p].downloading, NoneOf([])) == s.peers[p].downloading
  {
    forall p | p in s.peers
      ensures Keep(s.peers[p].downloading, NoneOf([])) == s.peers[p].downloading
    {
      KeepEvery(s.peers[p].downloading, NoneOf([]));
    }
  }
}
