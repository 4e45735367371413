/** A run in which a download gets one piece again and again, and never asks for another. */
module Starvation {
  import opened Words
  import opened Common
  import opened MetaInfo
  import opened Bitfields
  import opened Storage
  import opened Blocks
  import opened Protocol
  import opened Correspondence
  import opened Assembly
  import opened Invariants
  import opened Safety
  import opened Interest
  import opened Progress

  // ----- the run -----

  /** The bytes of block `b` of piece `i`, as the torrent has them. */
  function TrueBlock(info: Info, content: seq<byte>, i: u32, b: nat): PieceData
    requires b < NumBlocks(info.LengthOfPiece(i))
  {
    PieceData(i, b * BLOCK_SIZE, Cut(content, info.Start(i) + b * BLOCK_SIZE, BlockLength(info.LengthOfPiece(i), b)))
  }

  /** The peer connects, is taken for one that has everything, and unchokes us; what we send leaves the queue at once. */
  function Opening<P>(np: nat, p: P): seq<Step<P>> {
    [Connect(p, false), TakeFromQueue(p)] + [GotBitfield(p, Everything(np)), TakeFromQueue(p)] + [TakeFromQueue(p), GotUnchoke(p)]
  }

  /** The verdict after block `b` of piece `i`: only after the last one the piece is read. */
  function VerdictAt(info: Info, i: u32, b: nat): Verdict {
    if b + 1 == NumBlocks(info.LengthOfPiece(i)) then Verified else Unread
  }

  function AskSteps<P>(p: P, i: u32): seq<Step<P>> {
    [TickDownload(p, true, Some(i)), TakeFromQueue(p)]
  }

  function AnswerSteps<P>(info: Info, content: seq<byte>, p: P, i: u32, b: nat): seq<Step<P>>
    requires b < NumBlocks(info.LengthOfPiece(i))
  {
    [GotPiece(p, TrueBlock(info, content, i, b), Wrote, VerdictAt(info, i, b)), TakeFromQueue(p)]
  }

  /** `m` rounds, through the blocks of piece `i` and round again: each is asked for, and answered before the next. */
  function Rounds<P>(info: Info, content: seq<byte>, p: P, i: u32, m: nat): seq<Step<P>>
    requires 0 < NumBlocks(info.LengthOfPiece(i))
  {
    if m == 0 then Opening(info.Count(), p)
    else
      var b := (m - 1) % NumBlocks(info.LengthOfPiece(i));
      Rounds(info, content, p, i, m - 1) + AskSteps(p, i) + AnswerSteps(info, content, p, i, b)
  }

  // ----- what holds in it -----

  /** Nobody is asked for anything but blocks of piece `i`, and no other piece has become owned. */
  predicate OnlyAbout<P>(s: State<P>, i: u32, owned: set<nat>) {
    && (forall q, r :: q in s.peers && r in s.peers[q].downloading ==> r.index == i)
    && owned <= s.tracker.owned <= owned + {i}
  }

  /** Nothing of piece `i` is outstanding if `p` is asked for another block at step `k`. */
  ghost predicate IdleAt<P>(env: Env, states: seq<State<P>>, steps: seq<Step<P>>, k: nat, p: P, i: u32)
    requires k < |steps| <= |states|
  {
    Concerns(steps[k], states[k].peers) && AsksIdle(env, states[k], steps[k], p, i)
  }

  /** A run in which all is about piece `i`, and nothing of it is outstanding whenever `p` is asked for another block. */
  ghost predicate Starving<P>(env: Env, states: seq<State<P>>, steps: seq<Step<P>>, p: P, i: u32, owned: set<nat>) {
    && Run(env, states, steps)
    && (forall k :: 0 <= k < |states| ==> OnlyAbout(states[k], i, owned))
    && (forall k: nat :: k < |steps| ==> IdleAt(env, states, steps, k, p, i))
  }

  /** The state a run ends in. */
  function Last<P>(states: seq<State<P>>): State<P>
    requires states != []
  {
    states[|states| - 1]
  }

  lemma IdleMore<P>(env: Env, states: seq<State<P>>, steps: seq<Step<P>>, step: Step<P>, s': State<P>, p: P, i: u32)
    requires |states| == |steps| + 1 && forall k: nat :: k < |steps| ==> IdleAt(env, states, steps, k, p, i)
    requires Concerns(step, Last(states).peers) && (step.TickDownload? ==> !Outstanding(Last(states), i))
    ensures forall k: nat :: k < |steps + [step]| ==> IdleAt(env, states + [s'], steps + [step], k, p, i)
  {
    forall k: nat | k < |steps + [step]|
      ensures IdleAt(env, states + [s'], steps + [step], k, p, i)
    {
      if k < |steps| {
        assert IdleAt(env, states, steps, k, p, i);
      }
    }
  }

  /** One more step. */
  lemma Further<P>(env: Env, states: seq<State<P>>, steps: seq<Step<P>>, step: Step<P>, s': State<P>, p: P, i: u32, owned: set<nat>)
    requires Starving(env, states, steps, p, i, owned) && Inv(env, Last(states)) && Enabled(env, Last(states), step)
    requires s' == Next(env, Last(states), step) && OnlyAbout(s', i, owned)
    requires step.TickDownload? ==> !Outstanding(Last(states), i)
    ensures Starving(env, states + [s'], steps + [step], p, i, owned) && Inv(env, s')
  {
    NextOk(env, Last(states), step);
    Longer(env, states, steps, step);
    IdleMore(env, states, steps, step, s', p, i);
  }

  // ----- between rounds -----

  /** A connection on which we may ask, with messages `queue` waiting. */
  predicate Steady(peer: Peer, np: nat, queue: seq<Msg>) {
    && peer.running && peer.interested && peer.told && !peer.closing && !peer.choking && peer.window >= 1
    && peer.bf == Some(Everything(np)) && peer.out.queue == queue
  }

  /** The only peer is `p`, and the first `b` blocks of piece `i` have been taken in, as the torrent has them. */
  ghost predicate Only<P>(env: Env, s: State<P>, content: seq<byte>, p: P, i: u32, b: nat, queue: seq<Msg>) {
    && s.peers.Keys == {p} && Steady(s.peers[p], env.info.Count(), queue)
    && i < env.info.Count() && BlocksIn(env, content, i, Visit(env, s.tracker.requests, i), b)
  }

  predicate BlocksIn(env: Env, content: seq<byte>, i: u32, c: Cached, b: nat) {
    && c.length == env.info.LengthOfPiece(i) && b < NumBlocks(c.length) && c.accepted.Keys == Below(b)
    && forall k :: k in c.accepted ==> BlockStored(env, content, i, c, k)
  }

  /** Nothing is outstanding, and another block of piece `i` is due. */
  ghost predicate Waiting<P>(env: Env, s: State<P>, content: seq<byte>, p: P, i: u32, b: nat, queue: seq<Msg>) {
    && Only(env, s, content, p, i, b, queue) && Visit(env, s.tracker.requests, i).pending == {}
    && s.peers[p].downloading == []
    && match s.peers[p].lastRequest case None => i as nat !in s.tracker.owned case Some(r) => r.index == i
  }

  /** Block `b` of piece `i` is outstanding, and nothing else. */
  ghost predicate Asking<P>(env: Env, s: State<P>, content: seq<byte>, p: P, i: u32, b: nat, queue: seq<Msg>) {
    && Only(env, s, content, p, i, b, queue) && i in s.tracker.requests && s.tracker.requests[i].pending == {b}
    && s.peers[p].downloading == [RequestFor(i, s.tracker.requests[i].length, b)]
    && s.peers[p].lastRequest == Some(RequestFor(i, s.tracker.requests[i].length, b))
  }

  // ----- asking -----

  /** With one peer all its pieces are equally rare. */
  lemma AllAsRare<P>(peers: map<P, Peer>, p: P, np: nat, i: nat, j: nat)
    requires peers.Keys == {p} && peers[p].bf == Some(Everything(np)) && i < np && j < np
    ensures Rarity(peers, i) == Rarity(peers, j)
  {
    assert (set q | q in peers && HasPiece(peers[q], i)) == set q | q in peers && HasPiece(peers[q], j);
  }

  lemma FirstPick<P>(env: Env, s: State<P>, content: seq<byte>, p: P, i: u32, b: nat, queue: seq<Msg>)
    requires Waiting(env, s, content, p, i, b, queue) && s.peers[p].lastRequest.None?
    ensures LegalPick(s.peers, Everything(env.info.Count()), Excluded(s.tracker, s.tracker.requests), Some(i))
  {
    var np := env.info.Count();
    assert i as nat !in PendingPieces(s.tracker.requests);
    forall j | Candidate(Everything(np), Excluded(s.tracker, s.tracker.requests), j)
      ensures Rarity(s.peers, i) <= Rarity(s.peers, j)
    {
      AllAsRare(s.peers, p, np, i, j);
    }
  }

  /** The lowest free block is the one after those taken in. */
  lemma NextFree(c: Cached, b: nat)
    requires c.pending == {} && c.accepted.Keys == Below(b) && b < NumBlocks(c.length)
    ensures FirstFree(c, 0) == Some(b)
  {
    assert c.Free(b);
    assert forall k: nat :: k < b ==> k in c.accepted;
  }

  lemma NextAsked(env: Env, rs: Requests, last: Option<PieceRequest>, i: u32, b: nat)
    requires var c := Visit(env, rs, i); c.pending == {} && c.accepted.Keys == Below(b) && b < NumBlocks(c.length)
    requires last.Some? ==> last.value.index == i
    ensures var c := Visit(env, rs, i);
            NextRequest(env, rs, last, Some(i)) == (rs[i := c.(pending := {b})], Some(RequestFor(i, c.length, b)))
    ensures last.Some? ==> AskLast(env, rs, last).1.Some?
  {
    var c := Visit(env, rs, i);
    NextFree(c, b);
    assert c.pending + {b} == {b};
  }

  lemma AskRound<P>(env: Env, s: State<P>, content: seq<byte>, p: P, i: u32, b: nat, j: nat)
    requires Waiting(env, s, content, p, i, b, []) && j < env.info.Count() && j !in s.tracker.owned
    ensures Asks(env, s, p) && LegalAnswer(env, s, p, Some(i))
    ensures var s' := Ticked(env, s, p, true, Some(i)); var c := Visit(env, s.tracker.requests, i);
            && s'.tracker == s.tracker.(requests := s.tracker.requests[i := c.(pending := {b})])
            && s'.peers == s.peers[p := Queued(s.peers[p], RequestFor(i, c.length, b))]
  {
    var last := s.peers[p].lastRequest;
    NextAsked(env, s.tracker.requests, last, i, b);
    if last.None? {
      FirstPick(env, s, content, p, i, b, []);
    }
  }

  lemma StoredFor(env: Env, content: seq<byte>, i: u32, c: Cached, c': Cached, b: nat)
    requires BlocksIn(env, content, i, c, b) && c'.length == c.length && c'.accepted == c.accepted
    ensures BlocksIn(env, content, i, c', b)
  {
    forall k | k in c'.accepted
      ensures BlockStored(env, content, i, c', k)
    {
      StoredCarries(env, content, i, c, c', k);
    }
  }

  lemma QueuedIs(peer: Peer, np: nat, r: PieceRequest)
    requires Steady(peer, np, []) && peer.downloading == []
    ensures var peer' := Queued(peer, r);
            Steady(peer', np, [Request(r)]) && peer'.downloading == [r] && peer'.lastRequest == Some(r)
  {
  }

  lemma AskedIs<P>(env: Env, s: State<P>, content: seq<byte>, p: P, i: u32, b: nat, s': State<P>)
    requires Waiting(env, s, content, p, i, b, [])
    requires var c := Visit(env, s.tracker.requests, i);
             && s'.tracker == s.tracker.(requests := s.tracker.requests[i := c.(pending := {b})])
             && s'.peers == s.peers[p := Queued(s.peers[p], RequestFor(i, c.length, b))]
    ensures Asking(env, s', content, p, i, b, [Request(RequestFor(i, env.info.LengthOfPiece(i), b))])
  {
    var c := Visit(env, s.tracker.requests, i);
    StoredFor(env, content, i, c, c.(pending := {b}), b);
    QueuedIs(s.peers[p], env.info.Count(), RequestFor(i, c.length, b));
  }

  /** The tick of a round. */
  lemma RoundAsks<P>(env: Env, s: State<P>, content: seq<byte>, p: P, i: u32, b: nat, j: nat)
    requires Waiting(env, s, content, p, i, b, []) && j < env.info.Count() && j !in s.tracker.owned
    ensures Asks(env, s, p) && LegalAnswer(env, s, p, Some(i))
    ensures var s' := Ticked(env, s, p, true, Some(i));
            && s'.tracker.owned == s.tracker.owned
            && Asking(env, s', content, p, i, b, [Request(RequestFor(i, env.info.LengthOfPiece(i), b))])
  {
    AskRound(env, s, content, p, i, b, j);
    AskedIs(env, s, content, p, i, b, Ticked(env, s, p, true, Some(i)));
  }

  /** A message is written to a peer that does not choke us: nothing else changes. */
  lemma OnlyQueue<P>(env: Env, s: State<P>, p: P)
    requires p in s.peers && !Drops(s.peers[p])
    ensures Next(env, s, TakeFromQueue(p)) == WithPeer(s, p, WithoutFirst(s.peers[p]))
  {
  }

  lemma RoundWrites<P>(env: Env, s: State<P>, content: seq<byte>, p: P, i: u32, b: nat, m: Msg)
    requires Asking(env, s, content, p, i, b, [m])
    ensures var s' := Next(env, s, TakeFromQueue(p));
            Asking(env, s', content, p, i, b, []) && s'.tracker.owned == s.tracker.owned
  {
    OnlyQueue(env, s, p);
  }

  lemma LaterWrites<P>(env: Env, s: State<P>, content: seq<byte>, p: P, i: u32, b: nat, queue: seq<Msg>)
    requires Waiting(env, s, content, p, i, b, queue) && |queue| <= 1
    ensures var s' := Next(env, s, TakeFromQueue(p));
            Waiting(env, s', content, p, i, b, []) && s'.tracker.owned == s.tracker.owned
  {
    OnlyQueue(env, s, p);
  }

  // ----- the answer -----

  lemma CutLength(s: seq<byte>, off: nat, n: nat)
    requires off + n <= |s|
    ensures |Cut(s, off, n)| == n
  {
  }

  lemma TrueBlockIs(env: Env, content: seq<byte>, i: u32, b: nat)
    requires env.Ok() && i < env.info.Count() && |content| == env.info.Total() && b < NumBlocks(env.info.LengthOfPiece(i))
    ensures var d := TrueBlock(env.info, content, i, b); var length := env.info.LengthOfPiece(i);
            && length == env.info.PieceLen(i) >= 1 && |d.data| == BlockLength(length, b) < U32_MOD
            && RequestFor(i, length, b) == PieceRequest(i, d.begin, |d.data|)
            && d.begin / BLOCK_SIZE == b
  {
    var length := env.info.LengthOfPiece(i);
    FreshOk(env, content, i);
    PieceInside(env.info, i);
    BlockInPiece(length, b);
    RequestForBlock(i, length, b);
    CutLength(content, env.info.Start(i) + b * BLOCK_SIZE, BlockLength(length, b));
  }

  /** What the answer makes of the piece. */
  lemma PutTrue(env: Env, content: seq<byte>, i: u32, c: Cached, b: nat)
    requires env.Ok() && i < env.info.Count() && |content| == env.info.Total()
    requires BlocksIn(env, content, i, c, b) && c.pending == {b}
    ensures var d := TrueBlock(env.info, content, i, b); var c' := c.Put(d.begin, d.data);
            && c'.pending == {} && c'.accepted.Keys == Below(b + 1)
            && (forall k :: k in c'.accepted ==> BlockStored(env, content, i, c', k))
            && (c'.Done() <==> b + 1 == NumBlocks(c.length))
  {
    var d := TrueBlock(env.info, content, i, b);
    var c' := c.Put(d.begin, d.data);
    TrueBlockIs(env, content, i, b);
    PutNext(c, d, b);
    TrueStored(env, content, i, c', b);
    forall k | k in c'.accepted
      ensures BlockStored(env, content, i, c', k)
    {
      if k != b {
        StoredCarries(env, content, i, c, c', k);
      }
    }
  }

  lemma PutNext(c: Cached, d: PieceData, b: nat)
    requires c.pending == {b} && c.accepted.Keys == Below(b) && d.begin / BLOCK_SIZE == b < NumBlocks(c.length)
    ensures var c' := c.Put(d.begin, d.data);
            && c'.length == c.length && c'.pending == {} && c'.accepted == c.accepted[b := d.data]
            && c'.accepted.Keys == Below(b + 1) && (c'.Done() <==> b + 1 == NumBlocks(c.length))
  {
    assert c.accepted[b := d.data].Keys == Below(b + 1);
  }

  /** A true block is stored where the torrent has it. */
  lemma TrueStored(env: Env, content: seq<byte>, i: u32, c: Cached, b: nat)
    requires env.Ok() && i < env.info.Count() && |content| == env.info.Total()
    requires c.length == env.info.LengthOfPiece(i) && b < NumBlocks(c.length)
    requires b in c.accepted && c.accepted[b] == TrueBlock(env.info, content, i, b).data
    ensures BlockStored(env, content, i, c, b)
  {
    TrueBlockIs(env, content, i, b);
  }

  /** The last of the true blocks makes the stored piece what the torrent has. */
  lemma TrueAtLast(env: Env, t: Tracker, content: seq<byte>, i: u32, b: nat)
    requires TrackerOk(env, t) && |content| == env.info.Total() && i in t.requests && i < env.info.Count()
    requires BlocksIn(env, content, i, t.requests[i], b) && t.requests[i].pending == {b} && b + 1 == NumBlocks(t.requests[i].length)
    requires IsPending(t.requests, RequestFor(i, t.requests[i].length, b))
    ensures var flat := FlatAfter(env, t.flat, TrueBlock(env.info, content, i, b), Wrote);
            PieceBytes(env.info, flat, i) == PieceBytes(env.info, content, i)
  {
    var d := TrueBlock(env.info, content, i, b);
    TrueBlockIs(env, content, i, b);
    PutTrue(env, content, i, t.requests[i], b);
    FinishedPiece(env, t, d, Wrote);
    PieceFromBlocks(env, content, i, t.requests[i].Put(d.begin, d.data));
  }

  /** What the answer does to the tracker. */
  lemma AnswerTaken<P>(env: Env, s: State<P>, content: seq<byte>, p: P, i: u32, b: nat, v: Verdict)
    requires Inv(env, s) && Asking(env, s, content, p, i, b, []) && |content| == env.info.Total()
    ensures var d := TrueBlock(env.info, content, i, b); var c := s.tracker.requests[i];
            && IsPending(s.tracker.requests, RequestFor(i, c.length, b))
            && Received(env, s, p, d, Wrote, v).tracker
               == Settle(s.tracker, i, c.Put(d.begin, d.data), FlatAfter(env, s.tracker.flat, d, Wrote), v)
            && (Announces(env, s.tracker, d, Wrote, v) <==> b + 1 == NumBlocks(c.length) && v == Verified)
  {
    var d := TrueBlock(env.info, content, i, b);
    var c := s.tracker.requests[i];
    TrueBlockIs(env, content, i, b);
    ListedIsPending(env, s, p, RequestFor(i, c.length, b));
    ListedIsHandled(env, s, p, d, Wrote, v);
    HandleForm(env, s.tracker, d, Wrote, v);
    PendingBlock(env, s.tracker.flat, s.tracker.requests, d);
    PutTrue(env, content, i, c, b);
  }

  lemma KeepOne(r: PieceRequest, test: PieceRequest -> bool)
    ensures Keep([r], test) == if test(r) then [r] else []
  {
    assert Keep([r], test) == Keep([], test) + if test(r) then [r] else [] by {
      assert [r][..0] == [];
    }
  }

  lemma AnsweredIs(peer: Peer, d: PieceData)
    requires |d.data| < U32_MOD && peer.downloading == [PieceRequest(d.index, d.begin, |d.data|)]
    ensures Answered(peer, d).downloading == [] && Keep(peer.downloading, MatchedBy(d, true)) != []
  {
    KeepOne(peer.downloading[0], MatchedBy(d, false));
    KeepOne(peer.downloading[0], MatchedBy(d, true));
  }

  lemma ToldIs(env: Env, owned: set<nat>, peer: Peer, i: u32, j: nat)
    requires Steady(peer, env.info.Count(), []) && j < env.info.Count() && j !in owned
    ensures var peer' := Told(env, owned, peer, i);
            Steady(peer', env.info.Count(), [Have(i)]) && peer'.downloading == peer.downloading && peer'.lastRequest == peer.lastRequest
  {
    WantsMeans(env.info.Count(), owned, Everything(env.info.Count()));
    assert [] + [Have(i)] == [Have(i)];
  }

  lemma ReceivedPeer<P>(env: Env, s: State<P>, p: P, d: PieceData, w: WriteResult, v: Verdict)
    requires s.peers.Keys == {p} && Keep(s.peers[p].downloading, MatchedBy(d, true)) != []
    ensures var s' := Received(env, s, p, d, w, v); var peer := Answered(s.peers[p], d);
            && s'.peers.Keys == {p}
            && s'.peers[p] == if Announces(env, s.tracker, d, w, v) then Told(env, s'.tracker.owned, peer, d.index) else peer
  {
  }

  /** What the answer does to the connection. */
  lemma AnswerHeard<P>(env: Env, s: State<P>, content: seq<byte>, p: P, i: u32, b: nat, v: Verdict, j: nat)
    requires Asking(env, s, content, p, i, b, []) && |content| == env.info.Total() && env.Ok()
    requires j < env.info.Count() && j !in Received(env, s, p, TrueBlock(env.info, content, i, b), Wrote, v).tracker.owned
    ensures var d := TrueBlock(env.info, content, i, b); var s' := Received(env, s, p, d, Wrote, v);
            && s'.peers.Keys == {p} && s'.peers[p].downloading == [] && s'.peers[p].lastRequest == s.peers[p].lastRequest
            && Steady(s'.peers[p], env.info.Count(), if Announces(env, s.tracker, d, Wrote, v) then [Have(i)] else [])
  {
    var d := TrueBlock(env.info, content, i, b);
    TrueBlockIs(env, content, i, b);
    AnsweredIs(s.peers[p], d);
    ReceivedPeer(env, s, p, d, Wrote, v);
    ToldIs(env, Received(env, s, p, d, Wrote, v).tracker.owned, Answered(s.peers[p], d), i, j);
  }

  function NextBlockOf(info: Info, i: u32, b: nat): nat {
    if b + 1 == NumBlocks(info.LengthOfPiece(i)) then 0 else b + 1
  }

  function OwnedAfter(info: Info, i: u32, b: nat, owned: set<nat>): set<nat> {
    if b + 1 == NumBlocks(info.LengthOfPiece(i)) then owned + {i} else owned
  }

  /** The piece after the answer: one more block, or forgotten. */
  lemma SettledTrue(env: Env, t: Tracker, content: seq<byte>, i: u32, b: nat, flat: seq<byte>)
    requires env.Ok() && i < env.info.Count() && |content| == env.info.Total() && i in t.requests
    requires BlocksIn(env, content, i, t.requests[i], b) && t.requests[i].pending == {b}
    ensures var d := TrueBlock(env.info, content, i, b);
            var t' := Settle(t, i, t.requests[i].Put(d.begin, d.data), flat, VerdictAt(env.info, i, b));
            && t'.owned == OwnedAfter(env.info, i, b, t.owned)
            && BlocksIn(env, content, i, Visit(env, t'.requests, i), NextBlockOf(env.info, i, b))
            && Visit(env, t'.requests, i).pending == {}
  {
    PutTrue(env, content, i, t.requests[i], b);
    FreshOk(env, content, i);
  }

  lemma RoundAnswers<P>(env: Env, s: State<P>, content: seq<byte>, p: P, i: u32, b: nat, j: nat)
    requires Inv(env, s) && Asking(env, s, content, p, i, b, []) && |content| == env.info.Total()
    requires Good(env.info, env.sha1, content, i) && j < env.info.Count() && j != i && j !in s.tracker.owned
    ensures var d, v := TrueBlock(env.info, content, i, b), VerdictAt(env.info, i, b); var s' := Received(env, s, p, d, Wrote, v);
            && Enabled(env, s, GotPiece(p, d, Wrote, v))
            && s'.tracker.owned == OwnedAfter(env.info, i, b, s.tracker.owned)
            && Waiting(env, s', content, p, i, NextBlockOf(env.info, i, b), if v == Verified then [Have(i)] else [])
  {
    var d, v := TrueBlock(env.info, content, i, b), VerdictAt(env.info, i, b);
    TrueBlockIs(env, content, i, b);
    AnswerTaken(env, s, content, p, i, b, v);
    SettledTrue(env, s.tracker, content, i, b, FlatAfter(env, s.tracker.flat, d, Wrote));
    AnswerHeard(env, s, content, p, i, b, v, j);
    if v == Verified {
      TrueAtLast(env, s.tracker, content, i, b);
    }
  }

  // ----- one round -----

  lemma WaitingAbout<P>(env: Env, s: State<P>, content: seq<byte>, p: P, i: u32, b: nat, queue: seq<Msg>, owned: set<nat>)
    requires Waiting(env, s, content, p, i, b, queue) && owned <= s.tracker.owned <= owned + {i}
    ensures OnlyAbout(s, i, owned) && !Outstanding(s, i)
  {
    forall q | q in s.peers
      ensures s.peers[q].downloading == []
    {
      assert q in s.peers.Keys;
    }
  }

  lemma AskingAbout<P>(env: Env, s: State<P>, content: seq<byte>, p: P, i: u32, b: nat, queue: seq<Msg>, owned: set<nat>)
    requires Asking(env, s, content, p, i, b, queue) && owned <= s.tracker.owned <= owned + {i}
    ensures OnlyAbout(s, i, owned)
  {
    forall q, r | q in s.peers && r in s.peers[q].downloading
      ensures r.index == i
    {
      assert q in s.peers.Keys;
    }
  }

  /** A run so far in which all is about piece `i`, with nothing outstanding, or one block of the piece, at its end. */
  ghost predicate Pausing<P>(env: Env, states: seq<State<P>>, steps: seq<Step<P>>, content: seq<byte>, p: P, i: u32, b: nat,
                             queue: seq<Msg>, owned: set<nat>, now: set<nat>) {
    && Starving(env, states, steps, p, i, owned) && Inv(env, Last(states)) && Waiting(env, Last(states), content, p, i, b, queue)
    && Last(states).tracker.owned == now && owned <= now <= owned + {i}
  }

  ghost predicate Loading<P>(env: Env, states: seq<State<P>>, steps: seq<Step<P>>, content: seq<byte>, p: P, i: u32, b: nat,
                             queue: seq<Msg>, owned: set<nat>, now: set<nat>) {
    && Starving(env, states, steps, p, i, owned) && Inv(env, Last(states)) && Asking(env, Last(states), content, p, i, b, queue)
    && Last(states).tracker.owned == now && owned <= now <= owned + {i}
  }

  /** The torrent's true content, with piece `j` still to come. */
  ghost predicate Honest(env: Env, content: seq<byte>, i: u32, j: nat) {
    && env.Ok() && |content| == env.info.Total() && i < env.info.Count() && Good(env.info, env.sha1, content, i)
    && j < env.info.Count() && j != i
  }

  lemma AskFollows<P>(env: Env, s: State<P>, content: seq<byte>, p: P, i: u32, b: nat, j: nat, owned: set<nat>)
    requires Waiting(env, s, content, p, i, b, []) && j < env.info.Count() && j !in s.tracker.owned
    requires env.Ok() && |s.tracker.flat| == env.info.Total() && owned <= s.tracker.owned <= owned + {i}
    ensures Enabled(env, s, TickDownload(p, true, Some(i))) && !Outstanding(s, i)
    ensures var s' := Ticked(env, s, p, true, Some(i));
            && s'.tracker.owned == s.tracker.owned && OnlyAbout(s', i, owned)
            && Asking(env, s', content, p, i, b, [Request(RequestFor(i, env.info.LengthOfPiece(i), b))])
  {
    RoundAsks(env, s, content, p, i, b, j);
    WaitingAbout(env, s, content, p, i, b, [], owned);
    AskingAbout(env, Ticked(env, s, p, true, Some(i)), content, p, i, b, [Request(RequestFor(i, env.info.LengthOfPiece(i), b))], owned);
  }

  lemma StepAsks<P>(env: Env, states: seq<State<P>>, steps: seq<Step<P>>, content: seq<byte>, p: P, i: u32, b: nat, j: nat,
                    owned: set<nat>, now: set<nat>) returns (states': seq<State<P>>)
    requires Pausing(env, states, steps, content, p, i, b, [], owned, now) && j < env.info.Count() && j !in now
    ensures Loading(env, states', steps + [TickDownload(p, true, Some(i))], content, p, i, b,
                    [Request(RequestFor(i, env.info.LengthOfPiece(i), b))], owned, now)
    ensures Is(states'[0], states[0])
  {
    var s' := Ticked(env, Last(states), p, true, Some(i));
    AskFollows(env, Last(states), content, p, i, b, j, owned);
    Further(env, states, steps, TickDownload(p, true, Some(i)), s', p, i, owned);
    states' := states + [s'];
  }

  lemma StepWrites<P>(env: Env, states: seq<State<P>>, steps: seq<Step<P>>, content: seq<byte>, p: P, i: u32, b: nat, m: Msg,
                      owned: set<nat>, now: set<nat>) returns (states': seq<State<P>>)
    requires Loading(env, states, steps, content, p, i, b, [m], owned, now)
    ensures Loading(env, states', steps + [TakeFromQueue(p)], content, p, i, b, [], owned, now) && Is(states'[0], states[0])
  {
    var s' := Next(env, Last(states), TakeFromQueue(p));
    RoundWrites(env, Last(states), content, p, i, b, m);
    AskingAbout(env, s', content, p, i, b, [], owned);
    Further(env, states, steps, TakeFromQueue(p), s', p, i, owned);
    states' := states + [s'];
  }

  lemma StepAnswers<P>(env: Env, states: seq<State<P>>, steps: seq<Step<P>>, content: seq<byte>, p: P, i: u32, b: nat, j: nat,
                       owned: set<nat>, now: set<nat>) returns (states': seq<State<P>>)
    requires Loading(env, states, steps, content, p, i, b, [], owned, now) && Honest(env, content, i, j) && j !in owned
    ensures var v := VerdictAt(env.info, i, b); var d := TrueBlock(env.info, content, i, b);
            Pausing(env, states', steps + [GotPiece(p, d, Wrote, v)], content, p, i, NextBlockOf(env.info, i, b),
                    if v == Verified then [Have(i)] else [], owned, OwnedAfter(env.info, i, b, now))
    ensures Is(states'[0], states[0])
  {
    var d, v := TrueBlock(env.info, content, i, b), VerdictAt(env.info, i, b);
    var s' := Received(env, Last(states), p, d, Wrote, v);
    RoundAnswers(env, Last(states), content, p, i, b, j);
    WaitingAbout(env, s', content, p, i, NextBlockOf(env.info, i, b), if v == Verified then [Have(i)] else [], owned);
    Further(env, states, steps, GotPiece(p, d, Wrote, v), s', p, i, owned);
    states' := states + [s'];
  }

  lemma RestFollows<P>(env: Env, s: State<P>, content: seq<byte>, p: P, i: u32, b: nat, queue: seq<Msg>, owned: set<nat>)
    requires Waiting(env, s, content, p, i, b, queue) && |queue| <= 1 && owned <= s.tracker.owned <= owned + {i}
    ensures var s' := Next(env, s, TakeFromQueue(p));
            && s'.tracker.owned == s.tracker.owned && OnlyAbout(s', i, owned) && Waiting(env, s', content, p, i, b, [])
  {
    LaterWrites(env, s, content, p, i, b, queue);
    WaitingAbout(env, Next(env, s, TakeFromQueue(p)), content, p, i, b, [], owned);
  }

  lemma StepRests<P>(env: Env, states: seq<State<P>>, steps: seq<Step<P>>, content: seq<byte>, p: P, i: u32, b: nat, queue: seq<Msg>,
                     owned: set<nat>, now: set<nat>) returns (states': seq<State<P>>)
    requires Pausing(env, states, steps, content, p, i, b, queue, owned, now) && |queue| <= 1
    ensures Pausing(env, states', steps + [TakeFromQueue(p)], content, p, i, b, [], owned, now) && Is(states'[0], states[0])
  {
    var s' := Next(env, Last(states), TakeFromQueue(p));
    RestFollows(env, Last(states), content, p, i, b, queue, owned);
    Further(env, states, steps, TakeFromQueue(p), s', p, i, owned);
    states' := states + [s'];
  }

  lemma TwoSteps<T>(steps: seq<T>, a: T, b: T)
    ensures steps + [a] + [b] == steps + [a, b]
  {
  }

  /** The first half of a round. */
  lemma AskHalf<P>(env: Env, states0: seq<State<P>>, steps: seq<Step<P>>, content: seq<byte>, p: P, i: u32, b: nat, j: nat,
                   owned: set<nat>, now: set<nat>) returns (states: seq<State<P>>)
    requires Pausing(env, states0, steps, content, p, i, b, [], owned, now) && j < env.info.Count() && j !in now
    ensures Loading(env, states, steps + AskSteps(p, i), content, p, i, b, [], owned, now) && Is(states[0], states0[0])
  {
    var states1 := StepAsks(env, states0, steps, content, p, i, b, j, owned, now);
    states := StepWrites(env, states1, steps + [TickDownload(p, true, Some(i))], content, p, i, b,
                         Request(RequestFor(i, env.info.LengthOfPiece(i), b)), owned, now);
    TwoSteps(steps, TickDownload(p, true, Some(i)), TakeFromQueue(p));
  }

  /** The second half. */
  lemma AnswerHalf<P>(env: Env, states0: seq<State<P>>, steps: seq<Step<P>>, content: seq<byte>, p: P, i: u32, b: nat, j: nat,
                      owned: set<nat>, now: set<nat>) returns (states: seq<State<P>>)
    requires Loading(env, states0, steps, content, p, i, b, [], owned, now) && Honest(env, content, i, j) && j !in owned
    ensures Pausing(env, states, steps + AnswerSteps(env.info, content, p, i, b), content, p, i, NextBlockOf(env.info, i, b), [], owned,
                    OwnedAfter(env.info, i, b, now))
    ensures Is(states[0], states0[0])
  {
    var answer := GotPiece(p, TrueBlock(env.info, content, i, b), Wrote, VerdictAt(env.info, i, b));
    var states1 := StepAnswers(env, states0, steps, content, p, i, b, j, owned, now);
    states := StepRests(env, states1, steps + [answer], content, p, i, NextBlockOf(env.info, i, b),
                        if VerdictAt(env.info, i, b) == Verified then [Have(i)] else [], owned, OwnedAfter(env.info, i, b, now));
    TwoSteps(steps, answer, TakeFromQueue(p));
  }

  // ----- the opening -----

  /** The only connection is `peer`. */
  function Alone<P>(p: P, peer: Peer, t: Tracker, window: int): State<P> {
    State(map[p := peer], t, window, window)
  }

  lemma AloneAbout<P>(p: P, peer: Peer, t: Tracker, window: int, i: u32)
    requires peer.downloading == []
    ensures OnlyAbout(Alone(p, peer, t, window), i, t.owned)
  {
  }

  lemma AloneStep<P>(env: Env, states: seq<State<P>>, steps: seq<Step<P>>, step: Step<P>, p: P, peer: Peer, peer': Peer,
                     t: Tracker, window: int, i: u32) returns (states': seq<State<P>>)
    requires Starving(env, states, steps, p, i, t.owned) && Inv(env, Last(states)) && Last(states) == Alone(p, peer, t, window)
    requires Enabled(env, Last(states), step) && !step.TickDownload? && peer'.downloading == []
    requires Is(Next(env, Alone(p, peer, t, window), step), Alone(p, peer', t, window))
    ensures Starving(env, states', steps + [step], p, i, t.owned) && Inv(env, Last(states'))
    ensures Last(states') == Alone(p, peer', t, window) && Is(states'[0], states[0])
  {
    AloneAbout(p, peer', t, window, i);
    Further(env, states, steps, step, Alone(p, peer', t, window), p, i, t.owned);
    states' := states + [Alone(p, peer', t, window)];
  }

  lemma AloneTakes<P>(env: Env, p: P, peer: Peer, t: Tracker, window: int)
    requires !Drops(peer)
    ensures Is(Next(env, Alone(p, peer, t, window), TakeFromQueue(p)), Alone(p, WithoutFirst(peer), t, window))
  {
  }

  lemma AloneHears<P>(env: Env, p: P, t: Tracker, window: int, j: nat)
    requires j < env.info.Count() && j !in t.owned
    ensures var np := env.info.Count();
            Is(Next(env, Alone(p, Connected(window), t, window), GotBitfield(p, Everything(np))), Alone(p, Heard(np, window), t, window))
    ensures BitsOk(env.info.Count(), Everything(env.info.Count())) && !Drops(Heard(env.info.Count(), window))
  {
    HeardIs(env, t.owned, window, j);
  }

  lemma AloneUnchokes<P>(env: Env, p: P, t: Tracker, window: int, j: nat)
    requires j < env.info.Count() && j !in t.owned
    ensures var peer := WithoutFirst(Heard(env.info.Count(), window));
            && !Drops(peer)
            && Is(Next(env, Alone(p, WithoutFirst(peer), t, window), GotUnchoke(p)), Alone(p, Open(env.info.Count(), window), t, window))
  {
    OpenIs(env, t.owned, window, j);
  }

  /** The connection once it has our bitfield, when it has told us its own, and when it has unchoked us. */
  function Connected(window: int): Peer {
    NewPeer(window, false).(out := Channel([], [OurBitfield], Lapses(0, 0, 0)))
  }

  function Heard(np: nat, window: int): Peer {
    Connected(window).(bf := Some(Everything(np)), interested := true, told := true, running := true, usChoke := false,
                       out := Channel([Interested, UnchokeMsg], [OurBitfield, Interested, UnchokeMsg], Lapses(0, 0, 0)))
  }

  function Open(np: nat, window: int): Peer {
    Heard(np, window).(choking := false, out := Heard(np, window).out.(queue := []))
  }

  lemma ConnectedIs(window: int)
    ensures var peer := Sending(NewPeer(window, false), OurBitfield); !Drops(peer) && WithoutFirst(peer) == Connected(window)
  {
  }

  lemma HeardIs(env: Env, owned: set<nat>, window: int, j: nat)
    requires j < env.info.Count() && j !in owned
    ensures var np := env.info.Count(); var peer := Connected(window);
            Begun(WithBits(env, owned, peer, Everything(np)), peer) == Heard(np, window)
  {
    WantsMeans(env.info.Count(), owned, Everything(env.info.Count()));
    assert [OurBitfield] + [Interested] + [UnchokeMsg] == [OurBitfield, Interested, UnchokeMsg];
    assert [] + [Interested] + [UnchokeMsg] == [Interested, UnchokeMsg];
  }

  lemma OpenIs(env: Env, owned: set<nat>, window: int, j: nat)
    requires j < env.info.Count() && j !in owned
    ensures var np := env.info.Count(); var peer := Heard(np, window);
            && !Drops(peer) && !Drops(WithoutFirst(peer))
            && Unchoking(env, owned, WithoutFirst(WithoutFirst(peer))) == Open(np, window)
  {
    WantsMeans(env.info.Count(), owned, Everything(env.info.Count()));
    assert [Interested, UnchokeMsg][1..][1..] == [];
  }

  /** The connection is made, and gets our bitfield. */
  lemma Connects<P>(env: Env, flat: seq<byte>, owned: set<nat>, window: int, p: P, i: u32) returns (states: seq<State<P>>)
    requires env.Ok() && |flat| == env.info.Total() && owned <= Below(env.info.Count())
    ensures Starving(env, states, [Connect(p, false), TakeFromQueue(p)], p, i, owned) && Inv(env, Last(states))
    ensures Is(states[0], Start(env, flat, owned, window))
    ensures Last(states) == Alone(p, Connected(window), Start<P>(env, flat, owned, window).tracker, window)
  {
    var s := Start<P>(env, flat, owned, window);
    var peer := Sending(NewPeer(window, false), OurBitfield);
    var s' := Alone(p, peer, s.tracker, window);
    StartOk<P>(env, flat, owned, window);
    assert Next(env, s, Connect(p, false)) == s';
    Further(env, [s], [], Connect(p, false), s', p, i, owned);
    ConnectedIs(window);
    AloneTakes(env, p, peer, s.tracker, window);
    states := AloneStep(env, [s] + [s'], [] + [Connect(p, false)], TakeFromQueue(p), p, peer, Connected(window), s.tracker, window, i);
    TwoSteps([], Connect(p, false), TakeFromQueue(p));
    assert [] + [Connect(p, false), TakeFromQueue(p)] == [Connect(p, false), TakeFromQueue(p)];
  }

  /** The peer tells us what it has. */
  lemma Hears<P>(env: Env, states0: seq<State<P>>, steps: seq<Step<P>>, window: int, p: P, i: u32, j: nat, t: Tracker)
    returns (states: seq<State<P>>)
    requires Starving(env, states0, steps, p, i, t.owned) && Inv(env, Last(states0)) && j < env.info.Count() && j !in t.owned
    requires Last(states0) == Alone(p, Connected(window), t, window)
    ensures Starving(env, states, steps + [GotBitfield(p, Everything(env.info.Count())), TakeFromQueue(p)], p, i, t.owned)
    ensures Last(states) == Alone(p, WithoutFirst(Heard(env.info.Count(), window)), t, window)
    ensures Inv(env, Last(states)) && Is(states[0], states0[0])
  {
    var step, peer := GotBitfield(p, Everything(env.info.Count())), Heard(env.info.Count(), window);
    AloneHears(env, p, t, window, j);
    var states1 := AloneStep(env, states0, steps, step, p, Connected(window), peer, t, window, i);
    AloneTakes(env, p, peer, t, window);
    states := AloneStep(env, states1, steps + [step], TakeFromQueue(p), p, peer, WithoutFirst(peer), t, window, i);
    TwoSteps(steps, step, TakeFromQueue(p));
  }

  /** And unchokes us. */
  lemma Unchokes<P>(env: Env, states0: seq<State<P>>, steps: seq<Step<P>>, window: int, p: P, i: u32, j: nat, t: Tracker)
    returns (states: seq<State<P>>)
    requires Starving(env, states0, steps, p, i, t.owned) && Inv(env, Last(states0)) && j < env.info.Count() && j !in t.owned
    requires Last(states0) == Alone(p, WithoutFirst(Heard(env.info.Count(), window)), t, window)
    ensures Starving(env, states, steps + [TakeFromQueue(p), GotUnchoke(p)], p, i, t.owned)
    ensures Last(states) == Alone(p, Open(env.info.Count(), window), t, window)
    ensures Inv(env, Last(states)) && Is(states[0], states0[0])
  {
    var peer := WithoutFirst(Heard(env.info.Count(), window));
    AloneUnchokes(env, p, t, window, j);
    AloneTakes(env, p, peer, t, window);
    var states1 := AloneStep(env, states0, steps, TakeFromQueue(p), p, peer, WithoutFirst(peer), t, window, i);
    states := AloneStep(env, states1, steps + [TakeFromQueue(p)], GotUnchoke(p), p, WithoutFirst(peer),
                        Open(env.info.Count(), window), t, window, i);
    TwoSteps(steps, TakeFromQueue(p), GotUnchoke(p));
  }

  /** After the opening the first block of piece `i` is due. */
  lemma OpenWaits<P>(env: Env, s: State<P>, content: seq<byte>, t: Tracker, window: int, p: P, i: u32)
    requires env.Ok() && i < env.info.Count() && window >= 1 && i as nat !in t.owned && t.requests == map[]
    requires s == Alone(p, Open(env.info.Count(), window), t, window)
    ensures 0 < NumBlocks(env.info.LengthOfPiece(i)) && Waiting(env, s, content, p, i, 0, [])
  {
    FreshOk(env, content, i);
  }

  lemma Opens<P>(env: Env, content: seq<byte>, flat: seq<byte>, owned: set<nat>, window: int, p: P, i: u32, j: nat)
    returns (states: seq<State<P>>)
    requires Honest(env, content, i, j) && |flat| == env.info.Total() && owned <= Below(env.info.Count())
    requires i as nat !in owned && j !in owned && window >= 1
    ensures Pausing(env, states, Opening(env.info.Count(), p), content, p, i, 0, [], owned, owned)
    ensures Is(states[0], Start(env, flat, owned, window))
  {
    var t := Start<P>(env, flat, owned, window).tracker;
    var steps := [Connect(p, false), TakeFromQueue(p)];
    var states0 := Connects(env, flat, owned, window, p, i);
    var states1 := Hears(env, states0, steps, window, p, i, j, t);
    states := Unchokes(env, states1, steps + [GotBitfield(p, Everything(env.info.Count())), TakeFromQueue(p)], window, p, i, j, t);
    OpenWaits(env, Last(states), content, t, window, p, i);
  }

  // ----- the run -----

  /** What is owned after `m` rounds, if the piece has `n` blocks. */
  function OwnedAt(n: nat, i: u32, m: nat, owned: set<nat>): set<nat> {
    if m < n then owned else owned + {i}
  }

  /** A run of `m` rounds from the start, as far as it has to do with piece `i`. */
  ghost predicate Played<P>(env: Env, states: seq<State<P>>, content: seq<byte>, p: P, i: u32, m: nat, owned: set<nat>) {
    var n := NumBlocks(env.info.LengthOfPiece(i));
    && n >= 1
    && Pausing(env, states, Rounds(env.info, content, p, i, m), content, p, i, m % n, [], owned, OwnedAt(n, i, m, owned))
  }

  lemma PlayedIs<P>(env: Env, states: seq<State<P>>, steps: seq<Step<P>>, content: seq<byte>, p: P, i: u32, m: nat, b: nat,
                    owned: set<nat>, now: set<nat>)
    requires NumBlocks(env.info.LengthOfPiece(i)) >= 1 && Is(steps, Rounds(env.info, content, p, i, m))
    requires b == m % NumBlocks(env.info.LengthOfPiece(i)) && Is(now, OwnedAt(NumBlocks(env.info.LengthOfPiece(i)), i, m, owned))
    requires Pausing(env, states, steps, content, p, i, b, [], owned, now)
    ensures Played(env, states, content, p, i, m, owned)
  {
  }

  lemma RoundCounts(info: Info, i: u32, m: nat, owned: set<nat>)
    requires NumBlocks(info.LengthOfPiece(i)) >= 1
    ensures var n := NumBlocks(info.LengthOfPiece(i));
            && m % n < n && NextBlockOf(info, i, m % n) == (m + 1) % n
            && Is(OwnedAfter(info, i, m % n, OwnedAt(n, i, m, owned)), OwnedAt(n, i, m + 1, owned))
  {
    var n := NumBlocks(info.LengthOfPiece(i));
    ModNext(m, n, m % n);
    if m < n {
      DivModUnique(m, n, 0, m);
    }
  }

  lemma RoundsStep<P>(info: Info, content: seq<byte>, p: P, i: u32, m: nat)
    requires NumBlocks(info.LengthOfPiece(i)) >= 1
    ensures Is(Rounds(info, content, p, i, m) + AskSteps(p, i) + AnswerSteps(info, content, p, i, m % NumBlocks(info.LengthOfPiece(i))),
               Rounds(info, content, p, i, m + 1))
  {
  }

  lemma NotOwnedYet(owned: set<nat>, now: set<nat>, i: nat, j: nat)
    requires now <= owned + {i} && j != i && j !in owned
    ensures j !in now
  {
  }

  /** One more round. */
  lemma PlayMore<P>(env: Env, states0: seq<State<P>>, content: seq<byte>, p: P, i: u32, j: nat, m: nat, m': nat, owned: set<nat>)
    returns (states: seq<State<P>>)
    requires m' == m + 1 && Played(env, states0, content, p, i, m, owned) && Honest(env, content, i, j) && j !in owned
    ensures Played(env, states, content, p, i, m', owned)
    ensures Is(states[0], states0[0])
  {
    var n := NumBlocks(env.info.LengthOfPiece(i));
    var b, now, steps := m % n, OwnedAt(n, i, m, owned), Rounds(env.info, content, p, i, m);
    NotOwnedYet(owned, now, i, j);
    var states1 := AskHalf(env, states0, steps, content, p, i, b, j, owned, now);
    states := AnswerHalf(env, states1, steps + AskSteps(p, i), content, p, i, b, j, owned, now);
    RoundCounts(env.info, i, m, owned);
    RoundsStep(env.info, content, p, i, m);
    PlayedIs(env, states, steps + AskSteps(p, i) + AnswerSteps(env.info, content, p, i, b), content, p, i, m',
             NextBlockOf(env.info, i, b), owned, OwnedAfter(env.info, i, b, now));
  }

  lemma PlayNone<P>(env: Env, states: seq<State<P>>, content: seq<byte>, p: P, i: u32, owned: set<nat>)
    requires Pausing(env, states, Opening(env.info.Count(), p), content, p, i, 0, [], owned, owned)
    ensures Played(env, states, content, p, i, 0, owned)
  {
    DivModUnique(0, NumBlocks(env.info.LengthOfPiece(i)), 0, 0);
    PlayedIs(env, states, Opening(env.info.Count(), p), content, p, i, 0, 0, owned, owned);
  }

  /**
   * Any number of rounds, with any window: an honest peer that has everything answers every request before the next tick,
   * and is asked for the blocks of piece `i` over and over, in order, long after that piece is owned and announced, while
   * piece `j`, which the peer has and we lack, is never asked for.
   */
  lemma {:induction false} Starves<P>(env: Env, content: seq<byte>, flat: seq<byte>, owned: set<nat>, window: int,
                                      p: P, i: u32, j: nat, m: nat) returns (states: seq<State<P>>)
    requires Honest(env, content, i, j) && |flat| == env.info.Total() && owned <= Below(env.info.Count())
    requires i as nat !in owned && j !in owned && window >= 1
    ensures Played(env, states, content, p, i, m, owned) && states[0] == Start(env, flat, owned, window)
  {
    if m == 0 {
      states := Opens(env, content, flat, owned, window, p, i, j);
      PlayNone(env, states, content, p, i, owned);
      return;
    }
    var k: nat := m - 1;
    var states0 := Starves(env, content, flat, owned, window, p, i, j, k);
    states := PlayMore(env, states0, content, p, i, j, k, m, owned);
  }
}
