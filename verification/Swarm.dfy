/** lib/bittorrent/swarm/torrent.go: a torrent, its connections, and the steps of the download protocol. */
module Swarm {
  import opened Words
  import opened Common
  import opened MetaInfo
  import opened Bitfields
  import opened Storage
  import opened Blocks
  import opened Protocol
  import opened Correspondence
  import opened Assembly
  import opened Invariants
  import opened Safety
  import opened Progress
  import Traffic
  import opened PieceTracking
  import opened PeerConnections
  import Wire

  type Addr = string

  // ----- what a message does -----

  /** The bytes of a payload, as a bitfield takes them. */
  function Packed(payload: seq<byte>): (bits: seq<bv8>)
    ensures |bits| == |payload|
  {
    seq(|payload|, i requires 0 <= i < |payload| => payload[i] as bv8)
  }

  /** Four bytes of a message as a number, the most significant one first. */
  function NumberAt(msg: seq<byte>, i: nat): int
    requires i + 4 <= |msg|
  {
    (msg[i] as int) * 0x100_0000 + (msg[i + 1] as int) * 0x1_0000 + (msg[i + 2] as int) * 0x100 + msg[i + 3]
  }

  /** The message does nothing to the download: a keep-alive, a piece without data, or of another kind. */
  predicate Ignored(msg: seq<byte>) {
    |msg| <= 4 || msg[4] !in {0, 1, 4, 5, 7} || (msg[4] == 7 && |msg| <= 13)
  }

  /** The step of the protocol that a message from peer `p` is, by its fifth byte. */
  predicate IsStepOf<P(==)>(np: nat, p: P, msg: seq<byte>, step: Step<P>)
    requires !Ignored(msg)
  {
    match step
    case GotChoke(q) => msg[4] == 0 && q == p
    case GotUnchoke(q) => msg[4] == 1 && q == p
    case GotHave(q, i) => msg[4] == 4 && q == p && i == if |msg| == 9 then NumberAt(msg, 5) else 0
    case GotBitfield(q, bits) => msg[4] == 5 && q == p && bits == BitsOf(np, Packed(msg[5..]))
    case GotPiece(q, d, _, _) =>
      msg[4] == 7 && q == p && d.index == NumberAt(msg, 5) && d.begin == NumberAt(msg, 9) && d.data == msg[13..]
    case _ => false
  }

  lemma HaveRead(msg: seq<byte>)
    requires Wire.IsFrame(msg) && 4 < |msg| && msg[4] == 4
    ensures Wire.GetHave(msg) == if |msg| == 9 then NumberAt(msg, 5) else 0
  {
    Wire.FrameOfParts(msg);
    if |msg| == 9 {
      Wire.BytesNumber(msg[5..]);
    }
  }

  lemma PieceRead(msg: seq<byte>)
    requires Wire.IsFrame(msg) && 4 < |msg| && msg[4] == 7
    ensures var d := Wire.GetPieceData(msg);
            if |msg| <= 13 then d == None
            else d.Some? && d.value.index == NumberAt(msg, 5) && d.value.begin == NumberAt(msg, 9) && d.value.data == msg[13..]
  {
    Wire.FrameOfParts(msg);
    if 13 < |msg| {
      Wire.BytesNumber(msg[5..]);
      Wire.BytesNumber(msg[5..][4..]);
      assert msg[5..][8..] == msg[13..];
    }
  }

  /** The message that is written next: the first one queued, but no request while the peer chokes us. */
  function WrittenNext(peer: Peer): Option<Msg> {
    if peer.out.queue == [] || (peer.out.queue[0].Request? && peer.choking) then None else Some(peer.out.queue[0])
  }

  /** A step that moves requests between the connections and the tracker. */
  function Moved<P>(s: State<P>, peers: map<P, Peer>, rs: Requests): State<P> {
    State(peers, s.tracker.(requests := rs), s.window, s.maxWindow)
  }

  lemma OneMatch(ds: seq<PieceRequest>, d: PieceData)
    requires Distinct(ds)
    ensures |Keep(ds, MatchedBy(d, true))| <= 1
  {
    var kept := Keep(ds, MatchedBy(d, true));
    KeepDistinct(ds, MatchedBy(d, true));
    if |kept| > 1 {
      KeepHas(ds, MatchedBy(d, true), kept[0]);
      KeepHas(ds, MatchedBy(d, true), kept[1]);
    }
  }

  /** Received data answers at most one request, and one the tracker can take in. */
  lemma MatchOk<P>(env: Env, s: State<P>, p: P, d: PieceData)
    requires Inv(env, s) && p in s.peers && |d.data| < U32_MOD
    ensures Offerable(env.info, s.tracker.requests, s.peers[p], d)
  {
    var ls := ListsOf(s.peers);
    assert ls[p] == s.peers[p].downloading;
    OneMatch(ls[p], d);
    if Keep(ls[p], MatchedBy(d, true)) != [] {
      MatchIsPending(ls, s.tracker.requests, p, d);
      PendingBlock(env, s.tracker.flat, s.tracker.requests, d);
      SizedOk(env, s.tracker.flat, s.tracker.requests, d.index);
      BeforeWrap(env, s.tracker.requests[d.index].length, d.index, d.begin, d.begin / BLOCK_SIZE);
    }
  }

  lemma SizedOk(env: Env, flat: seq<byte>, rs: Requests, idx: u32)
    requires env.Ok() && RequestsOk(env, flat, rs) && idx in rs
    ensures idx < env.info.Count() && Sized(env.info, rs, idx) && rs[idx].length == env.info.PieceLen(idx)
  {
    assert CachedOk(env, flat, idx, rs[idx]);
    WellFormedFacts(env.info);
    LengthOfPieceIsExact(env.info, idx);
  }

  lemma BeforeWrap(env: Env, length: u32, idx: u32, begin: u32, k: nat)
    requires env.Ok() && idx < env.info.Count() && length == env.info.PieceLen(idx)
    requires begin == k * BLOCK_SIZE && k < NumBlocks(length)
    ensures begin != WRAPPING
  {
    PieceInside(env.info, idx);
  }

  /** The connections after data was received on one of them. */
  function AfterData<P>(env: Env, peers: map<P, Peer>, p: P, d: PieceData, announce: bool, owned: set<nat>): map<P, Peer>
    requires p in peers
  {
    var now := peers[p := Answered(peers[p], d)];
    if announce then Broadcast(env, now, owned, d.index) else now
  }

  /** Received, when nothing matches, and when something does. */
  lemma ReceivedIs<P>(env: Env, reliable: bool, s: State<P>, p: P, d: PieceData, w: WriteResult, v: Verdict,
                      announce: bool, t: Tracker, peers: map<P, Peer>)
    requires p in s.peers && Receipt(env, reliable, s.tracker, s.peers[p], d, w, v, announce, t)
    requires peers == AfterData(env, s.peers, p, d, announce, t.owned)
    ensures State(peers, t, s.window, s.maxWindow) == Received(env, s, p, d, w, v)
  {
    if Keep(s.peers[p].downloading, MatchedBy(d, true)) == [] {
      KeepAll(s.peers[p].downloading, d);
      assert s.peers[p := Answered(s.peers[p], d)] == s.peers;
    }
  }

  lemma AnnounceExactly<P>(env: Env, reliable: bool, s: State<P>, p: P, d: PieceData, w: WriteResult, v: Verdict,
                           announce: bool, t: Tracker)
    requires Inv(env, s) && p in s.peers && |d.data| < U32_MOD
    requires Receipt(env, reliable, s.tracker, s.peers[p], d, w, v, announce, t)
    ensures announce <==> Traffic.LastBlock(s, p, d, w, v)
  {
    Traffic.BroadcastsExactly(env, s, p, d, w, v);
  }

  /** Taking an answered request off one list changes no channel, and the have then reaches every peer. */
  lemma HaveReachesPeers<P>(env: Env, s: State<P>, p: P, d: PieceData, owned: set<nat>)
    requires p in s.peers
    ensures Traffic.Reached(s.peers, AfterData(env, s.peers, p, d, true, owned), d.index)
  {
    Traffic.BroadcastReaches(env, s.peers[p := Answered(s.peers[p], d)], owned, d.index);
  }

  /** Receiving is a step of the protocol, what it announces is good, and a reliable driver fails no read in it. */
  lemma ReceivedStep<P>(env: Env, reliable: bool, s: State<P>, p: P, d: PieceData, w: WriteResult, v: Verdict,
                        announce: bool, t: Tracker, peers: map<P, Peer>)
    requires Inv(env, s) && p in s.peers && |d.data| < U32_MOD
    requires Receipt(env, reliable, s.tracker, s.peers[p], d, w, v, announce, t)
    requires peers == AfterData(env, s.peers, p, d, announce, t.owned)
    ensures Enabled(env, s, GotPiece(p, d, w, v))
    ensures State(peers, t, s.window, s.maxWindow) == Next(env, s, GotPiece(p, d, w, v))
    ensures Inv(env, State(peers, t, s.window, s.maxWindow))
    ensures announce ==> Announced(env, t, d.index)
    ensures reliable ==> !ReadsFail(env, s, GotPiece(p, d, w, v)) && t.unchecked <= s.tracker.unchecked
    ensures (announce <==> Traffic.LastBlock(s, p, d, w, v)) && (announce ==> Traffic.Reached(s.peers, peers, d.index))
  {
    ReceivedIs(env, reliable, s, p, d, w, v, announce, t, peers);
    NextOk(env, s, GotPiece(p, d, w, v));
    AnnounceExactly(env, reliable, s, p, d, w, v, announce, t);
    if announce {
      HaveIsTrue(env, s, p, d, w, v);
      HaveReachesPeers(env, s, p, d, t.owned);
    }
    if reliable {
      UncheckedGrows(env, s, GotPiece(p, d, w, v));
    }
  }

  lemma AskerOk<P>(env: Env, s: State<P>, p: P)
    requires Inv(env, s) && p in s.peers && s.peers[p].interested
    ensures s.peers[p].bf.Some?
    ensures s.peers[p].lastRequest.Some? ==> s.peers[p].lastRequest.value.index < env.info.Count()
  {
  }

  /** Asking for a request is a step of the protocol. */
  lemma TickedStep<P>(env: Env, s: State<P>, p: P, pick: Option<u32>, rs: Requests, r: Option<PieceRequest>, peers: map<P, Peer>)
    requires Inv(env, s) && p in s.peers && Asks(env, s, p) && s.peers[p].bf.Some?
    requires (rs, r) == Protocol.NextRequest(env, s.tracker.requests, s.peers[p].lastRequest, pick)
    requires var (rs1, r1) := AskLast(env, s.tracker.requests, s.peers[p].lastRequest);
             if r1.Some? then pick == None
             else LegalPick(s.peers, s.peers[p].bf.value, s.tracker.owned + PendingPieces(rs1), pick)
    requires peers == if r.Some? then s.peers[p := Queued(s.peers[p], r.value)] else s.peers
    ensures Enabled(env, s, TickDownload(p, true, pick))
    ensures Moved(s, peers, rs) == Next(env, s, TickDownload(p, true, pick))
    ensures Inv(env, Moved(s, peers, rs)) && Traffic.TickDone(env, s, Moved(s, peers, rs), p, true)
    ensures pick.Some? ==> Untouched(s, p, pick.value)
  {
    NextOk(env, s, TickDownload(p, true, pick));
    Traffic.TickAsks(env, s, p, true, pick);
    if pick.Some? {
      PickIsUntouched(env, s, p, pick);
    }
  }

  /** A step that changes one peer only. */
  lemma PeerStep<P>(env: Env, s: State<P>, step: Step<P>, p: P, peer: Peer, peers: map<P, Peer>)
    requires Inv(env, s) && Enabled(env, s, step) && Next(env, s, step) == WithPeer(s, p, peer)
    requires peers == s.peers[p := peer]
    ensures Is(Moved(s, peers, s.tracker.requests), Next(env, s, step)) && Inv(env, Moved(s, peers, s.tracker.requests))
  {
    NextOk(env, s, step);
  }

  lemma IdleTick<P>(env: Env, s: State<P>, p: P, due: bool, pick: Option<u32>)
    requires Inv(env, s) && p in s.peers && !(Asks(env, s, p) && due)
    ensures Enabled(env, s, TickDownload(p, due, pick)) && Next(env, s, TickDownload(p, due, pick)) == s
    ensures Traffic.TickDone(env, s, s, p, due)
  {
    Traffic.TickAsks(env, s, p, due, pick);
  }

  lemma ExpiredStep<P>(env: Env, s: State<P>, idx: u32, rs: Requests, peers: map<P, Peer>)
    requires Inv(env, s) && idx in s.tracker.requests
    requires if s.tracker.requests[idx].pending == {} then rs == s.tracker.requests && peers == s.peers
             else rs == s.tracker.requests[idx := s.tracker.requests[idx].(pending := {})] && peers == AllCancel(s.peers, idx)
    ensures Moved(s, peers, rs) == Next(env, s, Expire(idx))
    ensures Inv(env, Moved(s, peers, rs))
  {
    NextOk(env, s, Expire(idx));
  }

  lemma ExpiredOneMore<P>(env: Env, s: State<P>, order: seq<u32>, idx: u32)
    ensures Is(ExpiredAll(env, s, order + [idx]), Next(env, ExpiredAll(env, s, order), Step.Expire(idx)))
  {
    assert (order + [idx])[..|order|] == order;
  }

  /** `order` lists the pieces that expire among those that have been visited. */
  predicate ListsExpired(order: seq<u32>, all: set<u32>, todo: set<u32>, expired: u32 -> bool) {
    && (forall k :: k in order ==> k in all && k !in todo && expired(k))
    && (forall k :: k in all && k !in todo && expired(k) ==> k in order)
  }

  lemma ListsExpiredStep(order: seq<u32>, all: set<u32>, todo: set<u32>, expired: u32 -> bool, idx: u32)
    requires ListsExpired(order, all, todo, expired) && idx in all && idx in todo
    ensures ListsExpired(if expired(idx) then order + [idx] else order, all, todo - {idx}, expired)
  {
  }

  lemma ChokedStep<P>(env: Env, s: State<P>, p: P, rs: Requests, peers: map<P, Peer>)
    requires Inv(env, s) && p in s.peers && rs == CancelAll(env, s.tracker.requests, s.peers[p].downloading)
    requires peers == s.peers[p := Emptied(s.peers[p])]
    ensures Moved(s, peers, rs) == Next(env, s, GotChoke(p)) && Inv(env, Moved(s, peers, rs))
  {
    NextOk(env, s, GotChoke(p));
  }

  lemma ClosedStep<P>(env: Env, s: State<P>, p: P, rs: Requests)
    requires Inv(env, s) && p in s.peers && rs == CancelAll(env, s.tracker.requests, s.peers[p].downloading)
    ensures Moved(s, s.peers - {p}, rs) == Next(env, s, DoClose(p))
    ensures Inv(env, Moved(s, s.peers - {p}, rs))
  {
    NextOk(env, s, DoClose(p));
  }

  lemma TakenStep<P>(env: Env, s: State<P>, p: P, rs: Requests, peers: map<P, Peer>)
    requires Inv(env, s) && p in s.peers
    requires rs == TakenRequests(env, s.tracker.requests, s.peers[p]) && peers == s.peers[p := TakenPeer(s.peers[p])]
    ensures Moved(s, peers, rs) == Next(env, s, TakeFromQueue(p))
    ensures Inv(env, Moved(s, peers, rs))
  {
    NextOk(env, s, TakeFromQueue(p));
  }

  lemma KeysKept<P, Q>(m: map<P, Q>, p: P, q: Q, m': map<P, Q>)
    requires p in m && Is(m', m[p := q])
    ensures m'.Keys == m.Keys
  {
  }

  lemma DropUpdated<P>(peers: map<P, Peer>, p: P, q: Peer)
    ensures peers[p := q] - {p} == peers - {p}
  {
  }

  lemma {:induction false} KeepAll(ds: seq<PieceRequest>, d: PieceData)
    requires Keep(ds, MatchedBy(d, true)) == []
    ensures Keep(ds, MatchedBy(d, false)) == ds
  {
    if ds != [] {
      KeepAll(ds[..|ds| - 1], d);
      assert ds == ds[..|ds| - 1] + [ds[|ds| - 1]];
    }
  }

  // ----- loops over all connections: what is done once only those in `todo` are left -----

  function ToldExcept<P>(env: Env, peers: map<P, Peer>, owned: set<nat>, idx: u32, todo: set<P>): map<P, Peer> {
    map q | q in peers :: if q in todo then peers[q] else Told(env, owned, peers[q], idx)
  }

  lemma ToldStep<P>(env: Env, peers: map<P, Peer>, owned: set<nat>, idx: u32, todo: set<P>, a: P)
    requires a in peers && a in todo
    ensures ToldExcept(env, peers, owned, idx, todo)[a := Told(env, owned, peers[a], idx)]
         == ToldExcept(env, peers, owned, idx, todo - {a})
    ensures ToldExcept(env, peers, owned, idx, todo)[a] == peers[a]
  {
  }

  lemma ToldEnds<P>(env: Env, peers: map<P, Peer>, owned: set<nat>, idx: u32)
    ensures ToldExcept(env, peers, owned, idx, peers.Keys) == peers
    ensures ToldExcept(env, peers, owned, idx, {}) == Broadcast(env, peers, owned, idx)
  {
  }

  function CancelExcept<P>(peers: map<P, Peer>, idx: u32, todo: set<P>): map<P, Peer> {
    map q | q in peers :: if q in todo then peers[q] else Protocol.CancelPiece(peers[q], idx)
  }

  lemma CancelPieceStep<P>(peers: map<P, Peer>, idx: u32, todo: set<P>, a: P)
    requires a in peers && a in todo
    ensures CancelExcept(peers, idx, todo)[a := Protocol.CancelPiece(peers[a], idx)] == CancelExcept(peers, idx, todo - {a})
    ensures CancelExcept(peers, idx, todo)[a] == peers[a]
  {
  }

  lemma CancelPieceEnds<P>(peers: map<P, Peer>, idx: u32)
    ensures CancelExcept(peers, idx, peers.Keys) == peers
    ensures CancelExcept(peers, idx, {}) == AllCancel(peers, idx)
  {
  }

  function WindowedExcept<P>(peers: map<P, Peer>, n: int, todo: set<P>): map<P, Peer> {
    map q | q in peers :: if q in todo then peers[q] else Windowed(peers[q], n)
  }

  lemma WindowedStep<P>(peers: map<P, Peer>, n: int, todo: set<P>, a: P)
    requires a in peers && a in todo
    ensures WindowedExcept(peers, n, todo)[a := Windowed(peers[a], n)] == WindowedExcept(peers, n, todo - {a})
    ensures WindowedExcept(peers, n, todo)[a] == peers[a]
  {
  }

  lemma WindowedEnds<P>(peers: map<P, Peer>, n: int)
    ensures WindowedExcept(peers, n, peers.Keys) == peers
    ensures WindowedExcept(peers, n, {}) == AllWindows(peers, n)
  {
  }

  lemma PayloadOk(np: nat, payload: seq<bv8>)
    ensures BitsOk(np, BitsOf(np, payload))
  {
  }

  // ----- where the search of nextRequest ends -----

  /** No cached piece is so long that the search for a block to ask for may go round for ever, and no new one will be. */
  ghost predicate Searchable(env: Env, rs: Requests) {
    env.Ok() && forall i :: i in rs ==> rs[i].length <= WRAPPING
  }

  lemma SearchableAsk(env: Env, rs: Requests, idx: u32)
    requires Searchable(env, rs)
    ensures SearchEnds(Protocol.Visit(env, rs, idx)) && Searchable(env, Protocol.AskPiece(env, rs, idx).0)
  {
    PieceFits(env.info, idx);
  }

  lemma CachedSearchable<P>(env: Env, s: State<P>)
    requires Inv(env, s)
    ensures Searchable(env, s.tracker.requests)
  {
    forall i | i in s.tracker.requests
      ensures s.tracker.requests[i].length <= WRAPPING
    {
      assert CachedOk(env, s.tracker.flat, i, s.tracker.requests[i]);
      PieceInside(env.info, i);
    }
  }

  // ----- rarest first: counting over a list of bitfields, and over the connections -----

  function AsSet(s: seq<u32>): set<nat> {
    set k | k in s :: k as nat
  }

  lemma SameSet(exclude: seq<u32>, rs: Requests)
    requires forall k: u32 :: k in exclude <==> k as nat in PendingPieces(rs)
    ensures AsSet(exclude) == PendingPieces(rs)
  {
    forall k | k in PendingPieces(rs)
      ensures k in AsSet(exclude)
    {
      var i: u32 :| i in rs && rs[i].pending != {} && i as nat == k;
      assert i in exclude;
    }
  }

  lemma NextFromLast(env: Env, rs: Requests, last: Option<PieceRequest>, pick: Option<u32>)
    ensures var (rs1, r1) := AskLast(env, rs, last);
            && (r1.Some? ==> Protocol.NextRequest(env, rs, last, pick) == (rs1, r1))
            && (r1.None? ==> Protocol.NextRequest(env, rs, last, pick) == AskPicked(env, rs1, pick))
  {
  }

  function AskPicked(env: Env, rs: Requests, pick: Option<u32>): (Requests, Option<PieceRequest>) {
    if pick.None? then (rs, None) else Protocol.AskPiece(env, rs, pick.value)
  }

  /** The connections that are no longer in `todo` and have piece `i`. */
  function Havers<P>(peers: map<P, Peer>, todo: set<P>, i: nat): set<P> {
    set q | q in peers && q !in todo && HasPiece(peers[q], i)
  }

  /** `vs` counts, for every piece, the connections that are no longer in `todo`. */
  ghost predicate Counted<P>(peers: map<P, Peer>, todo: set<P>, vs: seq<Bits>) {
    forall i: nat :: CountIn(vs, i) == |Havers(peers, todo, i)|
  }

  lemma CountedStart<P>(peers: map<P, Peer>)
    ensures Counted(peers, peers.Keys, [])
  {
    forall i: nat
      ensures Havers(peers, peers.Keys, i) == {}
    {
    }
  }

  lemma CountedStep<P>(peers: map<P, Peer>, todo: set<P>, a: P, vs: seq<Bits>)
    requires Counted(peers, todo, vs) && a in peers && a in todo
    ensures Counted(peers, todo - {a}, if peers[a].bf.Some? then vs + [peers[a].bf.value] else vs)
  {
    var vs' := if peers[a].bf.Some? then vs + [peers[a].bf.value] else vs;
    forall i: nat
      ensures CountIn(vs', i) == |Havers(peers, todo - {a}, i)|
    {
      if peers[a].bf.Some? {
        assert vs'[..|vs|] == vs;
      }
      if HasPiece(peers[a], i) {
        assert Havers(peers, todo - {a}, i) == Havers(peers, todo, i) + {a};
      } else {
        assert Havers(peers, todo - {a}, i) == Havers(peers, todo, i);
      }
    }
  }

  lemma FewerLeft<P>(all: set<P>, todo: set<P>, a: P)
    requires a in todo && todo <= all
    ensures |all - (todo - {a})| == |all - todo| + 1
  {
    assert all - (todo - {a}) == (all - todo) + {a};
  }

  /** A rarest pick over the collected bitfields is a legal answer of the picker. */
  lemma PickIsLegal<P>(peers: map<P, Peer>, remote: Bits, vs: seq<Bits>, left: set<nat>, excluded: set<nat>, pick: Option<u32>)
    requires Counted(peers, {}, vs) && RarestPick(remote, vs, left, if pick.Some? then Some(pick.value as nat) else None)
    requires forall i :: i in remote.members ==> (i in left <==> i in excluded)
    ensures LegalPick(peers, remote, excluded, pick)
  {
    forall i: nat
      ensures CountIn(vs, i) == Rarity(peers, i)
    {
      assert Havers(peers, {}, i) == set q | q in peers && HasPiece(peers[q], i);
    }
    assert forall i :: Candidate(remote, excluded, i) ==> Candidate(remote, left, i);
  }

  class Torrent {
    const st: FsTorrent
    const pt: PieceTracker
    const maxPeers: nat
    var conns: map<Addr, PeerConn>
    var maxRequests: int
    /** The largest piece window ever set, the connections' values, and the objects they are made of. */
    ghost var maxWindow: int
    ghost var peers: map<Addr, Peer>
    ghost var Repr: set<object>

    // ----- what a torrent stands for -----

    ghost predicate Owned(a: Addr)
      requires a in conns
      reads this, conns[a]
    {
      conns[a] in Repr && conns[a].addr == a && (conns[a].bf != null ==> conns[a].bf in Repr)
    }

    ghost predicate Entry(a: Addr)
      requires a in conns
      reads this, conns[a], conns[a].bf
    {
      Owned(a) && conns[a].Valid() && (conns[a].bf != null ==> conns[a].bf.Length == st.info.Count())
    }

    /** The connections are apart from the tracker and the storage. */
    ghost predicate Separate()
      reads this, pt
    {
      && pt.st == st && Repr !! pt.Repr
      && this !in Repr && st !in Repr && pt !in Repr && st.bf !in Repr && this !in pt.Repr
    }

    ghost predicate Valid()
      reads this, Repr, pt, pt.Repr, st, st.bf
    {
      && Separate() && st.Valid() && pt.Valid() && conns.Keys == peers.Keys
      && forall a :: a in conns ==> conns[a] in Repr && Owned(a) && Entry(a) && Is(conns[a].Value(), peers[a])
    }

    ghost function Fixed(): Env {
      Env(st.info, st.sha1)
    }

    ghost function Model(): State<Addr>
      requires st.FilesValid() && pt.st == st
      reads this, pt, st, st.bf
    {
      State(peers, pt.Model(), maxRequests, maxWindow)
    }

    lemma ModelIs()
      requires st.FilesValid() && pt.st == st
      ensures Is(Model(), State(peers, pt.Model(), maxRequests, maxWindow))
    {
    }

    // ----- frames: one connection changes, the others stay -----

    twostate predicate Same(a: Addr)
      requires a in conns
      reads this, conns[a], conns[a].bf
    {
      && a in old(conns) && conns[a] == old(conns)[a] && unchanged(conns[a]) && (conns[a].bf != null ==> unchanged(conns[a].bf))
    }

    twostate lemma EntryKept(a: Addr)
      requires a in old(conns) && a in conns && old(Owned(a) && Entry(a)) && Same(a) && old(Repr) <= Repr
      ensures Owned(a) && Entry(a) && conns[a].Value() == old(conns[a].Value())
    {
    }

    twostate predicate Still(o: object)
      reads o
    {
      unchanged(o)
    }

    twostate lemma OthersKept(a: Addr)
      requires old(Valid()) && conns.Keys <= old(conns).Keys + {a} && old(Repr) <= Repr
      requires forall b :: b in conns && b != a ==> b in old(conns) && conns[b] == old(conns)[b]
      requires forall b :: b in conns && b != a ==> b in peers && Is(peers[b], old(peers)[b])
      requires forall o: object :: o in old(Repr) && (a in old(conns) ==> o != old(conns)[a] && o != old(conns[a].bf)) ==> unchanged(o)
      ensures forall b :: b in conns && b != a ==> conns[b] in Repr && Owned(b) && Entry(b) && Is(conns[b].Value(), peers[b])
    {
      forall b | b in conns && b != a
        ensures conns[b] in Repr && Owned(b) && Entry(b) && Is(conns[b].Value(), peers[b])
      {
        assert old(Owned(b) && Entry(b));
        assert a in old(conns) ==> old(Owned(a) && Entry(a));
        assert unchanged(conns[b]);
        EntryKept(b);
      }
    }

    /** Where one connection has changed and the others have not, they are all in order. */
    twostate lemma ConnsKept(a: Addr)
      requires old(Valid()) && a in conns && conns == old(conns) && old(Repr) <= Repr
      requires Entry(a) && Is(peers, old(peers)[a := conns[a].Value()])
      requires forall o: object :: o in old(Repr) && o != conns[a] && o != old(conns[a].bf) ==> unchanged(o)
      ensures conns.Keys == peers.Keys
      ensures forall b :: b in conns ==> conns[b] in Repr && Owned(b) && Entry(b) && Is(conns[b].Value(), peers[b])
    {
      KeysKept(old(peers), a, conns[a].Value(), peers);
      assert old(Owned(a));
      OthersKept(a);
    }

    /** The storage and the settings have not changed. */
    twostate predicate Settled()
      reads this, st, st.bf, pt
    {
      && unchanged(st) && unchanged(st.bf) && pt.unchecked == old(pt.unchecked)
      && maxRequests == old(maxRequests) && maxWindow == old(maxWindow)
    }

    /** Of all the model, only the connections and the tracker's requests have changed. */
    twostate predicate Moves()
      reads this, pt, st, st.bf
    {
      && st.FilesValid() && pt.st == st && old(st.FilesValid())
      && Is(Model(), Moved(old(Model()), peers, pt.view))
    }

    twostate lemma OnlyMoved()
      requires st.FilesValid() && pt.st == st && Settled()
      ensures Moves()
    {
    }

    /** A connection, its bitfield and the tracker's pieces have changed. */
    twostate lemma OneChanged(a: Addr)
      requires old(Valid()) && a in conns && conns == old(conns) && Repr == old(Repr) && conns[a].bf == old(conns[a].bf)
      requires pt.Valid() && fresh(pt.Repr - old(pt.Repr)) && pt.unchecked == old(pt.unchecked)
      requires Entry(a) && Is(peers, old(peers)[a := conns[a].Value()])
      requires maxRequests == old(maxRequests) && maxWindow == old(maxWindow)
      requires forall o: object :: old(allocated(o)) && o !in old(pt.Repr + {this, pt}) && o != conns[a] && o != conns[a].bf ==>
                                     Still(o)
      ensures Valid() && Moves()
    {
      assert old(Owned(a) && Entry(a));
      assert Still(st) && Still(st.bf);
      forall o: object | o in old(Repr) && o != conns[a] && o != old(conns[a].bf)
        ensures unchanged(o)
      {
        assert Still(o);
      }
      ConnsKept(a);
      OnlyMoved();
    }

    /** Where only a connection and its bitfield may have changed, the tracker and the storage have not. */
    twostate lemma RestKept(a: Addr)
      requires old(Valid()) && a in conns && conns == old(conns)
      requires forall o: object :: old(allocated(o)) && o != this && o != conns[a] && o != conns[a].bf ==> Still(o)
      requires conns[a].bf != null ==> conns[a].bf == old(conns[a].bf) || fresh(conns[a].bf)
      ensures st.Valid() && pt.Valid() && unchanged(pt) && unchanged(st) && unchanged(st.bf)
      ensures forall o: object :: o in old(Repr) && o != conns[a] && o != old(conns[a].bf) ==> unchanged(o)
    {
      assert old(Owned(a) && Entry(a));
      assert Still(pt) && Still(st) && Still(st.bf);
      forall o: object | o in old(pt.Repr) || (o in old(Repr) && o != conns[a] && o != old(conns[a].bf))
        ensures unchanged(o)
      {
        assert Still(o);
      }
    }

    /** Only a connection and its bitfield have changed. */
    twostate lemma PeerChanged(a: Addr)
      requires old(Valid()) && a in conns && conns == old(conns) && old(Repr) <= Repr && fresh(Repr - old(Repr))
      requires Entry(a) && Is(peers, old(peers)[a := conns[a].Value()])
      requires conns[a].bf != null ==> conns[a].bf == old(conns[a].bf) || fresh(conns[a].bf)
      requires maxRequests == old(maxRequests) && maxWindow == old(maxWindow)
      requires forall o: object :: old(allocated(o)) && o != this && o != conns[a] && o != conns[a].bf ==> Still(o)
      ensures Valid() && Moves() && unchanged(pt`view)
    {
      RestKept(a);
      ConnsKept(a);
      OnlyMoved();
    }

    /** The tracker and the storage have changed, the connections have not. */
    twostate lemma NoneChanged()
      requires old(Valid()) && Still(this) && fresh(pt.Repr - old(pt.Repr)) && st.Valid() && pt.Valid()
      requires forall o: object :: old(allocated(o)) && o != this && o != pt && o != st && o != st.bf && o !in old(pt.Repr) ==>
                                     Still(o)
      ensures Valid()
    {
      forall b | b in conns
        ensures conns[b] in Repr && Owned(b) && Entry(b) && Is(conns[b].Value(), peers[b])
      {
        assert old(Owned(b) && Entry(b));
        assert Still(conns[b]) && (conns[b].bf != null ==> Still(conns[b].bf));
        EntryKept(b);
      }
    }

    /** Nothing but the tracker's requests has changed. */
    twostate predicate Kept()
      reads this, st, st.bf, pt
    {
      unchanged(this) && unchanged(st) && unchanged(st.bf) && pt.unchecked == old(pt.unchecked)
    }

    twostate lemma OneGone(a: Addr)
      requires old(Valid()) && a in old(conns) && Is(conns, old(conns) - {a}) && Is(peers, old(peers) - {a})
      requires Repr == old(Repr) && forall o: object :: old(allocated(o)) && o != this ==> Still(o)
      ensures Valid()
    {
      StorageKept();
      OthersKept(a);
    }

    /** Only the torrent's own fields have changed. */
    twostate lemma StorageKept()
      requires old(Valid()) && forall o: object :: old(allocated(o)) && o != this ==> Still(o)
      ensures st.Valid() && pt.Valid() && unchanged(pt) && unchanged(st) && unchanged(st.bf)
      ensures forall o: object :: o in old(Repr) ==> unchanged(o)
    {
      assert Still(pt) && Still(st) && Still(st.bf);
      forall o: object | o in old(pt.Repr) || o in old(Repr)
        ensures unchanged(o)
      {
        assert Still(o);
      }
    }

    /** Where one connection is new and the others have not changed, they are all in order. */
    twostate lemma ConnsMore(a: Addr)
      requires old(Valid()) && a !in old(conns) && a in conns && fresh(conns[a]) && Entry(a)
      requires Is(conns, old(conns)[a := conns[a]]) && Is(peers, old(peers)[a := conns[a].Value()]) && old(Repr) <= Repr
      requires forall o: object :: o in old(Repr) ==> unchanged(o)
      ensures conns.Keys == peers.Keys
      ensures forall b :: b in conns ==> conns[b] in Repr && Owned(b) && Entry(b) && Is(conns[b].Value(), peers[b])
    {
      OthersKept(a);
    }

    twostate lemma OneNew(a: Addr)
      requires old(Valid()) && a !in old(conns) && a in conns && fresh(conns[a]) && Entry(a) && conns[a].bf == null
      requires Is(conns, old(conns)[a := conns[a]]) && Is(peers, old(peers)[a := conns[a].Value()]) && Repr == old(Repr) + {conns[a]}
      requires forall o: object :: old(allocated(o)) && o != this ==> Still(o)
      requires maxRequests == old(maxRequests) && maxWindow == old(maxWindow)
      ensures Valid() && Moves() && unchanged(pt`view)
    {
      StorageKept();
      ConnsMore(a);
      OnlyMoved();
    }

    constructor (st: FsTorrent, maxRequests: int, maxPeers: nat)
      requires st.Valid()
      ensures Valid() && fresh(pt) && this.st == st && this.maxPeers == maxPeers && conns == map[] && Repr == {} && pt.Repr == {}
      ensures Model() == Safety.Start(Fixed(), st.Contents(), st.bf.Value().members, maxRequests)
    {
      this.st, this.maxPeers := st, maxPeers;
      pt := new PieceTracker(st);
      conns, this.maxRequests := map[], maxRequests;
      maxWindow, peers, Repr := maxRequests, map[], {};
    }

    // ----- what happens on one connection -----

    method Unchoked(a: Addr)
      requires Valid() && a in conns
      modifies this`peers, Repr
      ensures Valid() && Moves() && unchanged(pt`view)
      ensures peers == old(peers)[a := Unchoking(Fixed(), old(st.bf.Value().members), old(peers)[a])]
    {
      var c := conns[a];
      ghost var q := Unchoking(Fixed(), st.bf.Value().members, peers[a]);
      assert Owned(a) && Entry(a) && Is(c.Value(), peers[a]);
      c.RemoteUnchoke(st);
      assert c.Value() == q && this !in Repr;
      peers := peers[a := c.Value()];
      PeerChanged(a);
    }

    method HasBits(a: Addr, payload: seq<bv8>)
      requires Valid() && a in conns
      modifies this`peers, this`Repr, Repr
      ensures Valid() && Moves() && unchanged(pt`view)
      ensures peers
           == old(peers)[a := Begun(Protocol.WithBits(Fixed(), old(st.bf.Value().members), old(peers)[a], BitsOf(st.info.Count(), payload)),
                                    old(peers)[a])]
    {
      var c := conns[a];
      ghost var q := Begun(Protocol.WithBits(Fixed(), st.bf.Value().members, peers[a], BitsOf(st.info.Count(), payload)),
                           peers[a]);
      assert Owned(a) && Entry(a) && Is(c.Value(), peers[a]);
      c.InboundBitfield(st, payload);
      Repr := Repr + {c.bf};
      assert c.Value() == q && this !in Repr;
      peers := peers[a := c.Value()];
      PeerChanged(a);
    }

    method HasOne(a: Addr, idx: u32)
      requires Valid() && a in conns
      modifies this`peers, Repr
      ensures Valid() && Moves() && unchanged(pt`view)
      ensures peers == old(peers)[a := HeardHave(Fixed(), old(st.bf.Value().members), old(peers)[a], idx)]
    {
      var c := conns[a];
      ghost var q := HeardHave(Fixed(), st.bf.Value().members, peers[a], idx);
      assert Owned(a) && Entry(a) && Is(c.Value(), peers[a]);
      c.InboundHave(st, idx);
      assert c.Value() == q && this !in Repr;
      peers := peers[a := c.Value()];
      PeerChanged(a);
    }

    method Tell(a: Addr, idx: u32)
      requires Valid() && a in conns
      modifies this`peers, Repr
      ensures Valid() && peers == old(peers)[a := Told(Fixed(), old(st.bf.Value().members), old(peers)[a], idx)]
    {
      var c := conns[a];
      ghost var q := Told(Fixed(), st.bf.Value().members, peers[a], idx);
      assert Owned(a) && Entry(a) && Is(c.Value(), peers[a]);
      c.TellHave(st, idx);
      assert c.Value() == q && this !in Repr;
      peers := peers[a := c.Value()];
      PeerChanged(a);
    }

    method CancelOn(a: Addr, idx: u32)
      requires Valid() && a in conns
      modifies this`peers, Repr
      ensures Valid() && peers == old(peers)[a := Protocol.CancelPiece(old(peers)[a], idx)]
    {
      var c := conns[a];
      ghost var q := Protocol.CancelPiece(peers[a], idx);
      assert Owned(a) && Entry(a) && Is(c.Value(), peers[a]);
      c.CancelPiece(idx);
      assert c.Value() == q && this !in Repr;
      peers := peers[a := c.Value()];
      PeerChanged(a);
    }

    method SetOn(a: Addr, n: int)
      requires Valid() && a in conns
      modifies this`peers, Repr
      ensures Valid() && peers == old(peers)[a := Windowed(old(peers)[a], n)]
    {
      var c := conns[a];
      ghost var q := Windowed(peers[a], n);
      assert Owned(a) && Entry(a) && Is(c.Value(), peers[a]);
      c.SetMaxRequests(n);
      assert c.Value() == q && this !in Repr;
      peers := peers[a := c.Value()];
      PeerChanged(a);
    }

    method SendOn(a: Addr, m: Msg)
      requires Valid() && a in conns
      modifies this`peers, Repr
      ensures Valid() && Moves() && unchanged(pt`view)
      ensures peers == old(peers)[a := Sending(old(peers)[a], m)]
    {
      var c := conns[a];
      ghost var q := Sending(peers[a], m);
      assert Owned(a) && Entry(a) && Is(c.Value(), peers[a]);
      c.Send(m);
      assert c.Value() == q && this !in Repr;
      peers := peers[a := c.Value()];
      PeerChanged(a);
    }

    method CloseOn(a: Addr)
      requires Valid() && a in conns
      modifies this`peers, Repr
      ensures Valid() && Moves() && unchanged(pt`view)
      ensures peers == old(peers)[a := Closing(old(peers)[a])]
    {
      var c := conns[a];
      ghost var q := Closing(peers[a]);
      assert Owned(a) && Entry(a) && Is(c.Value(), peers[a]);
      c.Close();
      assert c.Value() == q && this !in Repr;
      peers := peers[a := c.Value()];
      PeerChanged(a);
    }

    method QueueOn(a: Addr, r: PieceRequest)
      requires Valid() && a in conns
      modifies this`peers, Repr
      ensures Valid() && peers == old(peers)[a := Queued(old(peers)[a], r)]
    {
      var c := conns[a];
      ghost var q := Queued(peers[a], r);
      assert Owned(a) && Entry(a) && Is(c.Value(), peers[a]);
      c.QueueDownload(r);
      assert c.Value() == q && this !in Repr;
      peers := peers[a := c.Value()];
      PeerChanged(a);
    }

    method Choke(a: Addr)
      requires Valid() && a in conns
      modifies this`peers, Repr, pt`requests, pt`view, pt`Repr, pt.Repr
      ensures Valid() && Moves()
      ensures pt.view == CancelAll(Fixed(), old(pt.view), old(peers)[a].downloading)
      ensures peers == old(peers)[a := Emptied(old(peers)[a])]
    {
      var c := conns[a];
      ghost var v := peers[a];
      assert Owned(a) && Entry(a) && Is(c.Value(), v);
      peers := peers[a := Emptied(v)];
      assert Is(c.Value(), v);
      c.RemoteChoke(pt);
      assert Is(c.Value(), Emptied(v));
      OneChanged(a);
    }

    method Write(a: Addr) returns (written: Option<Msg>)
      requires Valid() && a in conns
      modifies this`peers, Repr, pt`requests, pt`view, pt`Repr, pt.Repr
      ensures Valid() && Moves()
      ensures pt.view == TakenRequests(Fixed(), old(pt.view), old(peers)[a])
      ensures peers == old(peers)[a := TakenPeer(old(peers)[a])]
      ensures written == WrittenNext(old(peers)[a])
    {
      var c := conns[a];
      ghost var v := peers[a];
      assert Owned(a) && Entry(a) && Is(c.Value(), v);
      peers := peers[a := TakenPeer(v)];
      assert Is(c.Value(), v);
      written := c.WriteNext(pt);
      assert Is(c.Value(), TakenPeer(v));
      OneChanged(a);
    }

    method ShutOn(a: Addr)
      requires Valid() && a in conns
      modifies this`peers, Repr, pt`requests, pt`view, pt`Repr, pt.Repr
      ensures Valid() && Moves() && peers == old(peers)[a := ShutDown(old(peers)[a])]
      ensures pt.view == CancelAll(Fixed(), old(pt.view), old(peers)[a].downloading)
    {
      var c := conns[a];
      ghost var v := peers[a];
      assert Owned(a) && Entry(a) && Is(c.Value(), v);
      peers := peers[a := ShutDown(v)];
      assert Is(c.Value(), v);
      c.DoClose(pt);
      assert Is(c.Value(), ShutDown(v));
      OneChanged(a);
    }

    method Remove(a: Addr)
      requires Valid() && a in conns
      modifies this`conns, this`peers
      ensures Valid() && Settled() && conns == old(conns) - {a} && peers == old(peers) - {a}
    {
      conns := conns - {a};
      peers := peers - {a};
      OneGone(a);
    }

    /** The accepting branch of onNewPeer. */
    method Add(a: Addr, ext: bool)
      requires Valid() && a !in conns
      modifies this`conns, this`peers, this`Repr
      ensures Valid() && Moves() && unchanged(pt`view)
      ensures peers == old(peers)[a := Sending(NewPeer(maxRequests, ext), OurBitfield)]
    {
      var c := new PeerConn(a, maxRequests, ext);
      c.Send(OurBitfield);
      Repr := Repr + {c};
      conns := conns[a := c];
      peers := peers[a := c.Value()];
      OneNew(a);
    }

    method OfferOn(a: Addr, d: PieceData)
      returns (kept: seq<PieceRequest>, ghost w: WriteResult, ghost v: Verdict, announce: bool)
      requires Valid() && st.WritesWhole() && a in conns && Offerable(st.info, pt.view, peers[a], d)
      modifies pt, pt.Repr, st`disk, st.bf
      ensures Valid() && unchanged(this) && fresh(pt.Repr - old(pt.Repr))
      ensures kept == Keep(peers[a].downloading, MatchedBy(d, false))
      ensures Receipt(Fixed(), st.reliable, old(pt.Model()), peers[a], d, w, v, announce, pt.Model())
    {
      var c := conns[a];
      assert Owned(a) && Entry(a) && Is(c.Value(), peers[a]);
      kept, w, v, announce := c.Offer(d, pt);
      NoneChanged();
    }

    method RetainOn(a: Addr, kept: seq<PieceRequest>)
      requires Valid() && a in conns
      modifies this`peers, Repr
      ensures Valid() && peers == old(peers)[a := old(peers)[a].(downloading := kept)]
      ensures maxRequests == old(maxRequests) && maxWindow == old(maxWindow)
    {
      var c := conns[a];
      assert Owned(a) && Entry(a) && Is(c.Value(), peers[a]);
      c.Retain(kept);
      peers := peers[a := c.Value()];
      PeerChanged(a);
    }

    // ----- what happens on every connection -----

    /** broadcastHave */
    method BroadcastHave(idx: u32)
      requires Valid()
      modifies this`peers, Repr
      ensures Valid() && peers == Broadcast(Fixed(), old(peers), st.bf.Value().members, idx)
      ensures maxRequests == old(maxRequests) && maxWindow == old(maxWindow) && Traffic.Reached(old(peers), peers, idx)
    {
      Traffic.BroadcastReaches(Fixed(), peers, st.bf.Value().members, idx);
      var todo := conns.Keys;
      ghost var owned := st.bf.Value().members;
      ToldEnds(Fixed(), peers, owned, idx);
      while todo != {}
        invariant Valid() && todo <= conns.Keys && st.bf.Value().members == owned
        invariant peers == ToldExcept(Fixed(), old(peers), owned, idx, todo)
      {
        var a :| a in todo;
        ToldStep(Fixed(), old(peers), owned, idx, todo, a);
        todo := todo - {a};
        Tell(a, idx);
      }
    }

    /** The part of the expiry that VisitPeers does. */
    method CancelEverywhere(idx: u32)
      requires Valid()
      modifies this`peers, Repr
      ensures Valid() && peers == AllCancel(old(peers), idx) && Settled()
    {
      var todo := conns.Keys;
      CancelPieceEnds(peers, idx);
      while todo != {}
        invariant Valid() && todo <= conns.Keys
        invariant peers == CancelExcept(old(peers), idx, todo)
      {
        var a :| a in todo;
        CancelPieceStep(old(peers), idx, todo, a);
        todo := todo - {a};
        CancelOn(a, idx);
      }
    }

    method SetEverywhere(n: int)
      requires Valid()
      modifies this`peers, Repr
      ensures Valid() && peers == AllWindows(old(peers), n)
    {
      var todo := conns.Keys;
      WindowedEnds(peers, n);
      while todo != {}
        invariant Valid() && todo <= conns.Keys
        invariant peers == WindowedExcept(old(peers), n, todo)
      {
        var a :| a in todo;
        WindowedStep(old(peers), n, todo, a);
        todo := todo - {a};
        SetOn(a, n);
      }
    }

    // ----- what happens to the tracker alone -----

    method Ask(idx: u32) returns (r: Option<PieceRequest>)
      requires Valid() && Searchable(Fixed(), pt.view)
      modifies pt`requests, pt`view, pt`Repr, pt.Repr
      ensures Valid() && fresh(pt.Repr - old(pt.Repr))
      ensures Kept() && Searchable(Fixed(), pt.view)
      ensures (pt.view, r) == Protocol.AskPiece(Fixed(), old(pt.view), idx)
    {
      SearchableAsk(Fixed(), pt.view, idx);
      r := pt.AskPiece(idx);
      NoneChanged();
    }

    method Zero(idx: u32)
      requires Valid() && idx in pt.requests
      modifies pt`view, pt.Repr
      ensures Valid() && idx in old(pt.view) && pt.view == old(pt.view)[idx := old(pt.view)[idx].(pending := {})]
      ensures Kept()
    {
      pt.ZeroPending(idx);
      NoneChanged();
    }

    // ----- choosing the next request -----

    /** The visitor of getRarestPiece: one connection's bitfield, if it has one. */
    method CollectOne(a: Addr, ghost todo: set<Addr>, others: seq<Bitfield>) returns (swarm: seq<Bitfield>)
      requires Valid() && a in conns && a in todo && Counted(peers, todo, ValuesOf(others))
      ensures Valid() && |swarm| <= |others| + 1 && Counted(peers, todo - {a}, ValuesOf(swarm))
    {
      assert Owned(a) && Entry(a) && Is(conns[a].Value(), peers[a]);
      CountedStep(peers, todo, a, ValuesOf(others));
      swarm := others;
      if conns[a].bf != null {
        var b: Bitfield := conns[a].bf;
        ValuesAppend(others, b);
        swarm := others + [b];
      }
    }

    /** The bitfields getRarestPiece collects, whatever order the connections are visited in. */
    method CollectBits() returns (swarm: seq<Bitfield>)
      requires Valid()
      ensures Valid() && |swarm| <= |conns| && Counted(peers, {}, ValuesOf(swarm))
    {
      swarm := [];
      var todo := conns.Keys;
      CountedStart(peers);
      while todo != {}
        invariant Valid() && todo <= conns.Keys && |swarm| <= |conns.Keys - todo|
        invariant Counted(peers, todo, ValuesOf(swarm))
      {
        var a :| a in todo;
        FewerLeft(conns.Keys, todo, a);
        swarm := CollectOne(a, todo, swarm);
        todo := todo - {a};
      }
    }

    /** getRarestPiece */
    method GetRarestPiece(remote: Bitfield, exclude: seq<u32>) returns (idx: u32, has: bool)
      requires Valid() && remote.Length == st.info.Count() && |conns| < U32_MOD - 1
      ensures LegalPick(peers, remote.Value(), st.bf.Value().members + AsSet(exclude), if has then Some(idx) else None)
      ensures Valid() && (has ==> idx < st.info.Count())
    {
      var swarm := CollectBits();
      var owned, length := st.bf.Data, st.bf.Length;
      var excluded := (k: u32) => HasBit(length, owned, k) || k in exclude;
      idx, has := remote.FindRarest(swarm, excluded);
      PickIsLegal(peers, remote.Value(), ValuesOf(swarm), remote.Excluded(excluded),
                  st.bf.Value().members + AsSet(exclude), if has then Some(idx) else None);
    }

    /** NextRequest: another block of the piece asked for last, or else one of a piece picked now. */
    method NextRequest(a: Addr) returns (r: Option<PieceRequest>, ghost pick: Option<u32>)
      requires Valid() && a in conns && conns[a].bf != null && |conns| < U32_MOD - 1
      requires Searchable(Fixed(), pt.view)
      modifies pt`requests, pt`view, pt`Repr, pt.Repr
      ensures Valid() && Kept()
      ensures (pt.view, r) == Protocol.NextRequest(Fixed(), old(pt.view), peers[a].lastRequest, pick)
      ensures var (rs, r1) := AskLast(Fixed(), old(pt.view), peers[a].lastRequest);
              if r1.Some? then pick == None
              else LegalPick(old(peers), old(conns[a].bf.Value()), old(st.bf.Value().members) + PendingPieces(rs), pick)
    {
      pick := None;
      r := AskForLast(a);
      NextFromLast(Fixed(), old(pt.view), peers[a].lastRequest, pick);
      if r.None? {
        assert Is(st.bf.Value().members, old(st.bf.Value().members)) && Is(conns[a].bf.Value(), old(conns[a].bf.Value()));
        var picked := Pick(a);
        pick := picked;
        r := AskForPicked(picked);
        NextFromLast(Fixed(), old(pt.view), peers[a].lastRequest, pick);
      }
    }

    /** The first half of NextRequest. */
    method AskForLast(a: Addr) returns (r: Option<PieceRequest>)
      requires Valid() && a in conns && Searchable(Fixed(), pt.view)
      modifies pt`requests, pt`view, pt`Repr, pt.Repr
      ensures Valid() && fresh(pt.Repr - old(pt.Repr)) && (conns[a].bf != null ==> unchanged(conns[a].bf))
      ensures Kept() && Searchable(Fixed(), pt.view)
      ensures (pt.view, r) == AskLast(Fixed(), old(pt.view), peers[a].lastRequest)
    {
      var c := conns[a];
      assert Owned(a) && Entry(a) && Is(c.Value(), peers[a]);
      r := None;
      if c.lastRequest.Some? {
        r := Ask(c.lastRequest.value.index);
      }
    }

    /** The end of NextRequest: a block of the picked piece, if one was picked. */
    method AskForPicked(pick: Option<u32>) returns (r: Option<PieceRequest>)
      requires Valid() && Searchable(Fixed(), pt.view)
      modifies pt`requests, pt`view, pt`Repr, pt.Repr
      ensures Valid() && fresh(pt.Repr - old(pt.Repr))
      ensures Kept()
      ensures (pt.view, r) == AskPicked(Fixed(), old(pt.view), pick)
    {
      if pick.None? {
        return None;
      }
      r := Ask(pick.value);
    }

    /** Asks the picker, leaving out the pieces with pending blocks. */
    method Pick(a: Addr) returns (pick: Option<u32>)
      requires Valid() && a in conns && conns[a].bf != null && |conns| < U32_MOD - 1
      ensures LegalPick(peers, conns[a].bf.Value(), st.bf.Value().members + PendingPieces(pt.view), pick)
      ensures Valid()
    {
      var exclude := pt.PendingPieces();
      SameSet(exclude, pt.view);
      assert Owned(a) && Entry(a);
      var idx, has := GetRarestPiece(conns[a].bf, exclude);
      pick := if has then Some(idx) else None;
    }

    // ----- the inbound messages and the other steps of the protocol -----

    /** In order, and the invariant of the protocol holds. */
    ghost predicate Ready()
      reads this, Repr, pt, pt.Repr, st, st.bf
    {
      Valid() && Inv(Fixed(), Model())
    }

    /** NeedsPeers */
    predicate NeedsPeers()
      reads this
    {
      |conns| <= maxPeers
    }

    method Accept(a: Addr, ext: bool)
      requires Ready() && a !in conns
      modifies this`conns, this`peers, this`Repr
      ensures Ready() && Model() == Next(Fixed(), old(Model()), Connect(a, ext))
    {
      ghost var s := Model();
      Add(a, ext);
      PeerStep(Fixed(), s, Connect(a, ext), a, peers[a], peers);
    }

    /**
     * A new connection is sent our bitfield. One whose address is known already is turned away, and so are all once
     * there are more than `maxPeers`.
     */
    method OnNewPeer(a: Addr, ext: bool) returns (added: bool)
      requires Ready()
      modifies this`conns, this`peers, this`Repr
      ensures Ready() && added == (a !in old(conns) && |old(conns)| <= maxPeers)
      ensures added ==> Model() == Next(Fixed(), old(Model()), Connect(a, ext))
      ensures !added ==> unchanged(this)
    {
      if a in conns || !NeedsPeers() {
        return false;
      }
      Accept(a, ext);
      added := true;
    }

    method GotBitfield(a: Addr, payload: seq<bv8>)
      requires Ready() && a in conns
      modifies this`peers, this`Repr, Repr
      ensures Ready()
      ensures Model() == Next(Fixed(), old(Model()), Step.GotBitfield(a, BitsOf(st.info.Count(), payload)))
    {
      PayloadOk(st.info.Count(), payload);
      ghost var s := Model();
      HasBits(a, payload);
      PeerStep(Fixed(), s, Step.GotBitfield(a, BitsOf(st.info.Count(), payload)), a, peers[a], peers);
    }

    method GotHave(a: Addr, idx: u32)
      requires Ready() && a in conns
      modifies this`peers, Repr
      ensures Ready() && Model() == Next(Fixed(), old(Model()), Step.GotHave(a, idx))
    {
      ghost var s := Model();
      HasOne(a, idx);
      PeerStep(Fixed(), s, Step.GotHave(a, idx), a, peers[a], peers);
    }

    method GotChoke(a: Addr)
      requires Ready() && a in conns
      modifies this`peers, Repr, pt`requests, pt`view, pt`Repr, pt.Repr
      ensures Ready() && Model() == Next(Fixed(), old(Model()), Step.GotChoke(a))
      ensures peers[a].choking && peers[a].downloading == []
    {
      ghost var s := Model();
      Choke(a);
      ChokedStep(Fixed(), s, a, pt.view, peers);
    }

    method GotUnchoke(a: Addr)
      requires Ready() && a in conns
      modifies this`peers, Repr
      ensures Ready() && Model() == Next(Fixed(), old(Model()), Step.GotUnchoke(a)) && !peers[a].choking
    {
      ghost var s := Model();
      Unchoked(a);
      PeerStep(Fixed(), s, Step.GotUnchoke(a), a, peers[a], peers);
    }

    method SendOther(a: Addr)
      requires Ready() && a in conns
      modifies this`peers, Repr
      ensures Ready() && Model() == Next(Fixed(), old(Model()), Step.SendOther(a))
    {
      ghost var s := Model();
      SendOn(a, Other);
      PeerStep(Fixed(), s, Step.SendOther(a), a, peers[a], peers);
    }

    method BeginClose(a: Addr)
      requires Ready() && a in conns
      modifies this`peers, Repr
      ensures Ready() && Model() == Next(Fixed(), old(Model()), Step.BeginClose(a)) && peers[a].closing
    {
      ghost var s := Model();
      CloseOn(a);
      PeerStep(Fixed(), s, Step.BeginClose(a), a, peers[a], peers);
    }

    /**
     * inboundMessage, a piece: gotDownload, and the announcement in which handlePieceData may end. `w` and `v` are
     * what the storage made of the block and of the piece; an announced piece is owned, and its bytes are good. A driver
     * whose reads succeed leaves no piece unchecked.
     */
    method GotPiece(a: Addr, d: PieceData) returns (ghost w: WriteResult, ghost v: Verdict, announced: bool)
      requires Ready() && st.WritesWhole() && a in conns && |d.data| < U32_MOD
      modifies this`peers, Repr, pt, pt.Repr, st`disk, st.bf
      ensures Ready() && Enabled(Fixed(), old(Model()), Step.GotPiece(a, d, w, v))
      ensures Model() == Next(Fixed(), old(Model()), Step.GotPiece(a, d, w, v))
      ensures announced ==> Announced(Fixed(), pt.Model(), d.index)
      ensures st.reliable ==> !ReadsFail(Fixed(), old(Model()), Step.GotPiece(a, d, w, v)) && pt.unchecked <= old(pt.unchecked)
      ensures announced <==> Traffic.LastBlock(old(Model()), a, d, w, v)
      ensures announced ==> Traffic.Reached(old(Model()).peers, peers, d.index)
    {
      ghost var s := Model();
      MatchOk(Fixed(), s, a, d);
      w, v, announced := TakeIn(a, d);
      ModelIs();
      ReceivedStep(Fixed(), st.reliable, s, a, d, w, v, announced, pt.Model(), peers);
    }

    /** What a message leaves: the step it is was taken, or nothing happened. */
    twostate predicate Took(new step: Option<Step<Addr>>)
      requires old(Ready()) && Ready()
      reads this, Repr, pt, pt.Repr, st, st.bf
    {
      if step.None? then Model() == old(Model())
      else Enabled(Fixed(), old(Model()), step.value) && Model() == Next(Fixed(), old(Model()), step.value)
    }

    /** inboundMessage, for the messages that matter to the download. */
    method Inbound(a: Addr, msg: seq<byte>) returns (ghost step: Option<Step<Addr>>)
      requires Ready() && st.WritesWhole() && a in conns && Wire.IsFrame(msg)
      modifies this`peers, this`Repr, Repr, pt, pt.Repr, st`disk, st.bf
      ensures Ready() && (step.None? <==> Ignored(msg)) && Took(step)
      ensures step.Some? ==> IsStepOf(st.info.Count(), a, msg, step.value)
    {
      step := None;
      if Wire.KeepAlive(msg) {
        return;
      }
      Wire.FrameOfParts(msg);
      if Wire.MessageID(msg) == Wire.BITFIELD {
        ghost var bits := BitsOf(st.info.Count(), Packed(Wire.Payload(msg)));
        PayloadOk(st.info.Count(), Packed(Wire.Payload(msg)));
        GotBitfield(a, Packed(Wire.Payload(msg)));
        return Some(Step.GotBitfield(a, bits));
      }
      if Wire.MessageID(msg) == Wire.CHOKE {
        GotChoke(a);
        return Some(Step.GotChoke(a));
      }
      if Wire.MessageID(msg) == Wire.UNCHOKE {
        GotUnchoke(a);
        return Some(Step.GotUnchoke(a));
      }
      if Wire.MessageID(msg) == Wire.PIECE {
        PieceRead(msg);
        var d := Wire.GetPieceData(msg);
        if d.None? {
          return;
        }
        ghost var w, v;
        var announced;
        w, v, announced := GotPiece(a, d.value);
        return Some(Step.GotPiece(a, d.value, w, v));
      }
      if Wire.MessageID(msg) == Wire.HAVE {
        HaveRead(msg);
        GotHave(a, Wire.GetHave(msg));
        return Some(Step.GotHave(a, Wire.GetHave(msg)));
      }
    }

    /** gotDownload */
    method Absorb(a: Addr, d: PieceData) returns (ghost w: WriteResult, ghost v: Verdict, announce: bool)
      requires Valid() && st.WritesWhole() && a in conns && Offerable(st.info, pt.view, peers[a], d)
      modifies this`peers, Repr, pt, pt.Repr, st`disk, st.bf
      ensures Valid() && fresh(pt.Repr - old(pt.Repr))
      ensures Receipt(Fixed(), st.reliable, old(pt.Model()), old(peers)[a], d, w, v, announce, pt.Model())
      ensures peers == old(peers)[a := Answered(old(peers)[a], d)]
      ensures maxRequests == old(maxRequests) && maxWindow == old(maxWindow)
    {
      var kept;
      kept, w, v, announce := OfferOn(a, d);
      RetainOn(a, kept);
    }

    /** gotDownload with its announcement. */
    method TakeIn(a: Addr, d: PieceData) returns (ghost w: WriteResult, ghost v: Verdict, announce: bool)
      requires Valid() && st.WritesWhole() && a in conns && Offerable(st.info, pt.view, peers[a], d)
      modifies this`peers, Repr, pt, pt.Repr, st`disk, st.bf
      ensures Valid() && Receipt(Fixed(), st.reliable, old(pt.Model()), old(peers)[a], d, w, v, announce, pt.Model())
      ensures peers == AfterData(Fixed(), old(peers), a, d, announce, st.bf.Value().members)
      ensures maxRequests == old(maxRequests) && maxWindow == old(maxWindow)
    {
      w, v, announce := Absorb(a, d);
      if !announce {
        return;
      }
      BroadcastHave(d.index);
    }

    /** tickDownload gets as far as asking for a request. */
    method WantsRequest(a: Addr) returns (yes: bool)
      requires Valid() && a in conns
      ensures Valid() && yes == Asks(Fixed(), Model(), a)
    {
      var c := conns[a];
      assert Owned(a) && Entry(a) && Is(c.Value(), peers[a]);
      var done := st.bf.Completed();
      if !c.runDownload || done {
        return false;
      }
      if !c.usInterested || c.closing || c.peerChoke {
        return false;
      }
      yes := |c.downloading| < c.maxParallelRequests;
    }

    /**
     * tickDownload; `due` says that the wait after a fruitless request is over. A piece the picker names is one we do not
     * own and the peer has, and no block of it is asked for.
     */
    method TickDownload(a: Addr, due: bool) returns (ghost pick: Option<u32>)
      requires Ready() && a in conns && |conns| < U32_MOD - 1
      modifies this`peers, Repr, pt`requests, pt`view, pt`Repr, pt.Repr
      ensures Ready() && Enabled(Fixed(), old(Model()), Step.TickDownload(a, due, pick))
      ensures Model() == Next(Fixed(), old(Model()), Step.TickDownload(a, due, pick))
      ensures pick.Some? ==> Untouched(old(Model()), a, pick.value)
      ensures Traffic.TickDone(Fixed(), old(Model()), Model(), a, due)
    {
      ghost var s := Model();
      var yes := WantsRequest(a);
      if !yes || !due {
        IdleTick(Fixed(), s, a, due, None);
        return None;
      }
      AskerOk(Fixed(), s, a);
      CachedSearchable(Fixed(), s);
      ghost var r;
      r, pick := AskAndQueue(a);
      TickedStep(Fixed(), s, a, pick, pt.view, r, peers);
    }

    /** The end of tickDownload. */
    method AskAndQueue(a: Addr) returns (ghost r: Option<PieceRequest>, ghost pick: Option<u32>)
      requires Valid() && a in conns && peers[a].bf.Some? && |conns| < U32_MOD - 1
      requires Searchable(Fixed(), pt.view)
      modifies this`peers, Repr, pt`requests, pt`view, pt`Repr, pt.Repr
      ensures Valid()
      ensures (pt.view, r) == Protocol.NextRequest(Fixed(), old(pt.view), old(peers)[a].lastRequest, pick)
      ensures var (rs, r1) := AskLast(Fixed(), old(pt.view), old(peers)[a].lastRequest);
              if r1.Some? then pick == None
              else LegalPick(old(peers), old(peers)[a].bf.value, old(st.bf.Value().members) + PendingPieces(rs), pick)
      ensures peers == if r.Some? then old(peers)[a := Queued(old(peers)[a], r.value)] else old(peers)
      ensures Moves()
    {
      assert Owned(a) && Entry(a) && Is(conns[a].Value(), peers[a]);
      var q;
      q, pick := NextRequest(a);
      r := q;
      QueueIfAny(a, q);
      OnlyMoved();
    }

    method QueueIfAny(a: Addr, r: Option<PieceRequest>)
      requires Valid() && a in conns
      modifies this`peers, Repr
      ensures Valid() && peers == if r.Some? then old(peers)[a := Queued(old(peers)[a], r.value)] else old(peers)
      ensures unchanged(st) && unchanged(st.bf) && unchanged(pt) && maxRequests == old(maxRequests) && maxWindow == old(maxWindow)
    {
      if r.Some? {
        QueueOn(a, r.value);
      }
    }

    /** The expiry of one cached piece in tick: its requests are cancelled everywhere, if it has any. */
    method Expire(idx: u32)
      requires Ready() && idx in pt.requests
      modifies this`peers, Repr, pt`view, pt.Repr
      ensures Ready() && unchanged(pt`requests) && Model() == Next(Fixed(), old(Model()), Step.Expire(idx))
    {
      ghost var s := Model();
      ExpirePiece(idx);
      ExpiredStep(Fixed(), s, idx, pt.view, peers);
    }

    /** One more piece expires, after those in `order`. */
    method ExpireNext(idx: u32, ghost s: State<Addr>, ghost order: seq<u32>)
      requires Ready() && idx in pt.requests && Is(Model(), ExpiredAll(Fixed(), s, order))
      modifies this`peers, Repr, pt`view, pt.Repr
      ensures Ready() && unchanged(pt`requests) && Is(Model(), ExpiredAll(Fixed(), s, order + [idx]))
    {
      ExpiredOneMore(Fixed(), s, order, idx);
      Expire(idx);
    }

    /** The visitor of tick's expiry: one cached piece, after those in `order0`. */
    method ExpireIfDue(idx: u32, expired: u32 -> bool, ghost s: State<Addr>, ghost order0: seq<u32>)
      returns (ghost order: seq<u32>)
      requires Ready() && idx in pt.requests && Is(Model(), ExpiredAll(Fixed(), s, order0))
      modifies this`peers, Repr, pt`view, pt.Repr
      ensures Ready() && unchanged(pt`requests) && Is(Model(), ExpiredAll(Fixed(), s, order))
      ensures order == if expired(idx) then order0 + [idx] else order0
    {
      if !expired(idx) {
        return order0;
      }
      ExpireNext(idx, s, order0);
      order := order0 + [idx];
    }

    /** The expiries of tick, for all cached pieces in whatever order the map is walked; `order` lists those that expire. */
    method ExpirePieces(expired: u32 -> bool) returns (ghost order: seq<u32>)
      requires Ready()
      modifies this`peers, Repr, pt`view, pt.Repr
      ensures Ready() && Model() == ExpiredAll(Fixed(), old(Model()), order)
      ensures forall k :: k in order <==> k in old(pt.requests) && expired(k)
    {
      order := [];
      ghost var s := Model();
      var todo := pt.requests.Keys;
      while todo != {}
        invariant Ready() && unchanged(pt`requests) && todo <= pt.requests.Keys
        invariant Is(Model(), ExpiredAll(Fixed(), s, order))
        invariant ListsExpired(order, old(pt.requests).Keys, todo, expired)
      {
        var idx :| idx in todo;
        ListsExpiredStep(order, pt.requests.Keys, todo, expired, idx);
        todo := todo - {idx};
        order := ExpireIfDue(idx, expired, s, order);
      }
    }

    method ExpirePiece(idx: u32)
      requires Valid() && idx in pt.requests
      modifies this`peers, Repr, pt`view, pt.Repr
      ensures Valid() && idx in old(pt.view)
      ensures if old(pt.view)[idx].pending == {} then pt.view == old(pt.view) && peers == old(peers)
              else pt.view == old(pt.view)[idx := old(pt.view)[idx].(pending := {})] && peers == AllCancel(old(peers), idx)
      ensures Moves()
    {
      var any := pt.HasPending(idx);
      if any {
        CancelEverywhere(idx);
        Zero(idx);
      }
      OnlyMoved();
    }

    /** One message leaves the send channel, and is written unless it is a request and the peer chokes us. */
    method TakeFromQueue(a: Addr) returns (written: Option<Msg>)
      requires Ready() && a in conns
      modifies this`peers, Repr, pt`requests, pt`view, pt`Repr, pt.Repr
      ensures Ready() && Model() == Next(Fixed(), old(Model()), Step.TakeFromQueue(a))
      ensures written == WrittenNext(old(Model()).peers[a])
    {
      ghost var s := Model();
      written := Write(a);
      TakenStep(Fixed(), s, a, pt.view, peers);
    }

    method DoClose(a: Addr)
      requires Ready() && a in conns
      modifies this`conns, this`peers, Repr, pt`requests, pt`view, pt`Repr, pt.Repr
      ensures Ready() && Model() == Next(Fixed(), old(Model()), Step.DoClose(a))
    {
      ghost var s := Model();
      Shut(a);
      ClosedStep(Fixed(), s, a, pt.view);
    }

    /** doClose, as far as requests and connections go. */
    method Shut(a: Addr)
      requires Valid() && a in conns
      modifies this`conns, this`peers, Repr, pt`requests, pt`view, pt`Repr, pt.Repr
      ensures Valid() && peers == old(peers) - {a}
      ensures pt.view == CancelAll(Fixed(), old(pt.view), old(peers)[a].downloading)
      ensures Moves()
    {
      ShutOn(a);
      DropUpdated(old(peers), a, peers[a]);
      Remove(a);
      OnlyMoved();
    }

    method SetPieceWindow(n: int)
      requires Ready()
      modifies this`peers, this`maxRequests, this`maxWindow, Repr
      ensures Ready() && Model() == Next(Fixed(), old(Model()), SetWindow(n))
      ensures maxRequests == n && forall b :: b in peers ==> peers[b].window == n
    {
      NextOk(Fixed(), Model(), SetWindow(n));
      SetWindowTo(n);
    }

    method SetWindowTo(n: int)
      requires Valid()
      modifies this`peers, this`maxRequests, this`maxWindow, Repr
      ensures Valid() && pt.Model() == old(pt.Model())
      ensures maxRequests == n && maxWindow == Max(old(maxWindow), n) && peers == AllWindows(old(peers), n)
    {
      maxRequests := n;
      maxWindow := Max(maxWindow, n);
      SetEverywhere(n);
    }

    /** A verification of the whole torrent. */
    method VerifyAll() returns (ghost verdicts: seq<Verdict>)
      requires Ready()
      modifies st`checking, st`seeding, st.bf, pt`unchecked
      ensures Ready() && Enabled(Fixed(), old(Model()), Step.VerifyAll(verdicts))
      ensures Model() == Next(Fixed(), old(Model()), Step.VerifyAll(verdicts))
      ensures st.reliable ==> Unread !in verdicts
    {
      ghost var s := Model();
      verdicts := CheckAll();
      NextOk(Fixed(), s, Step.VerifyAll(verdicts));
    }

    method CheckAll() returns (ghost verdicts: seq<Verdict>)
      requires Valid()
      modifies st`checking, st`seeding, st.bf, pt`unchecked
      ensures Valid() && |verdicts| == st.info.Count() && AllTrue(st.info, st.sha1, old(st.Contents()), verdicts)
      ensures pt.Model() == Checked(Fixed(), old(pt.Model()), verdicts)
      ensures st.reliable ==> Unread !in verdicts
    {
      ghost var t := pt.Model();
      verdicts := st.VerifyAll();
      pt.unchecked := Checked(Fixed(), t, verdicts).unchecked;
      NoneChanged();
    }
  }
}
