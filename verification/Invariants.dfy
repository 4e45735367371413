/** What every step of the download protocol keeps. */
module Invariants {
  import opened Words
  import opened Common
  import opened MetaInfo
  import opened Bitfields
  import opened Storage
  import opened Blocks
  import opened Protocol
  import opened Correspondence
  import opened Assembly

  // ----- what a peer was told -----

  /** The interest messages of a log: true for Interested, false for NotInterested. */
  function InterestLog(log: seq<Msg>): seq<bool> {
    if log == [] then []
    else
      InterestLog(log[..|log| - 1]) +
      match log[|log| - 1]
      case Interested => [true]
      case NotInterested => [false]
      case _ => []
  }

  predicate Alternates(said: seq<bool>) {
    forall j :: 0 <= j < |said| ==> (said[j] <==> j % 2 == 0)
  }

  /** What the last interest message of a log says; silence means no interest. */
  predicate LastSaid(said: seq<bool>) {
    said != [] && said[|said| - 1]
  }

  /** The peer was last told what we believe we told it. */
  predicate Agrees(c: Channel, told: bool) {
    told <==> LastSaid(InterestLog(c.log))
  }

  /**
   * The peer was told what we believe exactly when an even number of interest messages was lost since the last one that
   * was sent; and the messages sent alternate exactly when none was sent after an odd number of lost ones.
   */
  predicate TalkOk(c: Channel, told: bool) {
    && |c.queue| <= SEND_CHAN_LEN
    && c.lapses.gap <= c.lapses.lost && (c.lapses.lost == 0 ==> c.lapses.repeats == 0)
    && (Agrees(c, told) <==> c.lapses.gap % 2 == 0)
    && (Alternates(InterestLog(c.log)) <==> c.lapses.repeats == 0)
  }

  predicate PeerOk(np: nat, p: Peer, maxWindow: int) {
    && (p.choking ==> p.downloading == [])
    && |p.downloading| <= Max(0, maxWindow) && p.window <= maxWindow
    && (p.interested ==> p.bf.Some?) && p.told == p.interested
    && (p.bf.Some? ==> BitsOk(np, p.bf.value))
    && (p.lastRequest.Some? ==> p.lastRequest.value.index < np)
    && TalkOk(p.out, p.told)
  }

  ghost predicate PeersOk<P>(np: nat, peers: map<P, Peer>, maxWindow: int) {
    forall p :: p in peers ==> PeerOk(np, peers[p], maxWindow)
  }

  ghost predicate Inv<P>(env: Env, s: State<P>) {
    && TrackerOk(env, s.tracker)
    && Corresponds(ListsOf(s.peers), s.tracker.requests)
    && PeersOk(env.info.Count(), s.peers, s.maxWindow) && s.window <= s.maxWindow
  }

  // ----- sending -----

  function InterestOf(m: Msg): seq<bool> {
    match m
    case Interested => [true]
    case NotInterested => [false]
    case _ => []
  }

  lemma LogStep(log: seq<Msg>, m: Msg)
    ensures InterestLog(log + [m]) == InterestLog(log) + InterestOf(m)
  {
    assert (log + [m])[..|log|] == log;
  }

  /** Sending anything but an interest message. */
  lemma PushOk(c: Channel, m: Msg, told: bool)
    requires TalkOk(c, told) && !Telling(m)
    ensures TalkOk(Push(c, m), told)
  {
    PushKeepsLog(c, m);
  }

  lemma {:induction false} PushCancelsOk(c: Channel, ds: seq<PieceRequest>, told: bool)
    requires TalkOk(c, told)
    ensures TalkOk(PushCancels(c, ds), told)
  {
    if ds != [] {
      PushCancelsOk(c, ds[..|ds| - 1], told);
      PushOk(PushCancels(c, ds[..|ds| - 1]), CancelMsg(ds[|ds| - 1]), told);
    }
  }

  lemma AlternatesMore(said: seq<bool>, want: bool)
    ensures Alternates(said + [want]) <==> Alternates(said) && (want <==> |said| % 2 == 0)
  {
    assert forall j :: 0 <= j < |said| ==> (said + [want])[j] == said[j];
    assert (said + [want])[|said|] == want;
  }

  /** A message that says something new: the log, if there is room for it. */
  lemma InterestSent(c: Channel, want: bool)
    ensures var c' := PushInterest(c, !want, want);
            if |c.queue| < SEND_CHAN_LEN then InterestLog(c'.log) == InterestLog(c.log) + [want] else c'.log == c.log
  {
    var m := if want then Interested else NotInterested;
    LogStep(c.log, m);
    assert InterestOf(m) == [want];
  }

  lemma LastOfAlternating(said: seq<bool>)
    requires Alternates(said)
    ensures LastSaid(said) <==> |said| % 2 == 1
  {
  }

  /** The books kept for one more message that was sent after `said`. */
  lemma SentOk(said: seq<bool>, told: bool, l: Lapses)
    requires (told <==> LastSaid(said)) <==> l.gap % 2 == 0
    requires Alternates(said) <==> l.repeats == 0
    ensures Alternates(said + [!told]) <==> l.repeats + l.gap % 2 == 0
    ensures LastSaid(said + [!told]) <==> !told
  {
    AlternatesMore(said, !told);
    if Alternates(said) {
      LastOfAlternating(said);
    }
  }

  /** An interest message is only sent when it says something new. */
  lemma PushInterestOk(c: Channel, told: bool, want: bool)
    requires TalkOk(c, told)
    ensures TalkOk(PushInterest(c, told, want), want)
  {
    if want != told {
      InterestSent(c, want);
      if |c.queue| < SEND_CHAN_LEN {
        SentOk(InterestLog(c.log), told, c.lapses);
      }
    }
  }

  /**
   * What one check does to the agreement: a full channel loses the message, so the two disagree afterwards if they agreed
   * before; with room the peer is told the truth, whatever it was told before.
   */
  lemma PushInterestAgrees(c: Channel, told: bool, want: bool)
    ensures Agrees(PushInterest(c, told, want), want)
       <==> if want == told then Agrees(c, told) else |c.queue| < SEND_CHAN_LEN || !Agrees(c, told)
  {
    if want != told {
      InterestSent(c, want);
    }
  }

  /** Any other message leaves what the peer was told as it is, sent or lost. */
  lemma PushKeepsLog(c: Channel, m: Msg)
    requires !Telling(m)
    ensures InterestLog(Push(c, m).log) == InterestLog(c.log) && Push(c, m).lapses == c.lapses
  {
    LogStep(c.log, m);
    assert InterestLog(c.log) + [] == InterestLog(c.log);
  }

  /** checkInterested: the flag is what Wants says, the peer has been told, and only then is a message sent. */
  lemma CheckInterestedOk(np: nat, owned: set<nat>, p: Peer, maxWindow: int)
    requires PeerOk(np, p, maxWindow)
    ensures PeerOk(np, CheckInterested(np, owned, p), maxWindow)
  {
    PushInterestOk(p.out, p.told, Wants(np, owned, p.bf));
  }

  // ----- lists of changed peers -----

  lemma ListsWith<P>(peers: map<P, Peer>, p: P, peer: Peer)
    ensures ListsOf(peers[p := peer]) == ListsOf(peers)[p := peer.downloading]
  {
  }

  lemma PeersWith<P>(np: nat, peers: map<P, Peer>, p: P, peer: Peer, maxWindow: int)
    requires PeersOk(np, peers, maxWindow) && PeerOk(np, peer, maxWindow)
    ensures PeersOk(np, peers[p := peer], maxWindow)
  {
  }

  lemma PeersWithout<P>(np: nat, peers: map<P, Peer>, p: P, maxWindow: int)
    requires PeersOk(np, peers, maxWindow)
    ensures PeersOk(np, peers - {p}, maxWindow)
  {
  }

  /** A step that touches one peer only, and not its request list. */
  lemma PeerOnly<P>(env: Env, s: State<P>, p: P, peer: Peer)
    requires Inv(env, s) && p in s.peers
    requires PeerOk(env.info.Count(), peer, s.maxWindow) && peer.downloading == s.peers[p].downloading
    ensures Inv(env, WithPeer(s, p, peer))
  {
    ListsWith(s.peers, p, peer);
    assert ListsOf(s.peers)[p := peer.downloading] == ListsOf(s.peers);
  }

  // ----- the steps, one by one -----

  lemma ConnectOk<P>(env: Env, s: State<P>, p: P, ext: bool)
    requires Inv(env, s) && p !in s.peers
    ensures Inv(env, WithPeer(s, p, Sending(NewPeer(s.window, ext), OurBitfield)))
  {
    PushOk(NewPeer(s.window, ext).out, OurBitfield, false);
    ListsWith(s.peers, p, Sending(NewPeer(s.window, ext), OurBitfield));
    CorrespondsWithNew(ListsOf(s.peers), s.tracker.requests, p);
  }

  lemma BegunOk(np: nat, peer: Peer, before: Peer, maxWindow: int)
    requires PeerOk(np, peer, maxWindow)
    ensures PeerOk(np, Begun(peer, before), maxWindow) && Begun(peer, before).downloading == peer.downloading
  {
    PushOk(peer.out, UnchokeMsg, peer.told);
    PushOk(Unchoked(peer).out, OurOptions, peer.told);
  }

  lemma WithBitsOk(env: Env, owned: set<nat>, peer: Peer, bits: Bits, maxWindow: int)
    requires PeerOk(env.info.Count(), peer, maxWindow) && BitsOk(env.info.Count(), bits)
    ensures PeerOk(env.info.Count(), WithBits(env, owned, peer, bits), maxWindow)
    ensures WithBits(env, owned, peer, bits).downloading == peer.downloading
  {
    CheckInterestedOk(env.info.Count(), owned, peer.(bf := Some(bits)), maxWindow);
  }

  lemma FirstBitsOk(env: Env, owned: set<nat>, peer: Peer, bits: Bits, maxWindow: int)
    requires PeerOk(env.info.Count(), peer, maxWindow) && BitsOk(env.info.Count(), bits)
    ensures var peer' := Begun(WithBits(env, owned, peer, bits), peer);
            PeerOk(env.info.Count(), peer', maxWindow) && peer'.downloading == peer.downloading
  {
    WithBitsOk(env, owned, peer, bits, maxWindow);
    BegunOk(env.info.Count(), WithBits(env, owned, peer, bits), peer, maxWindow);
  }

  lemma ChokedOk<P>(env: Env, s: State<P>, p: P)
    requires Inv(env, s) && p in s.peers
    ensures Inv(env, Choked(env, s, p))
  {
    var peer := s.peers[p];
    var np := env.info.Count();
    var ls := ListsOf(s.peers);
    assert ls[p] == peer.downloading;
    CancelAllOk(env, s.tracker.flat, s.tracker.requests, peer.downloading);
    CancelAllKeys(env, s.tracker.requests, peer.downloading);
    CorrespondsAfterDrop(ls, s.tracker.requests, p, [], CancelAll(env, s.tracker.requests, peer.downloading));
    PushCancelsOk(peer.out, peer.downloading, peer.told);
    ListsWith(s.peers, p, Emptied(peer));
  }

  /** Cancelling pending requests neither caches nor forgets a piece. */
  lemma {:induction false} CancelAllKeys(env: Env, rs: Requests, ds: seq<PieceRequest>)
    requires forall r :: r in ds ==> r.index in rs
    ensures CancelAll(env, rs, ds).Keys == rs.Keys
  {
    if ds != [] {
      assert ds == ds[..|ds| - 1] + [ds[|ds| - 1]];
      CancelAllKeys(env, rs, ds[..|ds| - 1]);
    }
  }

  /** New requests over the same contents keep the tracker in order, if they cache no fewer pieces. */
  lemma NewRequestsOk(env: Env, t: Tracker, rs: Requests)
    requires TrackerOk(env, t) && RequestsOk(env, t.flat, rs) && t.requests.Keys <= rs.Keys
    ensures TrackerOk(env, t.(requests := rs))
  {
  }

  /** Dropping part of one peer's list with its pending bits: choke-time and write-time cancels. */
  lemma CancelSomeOk<P>(env: Env, s: State<P>, p: P, test: PieceRequest -> bool, rest: PieceRequest -> bool)
    requires Inv(env, s) && p in s.peers && forall r :: rest(r) <==> !test(r)
    ensures var ds := s.peers[p].downloading;
            var rs := CancelAll(env, s.tracker.requests, Keep(ds, test));
            && TrackerOk(env, s.tracker.(requests := rs))
            && Corresponds(ListsOf(s.peers)[p := Keep(ds, rest)], rs)
            && |Keep(ds, rest)| <= |ds|
  {
    var ls := ListsOf(s.peers);
    var ds := s.peers[p].downloading;
    assert ls[p] == ds;
    forall r
      ensures r in Keep(ds, test) <==> r in ds && test(r)
      ensures r in Keep(ds, rest) <==> r in ds && rest(r)
    {
      KeepHas(ds, test, r);
      KeepHas(ds, rest, r);
    }
    KeepDistinct(ds, test);
    KeepDistinct(ds, rest);
    CancelAllOk(env, s.tracker.flat, s.tracker.requests, Keep(ds, test));
    CancelAllKeys(env, s.tracker.requests, Keep(ds, test));
    CorrespondsAfterDrop(ls, s.tracker.requests, p, Keep(ds, rest), CancelAll(env, s.tracker.requests, Keep(ds, test)));
  }

  lemma TakenOk<P>(env: Env, s: State<P>, p: P)
    requires Inv(env, s) && p in s.peers
    ensures Inv(env, Taken(env, s, p))
  {
    var peer := s.peers[p];
    if Drops(peer) {
      var r := peer.out.queue[0].r;
      CancelSomeOk(env, s, p, EqualTo(r, true), EqualTo(r, false));
      ListsWith(s.peers, p, TakenPeer(peer));
      PeersWith(env.info.Count(), s.peers, p, TakenPeer(peer), s.maxWindow);
    } else {
      PeerOnly(env, s, p, WithoutFirst(peer));
    }
  }

  /** The requests of a peer that leaves are given back. */
  lemma GivenBackOk<P>(env: Env, s: State<P>, p: P)
    requires TrackerOk(env, s.tracker) && Corresponds(ListsOf(s.peers), s.tracker.requests) && p in s.peers
    ensures var rs := CancelAll(env, s.tracker.requests, s.peers[p].downloading);
            TrackerOk(env, s.tracker.(requests := rs)) && Corresponds(ListsOf(s.peers - {p}), rs)
  {
    var ds := s.peers[p].downloading;
    var ls := ListsOf(s.peers);
    var rs := CancelAll(env, s.tracker.requests, ds);
    assert ls[p] == ds;
    CancelAllOk(env, s.tracker.flat, s.tracker.requests, ds);
    CancelAllKeys(env, s.tracker.requests, ds);
    CorrespondsAfterDrop(ls, s.tracker.requests, p, [], rs);
    CorrespondsWithout(ls[p := []], rs, p);
    assert ListsOf(s.peers - {p}) == ls[p := []] - {p};
  }

  lemma ClosedOk<P>(env: Env, s: State<P>, p: P)
    requires Inv(env, s) && p in s.peers
    ensures Inv(env, Closed(env, s, p))
  {
    GivenBackOk(env, s, p);
    PeersWithout(env.info.Count(), s.peers, p, s.maxWindow);
  }

  lemma ExpiredOk<P>(env: Env, s: State<P>, idx: u32)
    requires Inv(env, s)
    ensures Inv(env, Expired(s, idx))
  {
    var rs := s.tracker.requests;
    if idx in rs && rs[idx].pending != {} {
      var rs' := rs[idx := rs[idx].(pending := {})];
      ExpireOk(env, s.tracker.flat, rs, idx);
      NewRequestsOk(env, s.tracker, rs');
      CorrespondsAfterExpiry(ListsOf(s.peers), rs, idx, rs');
      ExpiredPeersOk(env, s, idx);
    }
  }

  lemma ExpiredPeersOk<P>(env: Env, s: State<P>, idx: u32)
    requires Inv(env, s)
    ensures PeersOk(env.info.Count(), AllCancel(s.peers, idx), s.maxWindow)
    ensures ListsOf(AllCancel(s.peers, idx)) == AllWithout(ListsOf(s.peers), idx)
  {
    ExpiredLists(s.peers, idx);
    forall q | q in s.peers
      ensures PeerOk(env.info.Count(), CancelPiece(s.peers[q], idx), s.maxWindow)
    {
      CancelPieceOk(env.info.Count(), s.peers[q], idx, s.maxWindow, ListsOf(s.peers), s.tracker.requests, q);
    }
  }

  lemma ExpiredLists<P>(peers: map<P, Peer>, idx: u32)
    ensures ListsOf(AllCancel(peers, idx)) == AllWithout(ListsOf(peers), idx)
  {
  }

  lemma CancelPieceOk<P>(np: nat, p: Peer, idx: u32, maxWindow: int, ls: Lists<P>, rs: Requests, q: P)
    requires PeerOk(np, p, maxWindow) && Corresponds(ls, rs) && q in ls && ls[q] == p.downloading
    ensures PeerOk(np, CancelPiece(p, idx), maxWindow)
  {
    KeepDistinct(p.downloading, OfPiece(idx, false));
    PushCancelsOk(p.out, Keep(p.downloading, OfPiece(idx, true)), p.told);
  }

  // ----- tickDownload -----

  /** NextRequest asks for at most one block, and that one was not asked for already. */
  lemma NextRequestOk(env: Env, flat: seq<byte>, rs: Requests, last: Option<PieceRequest>, pick: Option<u32>)
    requires env.Ok() && RequestsOk(env, flat, rs)
    requires last.Some? ==> last.value.index < env.info.Count()
    requires AskLast(env, rs, last).1.None? && pick.Some? ==> pick.value < env.info.Count()
    ensures var (rs', r) := NextRequest(env, rs, last, pick);
            && RequestsOk(env, flat, rs') && rs.Keys <= rs'.Keys
            && (r.Some? ==> r.value.index < env.info.Count() && !IsPending(rs, r.value))
            && forall x :: IsPending(rs', x) <==> IsPending(rs, x) || r == Some(x)
  {
    var (rs1, r1) := AskLast(env, rs, last);
    if last.Some? {
      AskPieceOk(env, flat, rs, last.value.index);
    }
    if r1.None? && pick.Some? {
      AskPieceOk(env, flat, rs1, pick.value);
    }
  }

  /** A peer that asked for one more block, inside its window. */
  lemma QueuedOk(np: nat, peer: Peer, r: PieceRequest, maxWindow: int)
    requires PeerOk(np, peer, maxWindow) && !peer.choking && |peer.downloading| < peer.window && r.index < np
    ensures PeerOk(np, Queued(peer, r), maxWindow)
  {
    PushOk(peer.out, Request(r), peer.told);
  }

  /** A request that was not outstanding before is in the asking peer's list now, and nowhere else. */
  lemma AskedForOk<P>(env: Env, s: State<P>, p: P, rs: Requests, r: PieceRequest)
    requires Inv(env, s) && p in s.peers && Asks(env, s, p) && r.index < env.info.Count() && !IsPending(s.tracker.requests, r)
    requires TrackerOk(env, s.tracker.(requests := rs))
    requires forall x :: IsPending(rs, x) <==> IsPending(s.tracker.requests, x) || x == r
    ensures Inv(env, WithPeer(WithRequests(s, rs), p, Queued(s.peers[p], r)))
  {
    var peer := s.peers[p];
    assert ListsOf(s.peers)[p] == peer.downloading;
    CorrespondsAfterAdd(ListsOf(s.peers), s.tracker.requests, p, r, rs);
    QueuedOk(env.info.Count(), peer, r, s.maxWindow);
    ListsWith(s.peers, p, Queued(peer, r));
  }

  lemma TickedOk<P>(env: Env, s: State<P>, p: P, due: bool, pick: Option<u32>)
    requires Inv(env, s) && p in s.peers && (Asks(env, s, p) && due ==> LegalAnswer(env, s, p, pick))
    ensures Inv(env, Ticked(env, s, p, due, pick))
  {
    if Asks(env, s, p) && due {
      var peer := s.peers[p];
      var rs := s.tracker.requests;
      var (rs', r) := NextRequest(env, rs, peer.lastRequest, pick);
      NextRequestOk(env, s.tracker.flat, rs, peer.lastRequest, pick);
      NewRequestsOk(env, s.tracker, rs');
      if r.Some? {
        AskedForOk(env, s, p, rs', r.value);
      } else {
        assert forall x :: IsPending(rs', x) <==> IsPending(rs, x);
      }
    }
  }

  // ----- gotDownload -----

  lemma BroadcastOk<P>(env: Env, peers: map<P, Peer>, owned: set<nat>, idx: u32, maxWindow: int)
    requires PeersOk(env.info.Count(), peers, maxWindow)
    ensures PeersOk(env.info.Count(), Broadcast(env, peers, owned, idx), maxWindow)
    ensures ListsOf(Broadcast(env, peers, owned, idx)) == ListsOf(peers)
  {
    BroadcastLists(env, peers, owned, idx);
    forall q | q in peers
      ensures PeerOk(env.info.Count(), Told(env, owned, peers[q], idx), maxWindow)
    {
      ToldOk(env, peers[q], owned, idx, maxWindow);
    }
  }

  lemma BroadcastLists<P>(env: Env, peers: map<P, Peer>, owned: set<nat>, idx: u32)
    ensures ListsOf(Broadcast(env, peers, owned, idx)) == ListsOf(peers)
  {
  }

  lemma ToldOk(env: Env, peer: Peer, owned: set<nat>, idx: u32, maxWindow: int)
    requires PeerOk(env.info.Count(), peer, maxWindow)
    ensures PeerOk(env.info.Count(), Told(env, owned, peer, idx), maxWindow)
  {
    CheckInterestedOk(env.info.Count(), owned, peer, maxWindow);
    var p1 := CheckInterested(env.info.Count(), owned, peer);
    PushOk(p1.out, Have(idx), p1.told);
  }

  /** Data that matches an entry of a peer's list answers exactly that entry, and its block is pending. */
  lemma MatchIsPending<P>(ls: Lists<P>, rs: Requests, p: P, d: PieceData)
    requires Corresponds(ls, rs) && p in ls && |d.data| < U32_MOD
    requires Keep(ls[p], MatchedBy(d, true)) != []
    ensures var r := PieceRequest(d.index, d.begin, |d.data|);
            && r in ls[p] && IsPending(rs, r)
            && forall x :: x in Keep(ls[p], MatchedBy(d, false)) <==> x in ls[p] && x != r
  {
    var r := PieceRequest(d.index, d.begin, |d.data|);
    var x := Keep(ls[p], MatchedBy(d, true))[0];
    KeepHas(ls[p], MatchedBy(d, true), x);
    assert x == r;
    forall y
      ensures y in Keep(ls[p], MatchedBy(d, false)) <==> y in ls[p] && y != r
    {
      KeepHas(ls[p], MatchedBy(d, false), y);
    }
  }

  /** The list of the peer that answered, without the request that its data answers. */
  lemma AnsweredOk<P>(env: Env, s: State<P>, p: P, d: PieceData, rs: Requests)
    requires Inv(env, s) && p in s.peers && |d.data| < U32_MOD
    requires Keep(s.peers[p].downloading, MatchedBy(d, true)) != []
    requires forall x :: IsPending(rs, x) <==> IsPending(s.tracker.requests, x) && x != PieceRequest(d.index, d.begin, |d.data|)
    ensures var peers := s.peers[p := Answered(s.peers[p], d)];
            PeersOk(env.info.Count(), peers, s.maxWindow) && Corresponds(ListsOf(peers), rs)
  {
    var peer := s.peers[p];
    var ls := ListsOf(s.peers);
    assert ls[p] == peer.downloading;
    MatchIsPending(ls, s.tracker.requests, p, d);
    KeepDistinct(peer.downloading, MatchedBy(d, false));
    CorrespondsAfterDrop(ls, s.tracker.requests, p, Keep(peer.downloading, MatchedBy(d, false)), rs);
    ListsWith(s.peers, p, Answered(peer, d));
    PeersWith(env.info.Count(), s.peers, p, Answered(peer, d), s.maxWindow);
  }

  lemma ReceivedOk<P>(env: Env, s: State<P>, p: P, d: PieceData, w: WriteResult, v: Verdict)
    requires Inv(env, s) && p in s.peers && |d.data| < U32_MOD
    requires d.index < env.info.Count() ==> True(env.info, env.sha1, FlatAfter(env, s.tracker.flat, d, w), d.index, v)
    ensures Inv(env, Received(env, s, p, d, w, v))
  {
    if Keep(s.peers[p].downloading, MatchedBy(d, true)) != [] {
      var t := Handle(env, s.tracker, d, w, v);
      assert ListsOf(s.peers)[p] == s.peers[p].downloading;
      MatchIsPending(ListsOf(s.peers), s.tracker.requests, p, d);
      HandleOk(env, s.tracker, d, w, v);
      HandleRequests(env, s.tracker, d, w, v);
      AnsweredOk(env, s, p, d, t.requests);
      BroadcastOk(env, s.peers[p := Answered(s.peers[p], d)], t.owned, d.index, s.maxWindow);
    }
  }

  // ----- the rest -----

  lemma WindowsOk<P>(np: nat, peers: map<P, Peer>, n: int, maxWindow: int)
    requires PeersOk(np, peers, maxWindow)
    ensures PeersOk(np, AllWindows(peers, n), Max(maxWindow, n)) && ListsOf(AllWindows(peers, n)) == ListsOf(peers)
  {
  }

  lemma SetWindowOk<P>(env: Env, s: State<P>, n: int)
    requires Inv(env, s)
    ensures Inv(env, Next(env, s, SetWindow(n)))
  {
    WindowsOk(env.info.Count(), s.peers, n, s.maxWindow);
  }

  lemma CheckedOk<P>(env: Env, s: State<P>, verdicts: seq<Verdict>)
    requires Inv(env, s) && |verdicts| == env.info.Count() && AllTrue(env.info, env.sha1, s.tracker.flat, verdicts)
    ensures TrackerOk(env, Checked(env, s.tracker, verdicts))
  {
    var t, t' := s.tracker, Checked(env, s.tracker, verdicts);
    forall i: nat
      ensures i in t'.owned
         <==> if i < |verdicts| then verdicts[i] == Verified || (verdicts[i] == Unread && i in t.owned) else i in t.owned
    {
      RatedAllHas(t.owned, verdicts, i);
    }
    forall i: u32 | i < env.info.Count() && i !in t.requests && i as nat !in t'.unchecked
      ensures i as nat in t'.owned <==> Good(env.info, env.sha1, t.flat, i)
    {
      assert True(env.info, env.sha1, t.flat, i, verdicts[i]);
    }
  }

  lemma BitfieldOk<P>(env: Env, s: State<P>, p: P, bits: Bits)
    requires Inv(env, s) && p in s.peers && BitsOk(env.info.Count(), bits)
    ensures Inv(env, WithPeer(s, p, Begun(WithBits(env, s.tracker.owned, s.peers[p], bits), s.peers[p])))
  {
    FirstBitsOk(env, s.tracker.owned, s.peers[p], bits, s.maxWindow);
    PeerOnly(env, s, p, Begun(WithBits(env, s.tracker.owned, s.peers[p], bits), s.peers[p]));
  }

  lemma HaveOk<P>(env: Env, s: State<P>, p: P, i: u32)
    requires Inv(env, s) && p in s.peers
    ensures Inv(env, WithPeer(s, p, HeardHave(env, s.tracker.owned, s.peers[p], i)))
  {
    if s.peers[p].bf.Some? {
      WithBitsOk(env, s.tracker.owned, s.peers[p], SetBit(s.peers[p].bf.value, i), s.maxWindow);
    }
    PeerOnly(env, s, p, HeardHave(env, s.tracker.owned, s.peers[p], i));
  }

  lemma UnchokeOk<P>(env: Env, s: State<P>, p: P)
    requires Inv(env, s) && p in s.peers
    ensures Inv(env, WithPeer(s, p, Unchoking(env, s.tracker.owned, s.peers[p])))
  {
    CheckInterestedOk(env.info.Count(), s.tracker.owned, s.peers[p].(choking := false), s.maxWindow);
    PeerOnly(env, s, p, Unchoking(env, s.tracker.owned, s.peers[p]));
  }

  lemma SendOtherOk<P>(env: Env, s: State<P>, p: P)
    requires Inv(env, s) && p in s.peers
    ensures Inv(env, WithPeer(s, p, Sending(s.peers[p], Other)))
  {
    PushOk(s.peers[p].out, Other, s.peers[p].told);
    PeerOnly(env, s, p, Sending(s.peers[p], Other));
  }

  /** Every step keeps the invariant. */
  lemma NextOk<P>(env: Env, s: State<P>, step: Step<P>)
    requires Inv(env, s) && Enabled(env, s, step)
    ensures Inv(env, Next(env, s, step))
  {
    match step
    case Connect(p, ext) => ConnectOk(env, s, p, ext);
    case GotBitfield(p, bits) => BitfieldOk(env, s, p, bits);
    case GotHave(p, i) => HaveOk(env, s, p, i);
    case GotChoke(p) => ChokedOk(env, s, p);
    case GotUnchoke(p) => UnchokeOk(env, s, p);
    case GotPiece(p, d, w, v) => ReceivedOk(env, s, p, d, w, v);
    case TickDownload(p, due, pick) => TickedOk(env, s, p, due, pick);
    case Expire(idx) => ExpiredOk(env, s, idx);
    case TakeFromQueue(p) => TakenOk(env, s, p);
    case SendOther(p) => SendOtherOk(env, s, p);
    case BeginClose(p) => PeerOnly(env, s, p, Closing(s.peers[p]));
    case DoClose(p) => ClosedOk(env, s, p);
    case SetWindow(n) => SetWindowOk(env, s, n);
    case VerifyAll(verdicts) => CheckedOk(env, s, verdicts);
  }
}
