/** lib/bittorrent/swarm/peer.go: one connection's side of the download protocol. */
module PeerConnections {
  import opened Words
  import opened Common
  import opened MetaInfo
  import opened Bitfields
  import opened Storage
  import opened Blocks
  import opened Protocol
  import opened PieceTracking

  lemma KeepYes(ds: seq<PieceRequest>, test: PieceRequest -> bool, i: nat)
    requires i < |ds| && test(ds[i])
    ensures Keep(ds[..i + 1], test) == Keep(ds[..i], test) + [ds[i]]
  {
    assert ds[..i + 1][..i] == ds[..i];
  }

  lemma KeepNo(ds: seq<PieceRequest>, test: PieceRequest -> bool, i: nat)
    requires i < |ds| && !test(ds[i])
    ensures Keep(ds[..i + 1], test) == Keep(ds[..i], test)
  {
    assert ds[..i + 1][..i] == ds[..i];
  }

  lemma {:induction false} KeepPrefix(ds: seq<PieceRequest>, test: PieceRequest -> bool, i: nat)
    requires i <= |ds|
    ensures |Keep(ds[..i], test)| <= |Keep(ds, test)|
    decreases |ds| - i
  {
    if i < |ds| {
      assert ds[..i + 1][..i] == ds[..i];
      KeepPrefix(ds, test, i + 1);
    } else {
      assert ds[..i] == ds;
    }
  }

  lemma PushCancelsStep(c: Channel, ds: seq<PieceRequest>, r: PieceRequest)
    ensures PushCancels(c, ds + [r]) == Push(PushCancels(c, ds), CancelMsg(r))
  {
    assert (ds + [r])[..|ds|] == ds;
  }

  lemma CancelAllStep(env: Env, rs: Requests, ds: seq<PieceRequest>, r: PieceRequest)
    ensures CancelAll(env, rs, ds + [r]) == CancelOne(env, CancelAll(env, rs, ds), r)
  {
    assert (ds + [r])[..|ds|] == ds;
  }

  /** One more entry of a list given back. */
  lemma CancelStep(env: Env, rs: Requests, ds: seq<PieceRequest>, i: nat)
    requires i < |ds|
    ensures CancelAll(env, rs, ds[..i + 1]) == CancelOne(env, CancelAll(env, rs, ds[..i]), ds[i])
  {
    assert ds[..i + 1][..i] == ds[..i];
  }

  lemma MessageStep(c: Channel, ds: seq<PieceRequest>, i: nat)
    requires i < |ds|
    ensures PushCancels(c, ds[..i + 1]) == Push(PushCancels(c, ds[..i]), CancelMsg(ds[i]))
  {
    assert ds[..i + 1][..i] == ds[..i];
  }

  /** One more entry of a list that loses the requests of piece `idx`. */
  lemma DropStep(c: Channel, ds: seq<PieceRequest>, idx: u32, i: nat)
    requires i < |ds|
    ensures Keep(ds[..i + 1], OfPiece(idx, false))
         == if ds[i].index == idx then Keep(ds[..i], OfPiece(idx, false)) else Keep(ds[..i], OfPiece(idx, false)) + [ds[i]]
    ensures PushCancels(c, Keep(ds[..i + 1], OfPiece(idx, true)))
         == if ds[i].index == idx then Push(PushCancels(c, Keep(ds[..i], OfPiece(idx, true))), CancelMsg(ds[i]))
            else PushCancels(c, Keep(ds[..i], OfPiece(idx, true)))
  {
    if ds[i].index == idx {
      KeepYes(ds, OfPiece(idx, true), i);
      KeepNo(ds, OfPiece(idx, false), i);
      PushCancelsStep(c, Keep(ds[..i], OfPiece(idx, true)), ds[i]);
    } else {
      KeepNo(ds, OfPiece(idx, true), i);
      KeepYes(ds, OfPiece(idx, false), i);
    }
  }

  /** One more entry of a list that gives back what equals a request. */
  lemma EqualStep(env: Env, rs: Requests, ds: seq<PieceRequest>, req: PieceRequest, i: nat)
    requires i < |ds|
    ensures Keep(ds[..i + 1], EqualTo(req, false))
         == if ds[i].Equals(req) then Keep(ds[..i], EqualTo(req, false)) else Keep(ds[..i], EqualTo(req, false)) + [ds[i]]
    ensures CancelAll(env, rs, Keep(ds[..i + 1], EqualTo(req, true)))
         == if ds[i].Equals(req) then CancelOne(env, CancelAll(env, rs, Keep(ds[..i], EqualTo(req, true))), ds[i])
            else CancelAll(env, rs, Keep(ds[..i], EqualTo(req, true)))
  {
    if ds[i].Equals(req) {
      KeepYes(ds, EqualTo(req, true), i);
      KeepNo(ds, EqualTo(req, false), i);
      CancelAllStep(env, rs, Keep(ds[..i], EqualTo(req, true)), ds[i]);
    } else {
      KeepNo(ds, EqualTo(req, true), i);
      KeepYes(ds, EqualTo(req, false), i);
    }
  }

  /** One more entry of a list of which at most one matches the data. */
  lemma MatchStep(ds: seq<PieceRequest>, d: PieceData, i: nat)
    requires i < |ds| && |Keep(ds, MatchedBy(d, true))| <= 1
    ensures Keep(ds[..i + 1], MatchedBy(d, false))
         == if ds[i].Matches(d) then Keep(ds[..i], MatchedBy(d, false)) else Keep(ds[..i], MatchedBy(d, false)) + [ds[i]]
    ensures ds[i].Matches(d) ==>
              Keep(ds[..i], MatchedBy(d, true)) == [] && Keep(ds[..i + 1], MatchedBy(d, true)) != []
              && Keep(ds, MatchedBy(d, true)) != []
    ensures !ds[i].Matches(d) ==> Keep(ds[..i + 1], MatchedBy(d, true)) == Keep(ds[..i], MatchedBy(d, true))
  {
    KeepPrefix(ds, MatchedBy(d, true), i + 1);
    if ds[i].Matches(d) {
      KeepYes(ds, MatchedBy(d, true), i);
      KeepNo(ds, MatchedBy(d, false), i);
    } else {
      KeepNo(ds, MatchedBy(d, true), i);
      KeepYes(ds, MatchedBy(d, false), i);
    }
  }

  /** Inverting our bitfield and meeting it with the peer's finds the pieces we want. */
  lemma MeetInverted(np: nat, ours: Bits, inverted: set<nat>, bf: Bits)
    requires ours.length == np <= ours.room
    requires inverted == set i: nat | i < np && i < ours.room && i !in ours.members
    ensures Meet(ours.(members := inverted), bf) == Wanted(np, ours.members, bf)
  {
    assert inverted == Below(np) - ours.members;
  }

  /** What handlePieceData does to the tracker, and whether it ends in an announcement. */
  ghost predicate HandledAs(env: Env, reliable: bool, before: Tracker, d: PieceData, w: WriteResult, v: Verdict,
                            announce: bool, after: Tracker) {
    && Is(after, Handle(env, before, d, w, v)) && (announce <==> Announces(env, before, d, w, v))
    && (env.info.WellFormed() && d.index < env.info.Count() && |before.flat| == env.info.Total() ==>
          True(env.info, env.sha1, FlatAfter(env, before.flat, d, w), d.index, v))
    && (reliable && Completes(env, before, d, w) ==> v != Unread)
  }

  /** A connection that is closing for good: nothing is outstanding or queued. */
  function ShutDown(peer: Peer): Peer {
    peer.(closing := true, downloading := [], out := peer.out.(queue := []))
  }

  /** What data does to the tracker: nothing, unless it answers a request. */
  ghost predicate Arrives(env: Env, reliable: bool, before: Tracker, hit: bool, d: PieceData, w: WriteResult, v: Verdict,
                          announce: bool, after: Tracker) {
    if hit then HandledAs(env, reliable, before, d, w, v, announce, after) else !announce && v == Unread && Is(after, before)
  }

  /** What data received on a connection does to the tracker. */
  ghost predicate Receipt(env: Env, reliable: bool, before: Tracker, peer: Peer, d: PieceData, w: WriteResult, v: Verdict,
                          announce: bool, after: Tracker) {
    Arrives(env, reliable, before, Keep(peer.downloading, MatchedBy(d, true)) != [], d, w, v, announce, after)
  }

  /** What the tracker expects of data it is given: an answer to a single request, one that it made. */
  predicate Offerable(info: Info, rs: Requests, peer: Peer, d: PieceData) {
    && |Keep(peer.downloading, MatchedBy(d, true))| <= 1
    && (Keep(peer.downloading, MatchedBy(d, true)) != [] ==>
          d.index < info.Count() && |d.data| < U32_MOD && d.begin != WRAPPING && Sized(info, rs, d.index))
  }

  class PeerConn {
    /** The remote address. */
    const addr: string
    var bf: Bitfield?
    var peerChoke: bool
    var usInterested: bool
    var peerUsInterested: bool
    var closing: bool
    var runDownload: bool
    var downloading: seq<PieceRequest>
    var lastRequest: Option<PieceRequest>
    var maxParallelRequests: int
    var send: seq<Msg>
    var sendPending: int
    var usChoke: bool
    /** Both sides have the extension protocol. */
    const ext: bool
    /** Everything ever put into the send channel, and what happened to the interest messages. */
    ghost var log: seq<Msg>
    ghost var lapses: Lapses

    ghost predicate Valid()
      reads this, bf
    {
      sendPending == |send| && (bf != null ==> bf.owner == this)
    }

    ghost function Out(): Channel
      reads this
    {
      Channel(send, log, lapses)
    }

    ghost function Bits(): Option<Bitfields.Bits>
      reads this, bf
    {
      if bf == null then None else Some(bf.Value())
    }

    ghost function Value(): Peer
      reads this, bf
    {
      Peer(Bits(), peerChoke, usInterested, peerUsInterested, closing, runDownload,
           downloading, lastRequest, maxParallelRequests, usChoke, ext, Out())
    }

    /** makePeerConn */
    constructor (addr: string, maxRequests: int, ext: bool)
      ensures Valid() && bf == null && this.addr == addr && Value() == NewPeer(maxRequests, ext)
    {
      this.addr, this.ext := addr, ext;
      bf := null;
      peerChoke, usInterested, peerUsInterested, closing, runDownload := true, false, false, false, false;
      downloading, lastRequest, maxParallelRequests := [], None, maxRequests;
      send, sendPending, usChoke := [], 0, true;
      log, lapses := [], Lapses(0, 0, 0);
    }

    /** Send: beyond the channel's capacity messages are dropped. */
    method Send(msg: Msg)
      requires Valid()
      modifies this`send, this`sendPending, this`log, this`lapses
      ensures Valid() && Out() == Push(old(Out()), msg) && Value() == Sending(old(Value()), msg)
    {
      if sendPending >= SEND_CHAN_LEN {
        lapses := Lost(lapses, msg);
        return;
      }
      lapses := Protocol.Sent(lapses, msg);
      sendPending := sendPending + 1;
      send := send + [msg];
      log := log + [msg];
    }

    /** checkInterested */
    method CheckInterested(st: FsTorrent)
      requires Valid() && st.Valid() && (bf != null ==> bf.Length == st.bf.Length)
      modifies this`usInterested, this`peerUsInterested, this`send, this`sendPending, this`log, this`lapses
      ensures Valid() && Value() == Protocol.CheckInterested(st.info.Count(), st.bf.Value().members, old(Value()))
    {
      var want := false;
      if bf != null {
        var inverted := st.bf.Inverted();
        var both := inverted.AND(bf);
        want := both.AnySet();
        MeetInverted(st.info.Count(), st.bf.Value(), inverted.Value().members, bf.Value());
      }
      SayInterest(want);
    }

    /** The second half of checkInterested. */
    method SayInterest(want: bool)
      requires Valid()
      modifies this`usInterested, this`peerUsInterested, this`send, this`sendPending, this`log, this`lapses
      ensures Valid() && usInterested == want && peerUsInterested == want
      ensures Out() == PushInterest(old(Out()), old(peerUsInterested), want)
    {
      usInterested := want;
      if usInterested != peerUsInterested {
        if usInterested {
          Send(Interested);
        } else {
          Send(NotInterested);
        }
        peerUsInterested := usInterested;
      }
    }

    /** remoteUnchoke */
    method RemoteUnchoke(st: FsTorrent)
      requires Valid() && st.Valid() && (bf != null ==> bf.Length == st.bf.Length)
      modifies this
      ensures Valid() && bf == old(bf)
      ensures Value() == Unchoking(Env(st.info, st.sha1), st.bf.Value().members, old(Value())) && !peerChoke
    {
      peerChoke := false;
      CheckInterested(st);
    }

    /** Unchoke */
    method Unchoke()
      requires Valid()
      modifies this`usChoke, this`send, this`sendPending, this`log, this`lapses
      ensures Valid() && Value() == Unchoked(old(Value()))
    {
      if usChoke {
        Send(UnchokeMsg);
        usChoke := false;
      }
    }

    /** The answer to a first bitfield. */
    method Greet()
      requires Valid()
      modifies this`usChoke, this`send, this`sendPending, this`log, this`lapses
      ensures Valid() && Value() == Greeted(old(Value()))
    {
      Unchoke();
      if ext {
        Send(OurOptions);
      }
    }

    /** inboundMessage, a bitfield: it replaces the one we had, and the first one is answered and starts the download. */
    method InboundBitfield(st: FsTorrent, payload: seq<bv8>)
      requires Valid() && st.Valid()
      modifies this
      ensures Valid() && fresh(bf) && bf.Length == st.info.Count()
      ensures Value()
           == Begun(Protocol.WithBits(Env(st.info, st.sha1), st.bf.Value().members, old(Value()), BitsOf(st.info.Count(), payload)),
                    old(Value()))
      ensures old(bf) == null ==> runDownload
    {
      var isNew := bf == null;
      TakeBitfield(st, payload);
      if isNew {
        Greet();
        runDownload := true;
      }
    }

    /** A bitfield replaces the one we had, and the interest is checked. */
    method TakeBitfield(st: FsTorrent, payload: seq<bv8>)
      requires Valid() && st.Valid()
      modifies this
      ensures Valid() && fresh(bf) && bf.Length == st.info.Count()
      ensures Value()
           == Protocol.WithBits(Env(st.info, st.sha1), st.bf.Value().members, old(Value()), BitsOf(st.info.Count(), payload))
    {
      WellFormedFacts(st.info);
      bf := new Bitfield(st.info.NumPieces(), Some(payload));
      bf.owner := this;
      CheckInterested(st);
    }

    /** inboundMessage, a have: before any bitfield it ends the connection. */
    method InboundHave(st: FsTorrent, idx: u32)
      requires Valid() && st.Valid() && (bf != null ==> bf.Length == st.info.Count() && bf != st.bf)
      modifies this, bf
      ensures Valid() && bf == old(bf) && (bf != null ==> bf.Length == old(bf.Length))
      ensures Value() == HeardHave(Env(st.info, st.sha1), st.bf.Value().members, old(Value()), idx)
      ensures bf == null ==> closing
    {
      if bf == null {
        closing := true;
        return;
      }
      MarkHave(idx);
      CheckInterested(st);
    }

    /** The bit of a have. */
    method MarkHave(idx: u32)
      requires Valid() && bf != null
      modifies bf
      ensures Valid() && bf.Length == old(bf.Length)
      ensures Value() == old(Value()).(bf := Some(SetBit(old(bf.Value()), idx)))
    {
      ghost var bits := bf.Value();
      bf.Set(idx);
      assert bits.members + {} == bits.members;
    }

    /** What broadcastHave does for this connection. */
    method TellHave(st: FsTorrent, idx: u32)
      requires Valid() && st.Valid() && (bf != null ==> bf.Length == st.info.Count())
      modifies this
      ensures Valid() && bf == old(bf)
      ensures Value() == Told(Env(st.info, st.sha1), st.bf.Value().members, old(Value()), idx)
      ensures |old(send)| + 1 < 512 ==> send != [] && send[|send| - 1] == Have(idx)
    {
      CheckInterested(st);
      Send(Have(idx));
    }

    method SetMaxRequests(n: int)
      requires Valid()
      modifies this`maxParallelRequests
      ensures Valid() && Value() == Windowed(old(Value()), n) && maxParallelRequests == n
    {
      maxParallelRequests := n;
    }

    /** Close: the connection's loop will end. */
    method Close()
      requires Valid()
      modifies this`closing
      ensures Valid() && Value() == Closing(old(Value())) && closing
    {
      closing := true;
    }

    /** remoteChoke, and what goes with it. */
    method RemoteChoke(pt: PieceTracker)
      requires Valid() && Apart(pt) && pt.Valid()
      modifies this, pt`requests, pt`view, pt`Repr, pt.Repr
      ensures Valid() && pt.Valid() && fresh(pt.Repr - old(pt.Repr)) && bf == old(bf)
      ensures pt.view == CancelAll(pt.Fixed(), old(pt.view), old(downloading))
      ensures Value() == Emptied(old(Value())) && peerChoke && downloading == []
    {
      peerChoke := true;
      CancelPendingDownloads(pt);
    }

    /** queueDownload */
    method QueueDownload(req: PieceRequest)
      requires Valid()
      modifies this`lastRequest, this`downloading, this`send, this`sendPending, this`log, this`lapses
      ensures Valid() && Value() == Queued(old(Value()), req)
      ensures downloading == old(downloading) + [req] && lastRequest == Some(req)
      ensures |old(send)| < 512 ==> send == old(send) + [Request(req)]
    {
      lastRequest := Some(req);
      downloading := downloading + [req];
      Send(Request(req));
    }

    /** cancelPiece */
    method CancelPiece(idx: u32)
      requires Valid()
      modifies this`downloading, this`send, this`sendPending, this`log, this`lapses
      ensures Valid() && Value() == Protocol.CancelPiece(old(Value()), idx)
    {
      var ds := downloading;
      downloading := [];
      CancelEntries(ds, idx);
    }

    /** The loop of cancelPiece. */
    method CancelEntries(ds: seq<PieceRequest>, idx: u32)
      requires Valid() && downloading == []
      modifies this`downloading, this`send, this`sendPending, this`log, this`lapses
      ensures Valid() && downloading == Keep(ds, OfPiece(idx, false))
      ensures Out() == PushCancels(old(Out()), Keep(ds, OfPiece(idx, true)))
    {
      for i := 0 to |ds|
        invariant Valid() && downloading == Keep(ds[..i], OfPiece(idx, false))
        invariant Out() == PushCancels(old(Out()), Keep(ds[..i], OfPiece(idx, true)))
      {
        DropStep(old(Out()), ds, idx, i);
        KeepOrCancel(ds[i], idx);
      }
      Whole(ds);
    }

    /** The body of the loop of cancelPiece. */
    method KeepOrCancel(r: PieceRequest, idx: u32)
      requires Valid()
      modifies this`downloading, this`send, this`sendPending, this`log, this`lapses
      ensures Valid()
      ensures downloading == if r.index == idx then old(downloading) else old(downloading) + [r]
      ensures Out() == if r.index == idx then Push(old(Out()), CancelMsg(r)) else old(Out())
    {
      if r.index == idx {
        Send(CancelMsg(r));
      } else {
        downloading := downloading + [r];
      }
    }

    /** This connection and its bitfield are none of the tracker's objects. */
    ghost predicate Apart(pt: PieceTracker)
      reads this, pt
    {
      this !in pt.Repr && bf !in pt.Repr && bf != pt.st.bf
    }

    /** cancelPendingDownloads */
    method CancelPendingDownloads(pt: PieceTracker)
      requires Valid() && Apart(pt) && pt.Valid()
      modifies this`downloading, this`send, this`sendPending, this`log, this`lapses
      modifies pt`requests, pt`view, pt`Repr, pt.Repr
      ensures Valid() && pt.Valid() && fresh(pt.Repr - old(pt.Repr))
      ensures pt.view == CancelAll(pt.Fixed(), old(pt.view), old(downloading))
      ensures Value() == old(Value()).(downloading := [], out := PushCancels(old(Out()), old(downloading)))
    {
      GiveBackAll(pt);
      downloading := [];
    }

    /** The loop of cancelPendingDownloads. */
    method GiveBackAll(pt: PieceTracker)
      requires Valid() && Apart(pt) && pt.Valid()
      modifies this`send, this`sendPending, this`log, this`lapses, pt`requests, pt`view, pt`Repr, pt.Repr
      ensures Valid() && pt.Valid() && fresh(pt.Repr - old(pt.Repr))
      ensures bf != null ==> unchanged(bf)
      ensures pt.view == CancelAll(pt.Fixed(), old(pt.view), downloading)
      ensures Out() == PushCancels(old(Out()), downloading)
    {
      for i := 0 to |downloading|
        invariant Valid() && pt.Valid() && fresh(pt.Repr - old(pt.Repr))
        invariant Apart(pt) && (bf != null ==> unchanged(bf))
        invariant pt.view == CancelAll(pt.Fixed(), old(pt.view), downloading[..i])
        invariant Out() == PushCancels(old(Out()), downloading[..i])
      {
        CancelStep(pt.Fixed(), old(pt.view), downloading, i);
        MessageStep(old(Out()), downloading, i);
        GiveBack(pt, downloading[i]);
      }
      Whole(downloading);
    }

    /** The body of the loop of cancelPendingDownloads. */
    method GiveBack(pt: PieceTracker, r: PieceRequest)
      requires Valid() && Apart(pt) && pt.Valid()
      modifies this`send, this`sendPending, this`log, this`lapses, pt`requests, pt`view, pt`Repr, pt.Repr
      ensures Valid() && Apart(pt) && pt.Valid() && fresh(pt.Repr - old(pt.Repr))
      ensures pt.view == CancelOne(pt.Fixed(), old(pt.view), r)
      ensures Out() == Push(old(Out()), CancelMsg(r))
      ensures bf != null ==> unchanged(bf)
    {
      pt.CanceledRequest(r);
      Send(CancelMsg(r));
    }

    /** The body of the loop of cancelDownload. */
    method GiveBackIfEqual(r: PieceRequest, req: PieceRequest, pt: PieceTracker) returns (same: bool)
      requires Apart(pt) && pt.Valid()
      modifies pt`requests, pt`view, pt`Repr, pt.Repr
      ensures pt.Valid() && fresh(pt.Repr - old(pt.Repr)) && same == r.Equals(req)
      ensures pt.view == if same then CancelOne(pt.Fixed(), old(pt.view), r) else old(pt.view)
    {
      if !r.Equals(req) {
        return false;
      }
      pt.CanceledRequest(r);
      same := true;
    }

    /** The loop of cancelDownload: what equals the request is given back, the rest is kept. */
    method GiveBackEqual(req: PieceRequest, pt: PieceTracker) returns (kept: seq<PieceRequest>)
      requires Apart(pt) && pt.Valid()
      modifies pt`requests, pt`view, pt`Repr, pt.Repr
      ensures pt.Valid() && fresh(pt.Repr - old(pt.Repr)) && kept == Keep(downloading, EqualTo(req, false))
      ensures pt.view == CancelAll(pt.Fixed(), old(pt.view), Keep(downloading, EqualTo(req, true)))
    {
      kept := [];
      for i := 0 to |downloading|
        invariant pt.Valid() && fresh(pt.Repr - old(pt.Repr)) && kept == Keep(downloading[..i], EqualTo(req, false))
        invariant pt.view == CancelAll(pt.Fixed(), old(pt.view), Keep(downloading[..i], EqualTo(req, true)))
      {
        EqualStep(pt.Fixed(), old(pt.view), downloading, req, i);
        var same := GiveBackIfEqual(downloading[i], req, pt);
        kept := if same then kept else kept + [downloading[i]];
      }
      Whole(downloading);
    }

    /** cancelDownload */
    method CancelDownload(req: PieceRequest, pt: PieceTracker)
      requires Valid() && Apart(pt) && pt.Valid()
      modifies this`downloading, pt`requests, pt`view, pt`Repr, pt.Repr
      ensures Valid() && pt.Valid() && fresh(pt.Repr - old(pt.Repr))
      ensures pt.view == CancelAll(pt.Fixed(), old(pt.view), Keep(old(downloading), EqualTo(req, true)))
      ensures Value() == old(Value()).(downloading := Keep(old(downloading), EqualTo(req, false)))
    {
      var kept := GiveBackEqual(req, pt);
      downloading := kept;
    }

    /** processWrite: a request is dropped, and cancelled, while the peer chokes us; any other message is written. */
    method ProcessWrite(msg: Msg, pt: PieceTracker) returns (written: bool)
      requires Valid() && Apart(pt) && pt.Valid()
      modifies this`downloading, pt`requests, pt`view, pt`Repr, pt.Repr
      ensures Valid() && pt.Valid() && fresh(pt.Repr - old(pt.Repr))
      ensures msg.Request? && peerChoke ==>
                && pt.view == CancelAll(pt.Fixed(), old(pt.view), Keep(old(downloading), EqualTo(msg.r, true)))
                && Value() == old(Value()).(downloading := Keep(old(downloading), EqualTo(msg.r, false)))
      ensures !(msg.Request? && peerChoke) ==> pt.view == old(pt.view) && Value() == old(Value())
      ensures written <==> !(msg.Request? && old(peerChoke))
    {
      if peerChoke && msg.Request? {
        CancelDownload(msg.r, pt);
        return false;
      }
      written := true;
    }

    /** One message taken off the send channel. */
    method TakeFirst() returns (msg: Msg)
      requires Valid() && send != []
      modifies this`send, this`sendPending
      ensures Valid() && msg == old(send)[0] && Value() == WithoutFirst(old(Value()))
    {
      msg := send[0];
      send := send[1..];
      sendPending := sendPending - 1;
    }

    /** One message, if there is one, taken off the send channel and written, as the connection's loop does. */
    method WriteNext(pt: PieceTracker) returns (written: Option<Msg>)
      requires Valid() && Apart(pt) && pt.Valid()
      modifies this`send, this`sendPending, this`downloading, pt`requests, pt`view, pt`Repr, pt.Repr
      ensures Valid() && pt.Valid() && fresh(pt.Repr - old(pt.Repr))
      ensures bf == old(bf) && (bf != null ==> unchanged(bf))
      ensures pt.view == TakenRequests(pt.Fixed(), old(pt.view), old(Value())) && Value() == TakenPeer(old(Value()))
      ensures written == if old(send) == [] || (old(send)[0].Request? && old(peerChoke)) then None else Some(old(send)[0])
    {
      written := None;
      if send == [] {
        return;
      }
      var msg := TakeFirst();
      var ok := ProcessWrite(msg, pt);
      if ok {
        written := Some(msg);
      }
    }

    /** The loop of doClose. */
    method ReturnAll(pt: PieceTracker)
      requires Apart(pt) && pt.Valid()
      modifies pt`requests, pt`view, pt`Repr, pt.Repr
      ensures pt.Valid() && fresh(pt.Repr - old(pt.Repr))
      ensures pt.view == CancelAll(pt.Fixed(), old(pt.view), downloading)
    {
      for i := 0 to |downloading|
        invariant pt.Valid() && fresh(pt.Repr - old(pt.Repr))
        invariant pt.view == CancelAll(pt.Fixed(), old(pt.view), downloading[..i])
      {
        CancelStep(pt.Fixed(), old(pt.view), downloading, i);
        pt.CanceledRequest(downloading[i]);
      }
      Whole(downloading);
    }

    /** The start of doClose: nothing is sent any more. */
    method StopSending()
      requires Valid()
      modifies this`closing, this`send, this`sendPending
      ensures Valid() && Value() == old(Value()).(closing := true, out := old(Out()).(queue := []))
    {
      closing := true;
      send, sendPending := [], 0;
    }

    /** The request part of doClose. */
    method DoClose(pt: PieceTracker)
      requires Valid() && Apart(pt) && pt.Valid()
      modifies this`closing, this`send, this`sendPending, this`downloading, pt`requests, pt`view, pt`Repr, pt.Repr
      ensures Valid() && pt.Valid() && fresh(pt.Repr - old(pt.Repr))
      ensures bf == old(bf) && (bf != null ==> unchanged(bf)) && Value() == ShutDown(old(Value()))
      ensures pt.view == CancelAll(pt.Fixed(), old(pt.view), old(downloading))
    {
      StopSending();
      ReturnAll(pt);
      downloading := [];
    }

    /** The body of the loop of gotDownload; the last three results stay as they were if the entry does not match. */
    method OfferOne(r: PieceRequest, d: PieceData, pt: PieceTracker, ghost w0: WriteResult, ghost v0: Verdict, announce0: bool)
      returns (hit: bool, ghost w: WriteResult, ghost v: Verdict, announce: bool)
      requires Apart(pt) && pt.Valid() && pt.st.Valid() && pt.st.WritesWhole()
      requires r.Matches(d) ==>
                 d.index < pt.st.info.Count() && |d.data| < U32_MOD && d.begin != WRAPPING && Sized(pt.st.info, pt.view, d.index)
      modifies pt, pt.Repr, pt.st`disk, pt.st.bf
      ensures pt.Valid() && pt.st.Valid() && fresh(pt.Repr - old(pt.Repr)) && hit == r.Matches(d)
      ensures !hit ==> w == w0 && v == v0 && announce == announce0 && Is(pt.Model(), old(pt.Model()))
      ensures hit ==> HandledAs(pt.Fixed(), pt.st.reliable, old(pt.Model()), d, w, v, announce, pt.Model())
    {
      if !r.Matches(d) {
        return false, w0, v0, announce0;
      }
      hit := true;
      w, v, announce := pt.HandlePieceData(d);
    }

    /** The loop of gotDownload: every entry the data matches sends it to the tracker, the others are kept. */
    method Offer(d: PieceData, pt: PieceTracker)
      returns (kept: seq<PieceRequest>, ghost w: WriteResult, ghost v: Verdict, announce: bool)
      requires Apart(pt) && pt.Valid() && pt.st.Valid() && pt.st.WritesWhole() && Offerable(pt.st.info, pt.view, Value(), d)
      modifies pt, pt.Repr, pt.st`disk, pt.st.bf
      ensures pt.Valid() && pt.st.Valid() && fresh(pt.Repr - old(pt.Repr))
      ensures kept == Keep(downloading, MatchedBy(d, false))
      ensures Receipt(pt.Fixed(), pt.st.reliable, old(pt.Model()), Value(), d, w, v, announce, pt.Model())
    {
      kept, w, v, announce := [], WriteFailed(0), Unread, false;
      ghost var found := false;
      for i := 0 to |downloading|
        invariant pt.Valid() && pt.st.Valid() && fresh(pt.Repr - old(pt.Repr))
        invariant kept == Keep(downloading[..i], MatchedBy(d, false))
        invariant found <==> Keep(downloading[..i], MatchedBy(d, true)) != []
        invariant Arrives(pt.Fixed(), pt.st.reliable, old(pt.Model()), found, d, w, v, announce, pt.Model())
      {
        MatchStep(downloading, d, i);
        var hit;
        hit, w, v, announce := OfferOne(downloading[i], d, pt, w, v, announce);
        found := found || hit;
        kept := if hit then kept else kept + [downloading[i]];
      }
      Whole(downloading);
    }

    /** The end of gotDownload. */
    method Retain(kept: seq<PieceRequest>)
      requires Valid()
      modifies this`downloading
      ensures Valid() && Value() == old(Value()).(downloading := kept)
    {
      downloading := kept;
    }
  }
}
