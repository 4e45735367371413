/**
 * The download protocol on values: the piece tracker, every peer's request list, and the steps that change them.
 * lib/bittorrent/swarm/piece.go, peer.go and torrent.go, one method at a time; `P` identifies peers.
 */
module Protocol {
  import opened Words
  import opened Common
  import opened MetaInfo
  import opened Bitfields
  import opened Storage
  import opened Blocks

  /** What stays fixed: the metainfo and the hash function. In order, the search for a block to ask for ends. */
  datatype Env = Env(info: Info, sha1: seq<byte> -> Digest) {
    ghost predicate Ok() {
      info.WellFormed() && info.pieceLength <= WRAPPING
    }
  }

  type Requests = map<u32, Cached>

  /** The piece tracker with its storage. `unchecked` remembers the pieces whose bit no successful read backs. */
  datatype Tracker = Tracker(requests: Requests, flat: seq<byte>, owned: set<nat>, unchecked: set<nat>)

  datatype Msg =
    | Interested | NotInterested | Request(r: PieceRequest) | CancelMsg(r: PieceRequest) | Have(index: u32)
    | UnchokeMsg | OurBitfield | OurOptions | Other

  const SEND_CHAN_LEN: nat := 512

  /**
   * What happened to the interest messages: how many were lost in all, how many since the last one that was sent, and
   * how many were sent after an odd number of lost ones.
   */
  datatype Lapses = Lapses(lost: nat, gap: nat, repeats: nat)

  /** `queue` is the send channel; `log` is everything that ever went into it. */
  datatype Channel = Channel(queue: seq<Msg>, log: seq<Msg>, lapses: Lapses)

  datatype Peer = Peer(
    bf: Option<Bits>, choking: bool, interested: bool, told: bool, closing: bool, running: bool,
    downloading: seq<PieceRequest>, lastRequest: Option<PieceRequest>, window: int, usChoke: bool, ext: bool, out: Channel)

  /** `maxWindow` is the largest piece window ever set. */
  datatype State<!P> = State(peers: map<P, Peer>, tracker: Tracker, window: int, maxWindow: int)

  // ----- piece tracker -----

  function FreshPiece(env: Env, idx: u32): Cached {
    Cached(env.info.LengthOfPiece(idx), {}, map[])
  }

  /** visitCached: the cached piece, made anew when there is none. */
  function Visit(env: Env, rs: Requests, idx: u32): Cached {
    if idx in rs then rs[idx] else FreshPiece(env, idx)
  }

  /** canceledRequest */
  function CancelOne(env: Env, rs: Requests, r: PieceRequest): Requests {
    if r.length == 0 then rs else rs[r.index := Visit(env, rs, r.index).Cancel(r.begin)]
  }

  function CancelAll(env: Env, rs: Requests, ds: seq<PieceRequest>): Requests {
    if ds == [] then rs else CancelOne(env, CancelAll(env, rs, ds[..|ds| - 1]), ds[|ds| - 1])
  }

  /** The part of NextRequest that visits one piece. */
  function AskPiece(env: Env, rs: Requests, idx: u32): (Requests, Option<PieceRequest>) {
    var (c, r) := NextBlock(idx, Visit(env, rs, idx));
    (rs[idx := c], r)
  }

  /** The first half of NextRequest: another block of the piece asked for last. */
  function AskLast(env: Env, rs: Requests, last: Option<PieceRequest>): (Requests, Option<PieceRequest>) {
    if last.Some? then AskPiece(env, rs, last.value.index) else (rs, None)
  }

  /** PendingPieces */
  function PendingPieces(rs: Requests): set<nat> {
    set i | i in rs && rs[i].pending != {} :: i as nat
  }

  /** NextRequest, given what the picker answers if it is asked. */
  function NextRequest(env: Env, rs: Requests, last: Option<PieceRequest>, pick: Option<u32>): (Requests, Option<PieceRequest>) {
    var (rs1, r) := AskLast(env, rs, last);
    if r.Some? || pick.None? then (rs1, r) else AskPiece(env, rs1, pick.value)
  }

  /** PutChunk either writes all of the data, or fails after a part of it. */
  datatype WriteResult = Wrote | WriteFailed(done: nat)

  function Chunk(data: seq<byte>, w: WriteResult): seq<byte> {
    if w.Wrote? then data else data[..Min(w.done, |data|)]
  }

  function AfterWrite(c: Cached, d: PieceData, w: WriteResult): Cached {
    if w.Wrote? then c.Put(d.begin, d.data) else c.Cancel(d.begin)
  }

  function FlatAfter(env: Env, flat: seq<byte>, d: PieceData, w: WriteResult): seq<byte> {
    PutAt(flat, env.info.Start(d.index) + d.begin, Chunk(d.data, w))
  }

  /** The end of handlePieceData: a complete piece is checked and forgotten. */
  function Settle(t: Tracker, idx: u32, c: Cached, flat: seq<byte>, v: Verdict): Tracker {
    if c.Done() then Tracker(t.requests - {idx}, flat, Rated(t.owned, idx, v), Recheck(t.unchecked, idx, v))
    else Tracker(t.requests[idx := c], flat, t.owned, t.unchecked)
  }

  /** handlePieceData, when the write leaves the contents `flat`. */
  function HandleInto(env: Env, t: Tracker, d: PieceData, w: WriteResult, v: Verdict, flat: seq<byte>): Tracker {
    var c := Visit(env, t.requests, d.index);
    if !Accept(c.length, d.begin, |d.data| % U32_MOD) then t.(requests := t.requests[d.index := c])
    else Settle(t, d.index, AfterWrite(c, d, w), flat, v)
  }

  /** handlePieceData: take the block in, write it, and check the piece when it is complete. */
  function Handle(env: Env, t: Tracker, d: PieceData, w: WriteResult, v: Verdict): Tracker {
    HandleInto(env, t, d, w, v, FlatAfter(env, t.flat, d, w))
  }

  function Recheck(unchecked: set<nat>, idx: nat, v: Verdict): set<nat> {
    if v == Unread then unchecked + {idx} else unchecked - {idx}
  }

  /** handlePieceData completes the piece, and has it verified. */
  predicate Completes(env: Env, t: Tracker, d: PieceData, w: WriteResult) {
    var c := Visit(env, t.requests, d.index);
    Accept(c.length, d.begin, |d.data| % U32_MOD) && AfterWrite(c, d, w).Done()
  }

  /** handlePieceData ends in a have broadcast. */
  predicate Announces(env: Env, t: Tracker, d: PieceData, w: WriteResult, v: Verdict) {
    Completes(env, t, d, w) && v == Verified
  }

  // ----- peers -----

  /** The message says whether we are interested. */
  predicate Telling(m: Msg) {
    m.Interested? || m.NotInterested?
  }

  function Lost(l: Lapses, m: Msg): Lapses {
    if Telling(m) then Lapses(l.lost + 1, l.gap + 1, l.repeats) else l
  }

  function Sent(l: Lapses, m: Msg): Lapses {
    if Telling(m) then Lapses(l.lost, 0, l.repeats + l.gap % 2) else l
  }

  /** Send: beyond the channel's capacity messages are dropped. */
  function Push(c: Channel, m: Msg): Channel {
    if |c.queue| >= SEND_CHAN_LEN then c.(lapses := Lost(c.lapses, m))
    else Channel(c.queue + [m], c.log + [m], Sent(c.lapses, m))
  }

  function PushCancels(c: Channel, ds: seq<PieceRequest>): Channel {
    if ds == [] then c else Push(PushCancels(c, ds[..|ds| - 1]), CancelMsg(ds[|ds| - 1]))
  }

  /** The bits checkInterested finds: inverted own bitfield AND the peer's. */
  function Wanted(np: nat, owned: set<nat>, bf: Bits): set<nat> {
    Meet(Bits(np, np, Below(np) - owned), bf)
  }

  predicate Wants(np: nat, owned: set<nat>, bf: Option<Bits>) {
    bf.Some? && Wanted(np, owned, bf.value) != {}
  }

  /** The message checkInterested sends when what it believes it said is no longer true. */
  function PushInterest(c: Channel, told: bool, want: bool): Channel {
    if want == told then c else Push(c, if want then Interested else NotInterested)
  }

  function CheckInterested(np: nat, owned: set<nat>, p: Peer): Peer {
    var want := Wants(np, owned, p.bf);
    p.(interested := want, told := want, out := PushInterest(p.out, p.told, want))
  }

  /** The loops that rebuild a request list keep what passes a test, in order. */
  function Keep(ds: seq<PieceRequest>, test: PieceRequest -> bool): seq<PieceRequest> {
    if ds == [] then []
    else Keep(ds[..|ds| - 1], test) + if test(ds[|ds| - 1]) then [ds[|ds| - 1]] else []
  }

  function OfPiece(idx: u32, yes: bool): PieceRequest -> bool {
    (r: PieceRequest) => (r.index == idx) == yes
  }

  function MatchedBy(d: PieceData, yes: bool): PieceRequest -> bool {
    (r: PieceRequest) => r.Matches(d) == yes
  }

  function EqualTo(q: PieceRequest, yes: bool): PieceRequest -> bool {
    (r: PieceRequest) => r.Equals(q) == yes
  }

  /** cancelPiece */
  function CancelPiece(p: Peer, idx: u32): Peer {
    p.(downloading := Keep(p.downloading, OfPiece(idx, false)),
       out := PushCancels(p.out, Keep(p.downloading, OfPiece(idx, true))))
  }

  /** makePeerConn; `ext` says that both sides have the extension protocol. */
  function NewPeer(window: int, ext: bool): Peer {
    Peer(None, true, false, false, false, false, [], None, window, true, ext, Channel([], [], Lapses(0, 0, 0)))
  }

  // ----- steps -----

  datatype Step<P> =
    | Connect(p: P, ext: bool)
    | GotBitfield(p: P, bits: Bits)
    | GotHave(p: P, index: u32)
    | GotChoke(p: P)
    | GotUnchoke(p: P)
    | GotPiece(p: P, d: PieceData, w: WriteResult, v: Verdict)
    | TickDownload(p: P, due: bool, pick: Option<u32>)
    | Expire(idx: u32)
    | TakeFromQueue(p: P)
    | SendOther(p: P)
    | BeginClose(p: P)
    | DoClose(p: P)
    | SetWindow(n: int)
    | VerifyAll(verdicts: seq<Verdict>)

  function WithPeer<P>(s: State<P>, p: P, peer: Peer): State<P> {
    s.(peers := s.peers[p := peer])
  }

  function WithRequests<P>(s: State<P>, rs: Requests): State<P> {
    s.(tracker := s.tracker.(requests := rs))
  }

  /** A peer that chokes us loses its outstanding requests, each with a cancel message. */
  function Emptied(peer: Peer): Peer {
    peer.(choking := true, downloading := [], out := PushCancels(peer.out, peer.downloading))
  }

  /** cancelPendingDownloads, after remoteChoke */
  function Choked<P>(env: Env, s: State<P>, p: P): State<P>
    requires p in s.peers
  {
    var peer := s.peers[p];
    var rs := CancelAll(env, s.tracker.requests, peer.downloading);
    WithPeer(WithRequests(s, rs), p, Emptied(peer))
  }

  /** queueDownload */
  function Queued(peer: Peer, r: PieceRequest): Peer {
    peer.(lastRequest := Some(r), downloading := peer.downloading + [r], out := Push(peer.out, Request(r)))
  }

  function Sending(peer: Peer, m: Msg): Peer {
    peer.(out := Push(peer.out, m))
  }

  /** broadcastHave for one peer */
  function Told(env: Env, owned: set<nat>, peer: Peer, idx: u32): Peer {
    Sending(CheckInterested(env.info.Count(), owned, peer), Have(idx))
  }

  function Broadcast<P>(env: Env, peers: map<P, Peer>, owned: set<nat>, idx: u32): map<P, Peer> {
    map q | q in peers :: Told(env, owned, peers[q], idx)
  }

  /** gotDownload: nothing happens unless the data answers an outstanding request of this peer. */
  function Received<P>(env: Env, s: State<P>, p: P, d: PieceData, w: WriteResult, v: Verdict): State<P>
    requires p in s.peers
  {
    var peer := s.peers[p];
    if Keep(peer.downloading, MatchedBy(d, true)) == [] then s
    else
      var t := Handle(env, s.tracker, d, w, v);
      var peers := s.peers[p := Answered(peer, d)];
      s.(tracker := t,
         peers := if Announces(env, s.tracker, d, w, v) then Broadcast(env, peers, t.owned, d.index) else peers)
  }

  /** tickDownload gets as far as asking for a request. */
  predicate Asks<P>(env: Env, s: State<P>, p: P)
    requires p in s.peers
  {
    var peer := s.peers[p];
    && peer.running && s.tracker.owned != Below(env.info.Count())
    && peer.interested && !peer.closing && !peer.choking && |peer.downloading| < peer.window
  }

  function Ticked<P>(env: Env, s: State<P>, p: P, due: bool, pick: Option<u32>): State<P>
    requires p in s.peers
  {
    if !Asks(env, s, p) || !due then s
    else
      var (rs, r) := NextRequest(env, s.tracker.requests, s.peers[p].lastRequest, pick);
      if r.None? then WithRequests(s, rs)
      else WithPeer(WithRequests(s, rs), p, Queued(s.peers[p], r.value))
  }

  function AllCancel<P>(peers: map<P, Peer>, idx: u32): map<P, Peer> {
    map q | q in peers :: CancelPiece(peers[q], idx)
  }

  /** The expiry of one piece in tick. */
  function Expired<P>(s: State<P>, idx: u32): State<P> {
    if idx !in s.tracker.requests || s.tracker.requests[idx].pending == {} then s
    else
      var rs := s.tracker.requests;
      WithRequests(s, rs[idx := rs[idx].(pending := {})]).(peers := AllCancel(s.peers, idx))
  }

  /** processWrite drops a request while the peer chokes us. */
  predicate Drops(peer: Peer) {
    peer.out.queue != [] && peer.out.queue[0].Request? && peer.choking
  }

  function WithoutFirst(peer: Peer): Peer {
    peer.(out := peer.out.(queue := if peer.out.queue == [] then [] else peer.out.queue[1..]))
  }

  /** The connection once the next message is taken off the send channel, and the requests the tracker has then. */
  function TakenPeer(peer: Peer): Peer {
    if Drops(peer) then WithoutFirst(peer).(downloading := Keep(peer.downloading, EqualTo(peer.out.queue[0].r, false)))
    else WithoutFirst(peer)
  }

  function TakenRequests(env: Env, rs: Requests, peer: Peer): Requests {
    if Drops(peer) then CancelAll(env, rs, Keep(peer.downloading, EqualTo(peer.out.queue[0].r, true))) else rs
  }

  function Taken<P>(env: Env, s: State<P>, p: P): State<P>
    requires p in s.peers
  {
    WithPeer(WithRequests(s, TakenRequests(env, s.tracker.requests, s.peers[p])), p, TakenPeer(s.peers[p]))
  }

  function Closed<P>(env: Env, s: State<P>, p: P): State<P>
    requires p in s.peers
  {
    var rs := CancelAll(env, s.tracker.requests, s.peers[p].downloading);
    WithRequests(s, rs).(peers := s.peers - {p})
  }

  /** A peer's new bitfield, or a bit of it, and the interest that follows. */
  function WithBits(env: Env, owned: set<nat>, peer: Peer, bits: Bits): Peer {
    CheckInterested(env.info.Count(), owned, peer.(bf := Some(bits)))
  }

  /** Unchoke */
  function Unchoked(peer: Peer): Peer {
    if peer.usChoke then Sending(peer, UnchokeMsg).(usChoke := false) else peer
  }

  function Greeted(peer: Peer): Peer {
    if peer.ext then Sending(Unchoked(peer), OurOptions) else Unchoked(peer)
  }

  /** The first bitfield is answered, and starts the download. */
  function Begun(peer: Peer, before: Peer): Peer {
    if before.bf.Some? then peer else Greeted(peer).(running := true)
  }

  function SetBit(bits: Bits, i: nat): Bits {
    if i < bits.length && i < bits.room then bits.(members := bits.members + {i}) else bits
  }

  function HeardHave(env: Env, owned: set<nat>, peer: Peer, i: nat): Peer {
    if peer.bf.None? then peer.(closing := true)
    else WithBits(env, owned, peer, SetBit(peer.bf.value, i))
  }

  function Checked(env: Env, t: Tracker, verdicts: seq<Verdict>): Tracker {
    t.(owned := RatedAll(t.owned, verdicts),
       unchecked := set i | i in t.unchecked && (i < |verdicts| ==> verdicts[i] == Unread))
  }

  function Windowed(peer: Peer, n: int): Peer {
    peer.(window := n)
  }

  /** SetPieceWindow for every peer */
  function AllWindows<P>(peers: map<P, Peer>, n: int): map<P, Peer> {
    map q | q in peers :: Windowed(peers[q], n)
  }

  function Closing(peer: Peer): Peer {
    peer.(closing := true)
  }

  function Unchoking(env: Env, owned: set<nat>, peer: Peer): Peer {
    CheckInterested(env.info.Count(), owned, peer.(choking := false))
  }

  /** The list of a peer whose requests answered by `d` are gone. */
  function Answered(peer: Peer, d: PieceData): Peer {
    peer.(downloading := Keep(peer.downloading, MatchedBy(d, false)))
  }

  predicate Concerns<P>(step: Step<P>, peers: map<P, Peer>) {
    match step
    case Connect(p, _) => p !in peers
    case GotBitfield(p, _) => p in peers
    case GotHave(p, _) => p in peers
    case GotChoke(p) => p in peers
    case GotUnchoke(p) => p in peers
    case GotPiece(p, _, _, _) => p in peers
    case TickDownload(p, _, _) => p in peers
    case TakeFromQueue(p) => p in peers
    case SendOther(p) => p in peers
    case BeginClose(p) => p in peers
    case DoClose(p) => p in peers
    case _ => true
  }

  function Next<P>(env: Env, s: State<P>, step: Step<P>): State<P>
    requires Concerns(step, s.peers)
  {
    var owned := s.tracker.owned;
    match step
    case Connect(p, ext) => WithPeer(s, p, Sending(NewPeer(s.window, ext), OurBitfield))
    case GotBitfield(p, bits) =>
      WithPeer(s, p, Begun(WithBits(env, owned, s.peers[p], bits), s.peers[p]))
    case GotHave(p, i) => WithPeer(s, p, HeardHave(env, owned, s.peers[p], i))
    case GotChoke(p) => Choked(env, s, p)
    case GotUnchoke(p) => WithPeer(s, p, Unchoking(env, owned, s.peers[p]))
    case GotPiece(p, d, w, v) => Received(env, s, p, d, w, v)
    case TickDownload(p, due, pick) => Ticked(env, s, p, due, pick)
    case Expire(idx) => Expired(s, idx)
    case TakeFromQueue(p) => Taken(env, s, p)
    case SendOther(p) => WithPeer(s, p, Sending(s.peers[p], Other))
    case BeginClose(p) => WithPeer(s, p, Closing(s.peers[p]))
    case DoClose(p) => Closed(env, s, p)
    case SetWindow(n) =>
      s.(window := n, maxWindow := Max(s.maxWindow, n), peers := AllWindows(s.peers, n))
    case VerifyAll(verdicts) => s.(tracker := Checked(env, s.tracker, verdicts))
  }

  // ----- what the environment may do -----

  predicate HasPiece(peer: Peer, i: nat) {
    peer.bf.Some? && i in peer.bf.value.members
  }

  /** How many peers have piece `i`. */
  function Rarity<P>(peers: map<P, Peer>, i: nat): nat {
    |set q | q in peers && HasPiece(peers[q], i)|
  }

  /** What the picker may not return: pieces we own, pieces with a request outstanding. */
  function Excluded(t: Tracker, rs: Requests): set<nat> {
    t.owned + PendingPieces(rs)
  }

  /** The picker's answer is a rarest candidate; it has none to give only when there is none. */
  ghost predicate LegalPick<P>(peers: map<P, Peer>, remote: Bits, excluded: set<nat>, pick: Option<u32>) {
    match pick
    case None => forall i :: !Candidate(remote, excluded, i)
    case Some(k) =>
      && Candidate(remote, excluded, k)
      && forall i :: Candidate(remote, excluded, i) ==> Rarity(peers, k) <= Rarity(peers, i)
  }

  /** The answer getRarestPiece may give when peer `p` asks, if it comes to that. */
  ghost predicate LegalAnswer<P>(env: Env, s: State<P>, p: P, pick: Option<u32>)
    requires p in s.peers
  {
    var peer := s.peers[p];
    var (rs, r) := AskLast(env, s.tracker.requests, peer.lastRequest);
    peer.bf.Some? && r.None? ==> LegalPick(s.peers, peer.bf.value, Excluded(s.tracker, rs), pick)
  }

  /** A peer's bitfield is as long as the torrent, and has no members its bytes have no room for. */
  predicate BitsOk(np: nat, bits: Bits) {
    bits.length == np && forall i :: i in bits.members ==> i < np && i < bits.room
  }

  ghost predicate Enabled<P>(env: Env, s: State<P>, step: Step<P>)
    requires env.Ok() && |s.tracker.flat| == env.info.Total()
  {
    && Concerns(step, s.peers)
    && match step
       case GotBitfield(_, bits) => BitsOk(env.info.Count(), bits)
       case TickDownload(p, due, pick) => Asks(env, s, p) && due ==> LegalAnswer(env, s, p, pick)
       case GotPiece(_, d, w, v) =>
         && |d.data| < U32_MOD
         && (d.index < env.info.Count() ==>
               True(env.info, env.sha1, FlatAfter(env, s.tracker.flat, d, w), d.index, v))
       case VerifyAll(verdicts) =>
         |verdicts| == env.info.Count() && AllTrue(env.info, env.sha1, s.tracker.flat, verdicts)
       case _ => true
  }
}
