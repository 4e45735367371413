/** What is sent to each peer, and when: laws of the messages over whole runs. */
module Traffic {
  import opened Words
  import opened Common
  import opened MetaInfo
  import opened Bitfields
  import opened Storage
  import opened Blocks
  import opened Protocol
  import opened Correspondence
  import opened Assembly
  import opened Invariants
  import opened Safety
  import opened Progress
  import Interest

  // ----- what sending comes to -----

  /** How many of `n` messages a channel has room for. */
  function Room(c: Channel, n: nat): nat {
    Min(n, Max(0, 512 - |c.queue|))
  }

  /** `c'` is `c` after the messages `ms` were sent: those there is room for, in order, and nothing else. */
  predicate Says(c: Channel, c': Channel, ms: seq<Msg>) {
    c'.queue == c.queue + ms[..Room(c, |ms|)] && c'.log == c.log + ms[..Room(c, |ms|)]
  }

  lemma PushSays(c: Channel, m: Msg)
    ensures Says(c, Push(c, m), [m])
  {
    assert c.queue + [] == c.queue && c.log + [] == c.log;
  }

  lemma SaysNothing(c: Channel, c': Channel)
    requires c'.queue == c.queue && c'.log == c.log
    ensures Says(c, c', [])
  {
  }

  lemma SaysMore(a: Channel, b: Channel, c: Channel, ms: seq<Msg>, ns: seq<Msg>)
    requires Says(a, b, ms) && Says(b, c, ns)
    ensures Says(a, c, ms + ns)
  {
    var k := Room(a, |ms|);
    if k < |ms| {
      assert Room(b, |ns|) == 0 && (ms + ns)[..k] == ms[..k] && ns[..0] == [];
    } else {
      assert (ms + ns)[..k + Room(b, |ns|)] == ms[..k] + ns[..Room(b, |ns|)];
    }
  }

  function Cancels(ds: seq<PieceRequest>): (ms: seq<Msg>)
    ensures |ms| == |ds| && forall i :: 0 <= i < |ds| ==> ms[i] == CancelMsg(ds[i])
  {
    seq(|ds|, i requires 0 <= i < |ds| => CancelMsg(ds[i]))
  }

  lemma {:induction false} PushCancelsSays(c: Channel, ds: seq<PieceRequest>)
    ensures Says(c, PushCancels(c, ds), Cancels(ds))
  {
    if ds == [] {
      SaysNothing(c, c);
    } else {
      var front, last := ds[..|ds| - 1], ds[|ds| - 1];
      PushCancelsSays(c, front);
      PushSays(PushCancels(c, front), CancelMsg(last));
      SaysMore(c, PushCancels(c, front), PushCancels(c, ds), Cancels(front), [CancelMsg(last)]);
      assert Cancels(ds) == Cancels(front) + [CancelMsg(last)];
    }
  }

  /** The interest message that is due, if what was said is no longer so. */
  function News(told: bool, want: bool): seq<Msg> {
    if told == want then [] else [if want then Interested else NotInterested]
  }

  lemma CheckSays(np: nat, owned: set<nat>, peer: Peer)
    ensures Says(peer.out, CheckInterested(np, owned, peer).out, News(peer.told, CheckInterested(np, owned, peer).told))
  {
    var want := Wants(np, owned, peer.bf);
    if want == peer.told {
      SaysNothing(peer.out, peer.out);
    } else {
      PushSays(peer.out, if want then Interested else NotInterested);
    }
  }

  /** What a first bitfield is answered. */
  function Greeting(peer: Peer): seq<Msg> {
    if peer.bf.Some? then []
    else (if peer.usChoke then [UnchokeMsg] else []) + (if peer.ext then [OurOptions] else [])
  }

  lemma UnchokedSays(peer: Peer)
    ensures Says(peer.out, Unchoked(peer).out, if peer.usChoke then [UnchokeMsg] else [])
  {
    if peer.usChoke {
      PushSays(peer.out, UnchokeMsg);
    } else {
      SaysNothing(peer.out, peer.out);
    }
  }

  lemma GreetedSays(peer: Peer)
    ensures Says(peer.out, Greeted(peer).out, Greeting(peer.(bf := None)))
  {
    UnchokedSays(peer);
    if peer.ext {
      PushSays(Unchoked(peer).out, OurOptions);
    } else {
      SaysNothing(Unchoked(peer).out, Unchoked(peer).out);
    }
    SaysMore(peer.out, Unchoked(peer).out, Greeted(peer).out, if peer.usChoke then [UnchokeMsg] else [],
             if peer.ext then [OurOptions] else []);
  }

  lemma BegunSays(peer: Peer, before: Peer)
    requires before.usChoke == peer.usChoke && before.ext == peer.ext
    ensures Says(peer.out, Begun(peer, before).out, Greeting(before))
  {
    if before.bf.Some? {
      SaysNothing(peer.out, peer.out);
    } else {
      GreetedSays(peer);
    }
  }

  lemma BitfieldSays(env: Env, owned: set<nat>, peer: Peer, bits: Bits)
    ensures var peer' := Begun(WithBits(env, owned, peer, bits), peer);
            Says(peer.out, peer'.out, News(peer.told, peer'.told) + Greeting(peer))
  {
    var mid := WithBits(env, owned, peer, bits);
    CheckSays(env.info.Count(), owned, peer.(bf := Some(bits)));
    BegunSays(mid, peer);
    SaysMore(peer.out, mid.out, Begun(mid, peer).out, News(peer.told, mid.told), Greeting(peer));
  }

  lemma ToldSays(env: Env, owned: set<nat>, peer: Peer, idx: u32)
    ensures var peer' := Told(env, owned, peer, idx); Says(peer.out, peer'.out, News(peer.told, peer'.told) + [Have(idx)])
  {
    var mid := CheckInterested(env.info.Count(), owned, peer);
    CheckSays(env.info.Count(), owned, peer);
    PushSays(mid.out, Have(idx));
    SaysMore(peer.out, mid.out, Told(env, owned, peer, idx).out, News(peer.told, mid.told), [Have(idx)]);
  }

  // ----- what each step sends -----

  /** gotDownload reaches the end of handlePieceData, and the have broadcast in it. */
  predicate Broadcasts<P>(env: Env, s: State<P>, step: Step<P>) {
    && step.GotPiece? && step.p in s.peers && Keep(s.peers[step.p].downloading, MatchedBy(step.d, true)) != []
    && Announces(env, s.tracker, step.d, step.w, step.v)
  }

  /** The request a tick comes to, if any. */
  function AskedBy<P>(env: Env, s: State<P>, step: Step<P>, p: P): Option<PieceRequest>
    requires p in s.peers
  {
    if step.TickDownload? && step.p == p && step.due && Asks(env, s, p)
    then NextRequest(env, s.tracker.requests, s.peers[p].lastRequest, step.pick).1
    else None
  }

  /** The messages that a step sends to peer `p`, where there is room for them. */
  function SentTo<P>(env: Env, s: State<P>, step: Step<P>, p: P): seq<Msg>
    requires Concerns(step, s.peers) && p in s.peers && p in Next(env, s, step).peers
  {
    var peer := s.peers[p];
    var news := News(peer.told, Next(env, s, step).peers[p].told);
    match step
    case GotBitfield(q, _) => if p == q then news + Greeting(peer) else []
    case GotHave(q, _) => if p == q then news else []
    case GotUnchoke(q) => if p == q then news else []
    case GotChoke(q) => if p == q then Cancels(peer.downloading) else []
    case GotPiece(q, d, _, _) => if Broadcasts(env, s, step) then news + [Have(d.index)] else []
    case TickDownload(_, _, _) =>
      (match AskedBy(env, s, step, p) case None => [] case Some(r) => [Request(r)])
    case Expire(idx) =>
      if idx in s.tracker.requests && s.tracker.requests[idx].pending != {} then Cancels(Keep(peer.downloading, OfPiece(idx, true)))
      else []
    case SendOther(q) => if p == q then [Other] else []
    case _ => []
  }

  lemma PieceSays<P>(env: Env, s: State<P>, q: P, d: PieceData, w: WriteResult, v: Verdict, p: P)
    requires q in s.peers && p in s.peers
    ensures var step := GotPiece(q, d, w, v);
            p in Next(env, s, step).peers && Says(s.peers[p].out, Next(env, s, step).peers[p].out, SentTo(env, s, step, p))
  {
    var step := GotPiece(q, d, w, v);
    if Broadcasts(env, s, step) {
      ToldSays(env, Handle(env, s.tracker, d, w, v).owned, s.peers[q := Answered(s.peers[q], d)][p], d.index);
    } else {
      SaysNothing(s.peers[p].out, s.peers[p].out);
    }
  }

  lemma TickSays<P>(env: Env, s: State<P>, q: P, due: bool, pick: Option<u32>, p: P)
    requires q in s.peers && p in s.peers
    ensures var step := TickDownload(q, due, pick);
            p in Next(env, s, step).peers && Says(s.peers[p].out, Next(env, s, step).peers[p].out, SentTo(env, s, step, p))
  {
    var r := AskedBy(env, s, TickDownload(q, due, pick), p);
    if r.Some? {
      PushSays(s.peers[p].out, Request(r.value));
    } else {
      SaysNothing(s.peers[p].out, s.peers[p].out);
    }
  }

  lemma ChokeSays<P>(env: Env, s: State<P>, q: P, p: P)
    requires q in s.peers && p in s.peers
    ensures Says(s.peers[p].out, Next(env, s, GotChoke(q)).peers[p].out, SentTo(env, s, GotChoke(q), p))
  {
    PushCancelsSays(s.peers[p].out, s.peers[p].downloading);
    SaysNothing(s.peers[p].out, s.peers[p].out);
  }

  lemma ExpirySays<P>(env: Env, s: State<P>, idx: u32, p: P)
    requires p in s.peers
    ensures p in Next(env, s, Expire(idx)).peers
    ensures Says(s.peers[p].out, Next(env, s, Expire(idx)).peers[p].out, SentTo(env, s, Expire(idx), p))
  {
    PushCancelsSays(s.peers[p].out, Keep(s.peers[p].downloading, OfPiece(idx, true)));
    SaysNothing(s.peers[p].out, s.peers[p].out);
  }

  lemma HaveSays(env: Env, owned: set<nat>, peer: Peer, i: u32)
    ensures var peer' := HeardHave(env, owned, peer, i); Says(peer.out, peer'.out, News(peer.told, peer'.told))
  {
    if peer.bf.Some? {
      CheckSays(env.info.Count(), owned, peer.(bf := Some(SetBit(peer.bf.value, i))));
    } else {
      SaysNothing(peer.out, peer.out);
    }
  }

  /** The step takes a message off peer `p`'s queue. */
  predicate WritesTo<P(==)>(step: Step<P>, p: P) {
    step.TakeFromQueue? && step.p == p
  }

  lemma QuietSays<P>(env: Env, s: State<P>, step: Step<P>, p: P)
    requires Concerns(step, s.peers) && Interest.Quiet(step) && p in s.peers && p in Next(env, s, step).peers && !WritesTo(step, p)
    ensures Says(s.peers[p].out, Next(env, s, step).peers[p].out, [])
  {
    SaysNothing(s.peers[p].out, s.peers[p].out);
  }

  /** A step that concerns another peer only. */
  lemma OtherSays<P>(env: Env, s: State<P>, step: Step<P>, p: P)
    requires Concerns(step, s.peers) && p in s.peers && p in Next(env, s, step).peers
    requires (step.GotBitfield? || step.GotHave? || step.GotUnchoke? || step.SendOther?) && step.p != p
    ensures Says(s.peers[p].out, Next(env, s, step).peers[p].out, [])
  {
    SaysNothing(s.peers[p].out, s.peers[p].out);
  }

  /**
   * What a step does to the channel of a peer that stays connected, unless it writes one of its messages: the messages it
   * sends are appended, in order, as far as there is room for them.
   */
  lemma StepSays<P>(env: Env, s: State<P>, step: Step<P>, p: P)
    requires Concerns(step, s.peers) && p in s.peers && p in Next(env, s, step).peers && !WritesTo(step, p)
    ensures Says(s.peers[p].out, Next(env, s, step).peers[p].out, SentTo(env, s, step, p))
  {
    if (step.GotBitfield? || step.GotHave? || step.GotUnchoke? || step.SendOther?) && step.p != p {
      OtherSays(env, s, step, p);
      return;
    }
    var peer := s.peers[p];
    match step
    case GotBitfield(_, bits) => BitfieldSays(env, s.tracker.owned, peer, bits);
    case GotHave(_, i) => HaveSays(env, s.tracker.owned, peer, i);
    case GotUnchoke(_) => CheckSays(env.info.Count(), s.tracker.owned, peer.(choking := false));
    case SendOther(_) => PushSays(peer.out, Other);
    case GotChoke(q) => ChokeSays(env, s, q, p);
    case GotPiece(q, d, w, v) => PieceSays(env, s, q, d, w, v, p);
    case TickDownload(q, due, pick) => TickSays(env, s, q, due, pick, p);
    case Expire(idx) => ExpirySays(env, s, idx, p);
    case _ => QuietSays(env, s, step, p);
  }

  /** Writing takes the first message off the queue, and changes no more of the channel. */
  lemma WriteSays<P>(env: Env, s: State<P>, p: P)
    requires p in s.peers
    ensures var c, c' := s.peers[p].out, Next(env, s, TakeFromQueue(p)).peers[p].out;
            && c'.log == c.log
            && if c.queue == [] then c'.queue == [] else c.queue == [c.queue[0]] + c'.queue
  {
  }

  // ----- have messages -----

  /** The data answers a request of `p` and is the last block missing of its piece, and the piece is verified. */
  predicate LastBlock<P>(s: State<P>, p: P, d: PieceData, w: WriteResult, v: Verdict) {
    && p in s.peers && |d.data| < U32_MOD && PieceRequest(d.index, d.begin, |d.data|) in s.peers[p].downloading
    && w == Wrote && v == Verified && d.index in s.tracker.requests
    && forall k: nat :: k < NumBlocks(s.tracker.requests[d.index].length) ==>
         k in s.tracker.requests[d.index].accepted || k * BLOCK_SIZE == d.begin
  }

  lemma DoneByPut(c: Cached, begin: u32, data: seq<byte>)
    requires begin % BLOCK_SIZE == 0 && begin / BLOCK_SIZE < NumBlocks(c.length)
    ensures c.Put(begin, data).Done() <==> forall k: nat :: k < NumBlocks(c.length) ==> k in c.accepted || k * BLOCK_SIZE == begin
  {
    var c' := c.Put(begin, data);
    forall k: nat | k < NumBlocks(c.length)
      ensures k in c'.accepted <==> k in c.accepted || k * BLOCK_SIZE == begin
    {
    }
    assert c'.Done() <==> forall k: nat :: k < NumBlocks(c.length) ==> k in Below(NumBlocks(c.length)) && k in c'.accepted;
  }

  /** A list has an entry for the data exactly if some entry passes the test of gotDownload. */
  lemma ListedExactly(ds: seq<PieceRequest>, d: PieceData)
    requires |d.data| < U32_MOD
    ensures Keep(ds, MatchedBy(d, true)) != [] <==> PieceRequest(d.index, d.begin, |d.data|) in ds
  {
    if Keep(ds, MatchedBy(d, true)) != [] {
      KeepHas(ds, MatchedBy(d, true), Keep(ds, MatchedBy(d, true))[0]);
    }
    if PieceRequest(d.index, d.begin, |d.data|) in ds {
      KeepsSome(ds, MatchedBy(d, true), PieceRequest(d.index, d.begin, |d.data|));
    }
  }

  lemma CompletesExactly(env: Env, t: Tracker, d: PieceData, w: WriteResult)
    requires TrackerOk(env, t) && |d.data| < U32_MOD && IsPending(t.requests, PieceRequest(d.index, d.begin, |d.data|))
    ensures d.index in t.requests && d.begin % BLOCK_SIZE == 0 && d.begin / BLOCK_SIZE < NumBlocks(t.requests[d.index].length)
    ensures Completes(env, t, d, w) <==> w == Wrote && t.requests[d.index].Put(d.begin, d.data).Done()
  {
    PendingBlock(env, t.flat, t.requests, d);
    CompletesIs(env, t, d, w);
    if w.WriteFailed? {
      AfterWriteOk(env, t.flat, t.requests, d, w);
    }
  }

  lemma CompletesIs(env: Env, t: Tracker, d: PieceData, w: WriteResult)
    requires |d.data| < U32_MOD && d.index in t.requests && Accept(t.requests[d.index].length, d.begin, |d.data|)
    ensures Completes(env, t, d, w) <==> AfterWrite(t.requests[d.index], d, w).Done()
  {
    assert Is(Visit(env, t.requests, d.index), t.requests[d.index]);
  }

  /** When a have is broadcast. */
  lemma BroadcastsExactly<P>(env: Env, s: State<P>, p: P, d: PieceData, w: WriteResult, v: Verdict)
    requires Inv(env, s) && p in s.peers && |d.data| < U32_MOD
    ensures Broadcasts(env, s, GotPiece(p, d, w, v)) <==> LastBlock(s, p, d, w, v)
  {
    ListedExactly(s.peers[p].downloading, d);
    if PieceRequest(d.index, d.begin, |d.data|) in s.peers[p].downloading {
      ListedIsPending(env, s, p, PieceRequest(d.index, d.begin, |d.data|));
      CompletesExactly(env, s.tracker, d, w);
      DoneByPut(s.tracker.requests[d.index], d.begin, d.data);
    }
  }

  lemma SaidLast(c: Channel, c': Channel, ms: seq<Msg>, m: Msg)
    requires Says(c, c', ms + [m]) && |c.queue| + |ms| < 512
    ensures c'.log != [] && c'.log[|c'.log| - 1] == m
  {
    assert (ms + [m])[..|ms + [m]|] == ms + [m];
  }

  /**
   * When the last block of a piece is in and the piece is verified, every connected peer is sent the have: unless its
   * channel was full, it is the last message that went into it.
   */
  lemma HaveReachesAll<P>(env: Env, s: State<P>, p: P, d: PieceData, w: WriteResult, v: Verdict, q: P)
    requires Inv(env, s) && Enabled(env, s, GotPiece(p, d, w, v)) && LastBlock(s, p, d, w, v) && q in s.peers
    ensures var s' := Next(env, s, GotPiece(p, d, w, v));
            && q in s'.peers
            && Says(s.peers[q].out, s'.peers[q].out, News(s.peers[q].told, s'.peers[q].told) + [Have(d.index)])
            && (|s.peers[q].out.queue| + 1 < 512 ==>
                  s'.peers[q].out.log != [] && s'.peers[q].out.log[|s'.peers[q].out.log| - 1] == Have(d.index))
  {
    var s' := Next(env, s, GotPiece(p, d, w, v));
    BroadcastsExactly(env, s, p, d, w, v);
    PieceSays(env, s, p, d, w, v, q);
    if |s.peers[q].out.queue| + 1 < 512 {
      SaidLast(s.peers[q].out, s'.peers[q].out, News(s.peers[q].told, s'.peers[q].told), Have(d.index));
    }
  }

  /** Every peer with room for it was sent the have last. */
  ghost predicate Reached<P>(peers: map<P, Peer>, peers': map<P, Peer>, idx: u32) {
    && peers'.Keys == peers.Keys
    && forall q :: q in peers && |peers[q].out.queue| + 1 < 512 ==>
         peers'[q].out.log != [] && peers'[q].out.log[|peers'[q].out.log| - 1] == Have(idx)
  }

  lemma BroadcastReaches<P>(env: Env, peers: map<P, Peer>, owned: set<nat>, idx: u32)
    ensures Reached(peers, Broadcast(env, peers, owned, idx), idx)
  {
    forall q | q in peers && |peers[q].out.queue| + 1 < 512
      ensures var log := Broadcast(env, peers, owned, idx)[q].out.log; log != [] && log[|log| - 1] == Have(idx)
    {
      var peer' := Told(env, owned, peers[q], idx);
      ToldSays(env, owned, peers[q], idx);
      SaidLast(peers[q].out, peer'.out, News(peers[q].told, peer'.told), Have(idx));
    }
  }

  /** What a log gained was sent by the step. */
  lemma LogGained<P>(env: Env, s: State<P>, step: Step<P>, p: P, m: Msg)
    requires Concerns(step, s.peers) && p in s.peers && p in Next(env, s, step).peers
    requires m in Next(env, s, step).peers[p].out.log && m !in s.peers[p].out.log
    ensures m in SentTo(env, s, step, p)
  {
    if WritesTo(step, p) {
      WriteSays(env, s, p);
    } else {
      StepSays(env, s, step, p);
    }
  }

  /** A peer that is new has been sent our bitfield. */
  lemma NewcomerLog<P>(env: Env, s: State<P>, step: Step<P>, p: P)
    requires Concerns(step, s.peers) && p !in s.peers && p in Next(env, s, step).peers
    ensures step.Connect? && step.p == p
    ensures Next(env, s, step).peers[p].out.log == [OurBitfield] == Next(env, s, step).peers[p].out.queue
  {
    if step.Connect? {
      PushSays(NewPeer(s.window, step.ext).out, OurBitfield);
    }
  }

  lemma HaveSent<P>(env: Env, s: State<P>, step: Step<P>, p: P, i: u32)
    requires Concerns(step, s.peers) && p in s.peers && p in Next(env, s, step).peers && Have(i) in SentTo(env, s, step, p)
    ensures Broadcasts(env, s, step) && step.d.index == i
  {
  }

  lemma HaveEnters<P>(env: Env, s: State<P>, step: Step<P>, p: P, i: u32)
    requires Inv(env, s) && Enabled(env, s, step) && p in Next(env, s, step).peers && Have(i) in Next(env, s, step).peers[p].out.log
    requires p in s.peers ==> Have(i) !in s.peers[p].out.log
    ensures step.GotPiece? && step.d.index == i && LastBlock(s, step.p, step.d, step.w, step.v)
    ensures Announced(env, Next(env, s, step).tracker, i)
  {
    if p !in s.peers {
      NewcomerLog(env, s, step, p);
    } else {
      LogGained(env, s, step, p, Have(i));
      HaveSent(env, s, step, p, i);
      BroadcastsExactly(env, s, step.p, step.d, step.w, step.v);
      HaveIsTrue(env, s, step.p, step.d, step.w, step.v);
    }
  }

  /** The have for piece `i` goes out at step `k`: its last block is in, and the piece is owned, forgotten and good. */
  ghost predicate HaveAt<P>(env: Env, states: seq<State<P>>, steps: seq<Step<P>>, k: nat, i: u32) {
    && k < |steps| < |states| && steps[k].GotPiece? && steps[k].d.index == i
    && LastBlock(states[k], steps[k].p, steps[k].d, steps[k].w, steps[k].v)
    && Announced(env, states[k + 1].tracker, i)
  }

  lemma HaveGained<P>(env: Env, states: seq<State<P>>, steps: seq<Step<P>>, n: nat, p: P, i: u32)
    requires Run(env, states, steps) && Inv(env, states[0]) && n < |steps| && p in states[n + 1].peers
    requires Have(i) in states[n + 1].peers[p].out.log
    ensures HaveAt(env, states, steps, n, i) || (p in states[n].peers && Have(i) in states[n].peers[p].out.log)
  {
    RunOk(env, states, steps, n);
    assert Transition(env, states, steps, n);
    if !(p in states[n].peers && Have(i) in states[n].peers[p].out.log) {
      HaveEnters(env, states[n], steps[n], p, i);
    }
  }

  /**
   * In every run from the start, a have in what a peer was sent went out in a step that completed the piece, and left it
   * owned with good bytes.
   */
  lemma {:induction false} HaveOnlyIfGood<P>(env: Env, states: seq<State<P>>, steps: seq<Step<P>>, n: nat, p: P, i: u32)
    requires Run(env, states, steps) && Inv(env, states[0]) && states[0].peers == map[] && n < |states|
    requires p in states[n].peers && Have(i) in states[n].peers[p].out.log
    ensures exists k: nat :: k < n && HaveAt(env, states, steps, k, i)
    decreases n
  {
    if n > 0 {
      HaveGained(env, states, steps, n - 1, p, i);
      if !HaveAt(env, states, steps, n - 1, i) {
        HaveOnlyIfGood(env, states, steps, n - 1, p, i);
      }
    }
  }

  // ----- requests -----

  /** We may ask peer `p` for another block. */
  predicate Eligible<P>(env: Env, s: State<P>, p: P) {
    && p in s.peers && s.peers[p].running && s.peers[p].interested && !s.peers[p].closing && !s.peers[p].choking
    && |s.peers[p].downloading| < s.peers[p].window && exists i: nat :: i < env.info.Count() && i !in s.tracker.owned
  }

  lemma AsksExactly<P>(env: Env, s: State<P>, p: P)
    requires p in s.peers && s.tracker.owned <= Below(env.info.Count())
    ensures Asks(env, s, p) <==> Eligible(env, s, p)
  {
    if forall i: nat :: i < env.info.Count() ==> i in s.tracker.owned {
      assert s.tracker.owned == Below(env.info.Count());
    }
  }

  /** A block of the piece asked for last can be asked for: the piece is to be made anew, or has a free block. */
  ghost predicate LastGoesOn<P>(s: State<P>, p: P)
    requires p in s.peers
  {
    && s.peers[p].lastRequest.Some?
    && var idx := s.peers[p].lastRequest.value.index;
       idx !in s.tracker.requests || exists k :: s.tracker.requests[idx].Free(k)
  }

  lemma LastExactly<P>(env: Env, s: State<P>, p: P)
    requires Inv(env, s) && p in s.peers
    ensures AskLast(env, s.tracker.requests, s.peers[p].lastRequest).1.Some? <==> LastGoesOn(s, p)
  {
    if s.peers[p].lastRequest.Some? {
      LeavesLastWhilePending(env, s, p);
      var idx := s.peers[p].lastRequest.value.index;
      if idx in s.tracker.requests && FirstFree(s.tracker.requests[idx], 0).Some? {
        assert s.tracker.requests[idx].Free(FirstFree(s.tracker.requests[idx], 0).value);
      }
    }
  }

  /** There is something to ask peer `p` for. */
  ghost predicate Available<P>(s: State<P>, p: P)
    requires p in s.peers
  {
    LastGoesOn(s, p) || exists i :: Untouched(s, p, i)
  }

  lemma RequestExactly<P>(env: Env, s: State<P>, p: P, pick: Option<u32>)
    requires Inv(env, s) && p in s.peers && s.peers[p].bf.Some? && LegalAnswer(env, s, p, pick)
    ensures var r := NextRequest(env, s.tracker.requests, s.peers[p].lastRequest, pick).1;
            && (r.Some? <==> Available(s, p))
            && (r.Some? ==> if LastGoesOn(s, p) then r.value.index == s.peers[p].lastRequest.value.index
                            else Untouched(s, p, r.value.index))
  {
    LastExactly(env, s, p);
    RequestFrom(env, s.tracker.requests, s.peers[p].lastRequest, pick);
    if !LastGoesOn(s, p) {
      PickIsRarest(env, s, p, pick);
      if pick.Some? {
        PickGivesRequest(env, s, p, pick);
      }
    }
  }

  /** A tick asks peer `p` for `r`: the request is listed, remembered and sent, and was nobody's before. */
  ghost predicate Asked<P>(s: State<P>, s': State<P>, p: P, r: PieceRequest)
    requires p in s.peers
  {
    && p in s'.peers && Is(s'.peers, s.peers[p := s'.peers[p]])
    && s'.peers[p] == s.peers[p].(downloading := s.peers[p].downloading + [r], lastRequest := Some(r), out := s'.peers[p].out)
    && Says(s.peers[p].out, s'.peers[p].out, [Request(r)])
    && forall q :: q in s.peers ==> r !in s.peers[q].downloading
  }

  lemma QueuedAsked<P>(env: Env, s: State<P>, p: P, pick: Option<u32>, r: PieceRequest)
    requires Inv(env, s) && p in s.peers && Asks(env, s, p) && LegalAnswer(env, s, p, pick)
    requires NextRequest(env, s.tracker.requests, s.peers[p].lastRequest, pick).1 == Some(r)
    ensures Asked(s, Ticked(env, s, p, true, pick), p, r)
  {
    PushSays(s.peers[p].out, Request(r));
    NewToAll(env, s, p, pick, r);
  }

  /** What is asked for is in nobody's list. */
  lemma NewToAll<P>(env: Env, s: State<P>, p: P, pick: Option<u32>, r: PieceRequest)
    requires Inv(env, s) && p in s.peers && s.peers[p].bf.Some? && LegalAnswer(env, s, p, pick)
    requires NextRequest(env, s.tracker.requests, s.peers[p].lastRequest, pick).1 == Some(r)
    ensures forall q :: q in s.peers ==> r !in s.peers[q].downloading
  {
    NextRequestOk(env, s.tracker.flat, s.tracker.requests, s.peers[p].lastRequest, pick);
    forall q | q in s.peers
      ensures r !in s.peers[q].downloading
    {
      if r in s.peers[q].downloading {
        ListedIsPending(env, s, q, r);
      }
    }
  }

  /**
   * A due tick asks for another block exactly when we may ask the peer and there is something to ask it for: a block of
   * the piece asked for last, or else of a piece it has, we lack, and nobody is asked for. Otherwise the connections stay as
   * they are. The bits and the stored bytes do in any case.
   */
  ghost predicate TickDone<P>(env: Env, s: State<P>, s': State<P>, p: P, due: bool)
    requires p in s.peers
  {
    && (if due && Eligible(env, s, p) && Available(s, p) then
          exists r :: Asked(s, s', p, r)
                   && if LastGoesOn(s, p) then r.index == s.peers[p].lastRequest.value.index else Untouched(s, p, r.index)
        else Is(s'.peers, s.peers))
    && Is(s'.tracker, s.tracker.(requests := s'.tracker.requests)) && (!(due && Eligible(env, s, p)) ==> Is(s'.tracker, s.tracker))
  }

  /** Every tick does that. */
  lemma TickAsks<P>(env: Env, s: State<P>, p: P, due: bool, pick: Option<u32>)
    requires Inv(env, s) && Enabled(env, s, TickDownload(p, due, pick))
    ensures TickDone(env, s, Next(env, s, TickDownload(p, due, pick)), p, due)
  {
    AsksExactly(env, s, p);
    if due && Asks(env, s, p) {
      RequestExactly(env, s, p, pick);
      var r := NextRequest(env, s.tracker.requests, s.peers[p].lastRequest, pick).1;
      if r.Some? {
        QueuedAsked(env, s, p, pick, r.value);
      }
    }
  }

  // ----- when nothing is asked -----

  /** What was logged after `log` is no request. */
  predicate NoneAsked(log: seq<Msg>, log': seq<Msg>) {
    |log| <= |log'| && log'[..|log|] == log && forall i :: |log| <= i < |log'| ==> !log'[i].Request?
  }

  lemma NoneAskedMore(a: seq<Msg>, b: seq<Msg>, c: seq<Msg>)
    requires NoneAsked(a, b) && NoneAsked(b, c)
    ensures NoneAsked(a, c)
  {
    assert c[..|a|] == c[..|b|][..|a|];
  }

  /** Only ticks that get as far as asking send requests. */
  lemma OnlyTicksAsk<P>(env: Env, s: State<P>, step: Step<P>, p: P, i: nat)
    requires Concerns(step, s.peers) && p in s.peers && p in Next(env, s, step).peers
    requires i < |SentTo(env, s, step, p)| && SentTo(env, s, step, p)[i].Request?
    ensures step.TickDownload? && step.p == p && step.due && Asks(env, s, p)
  {
  }

  /** No step sends a request to a peer we may not ask. */
  lemma IneligibleStep<P>(env: Env, s: State<P>, step: Step<P>, p: P)
    requires Inv(env, s) && Concerns(step, s.peers) && p in s.peers && p in Next(env, s, step).peers && !Eligible(env, s, p)
    ensures NoneAsked(s.peers[p].out.log, Next(env, s, step).peers[p].out.log)
  {
    if WritesTo(step, p) {
      WriteSays(env, s, p);
      return;
    }
    StepSays(env, s, step, p);
    AsksExactly(env, s, p);
    forall i: nat | i < |SentTo(env, s, step, p)|
      ensures !SentTo(env, s, step, p)[i].Request?
    {
      if SentTo(env, s, step, p)[i].Request? {
        OnlyTicksAsk(env, s, step, p, i);
      }
    }
  }

  /** The step is an unchoke from `p`. */
  predicate UnchokeFrom<P(==)>(step: Step<P>, p: P) {
    step.GotUnchoke? && step.p == p
  }

  predicate ChokeFrom<P(==)>(step: Step<P>, p: P) {
    step.GotChoke? && step.p == p
  }

  lemma BegunFlags(peer: Peer, before: Peer)
    ensures Begun(peer, before).choking == peer.choking && Begun(peer, before).closing == peer.closing
  {
  }

  lemma BroadcastFlags<P>(env: Env, peers: map<P, Peer>, owned: set<nat>, idx: u32, p: P)
    requires p in peers
    ensures var peer' := Broadcast(env, peers, owned, idx)[p];
            peer'.choking == peers[p].choking && peer'.closing == peers[p].closing
  {
  }

  lemma ReceivedFlags<P>(env: Env, s: State<P>, q: P, d: PieceData, w: WriteResult, v: Verdict, p: P)
    requires q in s.peers && p in s.peers
    ensures var s' := Received(env, s, q, d, w, v);
            p in s'.peers && s'.peers[p].choking == s.peers[p].choking && s'.peers[p].closing == s.peers[p].closing
  {
    var peers := s.peers[q := Answered(s.peers[q], d)];
    BroadcastFlags(env, peers, Handle(env, s.tracker, d, w, v).owned, d.index, p);
  }

  lemma FlagsStay<P>(env: Env, s: State<P>, step: Step<P>, p: P)
    requires Concerns(step, s.peers) && p in s.peers && p in Next(env, s, step).peers
    ensures s.peers[p].choking && !UnchokeFrom(step, p) ==> Next(env, s, step).peers[p].choking
    ensures !s.peers[p].choking && !ChokeFrom(step, p) ==> !Next(env, s, step).peers[p].choking
    ensures s.peers[p].closing ==> Next(env, s, step).peers[p].closing
  {
    match step
    case GotBitfield(q, bits) => BegunFlags(WithBits(env, s.tracker.owned, s.peers[q], bits), s.peers[q]);
    case GotPiece(q, d, w, v) => ReceivedFlags(env, s, q, d, w, v, p);
    case _ =>
  }

  lemma SilentStep<P>(env: Env, states: seq<State<P>>, steps: seq<Step<P>>, k: nat, p: P)
    requires Run(env, states, steps) && Inv(env, states[0]) && k < |steps|
    requires p in states[k].peers && p in states[k + 1].peers && (states[k].peers[p].choking || states[k].peers[p].closing)
    ensures NoneAsked(states[k].peers[p].out.log, states[k + 1].peers[p].out.log)
    ensures states[k].peers[p].choking && !UnchokeFrom(steps[k], p) ==> states[k + 1].peers[p].choking
    ensures states[k].peers[p].closing ==> states[k + 1].peers[p].closing
  {
    RunOk(env, states, steps, k);
    assert Transition(env, states, steps, k);
    FlagsStay(env, states[k], steps[k], p);
    IneligibleStep(env, states[k], steps[k], p);
  }

  /** From a state in which `p` chokes us on, until it unchokes us: it goes on choking, and is asked for nothing. */
  lemma {:induction false} SilentWhileChoked<P>(env: Env, states: seq<State<P>>, steps: seq<Step<P>>, a: nat, n: nat, p: P)
    requires Run(env, states, steps) && Inv(env, states[0]) && a <= n < |states|
    requires forall k :: a <= k <= n ==> p in states[k].peers
    requires states[a].peers[p].choking && forall k :: a <= k < n ==> !UnchokeFrom(steps[k], p)
    ensures states[n].peers[p].choking
    ensures NoneAsked(states[a].peers[p].out.log, states[n].peers[p].out.log)
  {
    if a < n {
      SilentWhileChoked(env, states, steps, a, n - 1, p);
      SilentStep(env, states, steps, n - 1, p);
      NoneAskedMore(states[a].peers[p].out.log, states[n - 1].peers[p].out.log, states[n].peers[p].out.log);
    }
  }

  /** A choke, and what it sends; a new connection starts out the same way. */
  lemma ChokeChokes<P>(env: Env, s: State<P>, step: Step<P>)
    requires Concerns(step, s.peers) && (step.GotChoke? || step.Connect?)
    ensures var s' := Next(env, s, step);
            && step.p in s'.peers && s'.peers[step.p].choking && s'.peers[step.p].downloading == []
            && (step.GotChoke? ==> Says(s.peers[step.p].out, s'.peers[step.p].out, Cancels(s.peers[step.p].downloading)))
            && (step.Connect? ==> s'.peers[step.p].out.log == [OurBitfield])
  {
    if step.GotChoke? {
      ChokeSays(env, s, step.p, step.p);
    } else {
      NewcomerLog(env, s, step, step.p);
    }
  }

  /**
   * In every run: from a choke, or from the start of a connection, until the next unchoke the peer goes on choking us,
   * nothing of it is outstanding and no request is sent to it.
   */
  lemma ChokedUntilUnchoked<P>(env: Env, states: seq<State<P>>, steps: seq<Step<P>>, a: nat, n: nat, p: P)
    requires Run(env, states, steps) && Inv(env, states[0]) && a < n < |states|
    requires (steps[a].GotChoke? || steps[a].Connect?) && steps[a].p == p
    requires forall k :: a < k <= n ==> p in states[k].peers
    requires forall k :: a < k < n ==> !(steps[k].GotUnchoke? && steps[k].p == p)
    ensures states[n].peers[p].choking && states[n].peers[p].downloading == []
    ensures NoneAsked(states[a + 1].peers[p].out.log, states[n].peers[p].out.log)
  {
    assert Transition(env, states, steps, a);
    ChokeChokes(env, states[a], steps[a]);
    SilentWhileChoked(env, states, steps, a + 1, n, p);
    RunOk(env, states, steps, n);
  }

  /** And from an unchoke until the next choke it does not choke us. */
  lemma {:induction false} UnchokedUntilChoked<P>(env: Env, states: seq<State<P>>, steps: seq<Step<P>>, a: nat, n: nat, p: P)
    requires Run(env, states, steps) && a < n < |states| && steps[a].GotUnchoke? && steps[a].p == p
    requires forall k :: a < k <= n ==> p in states[k].peers
    requires forall k :: a < k < n ==> !(steps[k].GotChoke? && steps[k].p == p)
    ensures !states[n].peers[p].choking
  {
    assert Transition(env, states, steps, n - 1);
    if a < n - 1 {
      UnchokedUntilChoked(env, states, steps, a, n - 1, p);
      FlagsStay(env, states[n - 1], steps[n - 1], p);
    }
  }

  /** A connection that is closing is asked for nothing any more. */
  lemma {:induction false} SilentWhileClosing<P>(env: Env, states: seq<State<P>>, steps: seq<Step<P>>, a: nat, n: nat, p: P)
    requires Run(env, states, steps) && Inv(env, states[0]) && a <= n < |states|
    requires forall k :: a <= k <= n ==> p in states[k].peers
    requires states[a].peers[p].closing
    ensures states[n].peers[p].closing && NoneAsked(states[a].peers[p].out.log, states[n].peers[p].out.log)
  {
    if a < n {
      SilentWhileClosing(env, states, steps, a, n - 1, p);
      SilentStep(env, states, steps, n - 1, p);
      NoneAskedMore(states[a].peers[p].out.log, states[n - 1].peers[p].out.log, states[n].peers[p].out.log);
    }
  }

  /** In every run: from a close on, or from a have before any bitfield, no request is sent to the peer. */
  lemma NothingAfterClose<P>(env: Env, states: seq<State<P>>, steps: seq<Step<P>>, a: nat, n: nat, p: P)
    requires Run(env, states, steps) && Inv(env, states[0]) && a < n < |states|
    requires (steps[a].BeginClose? && steps[a].p == p)
             || (steps[a].GotHave? && steps[a].p == p && p in states[a].peers && states[a].peers[p].bf.None?)
    requires forall k :: a < k <= n ==> p in states[k].peers
    ensures states[n].peers[p].closing && NoneAsked(states[a + 1].peers[p].out.log, states[n].peers[p].out.log)
  {
    assert Transition(env, states, steps, a);
    SilentWhileClosing(env, states, steps, a + 1, n, p);
  }
}
