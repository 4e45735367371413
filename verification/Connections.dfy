/** What a connection keeps: the order of its messages, its greeting, its window and what it knows of the peer. */
module Connections {
  import opened Words
  import opened Common
  import opened MetaInfo
  import opened Bitfields
  import opened Storage
  import opened Blocks
  import opened Protocol
  import opened Correspondence
  import opened Assembly
  import opened Invariants
  import opened Safety
  import opened Progress
  import opened Traffic
  import opened Accounts

  // ----- first in, first out -----

  /** The queue is the end of what was logged, and no longer than 512. */
  predicate InOrder(c: Channel) {
    |c.queue| <= |c.log| && c.log[|c.log| - |c.queue|..] == c.queue && |c.queue| <= 512
  }

  /** What has left the queue: everything that was logged before what is still in it. */
  function Gone(c: Channel): seq<Msg> {
    if |c.queue| <= |c.log| then c.log[..|c.log| - |c.queue|] else []
  }

  lemma SaidInOrder(c: Channel, c': Channel, ms: seq<Msg>)
    requires InOrder(c) && Says(c, c', ms)
    ensures InOrder(c') && Gone(c') == Gone(c)
  {
    var k := |c.log| - |c.queue|;
    assert c'.log[k..] == c.log[k..] + ms[..Room(c, |ms|)];
    assert c'.log[..k] == c.log[..k];
  }

  lemma WrittenInOrder(c: Channel, c': Channel)
    requires InOrder(c) && c'.log == c.log && if c.queue == [] then c'.queue == [] else c.queue == [c.queue[0]] + c'.queue
    ensures InOrder(c') && Gone(c') == Gone(c) + c.queue[..Min(1, |c.queue|)]
  {
    if c.queue != [] {
      var k := |c.log| - |c.queue|;
      assert c.log[k] == c.queue[0];
      assert c.log[k + 1..] == c.log[k..][1..] == c'.queue;
      assert c.log[..k + 1] == c.log[..k] + [c.queue[0]];
    }
  }

  lemma OrderStep<P>(env: Env, s: State<P>, step: Step<P>, p: P)
    requires Concerns(step, s.peers) && p in Next(env, s, step).peers && (p in s.peers ==> InOrder(s.peers[p].out))
    ensures InOrder(Next(env, s, step).peers[p].out)
    ensures p in s.peers ==>
              Gone(Next(env, s, step).peers[p].out)
              == Gone(s.peers[p].out) + if WritesTo(step, p) then s.peers[p].out.queue[..Min(1, |s.peers[p].out.queue|)] else []
  {
    if p !in s.peers {
      NewcomerLog(env, s, step, p);
    } else if WritesTo(step, p) {
      WriteSays(env, s, p);
      WrittenInOrder(s.peers[p].out, Next(env, s, step).peers[p].out);
    } else {
      StepSays(env, s, step, p);
      SaidInOrder(s.peers[p].out, Next(env, s, step).peers[p].out, SentTo(env, s, step, p));
    }
  }

  /** In every state of every run from the start, every queue is the end of what was put into it, at most 512 messages. */
  lemma {:induction false} QueueIsTail<P>(env: Env, states: seq<State<P>>, steps: seq<Step<P>>, n: nat, p: P)
    requires Run(env, states, steps) && states[0].peers == map[] && n < |states| && p in states[n].peers
    ensures InOrder(states[n].peers[p].out)
    decreases n
  {
    if n > 0 {
      assert Transition(env, states, steps, n - 1);
      if p in states[n - 1].peers {
        QueueIsTail(env, states, steps, n - 1, p);
      }
      OrderStep(env, states[n - 1], steps[n - 1], p);
    }
  }

  lemma GoneGrows<P>(env: Env, states: seq<State<P>>, steps: seq<Step<P>>, k: nat, p: P)
    requires Run(env, states, steps) && states[0].peers == map[] && k < |steps| && p in states[k].peers && p in states[k + 1].peers
    ensures Gone(states[k].peers[p].out) <= Gone(states[k + 1].peers[p].out)
  {
    QueueIsTail(env, states, steps, k, p);
    assert Transition(env, states, steps, k);
    OrderStep(env, states[k], steps[k], p);
  }

  /**
   * First in, first out: as long as a connection lasts, what has left its queue only grows, at its end, and is always a
   * first part of what was put into it.
   */
  lemma {:induction false} FirstInFirstOut<P>(env: Env, states: seq<State<P>>, steps: seq<Step<P>>, a: nat, n: nat, p: P)
    requires Run(env, states, steps) && states[0].peers == map[] && a <= n < |states|
    requires forall k :: a <= k <= n ==> p in states[k].peers
    ensures Gone(states[a].peers[p].out) <= Gone(states[n].peers[p].out) <= states[n].peers[p].out.log
  {
    if a < n {
      FirstInFirstOut(env, states, steps, a, n - 1, p);
      GoneGrows(env, states, steps, n - 1, p);
    }
  }

  // ----- what messages from a peer change -----

  /** A bitfield message: it replaces what we knew; the first one is answered, and starts the download. */
  lemma BitfieldTaken<P>(env: Env, s: State<P>, p: P, bits: Bits)
    requires p in s.peers
    ensures var s' := Next(env, s, GotBitfield(p, bits)); var peer, peer' := s.peers[p], s'.peers[p];
            && Is(s'.peers, s.peers[p := peer']) && Is(s'.tracker, s.tracker)
            && peer'.bf == Some(bits) && peer'.running == (peer.running || peer.bf.None?)
            && Says(peer.out, peer'.out, News(peer.told, peer'.told) + Greeting(peer))
            && (peer.bf.None? ==> !peer'.usChoke) && (peer.bf.Some? ==> peer'.usChoke == peer.usChoke)
            && Is(peer', peer.(bf := peer'.bf, interested := peer'.interested, told := peer'.told, running := peer'.running,
                               usChoke := peer'.usChoke, out := peer'.out))
  {
    BitfieldSays(env, s.tracker.owned, s.peers[p], bits);
  }

  /** A have message: one bit is set, if the bitfield has room for it; before any bitfield it ends the connection. */
  lemma HaveTaken<P>(env: Env, s: State<P>, p: P, i: u32)
    requires p in s.peers
    ensures var s' := Next(env, s, GotHave(p, i)); var peer, peer' := s.peers[p], s'.peers[p];
            && Is(s'.peers, s.peers[p := peer']) && Is(s'.tracker, s.tracker)
            && (peer.bf.None? ==> Is(peer', peer.(closing := true)))
            && (peer.bf.Some? ==>
                  && Says(peer.out, peer'.out, News(peer.told, peer'.told))
                  && peer'.bf.Some? && peer'.bf.value.length == peer.bf.value.length && peer'.bf.value.room == peer.bf.value.room
                  && peer'.bf.value.members
                     == peer.bf.value.members + (if i < peer.bf.value.length && i < peer.bf.value.room then {i as nat} else {})
                  && Is(peer', peer.(bf := peer'.bf, interested := peer'.interested, told := peer'.told, out := peer'.out)))
  {
    HaveSays(env, s.tracker.owned, s.peers[p], i);
  }

  /** An unchoke: the peer may be asked from now on, and the interest is checked. */
  lemma UnchokeTaken<P>(env: Env, s: State<P>, p: P)
    requires p in s.peers
    ensures var s' := Next(env, s, GotUnchoke(p)); var peer, peer' := s.peers[p], s'.peers[p];
            && Is(s'.peers, s.peers[p := peer']) && Is(s'.tracker, s.tracker) && !peer'.choking
            && Says(peer.out, peer'.out, News(peer.told, peer'.told))
            && Is(peer', peer.(choking := false, interested := peer'.interested, told := peer'.told, out := peer'.out))
  {
    CheckSays(env.info.Count(), s.tracker.owned, s.peers[p].(choking := false));
  }

  /**
   * A choke: the peer is marked as choking; all its requests are given back, each with a cancel message, and no other one is;
   * nothing else changes.
   */
  lemma ChokeTaken<P>(env: Env, s: State<P>, p: P)
    requires Inv(env, s) && p in s.peers
    ensures var s' := Next(env, s, GotChoke(p)); var peer, peer' := s.peers[p], s'.peers[p];
            && Is(s'.peers, s.peers[p := peer']) && Is(s'.tracker, s.tracker.(requests := s'.tracker.requests))
            && Is(peer', peer.(choking := true, downloading := [], out := peer'.out))
            && Says(peer.out, peer'.out, Cancels(peer.downloading))
            && forall x :: IsPending(s'.tracker.requests, x) <==> IsPending(s.tracker.requests, x) && x !in peer.downloading
  {
    assert ListsOf(s.peers)[p] == s.peers[p].downloading;
    CancelAllOk(env, s.tracker.flat, s.tracker.requests, s.peers[p].downloading);
    ChokeSays(env, s, p, p);
  }

  /** A new connection: it gets the window of the torrent and our bitfield, and nothing is known or asked yet. */
  lemma ConnectionMade<P>(env: Env, s: State<P>, p: P, ext: bool)
    requires p !in s.peers
    ensures var s' := Next(env, s, Connect(p, ext)); var peer' := s'.peers[p];
            && s'.peers.Keys == s.peers.Keys + {p} && (forall q :: q in s.peers ==> Is(s'.peers[q], s.peers[q]))
            && Is(s'.tracker, s.tracker)
            && peer'.bf == None && peer'.choking && !peer'.interested && !peer'.closing && !peer'.running && peer'.usChoke
            && peer'.downloading == [] && peer'.lastRequest == None && peer'.window == s.window && peer'.ext == ext
            && peer'.out.queue == peer'.out.log == [OurBitfield]
  {
    PushSays(NewPeer(s.window, ext).out, OurBitfield);
  }

  /** A connection that is closed is gone; no other one changes. */
  lemma ConnectionGone<P>(env: Env, s: State<P>, p: P)
    requires p in s.peers
    ensures Is(Next(env, s, DoClose(p)).peers, s.peers - {p})
  {
  }

  /** After a change of the piece window every connection has the new one, and only that has changed. */
  lemma WindowSet<P>(env: Env, s: State<P>, n: int)
    ensures var s' := Next(env, s, SetWindow(n));
            && s'.window == n && s'.peers.Keys == s.peers.Keys && Is(s'.tracker, s.tracker)
            && forall p :: p in s.peers ==> Is(s'.peers[p], s.peers[p].(window := n))
  {
  }

  lemma WindowStep<P>(env: Env, s: State<P>, step: Step<P>, p: P)
    requires Concerns(step, s.peers) && p in Next(env, s, step).peers && (p in s.peers ==> s.peers[p].window == s.window)
    ensures Next(env, s, step).peers[p].window == Next(env, s, step).window
    ensures Next(env, s, step).window == if step.SetWindow? then step.n else s.window
  {
    match step
    case GotBitfield(q, bits) =>
      if p == q {
        BitfieldWindow(env, s.tracker.owned, s.peers[q], bits);
      }
    case GotPiece(q, d, w, v) => ReceivedWindow(env, s, q, d, w, v, p);
    case _ =>
  }

  lemma BitfieldWindow(env: Env, owned: set<nat>, peer: Peer, bits: Bits)
    ensures Begun(WithBits(env, owned, peer, bits), peer).window == peer.window
  {
  }

  lemma BroadcastWindow<P>(env: Env, peers: map<P, Peer>, owned: set<nat>, idx: u32, p: P)
    requires p in peers
    ensures Broadcast(env, peers, owned, idx)[p].window == peers[p].window
  {
  }

  lemma ReceivedWindow<P>(env: Env, s: State<P>, q: P, d: PieceData, w: WriteResult, v: Verdict, p: P)
    requires q in s.peers && p in s.peers
    ensures p in Received(env, s, q, d, w, v).peers && Received(env, s, q, d, w, v).peers[p].window == s.peers[p].window
  {
    BroadcastWindow(env, s.peers[q := Answered(s.peers[q], d)], Handle(env, s.tracker, d, w, v).owned, d.index, p);
  }

  /** In every state of every run from the start every connection has the window that was set last, new ones too. */
  lemma {:induction false} OneWindow<P>(env: Env, states: seq<State<P>>, steps: seq<Step<P>>, n: nat, p: P)
    requires Run(env, states, steps) && states[0].peers == map[] && n < |states| && p in states[n].peers
    ensures states[n].peers[p].window == states[n].window
    decreases n
  {
    if n > 0 {
      assert Transition(env, states, steps, n - 1);
      if p in states[n - 1].peers {
        OneWindow(env, states, steps, n - 1, p);
      }
      WindowStep(env, states[n - 1], steps[n - 1], p);
    }
  }

  // ----- which pieces a peer has -----

  /** Whether the peer has a piece is what its last bitfield says, and each have adds one the bitfield has room for. */
  lemma PieceStep<P>(env: Env, s: State<P>, step: Step<P>, p: P, i: nat)
    requires Concerns(step, s.peers) && p in Next(env, s, step).peers
    ensures HasPiece(Next(env, s, step).peers[p], i) <==>
            match step
            case GotBitfield(q, bits) => if q == p then i in bits.members else HasPiece(s.peers[p], i)
            case GotHave(q, j) =>
              HasPiece(s.peers[p], i)
              || (q == p && j as nat == i && s.peers[p].bf.Some? && i < s.peers[p].bf.value.length && i < s.peers[p].bf.value.room)
            case _ => p in s.peers && HasPiece(s.peers[p], i)
  {
    if step.GotBitfield? && step.p == p {
      BitfieldTaken(env, s, p, step.bits);
      return;
    }
    if step.GotHave? && step.p == p {
      HaveTaken(env, s, p, step.index);
      return;
    }
    if p in s.peers {
      BitsStay(env, s, step, p);
    }
  }

  /** The steps that concern the whole torrent. */
  predicate Shared<P>(step: Step<P>) {
    step.GotPiece? || step.Expire? || step.SetWindow? || step.VerifyAll?
  }

  /** Any other step leaves all connections but its own as they are. */
  lemma OnlyItsPeer<P>(env: Env, s: State<P>, step: Step<P>, p: P)
    requires Concerns(step, s.peers) && p in s.peers && p in Next(env, s, step).peers && !Shared(step) && step.p != p
    ensures Is(Next(env, s, step).peers[p], s.peers[p])
  {
  }

  lemma SharedBits<P>(env: Env, s: State<P>, step: Step<P>, p: P)
    requires Concerns(step, s.peers) && p in s.peers && p in Next(env, s, step).peers && Shared(step)
    ensures Is(Next(env, s, step).peers[p].bf, s.peers[p].bf) && Next(env, s, step).peers[p].usChoke == s.peers[p].usChoke
  {
    if step.GotPiece? {
      ReceivedChoke(env, s, step.p, step.d, step.w, step.v, p);
    }
  }

  predicate SameBits(peer: Peer, peer': Peer) {
    Is(peer'.bf, peer.bf) && peer'.usChoke == peer.usChoke
  }

  lemma ChokeBits<P>(env: Env, s: State<P>, p: P)
    requires p in s.peers
    ensures SameBits(s.peers[p], Next(env, s, GotChoke(p)).peers[p])
  {
  }

  lemma TakenBits<P>(env: Env, s: State<P>, p: P)
    requires p in s.peers
    ensures SameBits(s.peers[p], Next(env, s, TakeFromQueue(p)).peers[p])
  {
  }

  lemma TickBits<P>(env: Env, s: State<P>, p: P, due: bool, pick: Option<u32>)
    requires p in s.peers
    ensures SameBits(s.peers[p], Next(env, s, TickDownload(p, due, pick)).peers[p])
  {
  }

  lemma OwnBits<P>(env: Env, s: State<P>, step: Step<P>)
    requires Concerns(step, s.peers) && !Shared(step) && !step.Connect? && !step.DoClose? && !step.GotBitfield? && !step.GotHave?
    ensures SameBits(s.peers[step.p], Next(env, s, step).peers[step.p])
  {
    match step
    case GotChoke(p) => ChokeBits(env, s, p);
    case TakeFromQueue(p) => TakenBits(env, s, p);
    case TickDownload(p, due, pick) => TickBits(env, s, p, due, pick);
    case _ =>
  }

  /** No other step changes what we know of the peer, nor whether we choke it. */
  lemma BitsStay<P>(env: Env, s: State<P>, step: Step<P>, p: P)
    requires Concerns(step, s.peers) && p in s.peers && p in Next(env, s, step).peers
    requires !(step.GotBitfield? && step.p == p) && !(step.GotHave? && step.p == p)
    ensures Is(Next(env, s, step).peers[p].bf, s.peers[p].bf) && Next(env, s, step).peers[p].usChoke == s.peers[p].usChoke
  {
    if Shared(step) {
      SharedBits(env, s, step, p);
    } else if step.p != p {
      OnlyItsPeer(env, s, step, p);
    } else {
      OwnBits(env, s, step);
    }
  }

  /** The step tells us that peer `p` has piece `i`. */
  predicate TellsOf<P(==)>(step: Step<P>, p: P, i: nat) {
    (step.GotBitfield? && step.p == p && i in step.bits.members) || (step.GotHave? && step.p == p && step.index as nat == i)
  }

  /** In every run from the start, a peer is taken to have a piece only if it said so. */
  lemma {:induction false} PieceFromItsPeer<P>(env: Env, states: seq<State<P>>, steps: seq<Step<P>>, n: nat, p: P, i: nat)
    requires Run(env, states, steps) && states[0].peers == map[] && n < |states|
    requires p in states[n].peers && HasPiece(states[n].peers[p], i)
    ensures exists k: nat :: k < n && TellsOf(steps[k], p, i)
    decreases n
  {
    if n > 0 {
      assert Transition(env, states, steps, n - 1);
      PieceStep(env, states[n - 1], steps[n - 1], p, i);
      if !TellsOf(steps[n - 1], p, i) {
        PieceFromItsPeer(env, states, steps, n - 1, p, i);
      }
    }
  }

  /** And what it said stays: from a have that its bitfield has room for, until it sends another bitfield. */
  lemma {:induction false} PieceRemembered<P>(env: Env, states: seq<State<P>>, steps: seq<Step<P>>, a: nat, n: nat, p: P, i: u32)
    requires Run(env, states, steps) && a < n < |states| && steps[a].GotHave? && steps[a].p == p && steps[a].index == i
    requires p in states[a].peers && states[a].peers[p].bf.Some?
    requires i < states[a].peers[p].bf.value.length && i < states[a].peers[p].bf.value.room
    requires forall k :: a < k <= n ==> p in states[k].peers
    requires forall k :: a < k < n ==> !(steps[k].GotBitfield? && steps[k].p == p)
    ensures HasPiece(states[n].peers[p], i)
  {
    assert Transition(env, states, steps, n - 1);
    PieceStep(env, states[n - 1], steps[n - 1], p, i);
    if a < n - 1 {
      PieceRemembered(env, states, steps, a, n - 1, p, i);
    }
  }

  // ----- how many connections there are -----

  /** Only a new connection makes them more. */
  lemma PeersStep<P>(env: Env, s: State<P>, step: Step<P>)
    requires Concerns(step, s.peers)
    ensures step.Connect? ==> Next(env, s, step).peers.Keys == s.peers.Keys + {step.p}
    ensures !step.Connect? ==> Next(env, s, step).peers.Keys <= s.peers.Keys
  {
  }

  lemma SubsetSize<T>(a: set<T>, b: set<T>)
    requires a <= b
    ensures |a| <= |b|
  {
    assert b == a + (b - a);
  }

  /** In every run in which a connection is only taken up while there are at most `m`, there are never more than `m + 1`. */
  lemma {:induction false} PeersBounded<P>(env: Env, states: seq<State<P>>, steps: seq<Step<P>>, n: nat, m: nat)
    requires Run(env, states, steps) && n < |states| && |states[0].peers| <= m + 1
    requires forall k :: 0 <= k < n && steps[k].Connect? ==> |states[k].peers| <= m
    ensures |states[n].peers| <= m + 1
  {
    if n > 0 {
      PeersBounded(env, states, steps, n - 1, m);
      assert Transition(env, states, steps, n - 1);
      var s, step := states[n - 1], steps[n - 1];
      PeersStep(env, s, step);
      if !step.Connect? {
        SubsetSize(states[n].peers.Keys, s.peers.Keys);
      }
    }
  }

  // ----- the greeting -----

  /** Our bitfield went first, and once; we unchoke the peer at most once, when its first bitfield has come. */
  predicate Greets(peer: Peer) {
    && peer.out.log != [] && peer.out.log[0] == OurBitfield && Times(peer.out.log, OurBitfield) == 1
    && (peer.usChoke <==> peer.bf.None?) && Times(peer.out.log, UnchokeMsg) <= if peer.bf.Some? then 1 else 0
  }

  lemma TimesPrefix(ms: seq<Msg>, k: nat, m: Msg)
    requires k <= |ms|
    ensures Times(ms[..k], m) <= Times(ms, m)
  {
    assert ms == ms[..k] + ms[k..];
    TimesAppend(ms[..k], ms[k..], m);
  }

  lemma SaidTimes(c: Channel, c': Channel, ms: seq<Msg>, m: Msg)
    requires Says(c, c', ms)
    ensures Times(c.log, m) <= Times(c'.log, m) <= Times(c.log, m) + Times(ms, m)
    ensures c.log != [] ==> c'.log != [] && c'.log[0] == c.log[0]
  {
    TimesAppend(c.log, ms[..Room(c, |ms|)], m);
    TimesPrefix(ms, Room(c, |ms|), m);
  }

  lemma NoGreeting<P>(env: Env, s: State<P>, step: Step<P>, p: P)
    requires Concerns(step, s.peers) && p in s.peers && p in Next(env, s, step).peers
    ensures OurBitfield !in SentTo(env, s, step, p)
    ensures !(step.GotBitfield? && step.p == p) ==> UnchokeMsg !in SentTo(env, s, step, p)
  {
  }

  lemma BitfieldStaysGreeted<P>(env: Env, s: State<P>, p: P, bits: Bits)
    requires p in s.peers && Greets(s.peers[p])
    ensures Greets(Next(env, s, GotBitfield(p, bits)).peers[p])
  {
    var peer, peer' := s.peers[p], Next(env, s, GotBitfield(p, bits)).peers[p];
    var ms := News(peer.told, peer'.told) + Greeting(peer);
    BitfieldTaken(env, s, p, bits);
    SaidTimes(peer.out, peer'.out, ms, UnchokeMsg);
    SaidTimes(peer.out, peer'.out, ms, OurBitfield);
    TimesNone(ms, OurBitfield);
    TimesAppend(News(peer.told, peer'.told), Greeting(peer), UnchokeMsg);
    TimesNone(News(peer.told, peer'.told), UnchokeMsg);
  }

  lemma OnceUnchoked<P>(env: Env, s: State<P>, step: Step<P>, p: P)
    requires Concerns(step, s.peers) && p in s.peers && p in Next(env, s, step).peers && !(step.GotBitfield? && step.p == p)
    ensures var peer, peer' := s.peers[p], Next(env, s, step).peers[p];
            peer'.usChoke == peer.usChoke && peer'.bf.Some? == peer.bf.Some?
  {
    if step.GotHave? && step.p == p {
      HaveTaken(env, s, p, step.index);
    } else {
      BitsStay(env, s, step, p);
    }
  }

  lemma BroadcastChoke<P>(env: Env, peers: map<P, Peer>, owned: set<nat>, idx: u32, p: P)
    requires p in peers
    ensures var peer' := Broadcast(env, peers, owned, idx)[p]; peer'.usChoke == peers[p].usChoke && Is(peer'.bf, peers[p].bf)
  {
  }

  lemma ReceivedChoke<P>(env: Env, s: State<P>, q: P, d: PieceData, w: WriteResult, v: Verdict, p: P)
    requires q in s.peers && p in s.peers
    ensures p in Received(env, s, q, d, w, v).peers
    ensures var peer' := Received(env, s, q, d, w, v).peers[p];
            peer'.usChoke == s.peers[p].usChoke && Is(peer'.bf, s.peers[p].bf)
  {
    BroadcastChoke(env, s.peers[q := Answered(s.peers[q], d)], Handle(env, s.tracker, d, w, v).owned, d.index, p);
  }

  lemma OtherStaysGreeted<P>(env: Env, s: State<P>, step: Step<P>, p: P)
    requires Concerns(step, s.peers) && p in s.peers && p in Next(env, s, step).peers && !(step.GotBitfield? && step.p == p)
    requires Greets(s.peers[p])
    ensures Greets(Next(env, s, step).peers[p])
  {
    var c, c' := s.peers[p].out, Next(env, s, step).peers[p].out;
    OnceUnchoked(env, s, step, p);
    if WritesTo(step, p) {
      WriteSays(env, s, p);
      return;
    }
    StepSays(env, s, step, p);
    NoGreeting(env, s, step, p);
    TimesNone(SentTo(env, s, step, p), UnchokeMsg);
    TimesNone(SentTo(env, s, step, p), OurBitfield);
    SaidTimes(c, c', SentTo(env, s, step, p), UnchokeMsg);
    SaidTimes(c, c', SentTo(env, s, step, p), OurBitfield);
  }

  lemma NewcomerGreeted<P>(env: Env, s: State<P>, step: Step<P>)
    requires step.Connect? && step.p !in s.peers
    ensures Greets(Next(env, s, step).peers[step.p])
  {
    ConnectionMade(env, s, step.p, step.ext);
    TimesNone([OurBitfield], UnchokeMsg);
  }

  /** In every state of every run from the start, on every connection. */
  lemma {:induction false} GreetedOnce<P>(env: Env, states: seq<State<P>>, steps: seq<Step<P>>, n: nat, p: P)
    requires Run(env, states, steps) && states[0].peers == map[] && n < |states| && p in states[n].peers
    ensures Greets(states[n].peers[p])
    decreases n
  {
    if n > 0 {
      var s, step := states[n - 1], steps[n - 1];
      assert Transition(env, states, steps, n - 1);
      if p !in s.peers {
        NewcomerLog(env, s, step, p);
        NewcomerGreeted(env, s, step);
      } else {
        GreetedOnce(env, states, steps, n - 1, p);
        if step.GotBitfield? && step.p == p {
          BitfieldStaysGreeted(env, s, p, step.bits);
        } else {
          OtherStaysGreeted(env, s, step, p);
        }
      }
    }
  }
}
