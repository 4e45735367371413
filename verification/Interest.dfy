/** When we are interested in a peer, and whether the peer knows. */
module Interest {
  import opened Words
  import opened Common
  import opened MetaInfo
  import opened Bitfields
  import opened Storage
  import opened Blocks
  import opened Protocol
  import opened Correspondence
  import opened Assembly
  import opened Invariants
  import opened Safety

  /** usInterested says that some piece we lack is in the peer's bitfield, or past the end of its bytes. */
  lemma WantsMeans(np: nat, owned: set<nat>, bits: Bits)
    ensures Wants(np, owned, Some(bits)) <==> exists i: nat :: i < np && i !in owned && (i in bits.members || bits.room <= i)
  {
    if Wants(np, owned, Some(bits)) {
      var i :| i in Wanted(np, owned, bits);
    }
    if i: nat :| i < np && i !in owned && (i in bits.members || bits.room <= i) {
      assert i in Wanted(np, owned, bits);
    }
  }

  /**
   * So it means that the peer has a piece we lack exactly when the peer's bitfield message was long enough: a short
   * one counts as having every piece it says nothing about.
   */
  lemma InterestIsExact(np: nat, bits: Bits)
    requires BitsOk(np, bits)
    ensures np <= bits.room
       <==> forall owned: set<nat> :: Wants(np, owned, Some(bits)) <==> bits.members - owned != {}
  {
    forall owned: set<nat>
      ensures np <= bits.room ==> (Wants(np, owned, Some(bits)) <==> bits.members - owned != {})
    {
      WantsMeans(np, owned, bits);
      if bits.members - owned != {} {
        var i :| i in bits.members - owned;
      }
    }
    if bits.room < np {
      var owned := bits.members;
      WantsMeans(np, owned, bits);
      assert bits.room !in owned;
      assert bits.members - owned == {};
    }
  }

  /** The step checks whether we are interested in peer `p`. */
  predicate Checks<P>(env: Env, s: State<P>, step: Step<P>, p: P)
    requires Concerns(step, s.peers)
  {
    match step
    case GotBitfield(q, _) => p == q
    case GotHave(q, _) => p == q && s.peers[q].bf.Some?
    case GotUnchoke(q) => p == q
    case GotPiece(q, d, w, v) =>
      p in s.peers && Keep(s.peers[q].downloading, MatchedBy(d, true)) != [] && Announces(env, s.tracker, d, w, v)
    case _ => false
  }

  lemma BegunFlag(peer: Peer, before: Peer)
    ensures Begun(peer, before).interested == peer.interested && Begun(peer, before).bf == peer.bf
  {
  }

  lemma ReceivedFlag<P>(env: Env, s: State<P>, q: P, d: PieceData, w: WriteResult, v: Verdict, p: P)
    requires q in s.peers && p in s.peers
    ensures var s' := Received(env, s, q, d, w, v);
            && p in s'.peers
            && s'.peers[p].interested
               == if Checks(env, s, GotPiece(q, d, w, v), p) then Wants(env.info.Count(), s'.tracker.owned, s'.peers[p].bf)
                  else s.peers[p].interested
  {
  }

  lemma CheckedFlag<P>(env: Env, s: State<P>, step: Step<P>, p: P)
    requires Concerns(step, s.peers) && p in s.peers && p in Next(env, s, step).peers
    ensures var s' := Next(env, s, step);
            s'.peers[p].interested
            == if Checks(env, s, step, p) then Wants(env.info.Count(), s'.tracker.owned, s'.peers[p].bf) else s.peers[p].interested
  {
    match step
    case GotBitfield(q, bits) => BegunFlag(WithBits(env, s.tracker.owned, s.peers[q], bits), s.peers[q]);
    case GotPiece(q, d, w, v) => ReceivedFlag(env, s, q, d, w, v, p);
    case _ =>
  }

  /**
   * After every step that checks, we are interested exactly when some piece we lack by then is in the peer's bitfield,
   * or past the end of its bytes. Any other step leaves the flag alone.
   */
  lemma CheckedInterest<P>(env: Env, s: State<P>, step: Step<P>, p: P)
    requires Concerns(step, s.peers) && p in s.peers && p in Next(env, s, step).peers
    ensures var s' := Next(env, s, step); var bf := s'.peers[p].bf;
            if Checks(env, s, step, p) then
              s'.peers[p].interested <==>
                bf.Some? && exists i: nat :: i < env.info.Count() && i !in s'.tracker.owned
                                             && (i in bf.value.members || bf.value.room <= i)
            else s'.peers[p].interested == s.peers[p].interested
  {
    var s' := Next(env, s, step);
    CheckedFlag(env, s, step, p);
    if s'.peers[p].bf.Some? {
      WantsMeans(env.info.Count(), s'.tracker.owned, s'.peers[p].bf.value);
    }
  }

  // ----- what a peer was told -----

  /**
   * Interest messages, in every state of every run. The peer was last told what we believe exactly when an even number
   * of interest messages was lost to a full channel since the last one sent; and those sent alternate, starting with
   * Interested, exactly when none was sent after an odd number of lost ones.
   */
  lemma InterestAlternates<P>(env: Env, states: seq<State<P>>, steps: seq<Step<P>>, n: nat, p: P)
    requires Run(env, states, steps) && Inv(env, states[0]) && n < |states| && p in states[n].peers
    ensures var peer := states[n].peers[p]; var said := InterestLog(peer.out.log);
            && peer.told == peer.interested
            && ((peer.interested <==> said != [] && said[|said| - 1]) <==> peer.out.lapses.gap % 2 == 0)
            && ((forall j :: 0 <= j < |said| ==> (said[j] <==> j % 2 == 0)) <==> peer.out.lapses.repeats == 0)
            && (peer.out.lapses.lost == 0 ==> peer.out.lapses.gap == 0 && peer.out.lapses.repeats == 0)
  {
    RunOk(env, states, steps, n);
  }

  predicate Knows(peer: Peer) {
    Agrees(peer.out, peer.told)
  }

  /**
   * As long as what we tell the peer stays the same, so does whether it knows. When it changes, the peer knows afterwards
   * if its channel had room, and otherwise exactly if it did not know before.
   */
  predicate KnowsAfter(peer: Peer, peer': Peer) {
    Knows(peer') <==> if peer'.told == peer.told then Knows(peer) else |peer.out.queue| < SEND_CHAN_LEN || !Knows(peer)
  }

  lemma {:induction false} PushCancelsKeepsLog(c: Channel, ds: seq<PieceRequest>)
    ensures InterestLog(PushCancels(c, ds).log) == InterestLog(c.log)
  {
    if ds != [] {
      PushCancelsKeepsLog(c, ds[..|ds| - 1]);
      PushKeepsLog(PushCancels(c, ds[..|ds| - 1]), CancelMsg(ds[|ds| - 1]));
    }
  }

  lemma CheckKnows(np: nat, owned: set<nat>, peer: Peer)
    ensures KnowsAfter(peer, CheckInterested(np, owned, peer))
  {
    PushInterestAgrees(peer.out, peer.told, Wants(np, owned, peer.bf));
  }

  lemma OtherMessageKnows(peer: Peer, m: Msg)
    requires !Telling(m)
    ensures Knows(Sending(peer, m)) <==> Knows(peer)
  {
    PushKeepsLog(peer.out, m);
  }

  lemma UnchokedKnows(peer: Peer)
    ensures Knows(Unchoked(peer)) <==> Knows(peer)
    ensures Unchoked(peer).told == peer.told
  {
    OtherMessageKnows(peer, UnchokeMsg);
  }

  lemma BegunKnows(peer: Peer, before: Peer)
    ensures Knows(Begun(peer, before)) <==> Knows(peer)
    ensures Begun(peer, before).told == peer.told
  {
    UnchokedKnows(peer);
    OtherMessageKnows(Unchoked(peer), OurOptions);
  }

  lemma ToldKnows(env: Env, owned: set<nat>, peer: Peer, idx: u32)
    ensures KnowsAfter(peer, Told(env, owned, peer, idx))
  {
    CheckKnows(env.info.Count(), owned, peer);
    PushKeepsLog(CheckInterested(env.info.Count(), owned, peer).out, Have(idx));
  }

  lemma BitfieldKnows(env: Env, owned: set<nat>, peer: Peer, bits: Bits)
    ensures KnowsAfter(peer, Begun(WithBits(env, owned, peer, bits), peer))
  {
    CheckKnows(env.info.Count(), owned, peer.(bf := Some(bits)));
    BegunKnows(WithBits(env, owned, peer, bits), peer);
  }

  lemma HaveKnows(env: Env, owned: set<nat>, peer: Peer, i: u32)
    ensures KnowsAfter(peer, HeardHave(env, owned, peer, i))
  {
    if peer.bf.Some? {
      CheckKnows(env.info.Count(), owned, peer.(bf := Some(SetBit(peer.bf.value, i))));
    }
  }

  lemma ChokedKnows<P>(env: Env, s: State<P>, q: P, p: P)
    requires q in s.peers && p in s.peers
    ensures KnowsAfter(s.peers[p], Choked(env, s, q).peers[p])
  {
    PushCancelsKeepsLog(s.peers[q].out, s.peers[q].downloading);
  }

  lemma ExpiredKnows<P>(s: State<P>, idx: u32, p: P)
    requires p in s.peers
    ensures p in Expired(s, idx).peers && KnowsAfter(s.peers[p], Expired(s, idx).peers[p])
  {
    PushCancelsKeepsLog(s.peers[p].out, Keep(s.peers[p].downloading, OfPiece(idx, true)));
  }

  lemma ReceivedKnows<P>(env: Env, s: State<P>, q: P, d: PieceData, w: WriteResult, v: Verdict, p: P)
    requires q in s.peers && p in s.peers
    ensures p in Received(env, s, q, d, w, v).peers
    ensures KnowsAfter(s.peers[p], Received(env, s, q, d, w, v).peers[p])
  {
    var owned := Handle(env, s.tracker, d, w, v).owned;
    ToldKnows(env, owned, s.peers[q := Answered(s.peers[q], d)][p], d.index);
  }

  lemma TickedKnows<P>(env: Env, s: State<P>, q: P, due: bool, pick: Option<u32>, p: P)
    requires q in s.peers && p in s.peers
    ensures p in Ticked(env, s, q, due, pick).peers
    ensures KnowsAfter(s.peers[p], Ticked(env, s, q, due, pick).peers[p])
  {
    var r := NextRequest(env, s.tracker.requests, s.peers[q].lastRequest, pick).1;
    if r.Some? {
      OtherMessageKnows(s.peers[q], Request(r.value));
    }
  }

  /** These steps send nothing to a connected peer. */
  predicate Quiet<P>(step: Step<P>) {
    match step
    case Connect(_, _) => true
    case TakeFromQueue(_) => true
    case BeginClose(_) => true
    case DoClose(_) => true
    case SetWindow(_) => true
    case VerifyAll(_) => true
    case _ => false
  }

  lemma SameLog(peer: Peer, peer': Peer)
    requires peer'.told == peer.told && peer'.out.log == peer.out.log
    ensures KnowsAfter(peer, peer')
  {
  }

  lemma TakenKnows(peer: Peer)
    ensures KnowsAfter(peer, TakenPeer(peer))
  {
    SameLog(peer, WithoutFirst(peer));
    if Drops(peer) {
      SameLog(peer, TakenPeer(peer));
    }
  }

  lemma QuietKnows<P>(env: Env, s: State<P>, step: Step<P>, p: P)
    requires Concerns(step, s.peers) && Quiet(step) && p in s.peers && p in Next(env, s, step).peers
    ensures KnowsAfter(s.peers[p], Next(env, s, step).peers[p])
  {
    match step
    case TakeFromQueue(q) => TakenKnows(s.peers[q]);
    case _ =>
  }

  /** Every step of the protocol is such a change, for every peer. */
  lemma KnowsStep<P>(env: Env, s: State<P>, step: Step<P>, p: P)
    requires Concerns(step, s.peers) && p in s.peers && p in Next(env, s, step).peers
    ensures KnowsAfter(s.peers[p], Next(env, s, step).peers[p])
  {
    var peer := s.peers[p];
    match step
    case GotBitfield(q, bits) => BitfieldKnows(env, s.tracker.owned, peer, bits);
    case GotHave(q, i) => HaveKnows(env, s.tracker.owned, peer, i);
    case GotChoke(q) => ChokedKnows(env, s, q, p);
    case GotUnchoke(q) => CheckKnows(env.info.Count(), s.tracker.owned, peer.(choking := false));
    case GotPiece(q, d, w, v) => ReceivedKnows(env, s, q, d, w, v, p);
    case TickDownload(q, due, pick) => TickedKnows(env, s, q, due, pick, p);
    case Expire(idx) => ExpiredKnows(s, idx, p);
    case SendOther(q) => OtherMessageKnows(peer, Other);
    case _ => QuietKnows(env, s, step, p);
  }

  lemma KnowsAt<P>(env: Env, states: seq<State<P>>, steps: seq<Step<P>>, i: nat, p: P)
    requires Run(env, states, steps) && i < |steps| && p in states[i].peers && p in states[i + 1].peers
    ensures KnowsAfter(states[i].peers[p], states[i + 1].peers[p])
  {
    assert Transition(env, states, steps, i);
    KnowsStep(env, states[i], steps[i], p);
  }

  /** A peer that stays connected, and is told the same all the while, knows as much at the end as at the start. */
  lemma {:induction false} KnowsAsBefore<P>(env: Env, states: seq<State<P>>, steps: seq<Step<P>>, a: nat, n: nat, p: P)
    requires Run(env, states, steps) && a <= n < |states| && p in states[a].peers
    requires forall k :: a <= k <= n ==> p in states[k].peers && states[k].peers[p].told == states[a].peers[p].told
    ensures Knows(states[n].peers[p]) <==> Knows(states[a].peers[p])
  {
    if a < n {
      KnowsAsBefore(env, states, steps, a, n - 1, p);
      KnowsAt(env, states, steps, n - 1, p);
    }
  }

  /**
   * The peer knows what we believe it was told if and only if the channel had room when that last changed, or the peer
   * had it wrong before: in any run, for any peer that stays connected, with step `a` the last one that changed it.
   */
  lemma KnowsIffRoom<P>(env: Env, states: seq<State<P>>, steps: seq<Step<P>>, a: nat, n: nat, p: P)
    requires Run(env, states, steps) && a < n < |states| && p in states[a].peers
    requires forall k :: a < k <= n ==> p in states[k].peers && states[k].peers[p].told != states[a].peers[p].told
    ensures Knows(states[n].peers[p])
       <==> |states[a].peers[p].out.queue| < SEND_CHAN_LEN || !Knows(states[a].peers[p])
  {
    KnowsAsBefore(env, states, steps, a + 1, n, p);
    KnowsAt(env, states, steps, a, p);
  }

  /** If there is room at every change, the peer knows all along. */
  lemma {:induction false} RoomKeepsKnowing<P>(env: Env, states: seq<State<P>>, steps: seq<Step<P>>, a: nat, n: nat, p: P)
    requires Run(env, states, steps) && a <= n < |states| && forall k :: a <= k <= n ==> p in states[k].peers
    requires Knows(states[a].peers[p])
    requires forall k :: a <= k < n && states[k + 1].peers[p].told != states[k].peers[p].told ==>
               |states[k].peers[p].out.queue| < SEND_CHAN_LEN
    ensures Knows(states[n].peers[p])
  {
    if a < n {
      RoomKeepsKnowing(env, states, steps, a, n - 1, p);
      KnowsAt(env, states, steps, n - 1, p);
    }
  }

  /** A peer that was told nothing yet, with `k` messages waiting. */
  predicate Untold<P>(s: State<P>, p: P, k: nat) {
    && p in s.peers && s.peers[p].bf.None? && !s.peers[p].told && |s.peers[p].out.queue| == k
    && InterestLog(s.peers[p].out.log) == []
  }

  /** Other messages fill the channel. */
  lemma {:induction false} FillUp<P>(env: Env, flat: seq<byte>, owned: set<nat>, window: int, p: P, k: nat)
    returns (states: seq<State<P>>, steps: seq<Step<P>>)
    requires env.Ok() && |flat| == env.info.Total() && 1 <= k <= SEND_CHAN_LEN
    ensures Run(env, states, steps) && states[0] == Start(env, flat, owned, window) && Untold(states[|steps|], p, k)
    ensures states[|steps|].tracker == states[0].tracker
  {
    if k == 1 {
      states, steps := [Start(env, flat, owned, window)], [];
      Longer(env, states, steps, Connect(p, false));
      LogStep([], OurBitfield);
      states, steps := states + [Next(env, states[0], Connect(p, false))], steps + [Connect(p, false)];
    } else {
      states, steps := FillUp(env, flat, owned, window, p, k - 1);
      var s := states[|steps|];
      Longer(env, states, steps, SendOther(p));
      PushKeepsLog(s.peers[p].out, Other);
      states, steps := states + [Next(env, s, SendOther(p))], steps + [SendOther(p)];
    }
  }

  /**
   * It does happen. For every torrent of which we lack a piece there is a run from the start in which we come to believe
   * that a peer was told of our interest, and nothing was ever sent to say so.
   */
  lemma NeverTold<P>(env: Env, flat: seq<byte>, owned: set<nat>, window: int, p: P, i: nat)
    returns (states: seq<State<P>>, steps: seq<Step<P>>)
    requires env.Ok() && |flat| == env.info.Total() && i < env.info.Count() && i !in owned
    ensures Run(env, states, steps) && states[0] == Start(env, flat, owned, window)
    ensures var s := states[|steps|];
            && p in s.peers && s.peers[p].told && !Knows(s.peers[p]) && InterestLog(s.peers[p].out.log) == []
  {
    var np := env.info.Count();
    states, steps := FillUp(env, flat, owned, window, p, SEND_CHAN_LEN);
    var s := states[|steps|];
    var step := GotBitfield(p, Everything(np));
    Longer(env, states, steps, step);
    WantsMeans(np, owned, Everything(np));
    BegunKnows(WithBits(env, owned, s.peers[p], Everything(np)), s.peers[p]);
    states, steps := states + [Next(env, s, step)], steps + [step];
  }
}
