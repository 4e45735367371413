/** Every request sent to a peer is answered, cancelled or outstanding. */
module Accounts {
  import opened Words
  import opened Common
  import opened MetaInfo
  import opened Bitfields
  import opened Storage
  import opened Blocks
  import opened Protocol
  import opened Correspondence
  import opened Assembly
  import opened Invariants
  import opened Safety
  import opened Progress
  import opened Traffic

  // ----- counting messages -----

  /** How often `m` is in a log. */
  function Times(log: seq<Msg>, m: Msg): nat {
    multiset(log)[m]
  }

  lemma TimesAppend(a: seq<Msg>, b: seq<Msg>, m: Msg)
    ensures Times(a + b, m) == Times(a, m) + Times(b, m)
  {
    assert multiset(a + b) == multiset(a) + multiset(b);
  }

  lemma TimesNone(ms: seq<Msg>, m: Msg)
    requires m !in ms
    ensures Times(ms, m) == 0
  {
    assert m !in multiset(ms);
  }

  lemma {:induction false} TimesCancels(ds: seq<PieceRequest>, r: PieceRequest)
    requires Distinct(ds)
    ensures Times(Cancels(ds), CancelMsg(r)) == if r in ds then 1 else 0
    ensures Times(Cancels(ds), Request(r)) == 0
  {
    TimesNone(Cancels(ds), Request(r));
    if ds != [] {
      var front, last := ds[..|ds| - 1], ds[|ds| - 1];
      DistinctPrefix(ds);
      TimesCancels(front, r);
      TimesAppend(Cancels(front), [CancelMsg(last)], CancelMsg(r));
      assert Cancels(ds) == Cancels(front) + [CancelMsg(last)];
    }
  }

  /** Requests sent, less those cancelled and those outstanding. */
  function Balance(peer: Peer, r: PieceRequest): int {
    Times(peer.out.log, Request(r)) - Times(peer.out.log, CancelMsg(r)) - if r in peer.downloading then 1 else 0
  }

  /** The channel has room for whatever one step may send. */
  predicate Roomy(peer: Peer) {
    |peer.out.queue| + |peer.downloading| + 3 <= 512
  }

  lemma AllFit(c: Channel, c': Channel, ms: seq<Msg>, m: Msg)
    requires Says(c, c', ms) && |c.queue| + |ms| <= 512
    ensures Times(c'.log, m) == Times(c.log, m) + Times(ms, m)
  {
    assert ms[..|ms|] == ms;
    TimesAppend(c.log, ms, m);
  }

  // ----- one step -----

  /** The step is an answer of peer `p` to the request `r`. */
  predicate Answers<P(==)>(s: State<P>, step: Step<P>, p: P, r: PieceRequest) {
    && step.GotPiece? && step.p == p && p in s.peers && r in s.peers[p].downloading
    && step.d.index == r.index && step.d.begin == r.begin && |step.d.data| == r.length
  }

  /** Neither a request nor a cancel message. */
  predicate Neutral(ms: seq<Msg>) {
    forall i :: 0 <= i < |ms| ==> !ms[i].Request? && !ms[i].CancelMsg?
  }

  lemma NeutralBalance(peer: Peer, peer': Peer, ms: seq<Msg>, r: PieceRequest)
    requires Says(peer.out, peer'.out, ms) && Neutral(ms) && |peer.out.queue| + |ms| <= 512
    ensures Times(peer'.out.log, Request(r)) == Times(peer.out.log, Request(r))
    ensures Times(peer'.out.log, CancelMsg(r)) == Times(peer.out.log, CancelMsg(r))
  {
    TimesNone(ms, Request(r));
    TimesNone(ms, CancelMsg(r));
    AllFit(peer.out, peer'.out, ms, Request(r));
    AllFit(peer.out, peer'.out, ms, CancelMsg(r));
  }

  /** Requests `gone` leave the list, each with a cancel message. */
  lemma CancelsBalance(peer: Peer, peer': Peer, gone: seq<PieceRequest>, r: PieceRequest)
    requires Distinct(gone) && Says(peer.out, peer'.out, Cancels(gone)) && |peer.out.queue| + |gone| <= 512
    requires forall x :: x in peer.downloading <==> x in peer'.downloading || x in gone
    requires forall x :: x in gone ==> x !in peer'.downloading
    ensures Balance(peer', r) == Balance(peer, r)
  {
    TimesCancels(gone, r);
    AllFit(peer.out, peer'.out, Cancels(gone), Request(r));
    AllFit(peer.out, peer'.out, Cancels(gone), CancelMsg(r));
  }

  lemma AskedBalance(peer: Peer, peer': Peer, asked: PieceRequest, r: PieceRequest)
    requires Says(peer.out, peer'.out, [Request(asked)]) && |peer.out.queue| < 512
    requires asked !in peer.downloading && peer'.downloading == peer.downloading + [asked]
    ensures Balance(peer', r) == Balance(peer, r)
  {
    AllFit(peer.out, peer'.out, [Request(asked)], Request(r));
    AllFit(peer.out, peer'.out, [Request(asked)], CancelMsg(r));
  }

  /** A part of a list leaves it, as the loops that rebuild lists split it. */
  lemma SplitList(ds: seq<PieceRequest>, test: PieceRequest -> bool, rest: PieceRequest -> bool)
    requires Distinct(ds) && forall r :: rest(r) <==> !test(r)
    ensures Distinct(Keep(ds, test)) && |Keep(ds, test)| <= |ds|
    ensures forall x :: x in ds <==> x in Keep(ds, rest) || x in Keep(ds, test)
    ensures forall x :: x in Keep(ds, test) ==> x !in Keep(ds, rest)
  {
    KeepDistinct(ds, test);
    forall x
      ensures x in Keep(ds, test) <==> x in ds && test(x)
      ensures x in Keep(ds, rest) <==> x in ds && rest(x)
    {
      KeepHas(ds, test, x);
      KeepHas(ds, rest, x);
    }
  }

  lemma ListDistinct<P>(env: Env, s: State<P>, p: P)
    requires Inv(env, s) && p in s.peers
    ensures Distinct(s.peers[p].downloading)
  {
    assert ListsOf(s.peers)[p] == s.peers[p].downloading;
  }

  lemma ChokeBalance<P>(env: Env, s: State<P>, p: P, r: PieceRequest)
    requires Inv(env, s) && p in s.peers && Roomy(s.peers[p])
    ensures Balance(Next(env, s, GotChoke(p)).peers[p], r) == Balance(s.peers[p], r)
  {
    ListDistinct(env, s, p);
    ChokeSays(env, s, p, p);
    CancelsBalance(s.peers[p], Next(env, s, GotChoke(p)).peers[p], s.peers[p].downloading, r);
  }

  lemma ExpiryBalance<P>(env: Env, s: State<P>, idx: u32, p: P, r: PieceRequest)
    requires Inv(env, s) && p in s.peers && Roomy(s.peers[p])
    ensures Balance(Next(env, s, Expire(idx)).peers[p], r) == Balance(s.peers[p], r)
  {
    var peer, peer' := s.peers[p], Next(env, s, Expire(idx)).peers[p];
    ListDistinct(env, s, p);
    ExpirySays(env, s, idx, p);
    if idx in s.tracker.requests && s.tracker.requests[idx].pending != {} {
      SplitList(peer.downloading, OfPiece(idx, true), OfPiece(idx, false));
      CancelsBalance(peer, peer', Keep(peer.downloading, OfPiece(idx, true)), r);
    }
  }

  lemma TickBalance<P>(env: Env, s: State<P>, q: P, due: bool, pick: Option<u32>, p: P, r: PieceRequest)
    requires Inv(env, s) && Enabled(env, s, TickDownload(q, due, pick)) && p in s.peers && Roomy(s.peers[p])
    ensures Balance(Next(env, s, TickDownload(q, due, pick)).peers[p], r) == Balance(s.peers[p], r)
  {
    var peer, peer' := s.peers[p], Next(env, s, TickDownload(q, due, pick)).peers[p];
    var asked := AskedBy(env, s, TickDownload(q, due, pick), p);
    if asked.Some? {
      NewToAll(env, s, p, pick, asked.value);
      TickSays(env, s, q, due, pick, p);
      AskedBalance(peer, peer', asked.value, r);
    }
  }

  /** The list after data was received: only the entry it answers is gone. */
  lemma AnsweredList(peer: Peer, d: PieceData, x: PieceRequest)
    requires |d.data| < U32_MOD
    ensures x in Answered(peer, d).downloading <==> x in peer.downloading && x != PieceRequest(d.index, d.begin, |d.data|)
  {
    KeepHas(peer.downloading, MatchedBy(d, false), x);
  }

  lemma ReceivedList<P>(env: Env, s: State<P>, q: P, d: PieceData, w: WriteResult, v: Verdict, p: P, x: PieceRequest)
    requires q in s.peers && p in s.peers && |d.data| < U32_MOD
    ensures p in Received(env, s, q, d, w, v).peers
    ensures x in Received(env, s, q, d, w, v).peers[p].downloading
       <==> x in s.peers[p].downloading && !(p == q && x == PieceRequest(d.index, d.begin, |d.data|))
  {
    ListedExactly(s.peers[q].downloading, d);
    AnsweredList(s.peers[q], d, x);
  }

  lemma PieceBalance<P>(env: Env, s: State<P>, q: P, d: PieceData, w: WriteResult, v: Verdict, p: P, r: PieceRequest)
    requires q in s.peers && |d.data| < U32_MOD && p in s.peers && Roomy(s.peers[p])
    ensures var step := GotPiece(q, d, w, v);
            p in Next(env, s, step).peers
            && Balance(Next(env, s, step).peers[p], r) == Balance(s.peers[p], r) + if Answers(s, step, p, r) then 1 else 0
  {
    var step := GotPiece(q, d, w, v);
    PieceSays(env, s, q, d, w, v, p);
    NeutralBalance(s.peers[p], Next(env, s, step).peers[p], SentTo(env, s, step, p), r);
    ReceivedList(env, s, q, d, w, v, p, r);
  }

  lemma TakenList<P>(env: Env, s: State<P>, q: P, p: P)
    requires q in s.peers && p in s.peers && (s.peers[q].choking ==> s.peers[q].downloading == [])
    ensures Next(env, s, TakeFromQueue(q)).peers[p].downloading == s.peers[p].downloading
  {
    DropCancelsNothing(env, s, q);
  }

  /** The steps that neither ask nor cancel leave the lists alone. */
  lemma ListStays<P>(env: Env, s: State<P>, step: Step<P>, p: P)
    requires Concerns(step, s.peers) && p in s.peers && p in Next(env, s, step).peers
    requires !step.GotPiece? && !step.TickDownload? && !step.Expire? && !step.TakeFromQueue? && !ChokeFrom(step, p)
    ensures Next(env, s, step).peers[p].downloading == s.peers[p].downloading
  {
    match step
    case GotBitfield(q, bits) => FirstBitsList(env, s.tracker.owned, s.peers[q], bits);
    case _ =>
  }

  lemma FirstBitsList(env: Env, owned: set<nat>, peer: Peer, bits: Bits)
    ensures Begun(WithBits(env, owned, peer, bits), peer).downloading == peer.downloading
  {
  }

  lemma NeutralSent<P>(env: Env, s: State<P>, step: Step<P>, p: P)
    requires Concerns(step, s.peers) && p in s.peers && p in Next(env, s, step).peers
    requires !step.TickDownload? && !step.Expire? && !ChokeFrom(step, p)
    ensures Neutral(SentTo(env, s, step, p)) && |SentTo(env, s, step, p)| <= 3
  {
  }

  lemma OtherBalance<P>(env: Env, s: State<P>, step: Step<P>, p: P, r: PieceRequest)
    requires Concerns(step, s.peers) && p in s.peers && p in Next(env, s, step).peers && Roomy(s.peers[p])
    requires !step.GotPiece? && !step.TickDownload? && !step.Expire? && !step.TakeFromQueue? && !ChokeFrom(step, p)
    ensures Balance(Next(env, s, step).peers[p], r) == Balance(s.peers[p], r)
  {
    ListStays(env, s, step, p);
    StepSays(env, s, step, p);
    NeutralSent(env, s, step, p);
    NeutralBalance(s.peers[p], Next(env, s, step).peers[p], SentTo(env, s, step, p), r);
  }

  /** What one step does to the account of one request on one connection. */
  lemma StepBalance<P>(env: Env, s: State<P>, step: Step<P>, p: P, r: PieceRequest)
    requires Inv(env, s) && Enabled(env, s, step) && p in s.peers && p in Next(env, s, step).peers && Roomy(s.peers[p])
    ensures Balance(Next(env, s, step).peers[p], r) == Balance(s.peers[p], r) + if Answers(s, step, p, r) then 1 else 0
  {
    match step
    case GotPiece(q, d, w, v) => PieceBalance(env, s, q, d, w, v, p, r);
    case TickDownload(q, due, pick) => TickBalance(env, s, q, due, pick, p, r);
    case Expire(idx) => ExpiryBalance(env, s, idx, p, r);
    case TakeFromQueue(q) => TakenList(env, s, q, p); TakenLog(env, s, q, p);
    case _ =>
      if ChokeFrom(step, p) {
        ChokeBalance(env, s, p, r);
      } else {
        OtherBalance(env, s, step, p, r);
      }
  }

  lemma TakenLog<P>(env: Env, s: State<P>, q: P, p: P)
    requires q in s.peers && p in s.peers
    ensures Next(env, s, TakeFromQueue(q)).peers[p].out.log == s.peers[p].out.log
  {
  }

  // ----- over runs -----

  /** How many of the steps from `a` to `n` are answers of peer `p` to `r`. */
  function AnswersIn<P>(states: seq<State<P>>, steps: seq<Step<P>>, a: nat, n: nat, p: P, r: PieceRequest): nat
    requires a <= n <= |steps| <= |states|
  {
    if a == n then 0
    else AnswersIn(states, steps, a, n - 1, p, r) + if Answers(states[n - 1], steps[n - 1], p, r) then 1 else 0
  }

  lemma BalanceAt<P>(env: Env, states: seq<State<P>>, steps: seq<Step<P>>, k: nat, p: P, r: PieceRequest)
    requires Run(env, states, steps) && Inv(env, states[0]) && k < |steps|
    requires p in states[k].peers && p in states[k + 1].peers && Roomy(states[k].peers[p])
    ensures Balance(states[k + 1].peers[p], r)
         == Balance(states[k].peers[p], r) + if Answers(states[k], steps[k], p, r) then 1 else 0
  {
    RunOk(env, states, steps, k);
    assert Transition(env, states, steps, k);
    StepBalance(env, states[k], steps[k], p, r);
  }

  /**
   * On every connection and for every request, over any stretch of any run in which the connection lasts and its channel
   * never fills up: the requests sent are the ones answered, the ones cancelled, and the one outstanding, if it is.
   */
  lemma {:induction false} EveryRequestAccountedFor<P>(env: Env, states: seq<State<P>>, steps: seq<Step<P>>, a: nat, n: nat,
                                                       p: P, r: PieceRequest)
    requires Run(env, states, steps) && Inv(env, states[0]) && a <= n < |states|
    requires forall k :: a <= k <= n ==> p in states[k].peers
    requires forall k :: a <= k < n ==> Roomy(states[k].peers[p])
    ensures Balance(states[n].peers[p], r) == Balance(states[a].peers[p], r) + AnswersIn(states, steps, a, n, p, r)
  {
    if a < n {
      EveryRequestAccountedFor(env, states, steps, a, n - 1, p, r);
      BalanceAt(env, states, steps, n - 1, p, r);
    }
  }

  /** A new connection starts with nothing sent and nothing outstanding. */
  lemma BalanceAtStart<P>(env: Env, s: State<P>, step: Step<P>, r: PieceRequest)
    requires step.Connect? && Concerns(step, s.peers)
    ensures step.p in Next(env, s, step).peers && Balance(Next(env, s, step).peers[step.p], r) == 0
  {
    NewcomerLog(env, s, step, step.p);
    TimesNone([OurBitfield], Request(r));
    TimesNone([OurBitfield], CancelMsg(r));
  }

  /** So from the start of a connection on: every request sent was answered, was cancelled, or is outstanding. */
  lemma SinceConnected<P>(env: Env, states: seq<State<P>>, steps: seq<Step<P>>, a: nat, n: nat, p: P, r: PieceRequest)
    requires Run(env, states, steps) && Inv(env, states[0]) && a < n < |states| && steps[a].Connect? && steps[a].p == p
    requires forall k :: a < k <= n ==> p in states[k].peers
    requires forall k :: a < k < n ==> Roomy(states[k].peers[p])
    ensures var log := states[n].peers[p].out.log;
            Times(log, Request(r))
            == Times(log, CancelMsg(r)) + AnswersIn(states, steps, a + 1, n, p, r)
               + if r in states[n].peers[p].downloading then 1 else 0
  {
    assert Transition(env, states, steps, a);
    BalanceAtStart(env, states[a], steps[a], r);
    EveryRequestAccountedFor(env, states, steps, a + 1, n, p, r);
  }
}
