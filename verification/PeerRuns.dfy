/** Request conservation for one peer, over every sequence of messages and events.

Here an event is counted for the chunk it names, whatever its length: so nothing is asked of
the remote end, and the count is an equation for every chunk. */
module PeerRuns {
  import opened Arith
  import opened Geometry
  import opened Options
  import opened Swarm
  import opened InFlight

  // ---------------------------------------------------------------------- answers

  /** An event answers the chunk it names. */
  ghost function AnswerOf(g: Shape, e: TorEvent, c: nat): nat
    requires g.Cpp() > 0
  {
    match e
    case TorData(i, b, _) => One(g.ToChunk(i, b) == c)
    case TorDrop(i, b, _) => One(g.ToChunk(i, b) == c)
    case _ => 0
  }

  ghost function Answers(g: Shape, es: seq<TorEvent>, c: nat): nat
    requires g.Cpp() > 0
  {
    if es == [] then 0 else Answers(g, es[..|es| - 1], c) + AnswerOf(g, es[|es| - 1], c)
  }

  /** The requests for c that wait, are held, or have been answered. */
  ghost function Account(g: Shape, p: Peer, c: nat): nat
    requires g.Cpp() > 0
  {
    BoxW(p.inbox, c) + HeldW(p, c) + Answers(g, p.out, c)
  }

  /** A peer holds each request once, and knows the metadata as long as it runs; a dead one holds
      nothing. */
  ghost predicate Steady(g: Shape, p: Peer)
  {
    && p.queue !! p.sent
    && (forall c :: c in p.queue ==> c < g.Chunks())
    && (forall c :: c in p.sent ==> c < g.Chunks())
    && (forall e :: e in p.inbox && e.PeerRequest? ==> ChunksOk(g, e.chunks))
    && (p.phase.Running? ==> p.info)
    && (p.phase.Dead? ==> p.queue == {} && p.sent == {})
  }

  /** What a move may do: k more requests for c are accounted for. */
  ghost predicate Adds(g: Shape, p: Peer, q: Peer, c: nat, k: nat)
    requires g.Cpp() > 0
  {
    Steady(g, q) && q.inbox == p.inbox && q.info == p.info && Account(g, q, c) == Account(g, p, c) + k
  }

  lemma EmitCounts(g: Shape, p: Peer, e: TorEvent, c: nat)
    requires g.Cpp() > 0 && Steady(g, p)
    ensures Adds(g, p, Emit(p, e), c, AnswerOf(g, e, c))
  {
    assert (p.out + [e])[..|p.out|] == p.out;
    hide Shape.ToChunk, BoxW, Shape.Chunks;
  }

  /** A drop names the chunk that is dropped. */
  lemma DropCounts(g: Shape, p: Peer, c: nat, x: nat)
    requires Exact(g) && g.Cpp() > 0 && Steady(g, p) && c < g.Chunks()
    ensures Adds(g, p, Drop(g, p, c), x, One(x == c))
  {
    hide Steady, Adds, Shape.ToChunk, Shape.FromChunk;
    RoundTrip(g, c);
    var (i, b) := g.FromChunk(c);
    EmitCounts(g, p, TorDrop(i, b, CHUNK), x);
  }

  /** Without the guard on chunk numbers a drop names another chunk: the guard is exact. */
  lemma DropNamesIff(g: Shape, c: nat)
    requires g.Valid() && g.Cpp() > 0 && c < g.Chunks()
    ensures var (i, b) := g.FromChunk(c); AnswerOf(g, TorDrop(i, b, CHUNK), c) == 1 <==> BeginExact(g, c)
  {
    hide Shape.ToChunk, Shape.FromChunk, BeginExact;
    RoundTrip(g, c);
  }

  lemma {:induction false} DropAllCounts(g: Shape, p: Peer, cs: seq<nat>, x: nat)
    requires Exact(g) && g.Cpp() > 0 && Steady(g, p) && ChunksOk(g, cs)
    ensures Adds(g, p, DropAll(g, p, cs), x, multiset(cs)[x])
    decreases |cs|
  {
    hide Steady, Drop, Account, Exact;
    if cs != [] {
      var n := |cs| - 1;
      DropAllCounts(g, p, cs[..n], x);
      DropCounts(g, DropAll(g, p, cs[..n]), cs[n], x);
      assert cs == cs[..n] + [cs[n]];
    }
  }

  // --------------------------------------------------------------------- releasing

  /** Requests leave the two lists for the events. */
  lemma Released(g: Shape, p: Peer, q: Peer, r: Peer, c: nat, k: nat)
    requires g.Cpp() > 0 && q.inbox == p.inbox && q.info == p.info && q.out == p.out
    requires HeldW(p, c) == HeldW(q, c) + k && Adds(g, q, r, c, k)
    ensures Adds(g, p, r, c, 0)
  {
    hide Steady, BoxW, Answers;
  }

  lemma AcceptCounts(g: Shape, p: Peer, c: nat, x: nat)
    requires Exact(g) && g.Cpp() > 0 && Steady(g, p) && c < g.Chunks() && !p.phase.Dead?
    ensures Adds(g, p, Accept(g, p, c), x, One(x == c)) && Accept(g, p, c).phase == p.phase
  {
    DropCounts(g, p, c, x);
    hide Shape.FromChunk, BoxW, Answers, Exact, Shape.Chunks;
  }

  lemma {:induction false} AcceptAllCounts(g: Shape, p: Peer, cs: seq<nat>, x: nat)
    requires Exact(g) && g.Cpp() > 0 && Steady(g, p) && ChunksOk(g, cs) && !p.phase.Dead?
    ensures Adds(g, p, AcceptAll(g, p, cs), x, multiset(cs)[x]) && AcceptAll(g, p, cs).phase == p.phase
    decreases |cs|
  {
    hide Steady, Accept, Account, Exact;
    if cs != [] {
      var n := |cs| - 1;
      AcceptAllCounts(g, p, cs[..n], x);
      AcceptCounts(g, AcceptAll(g, p, cs[..n]), cs[n], x);
      assert cs == cs[..n] + [cs[n]];
    }
  }

  lemma CancelCounts(g: Shape, p: Peer, c: nat, x: nat)
    requires Exact(g) && g.Cpp() > 0 && Steady(g, p)
    ensures Adds(g, p, CancelChunk(g, p, c), x, 0)
  {
    hide Drop, BoxW, Answers, Exact, Shape.Chunks;
    if c in p.queue && c !in p.sent {
      var q := p.(queue := p.queue - {c});
      DropCounts(g, q, c, x);
      Released(g, p, q, Drop(g, q, c), x, One(x == c));
    }
  }

  lemma {:induction false} CancelPieceCounts(g: Shape, p: Peer, index: nat, n: nat, x: nat)
    requires Exact(g) && g.Cpp() > 0 && Steady(g, p)
    ensures Adds(g, p, CancelPiece(g, p, index, n), x, 0)
  {
    hide Steady, CancelChunk, Account, Exact;
    if n > 0 {
      CancelPieceCounts(g, p, index, n - 1, x);
      CancelCounts(g, CancelPiece(g, p, index, n - 1), (index * g.Cpp() + (n - 1)) % U32, x);
    }
  }

  // ---------------------------------------------------------------------- messages

  /** Whatever its length and however much of it the store takes, a reply to a held request
      answers that request once. */
  lemma PieceCounts(g: Shape, p: Peer, i: nat, b: nat, length: nat, accepted: nat, x: nat)
    requires Exact(g) && g.Cpp() > 0 && Steady(g, p) && p.phase.Running?
    ensures Adds(g, p, HandleMessage(g, p, Piece(i, b, length, accepted)), x, 0)
  {
    hide Drop, BoxW, Answers, Exact, Shape.Chunks, Shape.ToChunk, Shape.Pieces;
    var c := g.ToChunk(i, b);
    if p.info && i < g.Pieces() && (c in p.queue || c in p.sent) {
      var q := Del(p, c);
      assert Steady(g, q) && HeldW(p, x) == HeldW(q, x) + One(x == c);
      EmitCounts(g, q, TorData(i, b, length), x);
      DropCounts(g, q, c, x);
      Released(g, p, q, HandleMessage(g, p, Piece(i, b, length, accepted)), x, One(x == c));
    }
  }

  lemma ChokeCounts(g: Shape, p: Peer, order: seq<nat>, x: nat)
    requires Exact(g) && g.Cpp() > 0 && Steady(g, p) && Lists(order, Choked(p))
    ensures Adds(g, p, HandleMessage(g, p, Choke(order)), x, 0)
  {
    hide DropAll, BoxW, Answers, Exact, Shape.Chunks;
    var q := p.(queue := {}, sent := if p.canFast then p.sent else {});
    ListsBounds(g, order, Choked(p));
    DropAllCounts(g, q, order, x);
    Released(g, p, q, DropAll(g, q, order), x, multiset(order)[x]);
  }

  lemma RejectCounts(g: Shape, p: Peer, i: nat, b: nat, x: nat)
    requires Exact(g) && g.Cpp() > 0 && Steady(g, p) && p.phase.Running?
    ensures Adds(g, p, HandleMessage(g, p, RejectRequest(i, b)), x, 0)
  {
    hide Drop, BoxW, Answers, Exact, Shape.Chunks, Shape.ToChunk;
    var c := g.ToChunk(i, b);
    if c in p.sent {
      var q := p.(sent := p.sent - {c});
      DropCounts(g, q, c, x);
      Released(g, p, q, Drop(g, q, c), x, One(x == c));
    }
  }

  /** Telling the torrent about pieces answers nothing. */
  lemma TellCounts(g: Shape, p: Peer, q: Peer, e: TorEvent, x: nat)
    requires g.Cpp() > 0 && Steady(g, p) && p.phase.Running? && !e.TorData? && !e.TorDrop?
    requires q == Emit(p.(isSeed := q.isSeed, bitmap := q.bitmap), e)
    ensures Adds(g, p, q, x, 0) && q.phase == p.phase
  {
    hide BoxW, Answers, Shape.Chunks, ChunksOk;
    EmitCounts(g, p.(isSeed := q.isSeed, bitmap := q.bitmap), e, x);
  }

  lemma ForgetCounts(g: Shape, p: Peer, x: nat)
    requires g.Cpp() > 0 && Steady(g, p) && p.phase.Running?
    ensures Adds(g, p, ForgetBitmap(p), x, 0) && ForgetBitmap(p).phase == p.phase
  {
    hide Steady, Account;
    if p.bitmap.Some? { TellCounts(g, p, ForgetBitmap(p), TorPeerBitmap(p.id, p.bitmap.value, false), x); }
  }

  lemma AnnounceCounts(g: Shape, p: Peer, s: set<nat>, seed: bool, x: nat)
    requires g.Cpp() > 0 && Steady(g, p) && p.phase.Running?
    ensures Adds(g, p, AnnounceBitmap(p.(isSeed := seed), s), x, 0)
  {
    hide Steady, Account;
    TellCounts(g, p, AnnounceBitmap(p.(isSeed := seed), s), TorPeerBitmap(p.id, s, true), x);
  }

  /** Nothing about requests changes. */
  lemma StillCounts(g: Shape, p: Peer, q: Peer, x: nat)
    requires g.Cpp() > 0 && Steady(g, p) && !q.phase.Dead? && (q.phase.Running? ==> p.phase.Running?)
    requires q.queue == p.queue && q.sent == p.sent && q.inbox == p.inbox && q.info == p.info && q.out == p.out
    ensures Adds(g, p, q, x, 0)
  {
    hide BoxW, Answers, Shape.Chunks, ChunksOk;
  }

  /** What the remote end says about its pieces answers nothing. */
  lemma BitmapCounts(g: Shape, p: Peer, m: Message, x: nat)
    requires g.pieceSize > 0 && g.Cpp() > 0 && Steady(g, p) && p.phase.Running?
    requires m.Have? || m.Bitfield? || m.HaveAll? || m.HaveNone? || m.DontHave?
    ensures Adds(g, p, HandleMessage(g, p, m), x, 0)
  {
    hide Steady, Account, ForgetBitmap, AnnounceBitmap, Shape.Pieces, Bitmap.Below;
    var q, f := HandleMessage(g, p, m), ForgetBitmap(p);
    ForgetCounts(g, p, x);
    match m
    case Have(i) =>
      if q.out == p.out { StillCounts(g, p, q, x); } else { TellCounts(g, p, q, TorPeerHave(p.id, i, true), x); }
    case DontHave(i) =>
      if q.out == p.out { StillCounts(g, p, q, x); } else { TellCounts(g, p, q, TorPeerHave(p.id, i, false), x); }
    case Bitfield(bits) =>
      AnnounceCounts(g, f, bits, f.isSeed, x);
      StillCounts(g, p, Close(p), x);
    case HaveAll =>
      AnnounceCounts(g, f, Bitmap.Below(g.Pieces()), true, x);
      StillCounts(g, f, f.(isSeed := true), x);
      StillCounts(g, p, Close(p), x);
    case HaveNone =>
      StillCounts(g, f, f.(isSeed := false), x);
      StillCounts(g, p, Close(p), x);
  }

  lemma MessageCounts(g: Shape, p: Peer, m: Message, x: nat)
    requires Exact(g) && g.Cpp() > 0 && Steady(g, p) && CanMove(g, p, Receive(m))
    ensures Adds(g, p, HandleMessage(g, p, m), x, 0)
  {
    hide HandleMessage, Steady, Adds, Exact;
    match m
    case Choke(order) => ChokeCounts(g, p, order, x);
    case RejectRequest(i, b) => RejectCounts(g, p, i, b, x);
    case Piece(i, b, length, accepted) => PieceCounts(g, p, i, b, length, accepted, x);
    case _ => BitmapCounts(g, p, m, x);
  }

  // ------------------------------------------------------------------ events and moves

  /** Handling an event answers, holds or drops each of its requests. */
  lemma EventCounts(g: Shape, p: Peer, e: PeerEvent, x: nat)
    requires Exact(g) && g.Cpp() > 0 && Steady(g, p) && p.phase.Running? && (e.PeerRequest? ==> ChunksOk(g, e.chunks))
    ensures Adds(g, p, HandleEvent(g, p, e), x, AskW(e, x))
  {
    hide Shape.Pieces, AcceptAll, CancelChunk, CancelPiece, Account, Exact;
    match e
    case PeerMetadataComplete => assert Account(g, Close(p), x) == Account(g, p, x) by { CloseCounts(g, p, x); }
    case PeerRequest(chunks) => AcceptAllCounts(g, p, chunks, x);
    case PeerCancel(c) => CancelCounts(g, p, c, x);
    case PeerCancelPiece(index) => CancelPieceCounts(g, p, index, g.Cpp(), x);
  }

  lemma CloseCounts(g: Shape, p: Peer, x: nat)
    requires g.Cpp() > 0
    ensures Account(g, Close(p), x) == Account(g, p, x)
  {
  }

  lemma TakeCounts(g: Shape, p: Peer, x: nat)
    requires Exact(g) && g.Cpp() > 0 && Steady(g, p) && p.phase.Running? && p.inbox != []
    ensures var q := HandleEvent(g, p.(inbox := p.inbox[1..]), p.inbox[0]); Steady(g, q) && Account(g, q, x) == Account(g, p, x)
  {
    hide HandleEvent, Exact, Answers, BoxW;
    BoxHead(p.inbox, x);
    assert p.inbox[0] in p.inbox;
    assert forall e :: e in p.inbox[1..] ==> e in p.inbox;
    EventCounts(g, p.(inbox := p.inbox[1..]), p.inbox[0], x);
  }

  lemma ShutdownCounts(g: Shape, p: Peer, order: seq<nat>, x: nat)
    requires Exact(g) && g.Cpp() > 0 && Steady(g, p) && Lists(order, p.queue + p.sent)
    ensures Adds(g, p, Shutdown(g, p, order), x, 0)
  {
    hide DropAll, BoxW, Answers, Exact, Shape.Chunks;
    var q := p.(phase := Dead, queue := {}, sent := {}, bitmap := None);
    forall c | c in p.queue + p.sent ensures c < g.Chunks() { assert c in p.queue || c in p.sent; }
    ListsBounds(g, order, p.queue + p.sent);
    DropAllCounts(g, q, order, x);
    var r := DropAll(g, q, order);
    var e := TorPeerBitmap(p.id, Pieces(p), false);
    EmitCounts(g, r, e, x);
    EmitCounts(g, Emit(r, e), TorPeerGoaway(p.id), x);
    assert HeldW(p, x) == One(x in p.queue + p.sent);
  }

  /** Every move keeps the account of every chunk. */
  lemma MoveCounts(g: Shape, p: Peer, mv: Move, x: nat)
    requires Exact(g) && g.Cpp() > 0 && Steady(g, p) && CanMove(g, p, mv)
    ensures Steady(g, Moved(g, p, mv)) && Account(g, Moved(g, p, mv), x) == Account(g, p, x)
  {
    match mv
    case TakeEvent => TakeCounts(g, p, x); hide *;
    case Receive(m) => MessageCounts(g, p, m, x); hide HandleMessage, Account, Steady;
    case Send(c, ok) => SendCounts(g, p, c, ok, x); hide SendRequest, Account, Steady;
    case Expire(c) => ExpireCounts(g, p, c, x); hide Drop, Account, Steady;
    case Fail => CloseCounts(g, p, x); hide Account;
    case Leave(order) => ShutdownCounts(g, p, order, x); hide Shutdown, Account, Steady;
  }

  lemma SendCounts(g: Shape, p: Peer, c: nat, ok: bool, x: nat)
    requires Exact(g) && g.Cpp() > 0 && Steady(g, p) && p.phase.Running? && c in p.queue
    ensures Adds(g, p, SendRequest(g, p, c, ok), x, 0)
  {
    hide Drop, BoxW, Answers, Exact, Shape.Chunks;
    var q := p.(queue := p.queue - {c});
    DropCounts(g, q, c, x);
    Released(g, p, q, Drop(g, q, c), x, One(x == c));
  }

  lemma ExpireCounts(g: Shape, p: Peer, c: nat, x: nat)
    requires Exact(g) && g.Cpp() > 0 && Steady(g, p) && c in p.sent
    ensures Adds(g, p, Drop(g, p.(sent := p.sent - {c}), c), x, 0)
  {
    hide Drop, BoxW, Answers, Exact, Shape.Chunks;
    var q := p.(sent := p.sent - {c});
    DropCounts(g, q, c, x);
    Released(g, p, q, Drop(g, q, c), x, One(x == c));
  }

  // --------------------------------------------------------------------- whole runs

  /** Either the torrent sends an event, or the peer makes a move. */
  datatype Step = Arrive(e: PeerEvent) | Do(mv: Move)

  /** A move that is not possible does nothing. */
  ghost function Stepped(g: Shape, p: Peer, s: Step): Peer
    requires g.pieceSize > 0 && g.Cpp() > 0
  {
    match s
    case Arrive(e) => p.(inbox := p.inbox + [e])
    case Do(mv) => if CanMove(g, p, mv) then Moved(g, p, mv) else p
  }

  /** A peer that knows the metadata, after a list of steps. */
  ghost function Play(g: Shape, id: nat, canFast: bool, steps: seq<Step>): Peer
    requires g.pieceSize > 0 && g.Cpp() > 0
  {
    if steps == [] then Peer(id, Running, true, canFast, false, None, {}, {}, [], [])
    else Stepped(g, Play(g, id, canFast, steps[..|steps| - 1]), steps[|steps| - 1])
  }

  ghost function GivenBy(s: Step, c: nat): nat { if s.Arrive? then AskW(s.e, c) else 0 }

  /** How often a request for c was sent to the peer. */
  ghost function Given(steps: seq<Step>, c: nat): nat
  {
    if steps == [] then 0 else Given(steps[..|steps| - 1], c) + GivenBy(steps[|steps| - 1], c)
  }

  /** The torrent asks for chunks of the torrent. */
  ghost predicate AskOk(g: Shape, s: Step) { s.Arrive? && s.e.PeerRequest? ==> ChunksOk(g, s.e.chunks) }

  lemma ArriveCounts(g: Shape, p: Peer, e: PeerEvent, x: nat)
    requires g.Cpp() > 0 && Steady(g, p) && (e.PeerRequest? ==> ChunksOk(g, e.chunks))
    ensures var q := p.(inbox := p.inbox + [e]); Steady(g, q) && Account(g, q, x) == Account(g, p, x) + AskW(e, x)
  {
    hide BoxW, Answers, ChunksOk;
    BoxSnoc(p.inbox, e, x);
    forall f | f in p.inbox + [e] && f.PeerRequest? ensures ChunksOk(g, f.chunks) { assert f in p.inbox || f == e; }
  }

  lemma StepCounts(g: Shape, p: Peer, s: Step, x: nat)
    requires Exact(g) && g.Cpp() > 0 && Steady(g, p) && AskOk(g, s)
    ensures Steady(g, Stepped(g, p, s)) && Account(g, Stepped(g, p, s), x) == Account(g, p, x) + GivenBy(s, x)
  {
    hide Steady, Account, CanMove, Moved, Exact;
    match s
    case Arrive(e) => ArriveCounts(g, p, e, x);
    case Do(mv) => if CanMove(g, p, mv) { MoveCounts(g, p, mv, x); }
  }

  lemma {:induction false} RunCounts(g: Shape, id: nat, canFast: bool, steps: seq<Step>, c: nat)
    requires Exact(g) && g.Cpp() > 0 && forall k :: 0 <= k < |steps| ==> AskOk(g, steps[k])
    ensures var p := Play(g, id, canFast, steps); Steady(g, p) && Account(g, p, c) == Given(steps, c)
    decreases |steps|
  {
    hide Stepped, Exact, AskOk, GivenBy;
    if steps != [] {
      var n := |steps| - 1;
      RunCounts(g, id, canFast, steps[..n], c);
      StepCounts(g, Play(g, id, canFast, steps[..n]), steps[n], c);
    }
  }

  /** In every run of a peer that knows the metadata, for every chunk: the requests it has
      handled are as many as the TorData and TorDrop events it has emitted for the chunk, plus
      one if it still holds the chunk; and once it has shut down it holds nothing. */
  lemma PeerLedger(g: Shape, id: nat, canFast: bool, steps: seq<Step>, c: nat)
    requires Exact(g) && g.Cpp() > 0 && forall k :: 0 <= k < |steps| ==> AskOk(g, steps[k])
    ensures var p := Play(g, id, canFast, steps);
            && Given(steps, c) - BoxW(p.inbox, c) == Answers(g, p.out, c) + One(c in p.queue + p.sent)
            && (p.phase.Dead? ==> p.queue == {} && p.sent == {})
  {
    RunCounts(g, id, canFast, steps, c);
    hide Play, Given, BoxW, Answers;
  }
}
