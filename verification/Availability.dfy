/** The availability ledger.

Each peer tells the torrent, by events, what pieces its remote end has; the torrent keeps one
counter per piece.  Each peer's events are delivered in order, those of different peers in any
order.  The theorem is that in every run the counters add up what the torrent has been told,
that this is each peer's bitmap up to the events still on their way, and that the clamps in
noteAvailable at 0 and at 65535 are never reached. */
module Availability {
  import opened Geometry
  import opened Bitmap
  import opened Swarm
  import opened Options

  // ------------------------------------------------------------- one peer's events

  /** What the torrent believes of a peer: its pieces, and whether it has gone. */
  datatype Net = Net(id: nat, bits: set<nat>, gone: bool)

  function Step(n: Net, e: TorEvent): Net
  {
    match e
    case TorPeerBitmap(_, bits, have) => n.(bits := Learn(n.bits, bits, have))
    case TorPeerHave(_, i, have) => n.(bits := Learn(n.bits, {i}, have))
    case TorPeerGoaway(_) => n.(gone := true)
    case _ => n
  }

  /** An event that adds only what is absent, removes only what is present, and comes before the
      Goaway, which leaves nothing behind. */
  predicate Proper(n: Net, e: TorEvent)
  {
    match e
    case TorPeerBitmap(_, bits, have) => !n.gone && if have then bits !! n.bits else bits <= n.bits
    case TorPeerHave(_, i, have) => !n.gone && have == (i !in n.bits)
    case TorPeerGoaway(_) => !n.gone && n.bits == {}
    case _ => true
  }

  ghost function Final(n: Net, es: seq<TorEvent>): Net
  {
    if es == [] then n else Step(Final(n, es[..|es| - 1]), es[|es| - 1])
  }

  ghost predicate AllProper(n: Net, es: seq<TorEvent>)
  {
    es == [] || (AllProper(n, es[..|es| - 1]) && Proper(Final(n, es[..|es| - 1]), es[|es| - 1]))
  }

  /** The events lead properly from one belief to the other. */
  ghost predicate Leads(n: Net, es: seq<TorEvent>, to: Net) { AllProper(n, es) && Final(n, es) == to }

  lemma LeadsSnoc(n: Net, es: seq<TorEvent>, to: Net, e: TorEvent)
    requires Leads(n, es, to) && Proper(to, e)
    ensures Leads(n, es + [e], Step(to, e))
  {
    assert (es + [e])[..|es|] == es;
  }

  lemma {:induction false} LeadsHead(n: Net, es: seq<TorEvent>, to: Net)
    requires Leads(n, es, to) && es != []
    ensures Proper(n, es[0]) && Leads(Step(n, es[0]), es[1..], to)
    decreases |es|
  {
    var k := |es| - 1;
    if k == 0 {
      assert es[..0] == [] && es[1..] == [];
    } else {
      LeadsHead(n, es[..k], Final(n, es[..k]));
      assert es[..k][1..] == es[1..][..k - 1];
    }
  }

  // --------------------------------------------------------- events of one peer in a queue

  function Of(e: TorEvent, i: nat): bool
  {
    match e
    case TorPeerBitmap(p, _, _) => p == i
    case TorPeerHave(p, _, _) => p == i
    case TorPeerGoaway(p) => p == i
    case _ => false
  }

  predicate Noise(e: TorEvent) { e.TorData? || e.TorDrop? }

  ghost function Mine(es: seq<TorEvent>, i: nat): seq<TorEvent>
  {
    if es == [] then []
    else if Of(es[|es| - 1], i) then Mine(es[..|es| - 1], i) + [es[|es| - 1]]
    else Mine(es[..|es| - 1], i)
  }

  lemma MineSnoc(es: seq<TorEvent>, e: TorEvent, i: nat)
    ensures Mine(es + [e], i) == if Of(e, i) then Mine(es, i) + [e] else Mine(es, i)
  {
    assert (es + [e])[..|es|] == es;
  }

  lemma {:induction false} MineHead(es: seq<TorEvent>, i: nat)
    requires es != []
    ensures Mine(es, i) == (if Of(es[0], i) then [es[0]] else []) + Mine(es[1..], i)
    decreases |es|
  {
    hide Of;
    var k := |es| - 1;
    if k == 0 {
      assert es[..0] == [];
    } else {
      var front, tail := es[..k], es[1..];
      MineHead(front, i);
      assert front[1..] == tail[..k - 1] && front[0] == es[0] && tail[k - 1] == es[k];
      var last := if Of(es[k], i) then [es[k]] else [];
      assert Mine(es, i) == Mine(front, i) + last && Mine(tail, i) == Mine(tail[..k - 1], i) + last;
    }
  }

  /** The events of peer i still on their way, oldest first. */
  ghost function Pending(mail: seq<TorEvent>, p: Peer): seq<TorEvent> { Mine(mail, p.id) + Mine(p.out, p.id) }

  ghost function View(p: Peer): Net { Net(p.id, Pieces(p), p.phase.Dead?) }

  ghost predicate Own(p: Peer) { forall e :: e in p.out ==> Noise(e) || Of(e, p.id) }

  /** What the torrent believes and what is on its way add up to the peer's own state. */
  ghost predicate Agrees(n: Net, mail: seq<TorEvent>, p: Peer)
  {
    p.id == n.id && Own(p) && Leads(n, Pending(mail, p), View(p))
  }

  // --------------------------------------------------------------- peer moves

  /** A peer that only emits noise and keeps its view. */
  lemma Quiet(n: Net, mail: seq<TorEvent>, p: Peer, e: TorEvent)
    requires Agrees(n, mail, p) && Noise(e)
    ensures Agrees(n, mail, Emit(p, e))
  {
    hide Leads, Mine, View;
    MineSnoc(p.out, e, p.id);
    assert View(Emit(p, e)) == View(p) by { SameView(p, Emit(p, e)); }
    assert forall f :: f in Emit(p, e).out ==> f in p.out || f == e;
  }

  lemma SameView(p: Peer, q: Peer)
    requires q.id == p.id && q.bitmap == p.bitmap && q.phase.Dead? == p.phase.Dead?
    ensures View(q) == View(p)
  {
  }

  /** A peer that changes its view and says so. */
  lemma Spoken(n: Net, mail: seq<TorEvent>, p: Peer, q: Peer, e: TorEvent)
    requires Agrees(n, mail, p) && Of(e, p.id) && Proper(View(p), e)
    requires q.id == p.id && q.out == p.out + [e] && View(q) == Step(View(p), e)
    ensures Agrees(n, mail, q)
  {
    hide Leads, Mine, View, Step, Proper;
    MineSnoc(p.out, e, p.id);
    LeadsSnoc(n, Pending(mail, p), View(p), e);
    assert Pending(mail, q) == Pending(mail, p) + [e];
    assert forall f :: f in q.out ==> f in p.out || f == e;
  }

  lemma Silent(n: Net, mail: seq<TorEvent>, p: Peer, q: Peer)
    requires Agrees(n, mail, p) && q.id == p.id && q.out == p.out && View(q) == View(p)
    ensures Agrees(n, mail, q)
  {
  }

  lemma ForgetAgrees(n: Net, mail: seq<TorEvent>, p: Peer)
    requires Agrees(n, mail, p) && !p.phase.Dead?
    ensures Agrees(n, mail, ForgetBitmap(p)) && ForgetBitmap(p).bitmap == None && ForgetBitmap(p).phase == p.phase && ForgetBitmap(p).id == p.id
  {
    hide Agrees;
    if p.bitmap.Some? {
      Spoken(n, mail, p, ForgetBitmap(p), TorPeerBitmap(p.id, p.bitmap.value, false));
    }
  }

  lemma AnnounceAgrees(n: Net, mail: seq<TorEvent>, p: Peer, s: set<nat>)
    requires Agrees(n, mail, p) && !p.phase.Dead? && p.bitmap == None
    ensures Agrees(n, mail, AnnounceBitmap(p, s))
  {
    hide Agrees;
    Spoken(n, mail, p, AnnounceBitmap(p, s), TorPeerBitmap(p.id, s, true));
  }

  lemma {:induction false} DropAllAgrees(n: Net, mail: seq<TorEvent>, g: Shape, p: Peer, cs: seq<nat>)
    requires g.pieceSize > 0 && g.Cpp() > 0 && Agrees(n, mail, p)
    ensures Agrees(n, mail, DropAll(g, p, cs))
    decreases |cs|
  {
    hide Agrees, Shape.FromChunk;
    if cs != [] {
      DropAllAgrees(n, mail, g, p, cs[..|cs| - 1]);
      DropAgrees(n, mail, g, DropAll(g, p, cs[..|cs| - 1]), cs[|cs| - 1]);
    }
  }

  lemma DropAgrees(n: Net, mail: seq<TorEvent>, g: Shape, p: Peer, c: nat)
    requires g.pieceSize > 0 && g.Cpp() > 0 && Agrees(n, mail, p)
    ensures Agrees(n, mail, Drop(g, p, c))
  {
    hide Agrees, Shape.FromChunk;
    var (i, b) := g.FromChunk(c);
    Quiet(n, mail, p, TorDrop(i, b, CHUNK));
  }

  lemma {:induction false} AcceptAllAgrees(n: Net, mail: seq<TorEvent>, g: Shape, p: Peer, cs: seq<nat>)
    requires g.pieceSize > 0 && g.Cpp() > 0 && Agrees(n, mail, p)
    ensures Agrees(n, mail, AcceptAll(g, p, cs))
    decreases |cs|
  {
    hide Agrees, Shape.FromChunk, Drop;
    if cs != [] {
      AcceptAllAgrees(n, mail, g, p, cs[..|cs| - 1]);
      var q := AcceptAll(g, p, cs[..|cs| - 1]);
      DropAgrees(n, mail, g, q, cs[|cs| - 1]);
      Silent(n, mail, q, q.(queue := q.queue + {cs[|cs| - 1]}));
    }
  }

  lemma CancelAgrees(n: Net, mail: seq<TorEvent>, g: Shape, p: Peer, c: nat)
    requires g.pieceSize > 0 && g.Cpp() > 0 && Agrees(n, mail, p)
    ensures Agrees(n, mail, CancelChunk(g, p, c))
  {
    hide Agrees, Drop;
    Silent(n, mail, p, p.(queue := p.queue - {c}));
    DropAgrees(n, mail, g, p.(queue := p.queue - {c}), c);
  }

  lemma {:induction false} CancelPieceAgrees(n: Net, mail: seq<TorEvent>, g: Shape, p: Peer, index: nat, k: nat)
    requires g.pieceSize > 0 && g.Cpp() > 0 && Agrees(n, mail, p)
    ensures Agrees(n, mail, CancelPiece(g, p, index, k))
    decreases k
  {
    hide Agrees, CancelChunk;
    if k > 0 {
      CancelPieceAgrees(n, mail, g, p, index, k - 1);
      CancelAgrees(n, mail, g, CancelPiece(g, p, index, k - 1), (index * g.Cpp() + (k - 1)) % U32);
    }
  }

  lemma EventAgrees(n: Net, mail: seq<TorEvent>, g: Shape, p: Peer, e: PeerEvent)
    requires g.pieceSize > 0 && g.Cpp() > 0 && Agrees(n, mail, p) && p.phase.Running?
    ensures Agrees(n, mail, HandleEvent(g, p, e))
  {
    hide Agrees, AcceptAll, CancelPiece, CancelChunk, Shape.Pieces;
    match e
    case PeerMetadataComplete =>
      Silent(n, mail, p, p.(info := true));
      Silent(n, mail, p, Close(p.(info := true)));
      Silent(n, mail, p, Close(p));
      if p.bitmap.None? { AnnounceAgrees(n, mail, p.(info := true), Below(g.Pieces())); }
    case PeerRequest(chunks) => AcceptAllAgrees(n, mail, g, p, chunks); Silent(n, mail, p, Close(p));
    case PeerCancel(c) => CancelAgrees(n, mail, g, p, c); Silent(n, mail, p, Close(p));
    case PeerCancelPiece(index) => CancelPieceAgrees(n, mail, g, p, index, g.Cpp()); Silent(n, mail, p, Close(p));
  }

  lemma BitmapMessageAgrees(n: Net, mail: seq<TorEvent>, g: Shape, p: Peer, m: Message)
    requires g.pieceSize > 0 && g.Cpp() > 0 && Agrees(n, mail, p) && p.phase.Running?
    requires m.Have? || m.Bitfield? || m.HaveAll? || m.HaveNone? || m.DontHave?
    ensures Agrees(n, mail, HandleMessage(g, p, m))
  {
    hide Agrees, ForgetBitmap, AnnounceBitmap, Shape.Pieces;
    Silent(n, mail, p, Close(p));
    match m
    case Have(i) =>
      if i !in Pieces(p) {
        Spoken(n, mail, p, Emit(p.(bitmap := Some(Pieces(p) + {i})), TorPeerHave(p.id, i, true)), TorPeerHave(p.id, i, true));
      }
    case Bitfield(s) =>
      ForgetAgrees(n, mail, p);
      AnnounceAgrees(n, mail, ForgetBitmap(p), s);
    case HaveAll =>
      ForgetAgrees(n, mail, p);
      Silent(n, mail, ForgetBitmap(p), ForgetBitmap(p).(isSeed := true));
      AnnounceAgrees(n, mail, ForgetBitmap(p).(isSeed := true), Below(g.Pieces()));
    case HaveNone =>
      ForgetAgrees(n, mail, p);
      Silent(n, mail, ForgetBitmap(p), ForgetBitmap(p).(isSeed := false));
    case DontHave(i) =>
      Silent(n, mail, p, p.(isSeed := false));
      Silent(n, mail, p, Close(p.(isSeed := false)));
      if i in Pieces(p) {
        Spoken(n, mail, p, Emit(p.(isSeed := false, bitmap := Some(Pieces(p) - {i})), TorPeerHave(p.id, i, false)), TorPeerHave(p.id, i, false));
      }
  }

  lemma RequestMessageAgrees(n: Net, mail: seq<TorEvent>, g: Shape, p: Peer, m: Message)
    requires g.pieceSize > 0 && g.Cpp() > 0 && Agrees(n, mail, p) && p.phase.Running?
    requires m.Choke? || m.RejectRequest? || m.Piece?
    ensures Agrees(n, mail, HandleMessage(g, p, m))
  {
    hide Agrees, Drop, DropAll, Shape.Pieces, Shape.ToChunk;
    Silent(n, mail, p, Close(p));
    match m
    case Choke(order) =>
      var q := p.(queue := {}, sent := if p.canFast then p.sent else {});
      Silent(n, mail, p, q);
      DropAllAgrees(n, mail, g, q, order);
    case RejectRequest(i, b) =>
      var c := g.ToChunk(i, b);
      Silent(n, mail, p, p.(sent := p.sent - {c}));
      DropAgrees(n, mail, g, p.(sent := p.sent - {c}), c);
    case Piece(i, b, length, accepted) =>
      var c := g.ToChunk(i, b);
      Silent(n, mail, p, Del(p, c));
      Quiet(n, mail, Del(p, c), TorData(i, b, length));
      DropAgrees(n, mail, g, Del(p, c), c);
  }

  lemma ShutdownAgrees(n: Net, mail: seq<TorEvent>, g: Shape, p: Peer, order: seq<nat>)
    requires g.pieceSize > 0 && g.Cpp() > 0 && Agrees(n, mail, p) && !p.phase.Dead?
    ensures Agrees(n, mail, Shutdown(g, p, order))
  {
    hide Agrees, Shape.FromChunk;
    // The same events, with the bitmap given up only when the torrent is told.
    var p1 := DropAll(g, p, order);
    DropAllAgrees(n, mail, g, p, order);
    DropAllSide(g, p, order);
    DropAllSide(g, p.(phase := Dead, queue := {}, sent := {}, bitmap := None), order);
    DropAllOut(g, p, p.(phase := Dead, queue := {}, sent := {}, bitmap := None), order);
    var p2 := Emit(p1, TorPeerBitmap(p.id, Pieces(p), false)).(bitmap := None);
    Spoken(n, mail, p1, p2, TorPeerBitmap(p.id, Pieces(p), false));
    Spoken(n, mail, p2, Shutdown(g, p, order), TorPeerGoaway(p.id));
  }

  lemma {:induction false} DropAllOut(g: Shape, p: Peer, q: Peer, cs: seq<nat>)
    requires g.pieceSize > 0 && g.Cpp() > 0 && p.out == q.out
    ensures DropAll(g, p, cs).out == DropAll(g, q, cs).out
    decreases |cs|
  {
    hide Shape.FromChunk;
    if cs != [] { DropAllOut(g, p, q, cs[..|cs| - 1]); }
  }

  /** Every move of a peer keeps it in agreement with the torrent. */
  lemma MoveAgrees(n: Net, mail: seq<TorEvent>, g: Shape, p: Peer, mv: Move)
    requires g.pieceSize > 0 && g.Cpp() > 0 && Agrees(n, mail, p) && CanMove(g, p, mv)
    ensures Agrees(n, mail, Moved(g, p, mv))
  {
    hide Agrees, HandleEvent, HandleMessage, Drop, Shutdown, Shape.PieceLength, Shape.ToChunk, AddDataAnswer, Lists, Shape.ChunkSize;
    match mv
    case TakeEvent =>
      Silent(n, mail, p, p.(inbox := p.inbox[1..]));
      EventAgrees(n, mail, g, p.(inbox := p.inbox[1..]), p.inbox[0]);
    case Receive(m) =>
      if m.Choke? || m.RejectRequest? || m.Piece? {
        RequestMessageAgrees(n, mail, g, p, m);
      } else {
        BitmapMessageAgrees(n, mail, g, p, m);
      }
    case Send(c, ok) =>
      var q := p.(queue := p.queue - {c});
      Silent(n, mail, p, q);
      Silent(n, mail, p, q.(sent := q.sent + {c}));
      DropAgrees(n, mail, g, q, c);
    case Expire(c) =>
      Silent(n, mail, p, p.(sent := p.sent - {c}));
      DropAgrees(n, mail, g, p.(sent := p.sent - {c}), c);
    case Fail => Silent(n, mail, p, Close(p));
    case Leave(order) => ShutdownAgrees(n, mail, g, p, order);
  }
}
