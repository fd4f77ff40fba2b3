/** The in-flight ledger holds in every run. */
module InFlightRuns {
  import opened Arith
  import opened Geometry
  import opened Swarm
  import opened InFlight
  import opened Options

  // ------------------------------------------------------------------ the invariant

  ghost predicate Silent(es: seq<TorEvent>) { forall e :: e in es ==> !e.TorData? && !e.TorDrop? }

  /** Before the metadata is known a peer has no requests; afterwards a running peer has read
      the metadata, or reads it next. */
  ghost predicate PeerInv(g: Shape, info: bool, p: Peer)
  {
    && Sound(g, p)
    && (forall e :: e in p.inbox && e.PeerRequest? ==> ChunksOk(g, e.chunks))
    && (!info ==> Blank(p))
    && (info && p.phase.Running? && !p.info ==> p.inbox != [] && p.inbox[0].PeerMetadataComplete?)
  }

  ghost predicate Blank(p: Peer)
  {
    !p.info && p.queue == {} && p.sent == {} && p.inbox == [] && Silent(p.out)
  }

  ghost predicate WriterOk(g: Shape, w: Writer)
    requires g.pieceSize > 0
  {
    w.count == 0 || RangeOk(g, w.index, w.offset, w.count)
  }

  /** The counter of each chunk is at least what is held for it, and exactly that for a chunk of
      full size. */
  ghost predicate Ledger(g: Shape, s: State)
    requires |s.inFlight| == g.Chunks()
  {
    forall c :: 0 <= c < g.Chunks() ==> Conserves(g, s.inFlight[c], Held(g, s, c), c)
  }

  ghost predicate Inv(g: Shape, s: State)
    requires g.pieceSize > 0
  {
    && (forall i :: 0 <= i < |s.peers| ==> PeerInv(g, s.info, s.peers[i]))
    && MailOk(g, s.mail)
    && (forall i :: 0 <= i < |s.writers| ==> WriterOk(g, s.writers[i]))
    && (!s.info ==> s.inFlight == [] && s.writers == [] && Silent(s.mail))
    && (s.info ==> |s.inFlight| == g.Chunks() && Ledger(g, s))
  }

  /** No counter is at its limit when it is incremented. */
  ghost predicate Unsaturated(g: Shape, s: State, a: Action)
  {
    match a
    case Request(p, chunks) => forall c :: 0 <= c < |s.inFlight| ==> s.inFlight[c] + multiset(chunks)[c] <= 255
    case StartWebseed(i, o, l) => forall c :: 0 <= c < |s.inFlight| && InRange(g, i, o, l, c) ==> s.inFlight[c] < 255
    case _ => true
  }

  /** The chunks a webseed range touches. */
  ghost predicate InRange(g: Shape, index: nat, offset: nat, length: nat, c: nat)
  {
    var first := index * g.Cpp() + offset / CHUNK;
    first <= c < first + Touched(length)
  }

  /** What the ledger asks of a step, beyond its being possible. */
  ghost predicate Orderly(g: Shape, s: State, a: Action)
    requires g.pieceSize > 0 && g.Cpp() > 0
  {
    Unsaturated(g, s, a) && (a.PeerMove? && a.p < |s.peers| ==> Replies(g, s.peers[a.p], a.mv))
  }

  // ------------------------------------------------------------------- peer moves

  lemma {:induction false} AcceptAllSide(g: Shape, p: Peer, cs: seq<nat>)
    requires g.pieceSize > 0 && g.Cpp() > 0
    ensures SameSide(p, AcceptAll(g, p, cs))
    decreases |cs|
  {
    hide Shape.FromChunk;
    if cs != [] { AcceptAllSide(g, p, cs[..|cs| - 1]); }
  }

  lemma {:induction false} CancelPieceSide(g: Shape, p: Peer, index: nat, n: nat)
    requires g.pieceSize > 0 && g.Cpp() > 0
    ensures SameSide(p, CancelPiece(g, p, index, n))
  {
    hide Shape.FromChunk;
    if n > 0 { CancelPieceSide(g, p, index, n - 1); }
  }

  /** No move adds to the inbox, forgets the metadata, or revives a peer. */
  ghost predicate Onward(p: Peer, q: Peer)
  {
    && q.inbox == p.inbox
    && (p.info ==> q.info)
    && (q.phase.Running? ==> p.phase.Running?)
    && (q.phase.Dead? ==> p.phase.Dead?)
  }

  lemma MessageOnward(g: Shape, p: Peer, m: Message)
    requires g.pieceSize > 0 && g.Cpp() > 0
    ensures Onward(p, HandleMessage(g, p, m)) && HandleMessage(g, p, m).info == p.info
  {
    hide Shape.FromChunk, Shape.ToChunk, Shape.Pieces;
    if m.Choke? { DropAllSide(g, p.(queue := {}, sent := if p.canFast then p.sent else {}), m.order); }
  }

  lemma EventOnward(g: Shape, p: Peer, e: PeerEvent)
    requires g.pieceSize > 0 && g.Cpp() > 0
    ensures Onward(p, HandleEvent(g, p, e)) && (e.PeerMetadataComplete? ==> HandleEvent(g, p, e).info)
  {
    hide Shape.FromChunk, Shape.ToChunk, Shape.Pieces, AcceptAll, CancelPiece;
    match e
    case PeerRequest(chunks) => AcceptAllSide(g, p, chunks);
    case PeerCancelPiece(index) => CancelPieceSide(g, p, index, g.Cpp());
    case _ =>
  }

  lemma NothingListed(order: seq<nat>)
    requires Lists(order, {})
    ensures order == []
  {
    assert |multiset(order)| == |order|;
  }

  lemma BlankMessage(g: Shape, p: Peer, m: Message)
    requires g.pieceSize > 0 && g.Cpp() > 0 && Blank(p) && CanMove(g, p, Receive(m))
    ensures Blank(HandleMessage(g, p, m))
  {
    hide Shape.FromChunk, Shape.ToChunk, Shape.Pieces, Shape.PieceLength, Shape.ChunkSize, AddDataAnswer, Drop, Del, Shape.Cpp;
    if m.Choke? { NothingListed(m.order); }
  }

  /** Before the metadata is known, a peer's moves touch no request. */
  lemma BlankMove(g: Shape, p: Peer, mv: Move)
    requires g.pieceSize > 0 && g.Cpp() > 0 && Blank(p) && CanMove(g, p, mv)
    ensures Blank(Moved(g, p, mv))
  {
    hide Shape.FromChunk, Shape.ToChunk, Shape.Pieces, Shape.PieceLength, Shape.ChunkSize, HandleMessage, AddDataAnswer, HandleEvent;
    match mv
    case Receive(m) => BlankMessage(g, p, m);
    case Leave(order) =>
      assert p.queue + p.sent == {};
      NothingListed(order);
    case _ =>
  }

  lemma MovePeer(g: Shape, info: bool, p: Peer, mv: Move)
    requires Exact(g) && g.Cpp() > 0 && PeerInv(g, info, p) && CanMove(g, p, mv) && Replies(g, p, mv)
    ensures PeerInv(g, info, Moved(g, p, mv))
  {
    hide Sound, Blank, HandleMessage, HandleEvent, Shutdown, SendRequest, Drop, PeerW, HeldW, ChunksOk, ReplyOk;
    var q := Moved(g, p, mv);
    assert InboxOk(g, p) by { BlankInbox(g, info, p); }
    MoveW(g, p, mv, 0);
    if !info { BlankMove(g, p, mv); }
    match mv
    case TakeEvent =>
      EventOnward(g, p.(inbox := p.inbox[1..]), p.inbox[0]);
      assert forall e :: e in p.inbox[1..] ==> e in p.inbox;
    case Receive(m) => MessageOnward(g, p, m);
    case Leave(order) => ShutdownOnward(g, p, order);
    case Send(c, ok) => SendOnward(g, p, c, ok);
    case Expire(c) => DropOnward(g, p, c);
    case Fail =>
  }

  lemma BlankInbox(g: Shape, info: bool, p: Peer)
    requires PeerInv(g, info, p)
    ensures InboxOk(g, p)
  {
  }

  lemma ShutdownOnward(g: Shape, p: Peer, order: seq<nat>)
    requires g.pieceSize > 0 && g.Cpp() > 0
    ensures var q := Shutdown(g, p, order); q.inbox == p.inbox && q.info == p.info && q.phase.Dead?
  {
    hide Shape.FromChunk, DropAll;
    DropAllSide(g, p.(phase := Dead, queue := {}, sent := {}, bitmap := None), order);
  }

  lemma SendOnward(g: Shape, p: Peer, c: nat, ok: bool)
    requires g.pieceSize > 0 && g.Cpp() > 0
    ensures Onward(p, SendRequest(g, p, c, ok))
  {
    hide Shape.FromChunk;
  }

  lemma DropOnward(g: Shape, p: Peer, c: nat)
    requires g.pieceSize > 0 && g.Cpp() > 0
    ensures Onward(p, Drop(g, p.(sent := p.sent - {c}), c))
  {
    hide Shape.FromChunk;
  }

  // ---------------------------------------------------------------- each kind of step

  /** A step that changes one peer keeps the invariant if the peer conserves its requests. */
  lemma PeerStep(g: Shape, s: State, i: nat, p: Peer)
    requires g.pieceSize > 0 && Inv(g, s) && i < |s.peers| && PeerInv(g, s.info, p)
    requires forall c :: 0 <= c < g.Chunks() ==> Conserves(g, PeerW(g, s.peers[i], c), PeerW(g, p, c), c)
    ensures Inv(g, s.(peers := s.peers[i := p]))
  {
    hide PeerInv, PeerW, Conserves, WriterOk, MailW, PeersW, WritersW, Shape.Chunks, MailOk, Silent;
    var t := s.(peers := s.peers[i := p]);
    if s.info {
      forall c | 0 <= c < g.Chunks() ensures Conserves(g, t.inFlight[c], Held(g, t, c), c) {
        PeersUpdate(g, s.peers, i, p, c);
        Shifted(g, s.inFlight[c], Held(g, s, c), PeerW(g, s.peers[i], c), PeerW(g, p, c), Held(g, t, c), c);
      }
    }
  }

  lemma Shifted(g: Shape, count: nat, held: nat, x: nat, y: nat, after: nat, c: nat)
    requires Conserves(g, count, held, c) && Conserves(g, x, y, c) && after + x == held + y
    ensures Conserves(g, count, after, c)
  {
  }

  lemma PeerMoveKeeps(g: Shape, s: State, i: nat, mv: Move)
    requires Exact(g) && g.Cpp() > 0 && Inv(g, s) && Enabled(g, s, PeerMove(i, mv)) && Replies(g, s.peers[i], mv)
    ensures Inv(g, Next(g, s, PeerMove(i, mv)))
  {
    hide PeerInv, CanMove, Replies, Moved, PeerW, Conserves, WriterOk, Ledger, MailOk, InboxOk, Sound;
    var p := s.peers[i];
    MovePeer(g, s.info, p, mv);
    forall c: nat | 0 <= c < g.Chunks() ensures Conserves(g, PeerW(g, p, c), PeerW(g, Moved(g, p, mv), c), c) {
      MoveConserves(g, s.info, p, mv, c);
    }
    PeerStep(g, s, i, Moved(g, p, mv));
  }

  lemma MoveConserves(g: Shape, info: bool, p: Peer, mv: Move, c: nat)
    requires Exact(g) && g.Cpp() > 0 && PeerInv(g, info, p) && CanMove(g, p, mv) && Replies(g, p, mv)
    ensures Conserves(g, PeerW(g, p, c), PeerW(g, Moved(g, p, mv), c), c)
  {
    hide CanMove, Replies, Moved, PeerW, Sound, Conserves;
    BlankInbox(g, info, p);
    MoveW(g, p, mv, c);
  }

  lemma TellKeeps(g: Shape, s: State, i: nat, e: PeerEvent)
    requires Exact(g) && g.Cpp() > 0 && Inv(g, s) && Enabled(g, s, Tell(i, e))
    ensures Inv(g, Next(g, s, Tell(i, e)))
  {
    hide PeerInv, MailW, WriterOk, Ledger, MailOk, Shape.PieceLength, RangeOk, PeersW, WritersW, BoxW;
    var p := s.peers[i];
    var q := p.(inbox := p.inbox + [e]);
    ToldPeer(g, s.info, p, e);
    forall c: nat | 0 <= c < g.Chunks() ensures Conserves(g, PeerW(g, p, c), PeerW(g, q, c), c) { BoxSnoc(p.inbox, e, c); }
    PeerStep(g, s, i, q);
  }

  lemma ToldPeer(g: Shape, info: bool, p: Peer, e: PeerEvent)
    requires info && PeerInv(g, info, p) && (e.PeerRequest? ==> ChunksOk(g, e.chunks))
    ensures PeerInv(g, info, p.(inbox := p.inbox + [e]))
  {
    hide ChunksOk, MailOk, Shape.Chunks;
    forall f | f in p.inbox + [e] && f.PeerRequest? ensures ChunksOk(g, f.chunks) { assert f in p.inbox || f == e; }
  }

  lemma DeliverKeeps(g: Shape, s: State, i: nat)
    requires Exact(g) && g.Cpp() > 0 && Inv(g, s) && Enabled(g, s, Deliver(i))
    ensures Inv(g, Next(g, s, Deliver(i)))
  {
    hide WriterOk, EventOk, MailW, PeersW, WritersW, BoxW, EventW, Shape.Chunks, Sound, ChunksOk;
    var p := s.peers[i];
    var e := p.out[0];
    var q := p.(out := p.out[1..]);
    var t := Next(g, s, Deliver(i));
    DeliveredPeer(g, s.info, p);
    assert forall f :: f in t.mail ==> f in s.mail || f == e;
    if s.info {
      forall c | 0 <= c < g.Chunks() ensures Conserves(g, t.inFlight[c], Held(g, t, c), c) {
        PeersUpdate(g, s.peers, i, q, c);
        MailSnoc(g, s.mail, e, c);
        MailHead(g, p.out, c);
        assert PeerW(g, p, c) == PeerW(g, q, c) + EventW(g, e, c);
        assert Conserves(g, s.inFlight[c], Held(g, s, c), c);
      }
    }
  }

  lemma DeliveredPeer(g: Shape, info: bool, p: Peer)
    requires PeerInv(g, info, p) && p.out != []
    ensures PeerInv(g, info, p.(out := p.out[1..])) && EventOk(g, p.out[0])
    ensures !info ==> Silent([p.out[0]])
  {
    hide EventOk, ChunksOk, Shape.Chunks;
    assert forall f :: f in p.out[1..] ==> f in p.out;
  }

  // -------------------------------------------------------------- the torrent's events

  /** What handling the first event does to one counter. */
  lemma HandledCounter(g: Shape, s: State, c: nat)
    requires s.mail != [] && EventOk(g, s.mail[0]) && |s.inFlight| == g.Chunks() && c < g.Chunks()
    ensures |Handled(g, s).inFlight| == g.Chunks()
    ensures Handled(g, s).inFlight[c] == if EventW(g, s.mail[0], c) == 1 then Note8(s.inFlight[c], false) else s.inFlight[c]
  {
    hide Shape.Chunks, NoteBitmap, NoteAvailable, Shape.Cpp;
  }

  /** The counter an event is about to decrement is never zero. */
  lemma NoUnderflow(g: Shape, s: State, c: nat)
    requires g.pieceSize > 0 && Inv(g, s) && s.info && s.mail != [] && c < g.Chunks()
    ensures EventW(g, s.mail[0], c) <= s.inFlight[c]
  {
    hide PeerInv, WriterOk, EventW, PeersW, WritersW, MailOk;
    MailHead(g, s.mail, c);
    assert Conserves(g, s.inFlight[c], Held(g, s, c), c);
  }

  lemma HandleMailKeeps(g: Shape, s: State)
    requires Exact(g) && g.Cpp() > 0 && Inv(g, s) && Enabled(g, s, HandleMail)
    ensures Inv(g, Next(g, s, HandleMail))
  {
    hide PeerInv, WriterOk, EventW, PeersW, WritersW, MailW, EventOk, Shape.Chunks, NoteBitmap, NoteAvailable, Landed, Learn;
    var t := Handled(g, s);
    assert s.mail[0] in s.mail;
    assert forall f :: f in t.mail ==> f in s.mail;
    if s.info {
      forall c | 0 <= c < g.Chunks() ensures |t.inFlight| == g.Chunks() && Conserves(g, t.inFlight[c], Held(g, t, c), c) {
        HandledCounter(g, s, c);
        NoUnderflow(g, s, c);
        MailHead(g, s.mail, c);
        EventWeight(g, s.mail[0], c);
      }
      if g.Chunks() == 0 { HandledLength(g, s); }
    }
  }

  lemma HandledLength(g: Shape, s: State)
    requires s.mail != [] && |s.inFlight| == g.Chunks()
    ensures |Handled(g, s).inFlight| == g.Chunks()
  {
    hide Shape.Chunks, NoteBitmap, NoteAvailable;
  }

  lemma EventWeight(g: Shape, e: TorEvent, c: nat)
    ensures EventW(g, e, c) <= 1
  {
  }

  // ------------------------------------------------------------------- new requests

  /** A counter takes up one for each occurrence of its chunk, until it sticks at 255. */
  lemma {:induction false} NoteListCount(a: seq<nat>, cs: seq<nat>, c: nat)
    requires forall i :: 0 <= i < |cs| ==> cs[i] < |a|
    requires c < |a| && a[c] <= 255
    ensures NoteList(a, cs)[c] == if a[c] + multiset(cs)[c] <= 255 then a[c] + multiset(cs)[c] else 255
    decreases |cs|
  {
    if cs == [] {
    } else {
      var n := |cs| - 1;
      assert cs == cs[..n] + [cs[n]];
      NoteListCount(a, cs[..n], c);
    }
  }

  /** A request keeps a counter exact if and only if the counter does not saturate. */
  lemma RequestExactIff(g: Shape, s: State, i: nat, chunks: seq<nat>, c: nat)
    requires Exact(g) && g.Cpp() > 0 && Inv(g, s) && Enabled(g, s, Request(i, chunks)) && c < g.Chunks()
    requires s.inFlight[c] == Held(g, s, c) <= 255
    ensures var t := Next(g, s, Request(i, chunks));
            t.inFlight[c] == Held(g, t, c) <==> s.inFlight[c] + multiset(chunks)[c] <= 255
  {
    hide PeerInv, WriterOk, PeersW, WritersW, MailW, BoxW, MailOk, Shape.Chunks, NoteList;
    var p := s.peers[i];
    PeersUpdate(g, s.peers, i, p.(inbox := p.inbox + [PeerRequest(chunks)]), c);
    BoxSnoc(p.inbox, PeerRequest(chunks), c);
    NoteListCount(s.inFlight, chunks, c);
  }

  lemma RequestKeeps(g: Shape, s: State, i: nat, chunks: seq<nat>)
    requires Exact(g) && g.Cpp() > 0 && Inv(g, s) && Enabled(g, s, Request(i, chunks)) && Unsaturated(g, s, Request(i, chunks))
    ensures Inv(g, Next(g, s, Request(i, chunks)))
  {
    hide PeerInv, WriterOk, PeersW, WritersW, MailW, BoxW, MailOk, Shape.Chunks, NoteList;
    var p := s.peers[i];
    var e := PeerRequest(chunks);
    var q := p.(inbox := p.inbox + [e]);
    var t := Next(g, s, Request(i, chunks));
    ToldPeer(g, s.info, p, e);
    forall c | 0 <= c < g.Chunks() ensures Conserves(g, t.inFlight[c], Held(g, t, c), c) {
      PeersUpdate(g, s.peers, i, q, c);
      BoxSnoc(p.inbox, e, c);
      NoteListCount(s.inFlight, chunks, c);
    }
  }

  lemma AddPeerKeeps(g: Shape, s: State, canFast: bool)
    requires Exact(g) && g.Cpp() > 0 && Inv(g, s)
    ensures Inv(g, Next(g, s, AddPeer(canFast)))
  {
    hide WriterOk, PeersW, WritersW, EventOk, ChunksOk, Shape.Chunks;
    var p := Peer(|s.peers|, Running, s.info, canFast, false, None, {}, {}, [], []);
    var t := Next(g, s, AddPeer(canFast));
    assert PeerInv(g, s.info, p);
    if s.info {
      forall c | 0 <= c < g.Chunks() ensures Conserves(g, t.inFlight[c], Held(g, t, c), c) { PeersSnoc(g, s.peers, p, c); }
    }
  }

  lemma {:induction false} SilentW(g: Shape, es: seq<TorEvent>, c: nat)
    requires Silent(es)
    ensures MailW(g, es, c) == 0
  {
    if es != [] { SilentW(g, es[..|es| - 1], c); }
  }

  lemma {:induction false} BlankPeersW(g: Shape, ps: seq<Peer>, qs: seq<Peer>, c: nat)
    requires |qs| == |ps| && forall i :: 0 <= i < |ps| ==> Blank(ps[i]) && qs[i] == Told(ps[i])
    ensures PeersW(g, qs, c) == 0
    decreases |ps|
  {
    if ps != [] {
      var n := |ps| - 1;
      BlankPeersW(g, ps[..n], qs[..n], c);
      SilentW(g, ps[n].out, c);
      BoxSnoc([], PeerMetadataComplete, c);
      assert qs[n].inbox == [] + [PeerMetadataComplete];
    }
  }

  lemma MetadataKeeps(g: Shape, s: State)
    requires Exact(g) && g.Cpp() > 0 && Inv(g, s) && !s.info
    ensures Inv(g, Next(g, s, MetadataDone))
  {
    hide PeersW, EventOk, ChunksOk, MailW, BoxW, WriterOk;
    var t := Next(g, s, MetadataDone);
    forall i | 0 <= i < |t.peers| ensures PeerInv(g, true, t.peers[i]) {
      assert t.peers[i] == Told(s.peers[i]);
      assert PeerInv(g, false, s.peers[i]);
      ToldBlank(g, s.peers[i]);
    }
    forall c | 0 <= c < g.Chunks() ensures Conserves(g, t.inFlight[c], Held(g, t, c), c) {
      forall i | 0 <= i < |s.peers| ensures Blank(s.peers[i]) { assert PeerInv(g, false, s.peers[i]); }
      BlankPeersW(g, s.peers, t.peers, c);
      SilentW(g, s.mail, c);
      assert Held(g, t, c) == 0;
    }
  }

  lemma ToldBlank(g: Shape, p: Peer)
    requires PeerInv(g, false, p)
    ensures PeerInv(g, true, Told(p))
  {
    hide EventOk, ChunksOk, Shape.Chunks;
    assert forall e :: e in Told(p).inbox ==> e == PeerMetadataComplete;
    assert Told(p).inbox[0] == PeerMetadataComplete;
  }

  // ---------------------------------------------------------------------- webseeds

  lemma WebseedKeeps(g: Shape, s: State, index: nat, offset: nat, length: nat)
    requires Exact(g) && g.Cpp() > 0 && Inv(g, s)
    requires Enabled(g, s, StartWebseed(index, offset, length)) && Unsaturated(g, s, StartWebseed(index, offset, length))
    ensures Inv(g, Next(g, s, StartWebseed(index, offset, length)))
  {
    RangeInTorrent(g, index, offset, length);
    hide PeerInv, PeersW, WritersW, MailW, MailOk, Shape.Chunks, RangeOk, Shape.Cpp, Touched;
    var w := Writer(index, offset, length);
    var t := Next(g, s, StartWebseed(index, offset, length));
    assert WriterOk(g, w);
    forall c | 0 <= c < g.Chunks() ensures Conserves(g, t.inFlight[c], Held(g, t, c), c) {
      WritersSnoc(g, s.writers, w, c);
    }
  }

  lemma EndChunk(base: nat, offset: nat, n: nat, length: nat)
    requires offset % CHUNK == 0 && base * CHUNK + offset + n == length
    ensures base + offset / CHUNK + n / CHUNK == length / CHUNK
  {
  }

  /** Starting a webseed keeps a counter exact if and only if a counter it increments is not at
      its limit. */
  lemma WebseedExactIff(g: Shape, s: State, index: nat, offset: nat, length: nat, c: nat)
    requires Exact(g) && g.Cpp() > 0 && Inv(g, s) && Enabled(g, s, StartWebseed(index, offset, length)) && c < g.Chunks()
    requires s.inFlight[c] == Held(g, s, c) <= 255
    ensures var t := Next(g, s, StartWebseed(index, offset, length));
            t.inFlight[c] == Held(g, t, c) <==> (InRange(g, index, offset, length, c) ==> s.inFlight[c] < 255)
  {
    RangeInTorrent(g, index, offset, length);
    hide PeerInv, PeersW, WritersW, MailW, MailOk, Shape.Chunks, RangeOk, Shape.Cpp, Touched;
    WritersSnoc(g, s.writers, Writer(index, offset, length), c);
  }

  /** The chunk where a range stops short is the torrent's last one. */
  lemma StopsShort(g: Shape, index: nat, offset: nat, n: nat)
    requires g.Valid() && n > 0 && offset % CHUNK == 0 && n % CHUNK != 0 && offset + n == g.PieceLength(index)
    ensures index * g.Cpp() + offset / CHUNK + n / CHUNK == g.length / CHUNK
  {
    hide Shape.PieceLength, Shape.Cpp, Shape.Chunks;
    ShapeCpp(g);
    ShortPiece(g, index);
    var base := index * g.Cpp();
    MulAssoc(index, g.Cpp(), CHUNK);
    assert base * CHUNK + offset + n == g.length;
    EndChunk(base, offset, n, g.length);
  }

  lemma ShortPiece(g: Shape, index: nat)
    requires g.Valid() && g.PieceLength(index) % CHUNK != 0
    ensures index * g.pieceSize + g.PieceLength(index) == g.length
  {
    FewPieces(g);
    Euclid(g.length, g.pieceSize);
    ShortIsLast(g.pieceSize, g.length / g.pieceSize, g.length % g.pieceSize, index);
    hide PieceLengthOf;
  }

  lemma ShortIsLast(m: nat, q: nat, r: nat, index: nat)
    requires r < m < U32 && m % CHUNK == 0 && q < U32 && PieceLengthOf(m, q, r, index) % CHUNK != 0
    ensures index == q && PieceLengthOf(m, q, r, index) == r
  {
  }

  lemma TouchedSplit(offset: nat, n: nat, count: nat)
    requires offset % CHUNK == 0 && 0 < n <= count && (n % CHUNK == 0 || n == count)
    ensures n % CHUNK == 0 ==> (offset + n) / CHUNK == offset / CHUNK + n / CHUNK && Touched(count) == n / CHUNK + Touched(count - n)
    ensures n % CHUNK == 0 ==> (offset + n) % CHUNK == 0
    ensures n % CHUNK != 0 ==> Touched(count) == n / CHUNK + 1
    ensures Touched(0) == 0
  {
  }

  /** What an event that is aligned and stays in its piece releases. */
  lemma ReleaseW(g: Shape, index: nat, offset: nat, n: nat, c: nat)
    requires g.Valid() && offset % CHUNK == 0 && n > 0 && offset + n <= g.PieceLength(index)
    ensures RangeFits(g, index, offset, n)
    ensures var first := index * g.Cpp() + offset / CHUNK; Covers(g, index, offset, n, c) <==> first <= c < first + n / CHUNK
  {
    RangeInTorrent(g, index, offset, n);
    PieceEnd(g, index);
    hide Shape.PieceLength, Shape.Cpp, Shape.Chunks;
  }

  /** Writing n bytes hands their chunks from the writer over to the TorData event. */
  lemma WroteW(g: Shape, w: Writer, n: nat, c: nat)
    requires g.Valid() && w.count > 0 && RangeOk(g, w.index, w.offset, w.count)
    requires 0 < n <= w.count && AddDataAnswer(g, w.index, w.offset, w.count, n)
    ensures WriterOk(g, w.(offset := w.offset + n, count := w.count - n)) && EventOk(g, TorData(w.index, w.offset, n))
    ensures Conserves(g, WriterW(g, w, c),
              WriterW(g, w.(offset := w.offset + n, count := w.count - n), c) + EventW(g, TorData(w.index, w.offset, n), c), c)
  {
    hide Shape.PieceLength, Shape.Cpp, Shape.Chunks, Touched, Covers, RangeFits;
    ReleaseW(g, w.index, w.offset, n, c);
    if n % CHUNK != 0 { StopsShort(g, w.index, w.offset, n); }
    TouchedSplit(w.offset, n, w.count);
  }

  /** Closing a writer hands all it has left over to the TorDrop event. */
  lemma ClosedW(g: Shape, w: Writer, c: nat)
    requires g.Valid() && w.count > 0 && RangeOk(g, w.index, w.offset, w.count)
    ensures EventOk(g, TorDrop(w.index, w.offset, w.count))
    ensures Conserves(g, WriterW(g, w, c), EventW(g, TorDrop(w.index, w.offset, w.count), c), c)
  {
    hide Shape.PieceLength, Shape.Cpp, Shape.Chunks, Touched, Covers, RangeFits;
    ReleaseW(g, w.index, w.offset, w.count, c);
    if w.count % CHUNK != 0 { StopsShort(g, w.index, w.offset, w.count); }
    TouchedSplit(w.offset, w.count, w.count);
  }

  lemma WroteKeeps(g: Shape, s: State, k: nat, n: nat)
    requires Exact(g) && g.Cpp() > 0 && Inv(g, s) && Enabled(g, s, WriterWrote(k, n))
    ensures Inv(g, Next(g, s, WriterWrote(k, n)))
  {
    hide PeerInv, PeersW, WritersW, WriterW, MailW, EventW, EventOk, Shape.Chunks, AddDataAnswer, RangeOk;
    var w := s.writers[k];
    var v := w.(offset := w.offset + n, count := w.count - n);
    var e := TorData(w.index, w.offset, n);
    var t := Next(g, s, WriterWrote(k, n));
    WroteW(g, w, n, 0);
    assert forall f :: f in t.mail ==> f in s.mail || f == e;
    forall c | 0 <= c < g.Chunks() ensures Conserves(g, t.inFlight[c], Held(g, t, c), c) {
      WroteW(g, w, n, c);
      WritersUpdate(g, s.writers, k, v, c);
      MailSnoc(g, s.mail, e, c);
      assert Conserves(g, s.inFlight[c], Held(g, s, c), c);
    }
  }

  lemma WriterCloseKeeps(g: Shape, s: State, k: nat)
    requires Exact(g) && g.Cpp() > 0 && Inv(g, s) && Enabled(g, s, WriterClose(k))
    ensures Inv(g, Next(g, s, WriterClose(k)))
  {
    hide PeerInv, PeersW, WritersW, MailW, EventW, EventOk, Shape.Chunks, RangeOk, Shape.Cpp;
    var w := s.writers[k];
    var e := TorDrop(w.index, w.offset, w.count);
    var t := Next(g, s, WriterClose(k));
    if w.count > 0 { ClosedW(g, w, 0); }
    assert forall f :: f in t.mail ==> f in s.mail || (w.count > 0 && f == e);
    forall c | 0 <= c < g.Chunks() ensures Conserves(g, t.inFlight[c], Held(g, t, c), c) {
      WritersRemove(g, s.writers, k, c);
      assert Conserves(g, s.inFlight[c], Held(g, s, c), c);
      if w.count > 0 {
        ClosedW(g, w, c);
        MailSnoc(g, s.mail, e, c);
      }
    }
  }

  // --------------------------------------------------------------------- whole runs

  lemma StepKeeps(g: Shape, s: State, a: Action)
    requires Exact(g) && g.Cpp() > 0 && Inv(g, s) && Enabled(g, s, a) && Orderly(g, s, a)
    ensures Inv(g, Next(g, s, a))
  {
    hide Inv, Next, Unsaturated, Enabled, Replies;
    match a
    case PeerMove(p, mv) =>
      PeerExists(g, s, p, mv);
      PeerMoveKeeps(g, s, p, mv);
    case Deliver(p) => DeliverKeeps(g, s, p);
    case HandleMail => HandleMailKeeps(g, s);
    case Request(p, chunks) => RequestKeeps(g, s, p, chunks);
    case Tell(p, e) => TellKeeps(g, s, p, e);
    case MetadataDone => MetadataEnabled(g, s); MetadataKeeps(g, s);
    case AddPeer(f) => AddPeerKeeps(g, s, f);
    case StartWebseed(i, o, l) => WebseedKeeps(g, s, i, o, l);
    case WriterWrote(w, n) => WroteKeeps(g, s, w, n);
    case WriterClose(w) => WriterCloseKeeps(g, s, w);
  }

  lemma PeerExists(g: Shape, s: State, p: nat, mv: Move)
    requires g.pieceSize > 0 && g.Cpp() > 0 && Enabled(g, s, PeerMove(p, mv))
    ensures p < |s.peers|
  {
  }

  lemma MetadataEnabled(g: Shape, s: State)
    requires g.pieceSize > 0 && g.Cpp() > 0 && Enabled(g, s, MetadataDone)
    ensures !s.info
  {
  }

  /** Every step was possible and orderly. */
  ghost predicate Run(g: Shape, run: seq<Action>)
    requires g.pieceSize > 0 && g.Cpp() > 0
  {
    run == [] ||
    (var s := After(g, run[..|run| - 1]);
     Run(g, run[..|run| - 1]) && Enabled(g, s, run[|run| - 1]) && Orderly(g, s, run[|run| - 1]))
  }

  lemma {:induction false} RunKeeps(g: Shape, run: seq<Action>)
    requires Exact(g) && g.Cpp() > 0 && Run(g, run)
    ensures Inv(g, After(g, run))
    decreases |run|
  {
    hide Enabled, Orderly, Next;
    if run != [] {
      RunKeeps(g, run[..|run| - 1]);
      StepKeeps(g, After(g, run[..|run| - 1]), run[|run| - 1]);
    }
  }

  /** The ledger: in every run the counter of a full-size chunk is the number of requests for it
      held anywhere, and the counter of any chunk an event is about to release is positive. */
  lemma InFlightLedger(g: Shape, run: seq<Action>, c: nat)
    requires Exact(g) && g.Cpp() > 0 && Run(g, run) && After(g, run).info && c < g.Chunks()
    ensures var s := After(g, run);
            && |s.inFlight| == g.Chunks()
            && Held(g, s, c) <= s.inFlight[c]
            && (Full(g, c) ==> s.inFlight[c] == Held(g, s, c))
            && (s.mail != [] ==> EventW(g, s.mail[0], c) <= s.inFlight[c])
  {
    RunKeeps(g, run);
    var s := After(g, run);
    hide After, Run;
    assert Conserves(g, s.inFlight[c], Held(g, s, c), c);
    if s.mail != [] { NoUnderflow(g, s, c); }
  }
}
