/** The in-flight ledger.

For every chunk the torrent counts how many requests are under way.  Those requests live
elsewhere: in the torrent's messages to its peers, in the peers' request queues, in webseed
writers, and in the events that come back.  `Held` adds up all these places; the theorem is
that in every run the torrent's counter agrees with it. */
module InFlight {
  import opened Arith
  import opened Geometry
  import opened Swarm
  import opened Options

  /** Chunks of full size; only the last chunk of a torrent can be shorter. */
  predicate Full(g: Shape, c: nat) { c < g.length / CHUNK }

  /** A torrent whose chunk numbers survive 32-bit arithmetic. */
  ghost predicate Exact(g: Shape)
  {
    g.Valid() && forall c :: 0 <= c < g.Chunks() ==> g.Cpp() > 0 && BeginExact(g, c)
  }

  /** Torrents of at most 4 GiB, and those whose piece size is a power of two, are such. */
  lemma ExactTorrents(g: Shape)
    requires g.Valid() && (g.Chunks() <= 0x4_0000 || PowerOfTwo(g.pieceSize))
    ensures Exact(g)
  {
    ShapeCpp(g);
    forall c | 0 <= c < g.Chunks() ensures g.Cpp() > 0 && BeginExact(g, c) {
      if g.Chunks() <= 0x4_0000 {
        SmallTorrentExact(g, c);
      } else {
        PowerOfTwoPieces(g, c);
      }
    }
  }

  // ---------------------------------------------------------------------- weights

  /** How many times handling an event decrements the counter of c. */
  ghost function EventW(g: Shape, e: TorEvent, c: nat): nat
  {
    match e
    case TorData(i, b, l) => One(Covers(g, i, b, l, c))
    case TorDrop(i, b, l) => One(Covers(g, i, b, l, c))
    case _ => 0
  }

  ghost function MailW(g: Shape, es: seq<TorEvent>, c: nat): nat
  {
    if es == [] then 0 else MailW(g, es[..|es| - 1], c) + EventW(g, es[|es| - 1], c)
  }

  ghost function BoxW(es: seq<PeerEvent>, c: nat): nat
  {
    if es == [] then 0 else BoxW(es[..|es| - 1], c) + AskW(es[|es| - 1], c)
  }

  ghost function AskW(e: PeerEvent, c: nat): nat { if e.PeerRequest? then multiset(e.chunks)[c] else 0 }

  /** All the places on a peer's side where a request for c can be. */
  ghost function PeerW(g: Shape, p: Peer, c: nat): nat
  {
    BoxW(p.inbox, c) + HeldW(p, c) + MailW(g, p.out, c)
  }

  ghost function HeldW(p: Peer, c: nat): nat { One(c in p.queue) + One(c in p.sent) }

  ghost function PeersW(g: Shape, ps: seq<Peer>, c: nat): nat
  {
    if ps == [] then 0 else PeersW(g, ps[..|ps| - 1], c) + PeerW(g, ps[|ps| - 1], c)
  }

  ghost function WriterW(g: Shape, w: Writer, c: nat): nat
  {
    var first := w.index * g.Cpp() + w.offset / CHUNK;
    One(first <= c < first + Touched(w.count))
  }

  ghost function WritersW(g: Shape, ws: seq<Writer>, c: nat): nat
  {
    if ws == [] then 0 else WritersW(g, ws[..|ws| - 1], c) + WriterW(g, ws[|ws| - 1], c)
  }

  ghost function Held(g: Shape, s: State, c: nat): nat
  {
    PeersW(g, s.peers, c) + MailW(g, s.mail, c) + WritersW(g, s.writers, c)
  }

  // ------------------------------------------------------------------ sums of weights

  lemma MailSnoc(g: Shape, es: seq<TorEvent>, e: TorEvent, c: nat)
    ensures MailW(g, es + [e], c) == MailW(g, es, c) + EventW(g, e, c)
  {
    assert (es + [e])[..|es|] == es;
  }

  lemma {:induction false} MailHead(g: Shape, es: seq<TorEvent>, c: nat)
    requires es != []
    ensures MailW(g, es, c) == EventW(g, es[0], c) + MailW(g, es[1..], c)
    decreases |es|
  {
    var n := |es| - 1;
    if n > 0 {
      MailHead(g, es[..n], c);
      assert es[..n][1..] == es[1..][..n - 1];
    } else {
      assert es[..0] == [];
    }
  }

  lemma BoxSnoc(es: seq<PeerEvent>, e: PeerEvent, c: nat)
    ensures BoxW(es + [e], c) == BoxW(es, c) + AskW(e, c)
  {
    assert (es + [e])[..|es|] == es;
  }

  lemma {:induction false} BoxHead(es: seq<PeerEvent>, c: nat)
    requires es != []
    ensures BoxW(es, c) == AskW(es[0], c) + BoxW(es[1..], c)
    decreases |es|
  {
    var n := |es| - 1;
    if n > 0 {
      BoxHead(es[..n], c);
      assert es[..n][1..] == es[1..][..n - 1];
    } else {
      assert es[..0] == [];
    }
  }

  lemma {:induction false} PeersUpdate(g: Shape, ps: seq<Peer>, i: nat, p: Peer, c: nat)
    requires i < |ps|
    ensures PeersW(g, ps[i := p], c) + PeerW(g, ps[i], c) == PeersW(g, ps, c) + PeerW(g, p, c)
    decreases |ps|
  {
    var n := |ps| - 1;
    if i == n {
      assert ps[i := p][..n] == ps[..n];
    } else {
      PeersUpdate(g, ps[..n], i, p, c);
      assert ps[i := p][..n] == ps[..n][i := p];
    }
  }

  lemma PeersSnoc(g: Shape, ps: seq<Peer>, p: Peer, c: nat)
    ensures PeersW(g, ps + [p], c) == PeersW(g, ps, c) + PeerW(g, p, c)
  {
    assert (ps + [p])[..|ps|] == ps;
  }

  lemma {:induction false} WritersUpdate(g: Shape, ws: seq<Writer>, i: nat, w: Writer, c: nat)
    requires i < |ws|
    ensures WritersW(g, ws[i := w], c) + WriterW(g, ws[i], c) == WritersW(g, ws, c) + WriterW(g, w, c)
    decreases |ws|
  {
    var n := |ws| - 1;
    if i == n {
      assert ws[i := w][..n] == ws[..n];
    } else {
      WritersUpdate(g, ws[..n], i, w, c);
      assert ws[i := w][..n] == ws[..n][i := w];
    }
  }

  lemma WritersSnoc(g: Shape, ws: seq<Writer>, w: Writer, c: nat)
    ensures WritersW(g, ws + [w], c) == WritersW(g, ws, c) + WriterW(g, w, c)
  {
    assert (ws + [w])[..|ws|] == ws;
  }

  lemma {:induction false} WritersRemove(g: Shape, ws: seq<Writer>, i: nat, c: nat)
    requires i < |ws|
    ensures WritersW(g, ws[..i] + ws[i + 1..], c) + WriterW(g, ws[i], c) == WritersW(g, ws, c)
    decreases |ws|
  {
    var n := |ws| - 1;
    if i == n {
      assert ws[..i] + ws[i + 1..] == ws[..n];
    } else {
      WritersRemove(g, ws[..n], i, c);
      assert (ws[..i] + ws[i + 1..])[..n - 1] == ws[..n][..i] + ws[..n][i + 1..];
      assert (ws[..i] + ws[i + 1..])[n - 1] == ws[n];
    }
  }

  // ---------------------------------------------------------------------- dropping

  ghost predicate EventOk(g: Shape, e: TorEvent)
  {
    match e
    case TorData(i, b, l) => RangeFits(g, i, b, l)
    case TorDrop(i, b, l) => RangeFits(g, i, b, l)
    case _ => true
  }

  /** Whatever the handler decrements lies in the torrent. */
  ghost predicate RangeFits(g: Shape, i: nat, b: nat, l: nat)
  {
    b % CHUNK == 0 && b + l <= g.pieceSize && l >= CHUNK ==> i * g.Cpp() + b / CHUNK + l / CHUNK <= g.Chunks()
  }

  ghost predicate MailOk(g: Shape, es: seq<TorEvent>) { forall e :: e in es ==> EventOk(g, e) }

  /** The TorDrop for chunk c is well-formed and releases exactly c. */
  lemma DropEvent(g: Shape, c: nat, x: nat)
    requires Exact(g) && c < g.Chunks()
    ensures g.Cpp() > 0
    ensures var (i, b) := g.FromChunk(c);
            EventOk(g, TorDrop(i, b, CHUNK)) && EventW(g, TorDrop(i, b, CHUNK), x) == One(x == c)
  {
    ShapeCpp(g);
    FromChunkExact(g, c);
    var n := g.Cpp();
    Euclid(c, n);
    MulLe(c % n + 1, n, CHUNK);
    Distribute(c % n, 1, CHUNK);
  }

  lemma DropW(g: Shape, p: Peer, c: nat, x: nat)
    requires Exact(g) && c < g.Chunks() && g.Cpp() > 0
    ensures PeerW(g, Drop(g, p, c), x) == PeerW(g, p, x) + One(x == c)
    ensures MailOk(g, p.out) ==> MailOk(g, Drop(g, p, c).out)
  {
    hide Shape.FromChunk, Shape.ToChunk, Shape.Pieces, Shape.PieceLength, Covers;
    DropEvent(g, c, x);
    var (i, b) := g.FromChunk(c);
    MailSnoc(g, p.out, TorDrop(i, b, CHUNK), x);
  }

  ghost predicate ChunksOk(g: Shape, cs: seq<nat>) { forall i :: 0 <= i < |cs| ==> cs[i] < g.Chunks() }

  lemma {:induction false} DropAllW(g: Shape, p: Peer, cs: seq<nat>, x: nat)
    requires Exact(g) && g.Cpp() > 0 && ChunksOk(g, cs)
    ensures PeerW(g, DropAll(g, p, cs), x) == PeerW(g, p, x) + multiset(cs)[x]
    ensures MailOk(g, p.out) ==> MailOk(g, DropAll(g, p, cs).out)
    ensures DropAll(g, p, cs) == p.(out := DropAll(g, p, cs).out)
    decreases |cs|
  {
    hide Shape.FromChunk, Shape.ToChunk, Shape.Pieces, Shape.PieceLength, Covers;
    if cs != [] {
      var n := |cs| - 1;
      DropAllW(g, p, cs[..n], x);
      DropW(g, DropAll(g, p, cs[..n]), cs[n], x);
      assert cs == cs[..n] + [cs[n]];
    }
  }

  // ------------------------------------------------------------- what a peer conserves

  /** A peer's requests are valid chunks, held once, and its events are well-formed. */
  ghost predicate Sound(g: Shape, p: Peer)
  {
    && p.queue !! p.sent
    && (forall c :: c in p.queue ==> c < g.Chunks())
    && (forall c :: c in p.sent ==> c < g.Chunks())
    && MailOk(g, p.out)
  }

  /** Only requests and outgoing events differ. */
  ghost predicate SameSide(p: Peer, q: Peer)
  {
    q == p.(queue := q.queue, sent := q.sent, out := q.out)
  }

  lemma AcceptW(g: Shape, p: Peer, c: nat, x: nat)
    requires Exact(g) && g.Cpp() > 0 && Sound(g, p) && c < g.Chunks()
    ensures Sound(g, Accept(g, p, c)) && SameSide(p, Accept(g, p, c))
    ensures PeerW(g, Accept(g, p, c), x) == PeerW(g, p, x) + One(x == c)
  {
    hide Shape.FromChunk, Shape.ToChunk, Shape.Pieces, Shape.PieceLength, Covers;
    DropW(g, p, c, x);
  }

  lemma {:induction false} AcceptAllW(g: Shape, p: Peer, cs: seq<nat>, x: nat)
    requires Exact(g) && g.Cpp() > 0 && Sound(g, p) && ChunksOk(g, cs)
    ensures Sound(g, AcceptAll(g, p, cs)) && SameSide(p, AcceptAll(g, p, cs))
    ensures PeerW(g, AcceptAll(g, p, cs), x) == PeerW(g, p, x) + multiset(cs)[x]
    decreases |cs|
  {
    hide Shape.FromChunk, Shape.ToChunk, Shape.Pieces, Shape.PieceLength, Covers;
    if cs != [] {
      var n := |cs| - 1;
      AcceptAllW(g, p, cs[..n], x);
      AcceptW(g, AcceptAll(g, p, cs[..n]), cs[n], x);
      assert cs == cs[..n] + [cs[n]];
    }
  }

  lemma CancelW(g: Shape, p: Peer, c: nat, x: nat)
    requires Exact(g) && g.Cpp() > 0 && Sound(g, p)
    ensures Sound(g, CancelChunk(g, p, c)) && SameSide(p, CancelChunk(g, p, c))
    ensures PeerW(g, CancelChunk(g, p, c), x) == PeerW(g, p, x)
  {
    hide Shape.FromChunk, Shape.ToChunk, Shape.Pieces, Shape.PieceLength, Shape.Chunks, Shape.Cpp, MailW, BoxW, MailOk, BeginExact;
    if c in p.queue {
      var q := p.(queue := p.queue - {c});
      assert Sound(g, q) && HeldW(p, x) == HeldW(q, x) + One(x == c);
      DropSound(g, q, c, x);
    }
  }

  lemma {:induction false} CancelPieceW(g: Shape, p: Peer, index: nat, n: nat, x: nat)
    requires Exact(g) && g.Cpp() > 0 && Sound(g, p)
    ensures Sound(g, CancelPiece(g, p, index, n)) && SameSide(p, CancelPiece(g, p, index, n))
    ensures PeerW(g, CancelPiece(g, p, index, n), x) == PeerW(g, p, x)
  {
    hide Shape.FromChunk, Shape.ToChunk, Shape.Pieces, Shape.PieceLength, Covers;
    if n > 0 {
      CancelPieceW(g, p, index, n - 1, x);
      CancelW(g, CancelPiece(g, p, index, n - 1), (index * g.Cpp() + (n - 1)) % U32, x);
    }
  }

  lemma ListsBounds(g: Shape, order: seq<nat>, s: set<nat>)
    requires Lists(order, s) && forall c :: c in s ==> c < g.Chunks()
    ensures ChunksOk(g, order) && forall x :: multiset(order)[x] == One(x in s)
  {
    forall i | 0 <= i < |order| ensures order[i] in s { assert order[i] in multiset(order); }
  }

  lemma BlocksFit(i: nat, q: nat, r: nat, m: nat)
    ensures i < q ==> i * m + m <= q * m + r
  {
    if i < q {
      Distribute(i, 1, m);
      MulLe(i + 1, q, m);
    }
  }

  lemma PieceLengthFits(m: nat, q: nat, r: nat, index: nat)
    requires r < m < U32 && q < U32 && PieceLengthOf(m, q, r, index) > 0
    ensures index * m + PieceLengthOf(m, q, r, index) <= q * m + r && PieceLengthOf(m, q, r, index) <= m
  {
    BlocksFit(index, q, r, m);
  }

  lemma PieceEnd(g: Shape, index: nat)
    requires g.Valid() && g.PieceLength(index) > 0
    ensures index * g.pieceSize + g.PieceLength(index) <= g.length && g.PieceLength(index) <= g.pieceSize
  {
    hide PieceLengthOf;
    FewPieces(g);
    Euclid(g.length, g.pieceSize);
    PieceLengthFits(g.pieceSize, g.length / g.pieceSize, g.length % g.pieceSize, index);
  }

  /** Data that fits its piece lies in the torrent, chunk by chunk. */
  lemma RangeInTorrent(g: Shape, index: nat, begin: nat, n: nat)
    requires g.Valid() && begin % CHUNK == 0 && n > 0 && begin + n <= g.PieceLength(index)
    ensures var first := index * g.Cpp() + begin / CHUNK;
            first + n / CHUNK <= g.length / CHUNK && first + Touched(n) <= g.Chunks()
  {
    PieceEnd(g, index);
    ShapeCpp(g);
    MulAssoc(index, g.Cpp(), CHUNK);
    var first := index * g.Cpp() + begin / CHUNK;
    Distribute(index * g.Cpp(), begin / CHUNK, CHUNK);
    assert first * CHUNK + n <= g.length;
  }

  /** toChunk is exact on data that fits its piece. */
  lemma FirstChunk(g: Shape, index: nat, begin: nat, n: nat)
    requires g.Valid() && g.Cpp() > 0 && begin % CHUNK == 0 && n > 0 && begin + n <= g.PieceLength(index)
    ensures g.ToChunk(index, begin) == index * g.Cpp() + begin / CHUNK
  {
    hide Shape.PieceLength, Shape.Cpp;
    RangeInTorrent(g, index, begin, n);
    var base := index * g.Cpp();
    NoOverflow(index, g.Cpp(), base + begin / CHUNK);
  }

  /** The chunks an accepted reply releases: as many as it fills, from the one it answers on. */
  lemma ReplyRange(g: Shape, index: nat, begin: nat, length: nat, x: nat)
    requires g.Valid() && g.Cpp() > 0 && AddDataAnswer(g, index, begin, length, length)
    ensures EventOk(g, TorData(index, begin, length))
    ensures var c := g.ToChunk(index, begin);
            && EventW(g, TorData(index, begin, length), x) == One(c <= x < c + length / CHUNK)
            && (c < g.Chunks() && !Full(g, c) ==> length / CHUNK == 0)
  {
    if length > 0 {
      RangeInTorrent(g, index, begin, length);
      PieceEnd(g, index);
      FirstChunk(g, index, begin, length);
      hide Shape.PieceLength, Shape.ToChunk, Shape.Cpp;
    }
  }

  /** An accepted reply that fills one chunk releases exactly the chunk that was asked for; one
      for the torrent's short last chunk releases nothing. */
  lemma ReplyEvent(g: Shape, index: nat, begin: nat, length: nat, x: nat)
    requires g.Valid() && g.Cpp() > 0 && AddDataAnswer(g, index, begin, length, length)
    requires var c := g.ToChunk(index, begin); c < g.Chunks() && (Full(g, c) ==> length / CHUNK == 1)
    ensures EventOk(g, TorData(index, begin, length))
    ensures var c := g.ToChunk(index, begin);
            EventW(g, TorData(index, begin, length), x) == One(x == c && Full(g, c))
  {
    ReplyRange(g, index, begin, length, x);
    hide EventW, EventOk, Shape.ToChunk, Shape.PieceLength, AddDataAnswer;
  }

  lemma ShortChunk(g: Shape, c: nat)
    requires g.Valid() && c < g.Chunks()
    ensures g.ChunkSize(c) > 0 && (Full(g, c) <==> g.ChunkSize(c) == CHUNK)
  {
    FewPieces(g);
  }

  /** Moving weight: nothing is lost for a full-size chunk, nothing is gained for any chunk. */
  ghost predicate Conserves(g: Shape, before: nat, after: nat, x: nat)
  {
    after <= before && (Full(g, x) ==> after == before)
  }

  lemma DelW(g: Shape, p: Peer, c: nat, x: nat)
    requires Sound(g, p) && (c in p.queue || c in p.sent)
    ensures Sound(g, Del(p, c)) && PeerW(g, p, x) == PeerW(g, Del(p, c), x) + One(x == c)
  {
  }

  lemma AnsweredW(g: Shape, p: Peer, i: nat, b: nat, length: nat, x: nat)
    requires g.Valid() && g.Cpp() > 0 && Sound(g, p) && AddDataAnswer(g, i, b, length, length)
    requires var c := g.ToChunk(i, b); c < g.Chunks() && (Full(g, c) ==> length / CHUNK == 1)
    ensures var q := Emit(p, TorData(i, b, length));
            Sound(g, q) && PeerW(g, q, x) == PeerW(g, p, x) + One(x == g.ToChunk(i, b) && Full(g, x))
  {
    hide *;
    ReplyEvent(g, i, b, length, x);
    EmitW(g, p, TorData(i, b, length), x);
    FullAt(g, g.ToChunk(i, b), x);
  }

  lemma FullAt(g: Shape, c: nat, x: nat)
    ensures One(x == c && Full(g, c)) == One(x == c && Full(g, x))
  {
  }

  lemma EmitW(g: Shape, p: Peer, e: TorEvent, x: nat)
    requires Sound(g, p) && EventOk(g, e)
    ensures Sound(g, Emit(p, e)) && PeerW(g, Emit(p, e), x) == PeerW(g, p, x) + EventW(g, e, x)
  {
    hide EventOk, EventW, MailW, BoxW, Shape.Chunks;
    var q := Emit(p, e);
    MailSnoc(g, p.out, e, x);
    forall f | f in q.out ensures EventOk(g, f) { assert f in p.out || f == e; }
  }

  /** What the ledger asks of a reply: the store answers as AddData does, and if it takes the
      whole of a reply to a request for a full-size chunk, the reply fills that one chunk. */
  ghost predicate Replies(g: Shape, p: Peer, mv: Move)
    requires g.pieceSize > 0 && g.Cpp() > 0
  {
    mv.Receive? && mv.m.Piece? ==> ReplyOk(g, p, mv.m.index, mv.m.begin, mv.m.length, mv.m.accepted)
  }

  ghost predicate ReplyOk(g: Shape, p: Peer, i: nat, b: nat, length: nat, accepted: nat)
    requires g.pieceSize > 0 && g.Cpp() > 0
  {
    && AddDataAnswer(g, i, b, length, accepted)
    && (var c := g.ToChunk(i, b);
        (c in p.queue || c in p.sent) && accepted == length && Full(g, c) ==> length / CHUNK == 1)
  }

  lemma PieceW(g: Shape, p: Peer, i: nat, b: nat, length: nat, accepted: nat, x: nat)
    requires Exact(g) && g.Cpp() > 0 && Sound(g, p) && ReplyOk(g, p, i, b, length, accepted)
    ensures var q := HandleMessage(g, p, Piece(i, b, length, accepted));
            Sound(g, q) && Conserves(g, PeerW(g, p, x), PeerW(g, q, x), x)
  {
    hide Shape.FromChunk, Shape.ToChunk, Shape.Pieces, Shape.PieceLength, Shape.ChunkSize, Drop, Del, Emit, Sound, PeerW;
    var c := g.ToChunk(i, b);
    if p.info && i < g.Pieces() && (c in p.queue || c in p.sent) {
      ChunkBound(g, p, c);
      DelW(g, p, c, x);
      if accepted == length {
        AnsweredW(g, Del(p, c), i, b, length, x);
      } else {
        DropSound(g, Del(p, c), c, x);
      }
    } else {
      CloseW(g, p, x);
    }
  }

  /** The condition on replies is exact: if the store takes the whole of a reply to a held
      request for a full-size chunk, every chunk's requests are conserved if and only if the
      reply fills one chunk. */
  lemma ReplyExactIff(g: Shape, p: Peer, i: nat, b: nat, length: nat)
    requires Exact(g) && g.Cpp() > 0 && Sound(g, p) && p.info && i < g.Pieces() && AddDataAnswer(g, i, b, length, length)
    requires var c := g.ToChunk(i, b); (c in p.queue || c in p.sent) && Full(g, c)
    ensures (forall x: nat :: PeerW(g, HandleMessage(g, p, Piece(i, b, length, length)), x) == PeerW(g, p, x))
            <==> length / CHUNK == 1
  {
    var c, q := g.ToChunk(i, b), HandleMessage(g, p, Piece(i, b, length, length));
    forall x: nat ensures PeerW(g, q, x) + One(x == c) == PeerW(g, p, x) + One(c <= x < c + length / CHUNK) {
      ReplyMoves(g, p, i, b, length, x);
    }
    hide PeerW, HandleMessage, Shape.ToChunk, Sound;
    assert PeerW(g, q, c) + 1 == PeerW(g, p, c) + One(length / CHUNK > 0);
    assert PeerW(g, q, c + 1) == PeerW(g, p, c + 1) + One(length / CHUNK > 1);
  }

  lemma ReplyMoves(g: Shape, p: Peer, i: nat, b: nat, length: nat, x: nat)
    requires Exact(g) && g.Cpp() > 0 && Sound(g, p) && p.info && i < g.Pieces() && AddDataAnswer(g, i, b, length, length)
    requires var c := g.ToChunk(i, b); c in p.queue || c in p.sent
    ensures var c, q := g.ToChunk(i, b), HandleMessage(g, p, Piece(i, b, length, length));
            PeerW(g, q, x) + One(x == c) == PeerW(g, p, x) + One(c <= x < c + length / CHUNK)
  {
    hide Shape.FromChunk, Shape.ToChunk, Shape.Pieces, Shape.PieceLength, Del, Emit, Sound, PeerW, EventW, EventOk;
    var c := g.ToChunk(i, b);
    DelW(g, p, c, x);
    ReplyRange(g, i, b, length, x);
    EmitW(g, Del(p, c), TorData(i, b, length), x);
  }

  lemma ChunkBound(g: Shape, p: Peer, c: nat)
    requires Sound(g, p) && (c in p.queue || c in p.sent)
    ensures c < g.Chunks()
  {
  }

  lemma CloseW(g: Shape, p: Peer, x: nat)
    requires Sound(g, p)
    ensures Sound(g, Close(p)) && PeerW(g, Close(p), x) == PeerW(g, p, x)
  {
  }

  lemma DropSound(g: Shape, p: Peer, c: nat, x: nat)
    requires Exact(g) && c < g.Chunks() && g.Cpp() > 0 && Sound(g, p)
    ensures Sound(g, Drop(g, p, c)) && PeerW(g, Drop(g, p, c), x) == PeerW(g, p, x) + One(x == c)
  {
    hide Shape.FromChunk, Covers;
    DropW(g, p, c, x);
  }

  lemma QuietW(g: Shape, p: Peer, e: TorEvent, x: nat)
    requires !e.TorData? && !e.TorDrop? && Sound(g, p)
    ensures Sound(g, Emit(p, e)) && PeerW(g, Emit(p, e), x) == PeerW(g, p, x)
  {
    EmitW(g, p, e, x);
  }

  lemma BitmapW(g: Shape, p: Peer, s: set<nat>, x: nat)
    requires Sound(g, p)
    ensures Sound(g, ForgetBitmap(p)) && PeerW(g, ForgetBitmap(p), x) == PeerW(g, p, x)
    ensures Sound(g, AnnounceBitmap(p, s)) && PeerW(g, AnnounceBitmap(p, s), x) == PeerW(g, p, x)
  {
    var q := p.(bitmap := Some(s));
    assert Sound(g, q) && PeerW(g, q, x) == PeerW(g, p, x);
    QuietW(g, q, TorPeerBitmap(p.id, s, true), x);
    if p.bitmap.Some? { QuietW(g, p, TorPeerBitmap(p.id, p.bitmap.value, false), x); }
  }

  lemma PieceNoteW(g: Shape, p: Peer, i: nat, s: set<nat>, seed: bool, have: bool, x: nat)
    requires Sound(g, p)
    ensures var q := Emit(p.(isSeed := seed, bitmap := Some(s)), TorPeerHave(p.id, i, have));
            Sound(g, q) && PeerW(g, q, x) == PeerW(g, p, x)
  {
    var q := p.(isSeed := seed, bitmap := Some(s));
    assert Sound(g, q) && PeerW(g, q, x) == PeerW(g, p, x);
    QuietW(g, q, TorPeerHave(p.id, i, have), x);
  }

  /** What the remote end says about its pieces moves no request. */
  lemma BitmapMessageW(g: Shape, p: Peer, m: Message, x: nat)
    requires g.pieceSize > 0 && g.Cpp() > 0 && Sound(g, p) && (m.Have? || m.Bitfield? || m.HaveAll? || m.HaveNone? || m.DontHave?)
    ensures Sound(g, HandleMessage(g, p, m)) && PeerW(g, HandleMessage(g, p, m), x) == PeerW(g, p, x)
  {
    hide Shape.FromChunk, Shape.ToChunk, Shape.Pieces, Emit, AnnounceBitmap, ForgetBitmap, MailW, BoxW;
    if m.Have? {
      PieceNoteW(g, p, m.index, Pieces(p) + {m.index}, p.isSeed, true, x);
    } else if m.DontHave? {
      PieceNoteW(g, p, m.index, Pieces(p) - {m.index}, false, false, x);
    } else {
      BitmapW(g, p, {}, x);
      var q := ForgetBitmap(p);
      if m.Bitfield? { BitmapW(g, q, m.bits, x); }
      if m.HaveAll? { BitmapW(g, q.(isSeed := true), Bitmap.Below(g.Pieces()), x); }
    }
  }

  lemma ChokeW(g: Shape, p: Peer, order: seq<nat>, x: nat)
    requires Exact(g) && g.Cpp() > 0 && Sound(g, p) && Lists(order, Choked(p))
    ensures Sound(g, HandleMessage(g, p, Choke(order))) && PeerW(g, HandleMessage(g, p, Choke(order)), x) == PeerW(g, p, x)
  {
    hide Shape.FromChunk, Shape.ToChunk, Covers;
    var q := p.(queue := {}, sent := if p.canFast then p.sent else {});
    ListsBounds(g, order, Choked(p));
    DropAllW(g, q, order, x);
    assert HeldW(p, x) == HeldW(q, x) + One(x in Choked(p));
  }

  lemma RejectW(g: Shape, p: Peer, i: nat, b: nat, x: nat)
    requires Exact(g) && g.Cpp() > 0 && Sound(g, p)
    ensures Sound(g, HandleMessage(g, p, RejectRequest(i, b))) && PeerW(g, HandleMessage(g, p, RejectRequest(i, b)), x) == PeerW(g, p, x)
  {
    hide Shape.FromChunk, Shape.ToChunk, Covers;
    var c := g.ToChunk(i, b);
    if c in p.sent { DropW(g, p.(sent := p.sent - {c}), c, x); }
  }

  lemma MessageW(g: Shape, p: Peer, m: Message, x: nat)
    requires Exact(g) && g.Cpp() > 0 && Sound(g, p) && CanMove(g, p, Receive(m)) && Replies(g, p, Receive(m))
    ensures Sound(g, HandleMessage(g, p, m))
    ensures Conserves(g, PeerW(g, p, x), PeerW(g, HandleMessage(g, p, m), x), x)
  {
    hide HandleMessage, ReplyOk, Sound, PeerW;
    if m.Choke? {
      ChokeW(g, p, m.order, x);
    } else if m.RejectRequest? {
      RejectW(g, p, m.index, m.begin, x);
    } else if m.Piece? {
      PieceW(g, p, m.index, m.begin, m.length, m.accepted, x);
    } else {
      BitmapMessageW(g, p, m, x);
    }
  }

  lemma EventTakenW(g: Shape, p: Peer, e: PeerEvent, x: nat)
    requires Exact(g) && g.Cpp() > 0 && Sound(g, p) && (e.PeerMetadataComplete? || p.info)
    requires e.PeerRequest? ==> ChunksOk(g, e.chunks)
    ensures Sound(g, HandleEvent(g, p, e)) && PeerW(g, HandleEvent(g, p, e), x) == PeerW(g, p, x) + AskW(e, x)
  {
    hide Shape.FromChunk, Shape.ToChunk, Shape.Pieces, Drop, AcceptAll, CancelChunk, CancelPiece, MailOk, MailW, BoxW, Shape.Chunks;
    match e
    case PeerMetadataComplete =>
      assert Sound(g, p.(info := true));
      BitmapW(g, p.(info := true), Bitmap.Below(g.Pieces()), x);
    case PeerRequest(chunks) => AcceptAllW(g, p, chunks, x);
    case PeerCancel(c) => CancelW(g, p, c, x);
    case PeerCancelPiece(index) => CancelPieceW(g, p, index, g.Cpp(), x);
  }

  lemma ShutdownW(g: Shape, p: Peer, order: seq<nat>, x: nat)
    requires Exact(g) && g.Cpp() > 0 && Sound(g, p) && Lists(order, p.queue + p.sent)
    ensures Sound(g, Shutdown(g, p, order)) && PeerW(g, Shutdown(g, p, order), x) == PeerW(g, p, x)
    ensures HeldW(Shutdown(g, p, order), x) == 0
  {
    hide Shape.FromChunk, Shape.ToChunk, Covers, DropAll, BoxW, MailW, Shape.Chunks;
    var q := p.(phase := Dead, queue := {}, sent := {}, bitmap := None);
    forall c | c in p.queue + p.sent ensures c < g.Chunks() { assert c in p.queue || c in p.sent; }
    ListsBounds(g, order, p.queue + p.sent);
    DropAllW(g, q, order, x);
    var r := DropAll(g, q, order);
    var e := TorPeerBitmap(p.id, Pieces(p), false);
    MailSnoc(g, r.out, e, x);
    MailSnoc(g, r.out + [e], TorPeerGoaway(p.id), x);
    assert HeldW(p, x) == One(x in p.queue + p.sent);
  }

  lemma SendW(g: Shape, p: Peer, c: nat, ok: bool, x: nat)
    requires Exact(g) && g.Cpp() > 0 && Sound(g, p) && c in p.queue
    ensures Sound(g, SendRequest(g, p, c, ok)) && PeerW(g, SendRequest(g, p, c, ok), x) == PeerW(g, p, x)
  {
    hide Shape.FromChunk, Covers;
    var q := p.(queue := p.queue - {c});
    assert Sound(g, q) && HeldW(p, x) == HeldW(q, x) + One(x == c);
    if !ok { DropSound(g, q, c, x); }
  }

  lemma ExpireW(g: Shape, p: Peer, c: nat, x: nat)
    requires Exact(g) && g.Cpp() > 0 && Sound(g, p) && c in p.sent
    ensures var q := Drop(g, p.(sent := p.sent - {c}), c); Sound(g, q) && PeerW(g, q, x) == PeerW(g, p, x)
  {
    hide Shape.FromChunk, Covers;
    var q := p.(sent := p.sent - {c});
    assert Sound(g, q) && HeldW(p, x) == HeldW(q, x) + One(x == c);
    DropSound(g, q, c, x);
  }

  lemma TakeW(g: Shape, p: Peer, x: nat)
    requires Exact(g) && g.Cpp() > 0 && Sound(g, p) && InboxOk(g, p) && p.phase.Running? && p.inbox != []
    ensures var q := HandleEvent(g, p.(inbox := p.inbox[1..]), p.inbox[0]); Sound(g, q) && PeerW(g, q, x) == PeerW(g, p, x)
  {
    hide HandleEvent, Covers;
    BoxHead(p.inbox, x);
    assert p.inbox[0] in p.inbox;
    EventTakenW(g, p.(inbox := p.inbox[1..]), p.inbox[0], x);
  }

  /** Request conservation for one peer: over every move, what was asked of it, what it holds
      and what it has answered add up to the same for each full-size chunk. */
  lemma MoveW(g: Shape, p: Peer, mv: Move, x: nat)
    requires Exact(g) && g.Cpp() > 0 && Sound(g, p) && CanMove(g, p, mv) && Replies(g, p, mv) && InboxOk(g, p)
    ensures Sound(g, Moved(g, p, mv)) && Conserves(g, PeerW(g, p, x), PeerW(g, Moved(g, p, mv), x), x)
    ensures mv.Leave? ==> HeldW(Moved(g, p, mv), x) == 0
  {
    hide HandleMessage, HandleEvent, Shutdown, SendRequest, Drop, Close, InboxOk, Exact, Sound, PeerW, ReplyOk;
    match mv
    case TakeEvent => TakeW(g, p, x);
    case Receive(m) => MessageW(g, p, m, x);
    case Send(c, ok) => SendW(g, p, c, ok, x);
    case Expire(c) => ExpireW(g, p, c, x);
    case Fail => CloseW(g, p, x);
    case Leave(order) => ShutdownW(g, p, order, x);
  }

  /** Requests are valid chunks, and a running peer reads the metadata before any of them. */
  ghost predicate InboxOk(g: Shape, p: Peer)
  {
    && (forall e :: e in p.inbox && e.PeerRequest? ==> ChunksOk(g, e.chunks))
    && (p.phase.Running? && p.inbox != [] ==> p.info || p.inbox[0].PeerMetadataComplete?)
  }
}
