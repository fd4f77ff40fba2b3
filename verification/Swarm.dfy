/** A torrent, its peers and its webseed writers as one system of steps.

The torrent and each peer are actors joined by FIFO queues.  A step is one event or message
handled by one actor, one delivery between queues, or one move of the environment, so that a
run of the system is any interleaving of steps.  The functions here are what the handlers do;
`InFlight` and `Availability` prove what every run keeps. */
module Swarm {
  import opened Geometry
  import opened Bitmap
  import opened Options

  datatype TorEvent =
    | TorData(index: nat, begin: nat, length: nat)
    | TorDrop(index: nat, begin: nat, length: nat)
    | TorPeerBitmap(peer: nat, bitmap: set<nat>, have: bool)
    | TorPeerHave(peer: nat, piece: nat, have: bool)
    | TorPeerGoaway(peer: nat)

  datatype PeerEvent =
    | PeerMetadataComplete
    | PeerRequest(chunks: seq<nat>)
    | PeerCancel(chunk: nat)
    | PeerCancelPiece(index: nat)

  datatype Phase = Running | Closing | Dead

  /** A peer.  `queue` and `sent` are the unsent and sent requests, `bitmap` is None before the
      remote end has told us anything, `out` holds events not yet accepted by the torrent. */
  datatype Peer = Peer(
    id: nat, phase: Phase, info: bool, canFast: bool, isSeed: bool,
    bitmap: Option<set<nat>>, queue: set<nat>, sent: set<nat>,
    inbox: seq<PeerEvent>, out: seq<TorEvent>)

  function Pieces(p: Peer): set<nat> { if p.bitmap.Some? then p.bitmap.value else {} }

  // ---------------------------------------------------------------- peer handlers

  function Emit(p: Peer, e: TorEvent): Peer { p.(out := p.out + [e]) }

  /** Models drop. */
  function Drop(g: Shape, p: Peer, c: nat): Peer
    requires g.pieceSize > 0 && g.Cpp() > 0
  {
    var (i, b) := g.FromChunk(c);
    Emit(p, TorDrop(i, b, CHUNK))
  }

  function DropAll(g: Shape, p: Peer, cs: seq<nat>): Peer
    requires g.pieceSize > 0 && g.Cpp() > 0
  {
    if cs == [] then p else Drop(g, DropAll(g, p, cs[..|cs| - 1]), cs[|cs| - 1])
  }

  /** Dropping changes nothing but the events. */
  lemma {:induction false} DropAllSide(g: Shape, p: Peer, cs: seq<nat>)
    requires g.pieceSize > 0 && g.Cpp() > 0
    ensures DropAll(g, p, cs) == p.(out := DropAll(g, p, cs).out)
    decreases |cs|
  {
    hide Shape.FromChunk;
    if cs != [] { DropAllSide(g, p, cs[..|cs| - 1]); }
  }

  /** One chunk of a PeerRequest: queued if the peer has the piece and it is new, else dropped. */
  function Accept(g: Shape, p: Peer, c: nat): Peer
    requires g.pieceSize > 0 && g.Cpp() > 0
  {
    if g.FromChunk(c).0 in Pieces(p) && c !in p.queue && c !in p.sent
    then p.(queue := p.queue + {c})
    else Drop(g, p, c)
  }

  function AcceptAll(g: Shape, p: Peer, cs: seq<nat>): Peer
    requires g.pieceSize > 0 && g.Cpp() > 0
  {
    if cs == [] then p else Accept(g, AcceptAll(g, p, cs[..|cs| - 1]), cs[|cs| - 1])
  }

  /** Models cancel: a sent request is only marked, an unsent one is dropped. */
  function CancelChunk(g: Shape, p: Peer, c: nat): Peer
    requires g.pieceSize > 0 && g.Cpp() > 0
  {
    if c in p.sent || c !in p.queue then p else Drop(g, p.(queue := p.queue - {c}), c)
  }

  function CancelPiece(g: Shape, p: Peer, index: nat, n: nat): Peer
    requires g.pieceSize > 0 && g.Cpp() > 0
  {
    if n == 0 then p else CancelChunk(g, CancelPiece(g, p, index, n - 1), (index * g.Cpp() + (n - 1)) % U32)
  }

  /** Replaces the bitmap, telling the torrent about the old and the new one. */
  function ForgetBitmap(p: Peer): Peer
  {
    if p.bitmap.Some? then Emit(p, TorPeerBitmap(p.id, p.bitmap.value, false)).(bitmap := None) else p
  }

  function AnnounceBitmap(p: Peer, s: set<nat>): Peer
  {
    Emit(p.(bitmap := Some(s)), TorPeerBitmap(p.id, s, true))
  }

  function Close(p: Peer): Peer { p.(phase := Closing) }

  /** Models the part of handleEvent that concerns requests and the bitmap. */
  function HandleEvent(g: Shape, p: Peer, e: PeerEvent): Peer
    requires g.pieceSize > 0 && g.Cpp() > 0
  {
    match e
    case PeerMetadataComplete =>
      if p.info then Close(p)
      else if p.isSeed then
        (if p.bitmap.Some? then Close(p.(info := true)) else AnnounceBitmap(p.(info := true), Below(g.Pieces())))
      else if Pieces(p) <= Below(g.Pieces()) then p.(info := true)
      else Close(p.(info := true))
    case PeerRequest(chunks) => if !p.info then Close(p) else AcceptAll(g, p, chunks)
    case PeerCancel(c) => if !p.info then Close(p) else CancelChunk(g, p, c)
    case PeerCancelPiece(index) => if !p.info then Close(p) else CancelPiece(g, p, index, g.Cpp())
  }

  datatype Message =
    | Have(index: nat)
    | Bitfield(bits: set<nat>)
    | HaveAll
    | HaveNone
    | DontHave(index: nat)
    | Choke(order: seq<nat>)
    | RejectRequest(index: nat, begin: nat)
    | Piece(index: nat, begin: nat, length: nat, accepted: nat)

  /** Requests.Del: a sent request goes first, then an unsent one. */
  function Del(p: Peer, c: nat): Peer
  {
    if c in p.sent then p.(sent := p.sent - {c}) else p.(queue := p.queue - {c})
  }

  /** The requests Clear drops on a Choke: all of them, unless the peer is Fast. */
  function Choked(p: Peer): set<nat> { if p.canFast then p.queue else p.queue + p.sent }

  /** Models the part of handleMessage that concerns requests and the bitmap. */
  function HandleMessage(g: Shape, p: Peer, m: Message): Peer
    requires g.pieceSize > 0 && g.Cpp() > 0
  {
    match m
    case Have(i) =>
      if p.info && i >= g.Pieces() then Close(p)
      else if i in Pieces(p) then p
      else Emit(p.(bitmap := Some(Pieces(p) + {i})), TorPeerHave(p.id, i, true))
    case Bitfield(s) =>
      if p.info && !(s <= Below(g.Pieces())) then Close(p) else AnnounceBitmap(ForgetBitmap(p), s)
    case HaveAll =>
      if !p.canFast then Close(p)
      else
        var q := ForgetBitmap(p).(isSeed := true);
        if p.info then AnnounceBitmap(q, Below(g.Pieces())) else q
    case HaveNone => if !p.canFast then Close(p) else ForgetBitmap(p).(isSeed := false)
    case DontHave(i) =>
      if p.isSeed && !p.info then Close(p)
      else if p.info && i >= g.Pieces() then Close(p.(isSeed := false))
      else if i in Pieces(p) then
        Emit(p.(isSeed := false, bitmap := Some(Pieces(p) - {i})), TorPeerHave(p.id, i, false))
      else p.(isSeed := false)
    case Choke(order) =>
      DropAll(g, p.(queue := {}, sent := if p.canFast then p.sent else {}), order)
    case RejectRequest(i, b) =>
      if !p.canFast || !p.info then Close(p)
      else
        var c := g.ToChunk(i, b);
        if c in p.sent then Drop(g, p.(sent := p.sent - {c}), c) else p
    case Piece(i, b, length, accepted) =>
      if !p.info || i >= g.Pieces() then Close(p)
      else
        var c := g.ToChunk(i, b);
        if c !in p.queue && c !in p.sent then p
        else if accepted == length then Emit(Del(p, c), TorData(i, b, length))
        else Drop(g, Del(p, c), c)
  }

  /** One round of maybeRequest: an unsent request is sent, or dropped if the peer lost the
      piece or the write failed. */
  function SendRequest(g: Shape, p: Peer, c: nat, ok: bool): Peer
    requires g.pieceSize > 0 && g.Cpp() > 0
  {
    var q := p.(queue := p.queue - {c});
    if ok then q.(sent := q.sent + {c}) else Drop(g, q, c)
  }

  /** Run's deferred function: everything held is dropped, the bitmap is taken back. */
  function Shutdown(g: Shape, p: Peer, order: seq<nat>): Peer
    requires g.pieceSize > 0 && g.Cpp() > 0
  {
    var q := DropAll(g, p.(phase := Dead, queue := {}, sent := {}, bitmap := None), order);
    Emit(Emit(q, TorPeerBitmap(p.id, Pieces(p), false)), TorPeerGoaway(p.id))
  }

  // ------------------------------------------------------------------- the torrent

  datatype Writer = Writer(index: nat, offset: nat, count: nat)

  /** `told` records, per peer, the bitmap the torrent has been told about so far, and `gone`
      that its Goaway has been handled. */
  datatype State = State(
    info: bool, inFlight: seq<nat>, available: seq<nat>, mail: seq<TorEvent>,
    peers: seq<Peer>, told: seq<set<nat>>, gone: seq<bool>, writers: seq<Writer>)

  /** Models noteInFlight on one counter. */
  function Note8(x: nat, have: bool): nat
  {
    if have then (if x >= 255 then x else x + 1) else if x == 0 then 0 else x - 1
  }

  /** Models noteAvailable on one counter. */
  function Note16(x: nat, have: bool): nat
  {
    if have then (if x >= 65535 then x else x + 1) else if x == 0 then 0 else x - 1
  }

  /** noteInFlight over the n chunks from `first` on. */
  function NoteRange(a: seq<nat>, first: nat, n: nat, have: bool): (r: seq<nat>)
    requires first + n <= |a|
    ensures |r| == |a|
    ensures forall c :: 0 <= c < |a| ==> r[c] == if first <= c < first + n then Note8(a[c], have) else a[c]
  {
    seq(|a|, c requires 0 <= c < |a| => if first <= c < first + n then Note8(a[c], have) else a[c])
  }

  /** noteInFlight(true) over a list of chunks. */
  function NoteList(a: seq<nat>, cs: seq<nat>): (r: seq<nat>)
    requires forall i :: 0 <= i < |cs| ==> cs[i] < |a|
    ensures |r| == |a|
  {
    if cs == [] then a
    else
      var b := NoteList(a, cs[..|cs| - 1]);
      b[cs[|cs| - 1] := Note8(b[cs[|cs| - 1]], true)]
  }

  /** The range a TorData or TorDrop handler decrements. */
  predicate Covers(g: Shape, index: nat, begin: nat, length: nat, c: nat)
  {
    && begin % CHUNK == 0 && begin + length <= g.pieceSize
    && index * g.Cpp() + begin / CHUNK <= c < index * g.Cpp() + begin / CHUNK + length / CHUNK
  }

  function Landed(g: Shape, a: seq<nat>, index: nat, begin: nat, length: nat): (r: seq<nat>)
    requires index * g.Cpp() + begin / CHUNK + length / CHUNK <= |a|
    ensures |r| == |a|
  {
    if begin % CHUNK != 0 || begin + length > g.pieceSize then a
    else NoteRange(a, index * g.Cpp() + begin / CHUNK, length / CHUNK, false)
  }

  function Avail(a: seq<nat>, i: nat): nat { if i < |a| then a[i] else 0 }

  /** Models noteAvailable, which grows the array on demand. */
  function NoteAvailable(a: seq<nat>, i: nat, have: bool): seq<nat>
  {
    var b := if |a| <= i then a + seq(i - |a| + 1, k => 0) else a;
    b[i := Note16(b[i], have)]
  }

  /** noteAvailable over a bitmap, in the order of AllSet. */
  function NoteBitmap(a: seq<nat>, s: set<nat>, have: bool): seq<nat>
    decreases s
  {
    if s == {} then a
    else
      var i := Least(s);
      NoteBitmap(NoteAvailable(a, i, have), s - {i}, have)
  }

  function Least(s: set<nat>): (m: nat)
    requires s != {}
    ensures m in s && forall x :: x in s ==> m <= x
  {
    assert exists m :: IsLeast(s, m) by {
      var y :| y in s;
      LeastExists(s, y);
    }
    var m :| m in s && IsLeast(s, m);
    m
  }

  predicate IsLeast(s: set<nat>, m: nat) { m in s && forall x :: x in s ==> m <= x }

  lemma LeastExists(s: set<nat>, y: nat)
    requires y in s
    ensures exists m :: IsLeast(s, m)
    decreases y
  {
    if x :| x in s && x < y {
      LeastExists(s, x);
    } else {
      assert IsLeast(s, y);
    }
  }

  // ------------------------------------------------------------------------- steps

  /** What AddData may answer: it takes whole chunks from an aligned offset, and a short one
      only at the end of the piece. */
  predicate AddDataAnswer(g: Shape, index: nat, begin: nat, length: nat, accepted: nat)
    requires g.pieceSize > 0
  {
    && accepted <= length
    && (accepted > 0 ==> begin % CHUNK == 0 && begin + accepted <= g.PieceLength(index)
                         && (accepted % CHUNK == 0 || begin + accepted == g.PieceLength(index)))
  }

  ghost predicate Lists(order: seq<nat>, s: set<nat>) { multiset(order) == multiset(s) }

  datatype Move =
    | TakeEvent
    | Receive(m: Message)
    | Send(chunk: nat, ok: bool)
    | Expire(chunk: nat)
    | Fail
    | Leave(order: seq<nat>)

  /** The moves open to a peer: any message may come at any time. */
  ghost predicate CanMove(g: Shape, p: Peer, mv: Move)
    requires g.pieceSize > 0 && g.Cpp() > 0
  {
    match mv
    case TakeEvent => p.phase.Running? && p.inbox != []
    case Receive(m) => p.phase.Running? && (m.Choke? ==> Lists(m.order, Choked(p)))
    case Send(c, ok) => p.phase.Running? && c in p.queue
    case Expire(c) => p.phase.Running? && c in p.sent
    case Fail => p.phase.Running?
    case Leave(order) => !p.phase.Dead? && Lists(order, p.queue + p.sent)
  }

  function Moved(g: Shape, p: Peer, mv: Move): Peer
    requires g.pieceSize > 0 && g.Cpp() > 0
  {
    match mv
    case TakeEvent => if p.inbox == [] then p else HandleEvent(g, p.(inbox := p.inbox[1..]), p.inbox[0])
    case Receive(m) => HandleMessage(g, p, m)
    case Send(c, ok) => SendRequest(g, p, c, ok)
    case Expire(c) => Drop(g, p.(sent := p.sent - {c}), c)
    case Fail => Close(p)
    case Leave(order) => Shutdown(g, p, order)
  }

  datatype Action =
    | PeerMove(p: nat, mv: Move)
    | Deliver(p: nat)
    | HandleMail
    | Request(p: nat, chunks: seq<nat>)
    | Tell(p: nat, e: PeerEvent)
    | MetadataDone
    | AddPeer(canFast: bool)
    | StartWebseed(index: nat, offset: nat, length: nat)
    | WriterWrote(w: nat, n: nat)
    | WriterClose(w: nat)

  /** A range a webseed may be given: it starts on a chunk and ends on one or at the piece's end. */
  predicate RangeOk(g: Shape, index: nat, offset: nat, length: nat)
    requires g.pieceSize > 0
  {
    offset % CHUNK == 0 && offset + length <= g.PieceLength(index)
    && ((offset + length) % CHUNK == 0 || offset + length == g.PieceLength(index))
  }

  ghost predicate Enabled(g: Shape, s: State, a: Action)
    requires g.pieceSize > 0 && g.Cpp() > 0
  {
    match a
    case PeerMove(p, mv) => p < |s.peers| && CanMove(g, s.peers[p], mv)
    case Deliver(p) => p < |s.peers| && s.peers[p].out != []
    case HandleMail => s.mail != []
    case Request(p, chunks) => s.info && p < |s.peers| && forall i :: 0 <= i < |chunks| ==> chunks[i] < g.Chunks()
    case Tell(p, e) => s.info && p < |s.peers| && (e.PeerCancel? || e.PeerCancelPiece?)
    case MetadataDone => !s.info
    case AddPeer(f) => true
    case StartWebseed(i, o, l) => s.info && l > 0 && RangeOk(g, i, o, l)
    case WriterWrote(w, n) =>
      && w < |s.writers| && 0 < n <= s.writers[w].count
      && AddDataAnswer(g, s.writers[w].index, s.writers[w].offset, s.writers[w].count, n)
    case WriterClose(w) => w < |s.writers|
  }

  function Told(p: Peer): Peer { p.(inbox := p.inbox + [PeerMetadataComplete]) }

  /** The torrent handles the first event of its queue. */
  function Handled(g: Shape, s: State): State
    requires s.mail != []
  {
    var t := s.(mail := s.mail[1..]);
    match s.mail[0]
    case TorData(i, b, l) => if i * g.Cpp() + b / CHUNK + l / CHUNK <= |s.inFlight| then t.(inFlight := Landed(g, s.inFlight, i, b, l)) else t
    case TorDrop(i, b, l) => if i * g.Cpp() + b / CHUNK + l / CHUNK <= |s.inFlight| then t.(inFlight := Landed(g, s.inFlight, i, b, l)) else t
    case TorPeerBitmap(p, bits, have) =>
      if p < |s.told| then t.(available := NoteBitmap(s.available, bits, have), told := s.told[p := Learn(s.told[p], bits, have)]) else t
    case TorPeerHave(p, i, have) =>
      if p < |s.told| then t.(available := NoteAvailable(s.available, i, have), told := s.told[p := Learn(s.told[p], {i}, have)]) else t
    case TorPeerGoaway(p) => if p < |s.gone| then t.(gone := s.gone[p := true]) else t
  }

  function Learn(told: set<nat>, bits: set<nat>, have: bool): set<nat> { if have then told + bits else told - bits }

  function Next(g: Shape, s: State, a: Action): State
    requires g.pieceSize > 0 && g.Cpp() > 0
  {
    match a
    case PeerMove(p, mv) => if p < |s.peers| then s.(peers := s.peers[p := Moved(g, s.peers[p], mv)]) else s
    case Deliver(p) =>
      if p < |s.peers| && s.peers[p].out != [] then
        var q := s.peers[p];
        s.(mail := s.mail + [q.out[0]], peers := s.peers[p := q.(out := q.out[1..])])
      else s
    case HandleMail => if s.mail != [] then Handled(g, s) else s
    case Request(p, chunks) =>
      if p < |s.peers| && forall i :: 0 <= i < |chunks| ==> chunks[i] < |s.inFlight| then
        var q := s.peers[p];
        s.(inFlight := NoteList(s.inFlight, chunks), peers := s.peers[p := q.(inbox := q.inbox + [PeerRequest(chunks)])])
      else s
    case Tell(p, e) =>
      if p < |s.peers| then s.(peers := s.peers[p := s.peers[p].(inbox := s.peers[p].inbox + [e])]) else s
    case MetadataDone =>
      s.(info := true, inFlight := seq(g.Chunks(), i => 0), peers := seq(|s.peers|, i requires 0 <= i < |s.peers| => Told(s.peers[i])))
    case AddPeer(f) =>
      s.(peers := s.peers + [Peer(|s.peers|, Running, s.info, f, false, None, {}, {}, [], [])], told := s.told + [{}], gone := s.gone + [false])
    case StartWebseed(i, o, l) =>
      if i * g.Cpp() + o / CHUNK + Touched(l) <= |s.inFlight| then
        s.(inFlight := NoteRange(s.inFlight, i * g.Cpp() + o / CHUNK, Touched(l), true), writers := s.writers + [Writer(i, o, l)])
      else s
    case WriterWrote(w, n) =>
      if w < |s.writers| && n <= s.writers[w].count then
        var x := s.writers[w];
        s.(mail := s.mail + [TorData(x.index, x.offset, n)], writers := s.writers[w := x.(offset := x.offset + n, count := x.count - n)])
      else s
    case WriterClose(w) =>
      if w < |s.writers| then
        var x := s.writers[w];
        s.(mail := if x.count > 0 then s.mail + [TorDrop(x.index, x.offset, x.count)] else s.mail,
           writers := s.writers[..w] + s.writers[w + 1..])
      else s
  }

  const INITIAL: State := State(false, [], [], [], [], [], [], [])

  /** The state after a list of steps from the start. */
  ghost function After(g: Shape, run: seq<Action>): State
    requires g.pieceSize > 0 && g.Cpp() > 0
  {
    if run == [] then INITIAL else Next(g, After(g, run[..|run| - 1]), run[|run| - 1])
  }
}
