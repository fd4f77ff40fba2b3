/** A run in which the counter of a torrent's short last chunk stays at 1 for ever.

The TorData handler rounds the length of the data down to whole chunks, so that the answer to
a request for the short chunk releases nothing. */
module ShortChunk {
  import opened Arith
  import opened Geometry
  import opened Options
  import opened Swarm
  import opened InFlight
  import opened InFlightRuns

  /** A torrent of one piece, with one chunk of 100 bytes. */
  const TINY: Shape := Shape(CHUNK, 100)

  /** The run: a peer announces the piece and is asked for the chunk, it answers with all of it,
      and the torrent handles both events. */
  const ANSWERED: seq<Action> := [
    AddPeer(false), PeerMove(0, Receive(Bitfield({0}))), MetadataDone, Request(0, [0]),
    PeerMove(0, TakeEvent), PeerMove(0, TakeEvent), PeerMove(0, Receive(Piece(0, 0, 100, 100))),
    Deliver(0), Deliver(0), HandleMail, HandleMail]

  const HAS: TorEvent := TorPeerBitmap(0, {0}, true)
  const DATA: TorEvent := TorData(0, 0, 100)

  function ThePeer(info: bool, queue: set<nat>, inbox: seq<PeerEvent>, out: seq<TorEvent>): Peer
  {
    Peer(0, Running, info, false, false, Some({0}), queue, {}, inbox, out)
  }

  function TheState(inFlight: seq<nat>, mail: seq<TorEvent>, p: Peer): State
  {
    State(true, inFlight, [], mail, [p], [{}], [false], [])
  }

  lemma TinyShape()
    ensures TINY.Valid() && TINY.Cpp() == 1 && TINY.Chunks() == 1 && TINY.Pieces() == 1 && Exact(TINY) && !Full(TINY, 0)
    ensures TINY.ToChunk(0, 0) == 0 && TINY.FromChunk(0) == (0, 0) && TINY.PieceLength(0) == 100
  {
    ExactTorrents(TINY);
  }

  /** One step of a run. */
  ghost predicate Follows(s: State, a: Action, t: State)
  {
    TINY.Cpp() > 0 && Enabled(TINY, s, a) && Orderly(TINY, s, a) && Next(TINY, s, a) == t
  }

  /** The first k steps are a run and lead to s. */
  ghost predicate Reaches(run: seq<Action>, k: nat, s: State)
    requires k <= |run| && TINY.Cpp() > 0
  {
    Run(TINY, run[..k]) && After(TINY, run[..k]) == s
  }

  lemma Advance(run: seq<Action>, k: nat, s: State, t: State)
    requires k < |run| && TINY.Cpp() > 0 && Reaches(run, k, s) && Follows(s, run[k], t)
    ensures Reaches(run, k + 1, t)
  {
    hide Enabled, Orderly, Next, Shape.Cpp;
    var r := run[..k + 1];
    assert r[..k] == run[..k] && r[k] == run[k];
  }

  // ------------------------------------------------------------------- the eleven steps

  lemma Announces()
    ensures var s := State(false, [], [], [], [Peer(0, Running, false, false, false, None, {}, {}, [], [])], [{}], [false], []);
            && Follows(INITIAL, AddPeer(false), s)
            && Follows(s, PeerMove(0, Receive(Bitfield({0}))), State(false, [], [], [], [ThePeer(false, {}, [], [HAS])], [{}], [false], []))
  {
    TinyShape();
    hide Shape.Cpp, Shape.Chunks, Shape.Pieces;
    var p := Peer(0, Running, false, false, false, None, {}, {}, [], []);
    var s := State(false, [], [], [], [p], [{}], [false], []);
    assert Next(TINY, INITIAL, AddPeer(false)) == s;
    var m := Bitfield({0});
    assert HandleMessage(TINY, p, m) == ThePeer(false, {}, [], [HAS]);
    assert CanMove(TINY, p, Receive(m)) && Replies(TINY, p, Receive(m));
  }

  lemma Starts()
    ensures var s := State(false, [], [], [], [ThePeer(false, {}, [], [HAS])], [{}], [false], []);
            Follows(s, MetadataDone, TheState([0], [], ThePeer(false, {}, [PeerMetadataComplete], [HAS])))
  {
    TinyShape();
    hide Shape.Cpp, Shape.Chunks, Shape.Pieces;
    var s := State(false, [], [], [], [ThePeer(false, {}, [], [HAS])], [{}], [false], []);
    var t := Next(TINY, s, MetadataDone);
    assert t.inFlight == [0];
    assert [] + [PeerMetadataComplete] == [PeerMetadataComplete];
    assert t.peers[0] == Told(s.peers[0]) && t.peers == [ThePeer(false, {}, [PeerMetadataComplete], [HAS])];
  }

  lemma IsAsked()
    ensures var s := TheState([0], [], ThePeer(false, {}, [PeerMetadataComplete], [HAS]));
            Follows(s, Request(0, [0]), TheState([1], [], ThePeer(false, {}, [PeerMetadataComplete, PeerRequest([0])], [HAS])))
  {
    TinyShape();
    hide Shape.Cpp, Shape.Chunks, Shape.Pieces;
    assert multiset([0])[0] == 1;
    var cs: seq<nat> := [0];
    assert cs[..0] == [] && NoteList([0], []) == [0] && NoteList([0], cs) == [1];
    assert [PeerMetadataComplete] + [PeerRequest([0])] == [PeerMetadataComplete, PeerRequest([0])];
  }

  lemma Reads()
    ensures var s := TheState([1], [], ThePeer(false, {}, [PeerMetadataComplete, PeerRequest([0])], [HAS]));
            Follows(s, PeerMove(0, TakeEvent), TheState([1], [], ThePeer(true, {}, [PeerRequest([0])], [HAS])))
  {
    TinyShape();
    hide Shape.Cpp, Shape.Chunks, Shape.Pieces;
    assert [PeerMetadataComplete, PeerRequest([0])][1..] == [PeerRequest([0])];
    assert Bitmap.Below(0) == {} && Bitmap.Below(1) == {0};
  }

  lemma Queues()
    ensures var s := TheState([1], [], ThePeer(true, {}, [PeerRequest([0])], [HAS]));
            Follows(s, PeerMove(0, TakeEvent), TheState([1], [], ThePeer(true, {0}, [], [HAS])))
  {
    TinyShape();
    hide Shape.Cpp, Shape.Chunks, Shape.Pieces, Shape.FromChunk;
    assert [PeerRequest([0])][1..] == [];
    var p := ThePeer(true, {}, [], [HAS]);
    var cs: seq<nat> := [0];
    assert cs[..0] == [] && AcceptAll(TINY, p, []) == p && AcceptAll(TINY, p, cs) == Accept(TINY, p, 0);
    assert Accept(TINY, p, 0) == ThePeer(true, {0}, [], [HAS]);
  }

  lemma IsAnswered()
    ensures var s := TheState([1], [], ThePeer(true, {0}, [], [HAS]));
            Follows(s, PeerMove(0, Receive(Piece(0, 0, 100, 100))), TheState([1], [], ThePeer(true, {}, [], [HAS, DATA])))
  {
    TinyShape();
    hide Shape.Cpp, Shape.Chunks, Shape.Pieces, Shape.ToChunk, Shape.PieceLength;
    var p, m := ThePeer(true, {0}, [], [HAS]), Piece(0, 0, 100, 100);
    assert Replies(TINY, p, Receive(m));
    assert HandleMessage(TINY, p, m) == ThePeer(true, {}, [], [HAS, DATA]);
  }

  lemma Delivers()
    ensures Follows(TheState([1], [], ThePeer(true, {}, [], [HAS, DATA])), Deliver(0), TheState([1], [HAS], ThePeer(true, {}, [], [DATA])))
    ensures Follows(TheState([1], [HAS], ThePeer(true, {}, [], [DATA])), Deliver(0), TheState([1], [HAS, DATA], ThePeer(true, {}, [], [])))
  {
    TinyShape();
    hide Shape.Cpp, Shape.Chunks, Shape.Pieces;
    assert [HAS, DATA][1..] == [DATA] && [DATA][1..] == [];
  }

  /** The data's length is less than a chunk: its handler changes nothing. */
  lemma Handles(s: State, p: Peer)
    requires s == TheState([1], [HAS, DATA], p)
    ensures var t := Next(TINY, s, HandleMail);
            && Follows(s, HandleMail, t) && Follows(t, HandleMail, t.(mail := []))
            && t.info && t.inFlight == [1] && t.peers == [p] && t.writers == []
  {
    TinyShape();
    hide Shape.Cpp, Shape.Chunks, Shape.Pieces, NoteBitmap, Learn;
    assert [HAS, DATA][1..] == [DATA] && [DATA][1..] == [];
  }

  lemma Begins()
    requires TINY.Cpp() > 0
    ensures Reaches(ANSWERED, 0, INITIAL)
  {
    assert ANSWERED[..0] == [];
  }

  lemma UntilAsked() returns (s: State)
    ensures TINY.Cpp() > 0 && Reaches(ANSWERED, 4, s) && s == TheState([1], [], ThePeer(false, {}, [PeerMetadataComplete, PeerRequest([0])], [HAS]))
  {
    hide Follows, Reaches, Shape.Cpp, Next, Run, After;
    TinyShape();
    Begins();
    Announces();
    Starts();
    IsAsked();
    var s1 := State(false, [], [], [], [Peer(0, Running, false, false, false, None, {}, {}, [], [])], [{}], [false], []);
    var s2 := State(false, [], [], [], [ThePeer(false, {}, [], [HAS])], [{}], [false], []);
    var s3 := TheState([0], [], ThePeer(false, {}, [PeerMetadataComplete], [HAS]));
    s := TheState([1], [], ThePeer(false, {}, [PeerMetadataComplete, PeerRequest([0])], [HAS]));
    Advance(ANSWERED, 0, INITIAL, s1);
    Advance(ANSWERED, 1, s1, s2);
    Advance(ANSWERED, 2, s2, s3);
    Advance(ANSWERED, 3, s3, s);
  }

  lemma UntilDelivered() returns (s: State)
    ensures TINY.Cpp() > 0 && Reaches(ANSWERED, 9, s) && s == TheState([1], [HAS, DATA], ThePeer(true, {}, [], []))
  {
    var s4 := UntilAsked();
    Reads();
    Queues();
    IsAnswered();
    Delivers();
    hide Follows, Reaches, Shape.Cpp;
    var s5 := TheState([1], [], ThePeer(true, {}, [PeerRequest([0])], [HAS]));
    var s6 := TheState([1], [], ThePeer(true, {0}, [], [HAS]));
    var s7 := TheState([1], [], ThePeer(true, {}, [], [HAS, DATA]));
    var s8 := TheState([1], [HAS], ThePeer(true, {}, [], [DATA]));
    s := TheState([1], [HAS, DATA], ThePeer(true, {}, [], []));
    Advance(ANSWERED, 4, s4, s5);
    Advance(ANSWERED, 5, s5, s6);
    Advance(ANSWERED, 6, s6, s7);
    Advance(ANSWERED, 7, s7, s8);
    Advance(ANSWERED, 8, s8, s);
  }

  /** At the end nothing is held and nothing is on its way, and yet the counter is 1. */
  lemma ShortChunkSticks()
    ensures TINY.Cpp() > 0 && Run(TINY, ANSWERED)
    ensures var s := After(TINY, ANSWERED); s.info && s.inFlight == [1] && s.mail == [] && Held(TINY, s, 0) == 0
  {
    var s9 := UntilDelivered();
    var p := ThePeer(true, {}, [], []);
    Handles(s9, p);
    hide Follows, Shape.Cpp, Next, Run, After;
    var s10 := Next(TINY, s9, HandleMail);
    Advance(ANSWERED, 9, s9, s10);
    Advance(ANSWERED, 10, s10, s10.(mail := []));
    assert ANSWERED[..11] == ANSWERED;
    NothingHeld(s10.(mail := []), p);
  }

  lemma NothingHeld(s: State, p: Peer)
    requires s.mail == [] && s.writers == [] && s.peers == [p] && p.queue == {} && p.sent == {} && p.inbox == [] && p.out == []
    ensures Held(TINY, s, 0) == 0
  {
    hide EventW, WriterW, AskW;
    PeersSnoc(TINY, [], p, 0);
    assert [] + [p] == [p];
    assert PeersW(TINY, [], 0) == 0 && PeerW(TINY, p, 0) == 0;
    assert MailW(TINY, [], 0) == 0 && WritersW(TINY, [], 0) == 0;
  }
}
