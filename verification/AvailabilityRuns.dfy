/** The availability ledger holds in every run. */
module AvailabilityRuns {
  import opened Arith
  import opened Geometry
  import opened Bitmap
  import opened Swarm
  import opened Availability
  import opened Options

  /** How many peers the torrent believes to have piece k. */
  ghost function Holders(told: seq<set<nat>>, k: nat): nat
  {
    if told == [] then 0 else Holders(told[..|told| - 1], k) + One(k in told[|told| - 1])
  }

  /** How many peers have not gone. */
  ghost function Live(gone: seq<bool>): nat
  {
    if gone == [] then 0 else Live(gone[..|gone| - 1]) + One(!gone[|gone| - 1])
  }

  ghost predicate Tidy(told: seq<set<nat>>, gone: seq<bool>)
  {
    |told| == |gone| && forall i :: 0 <= i < |told| && gone[i] ==> told[i] == {}
  }

  lemma {:induction false} HoldersUpdate(told: seq<set<nat>>, p: nat, bits: set<nat>, k: nat)
    requires p < |told|
    ensures Holders(told[p := bits], k) + One(k in told[p]) == Holders(told, k) + One(k in bits)
    decreases |told|
  {
    var n := |told| - 1;
    if p == n {
      assert told[p := bits][..n] == told[..n];
    } else {
      HoldersUpdate(told[..n], p, bits, k);
      assert told[p := bits][..n] == told[..n][p := bits];
    }
  }

  lemma {:induction false} HoldersLive(told: seq<set<nat>>, gone: seq<bool>, p: nat, k: nat)
    requires Tidy(told, gone) && p < |told|
    ensures Holders(told, k) + One(!gone[p] && k !in told[p]) <= Live(gone)
    decreases |told|
  {
    var n := |told| - 1;
    if p < n {
      HoldersLive(told[..n], gone[..n], p, k);
    } else if n > 0 {
      HoldersLive(told[..n], gone[..n], 0, k);
    }
  }

  lemma {:induction false} HolderCounts(told: seq<set<nat>>, p: nat, k: nat)
    requires p < |told| && k in told[p]
    ensures Holders(told, k) >= 1
    decreases |told|
  {
    if p < |told| - 1 { HolderCounts(told[..|told| - 1], p, k); }
  }

  // ------------------------------------------------------------------- the counters

  lemma NoteAvailableAt(a: seq<nat>, i: nat, have: bool, k: nat)
    ensures Avail(NoteAvailable(a, i, have), k) == if k == i then Note16(Avail(a, k), have) else Avail(a, k)
  {
  }

  lemma {:induction false} NoteBitmapAt(a: seq<nat>, s: set<nat>, have: bool, k: nat)
    ensures Avail(NoteBitmap(a, s, have), k) == if k in s then Note16(Avail(a, k), have) else Avail(a, k)
    decreases s
  {
    if s != {} {
      var i := Least(s);
      NoteAvailableAt(a, i, have, k);
      NoteBitmapAt(NoteAvailable(a, i, have), s - {i}, have, k);
    }
  }

  ghost predicate Counted(available: seq<nat>, told: seq<set<nat>>)
  {
    forall k: nat :: Avail(available, k) == Holders(told, k)
  }

  // ---------------------------------------------------------------------- invariant

  ghost function Belief(s: State, i: nat): Net
    requires i < |s.told| && i < |s.gone|
  {
    Net(i, s.told[i], s.gone[i])
  }

  predicate Known(e: TorEvent, n: nat)
  {
    match e
    case TorPeerBitmap(p, _, _) => p < n
    case TorPeerHave(p, _, _) => p < n
    case TorPeerGoaway(p) => p < n
    case _ => true
  }

  ghost predicate Inv(s: State)
  {
    && |s.told| == |s.gone| == |s.peers| && Tidy(s.told, s.gone)
    && (forall i :: 0 <= i < |s.peers| ==> Agrees(Belief(s, i), s.mail, s.peers[i]))
    && (forall e :: e in s.mail ==> Known(e, |s.peers|))
    && Counted(s.available, s.told)
  }

  lemma OfIsKnown(e: TorEvent, i: nat, n: nat)
    requires (Noise(e) || Of(e, i)) && i < n
    ensures Known(e, n)
  {
  }

  lemma PeerMoveKeeps(g: Shape, s: State, i: nat, mv: Move)
    requires g.pieceSize > 0 && g.Cpp() > 0 && Inv(s) && Enabled(g, s, PeerMove(i, mv))
    ensures Inv(Next(g, s, PeerMove(i, mv)))
  {
    hide Agrees, Moved, CanMove, Counted, Tidy, Known;
    MoveAgrees(Belief(s, i), s.mail, g, s.peers[i], mv);
    var t := Next(g, s, PeerMove(i, mv));
    forall j | 0 <= j < |t.peers| ensures Agrees(Belief(t, j), t.mail, t.peers[j]) {
      assert Belief(t, j) == Belief(s, j) && Agrees(Belief(s, j), s.mail, s.peers[j]);
    }
  }

  /** Only inboxes differ. */
  lemma InboxKeeps(s: State, t: State)
    requires Inv(s) && |t.peers| == |s.peers| && t.told == s.told && t.gone == s.gone && t.mail == s.mail && t.available == s.available
    requires forall i :: 0 <= i < |s.peers| ==> t.peers[i] == s.peers[i].(inbox := t.peers[i].inbox)
    ensures Inv(t)
  {
    hide Agrees, Counted, Tidy, Known;
    forall j | 0 <= j < |t.peers| ensures Agrees(Belief(t, j), t.mail, t.peers[j]) {
      assert Belief(t, j) == Belief(s, j) && Agrees(Belief(s, j), s.mail, s.peers[j]);
      Silent(Belief(s, j), s.mail, s.peers[j], t.peers[j]);
    }
  }

  lemma MailAgrees(n: Net, mail: seq<TorEvent>, e: TorEvent, p: Peer)
    requires Agrees(n, mail, p) && !Of(e, p.id)
    ensures Agrees(n, mail + [e], p)
  {
    MineSnoc(mail, e, p.id);
  }

  lemma NoiseKeeps(s: State, t: State, e: TorEvent)
    requires Inv(s) && Noise(e)
    requires t.peers == s.peers && t.told == s.told && t.gone == s.gone && t.mail == s.mail + [e] && t.available == s.available
    ensures Inv(t)
  {
    hide Agrees, Counted, Tidy;
    forall j | 0 <= j < |t.peers| ensures Agrees(Belief(t, j), t.mail, t.peers[j]) {
      assert Belief(t, j) == Belief(s, j) && Agrees(Belief(s, j), s.mail, s.peers[j]);
      MailAgrees(Belief(s, j), s.mail, e, s.peers[j]);
    }
  }

  /** The oldest event moves from the peer's queue to the torrent's. */
  lemma DeliverAgrees(n: Net, mail: seq<TorEvent>, p: Peer)
    requires Agrees(n, mail, p) && p.out != []
    ensures Agrees(n, mail + [p.out[0]], p.(out := p.out[1..]))
  {
    hide Leads, Mine;
    var e := p.out[0];
    var q := p.(out := p.out[1..]);
    MineSnoc(mail, e, p.id);
    MineHead(p.out, p.id);
    assert Pending(mail + [e], q) == Pending(mail, p);
    assert View(q) == View(p);
    assert forall f :: f in q.out ==> f in p.out;
  }

  lemma DeliverKeeps(g: Shape, s: State, i: nat)
    requires g.pieceSize > 0 && g.Cpp() > 0 && Inv(s) && Enabled(g, s, Deliver(i))
    ensures Inv(Next(g, s, Deliver(i)))
  {
    hide Counted, Tidy, Leads, Pending, View;
    var t := Next(g, s, Deliver(i));
    var e := s.peers[i].out[0];
    assert Agrees(Belief(s, i), s.mail, s.peers[i]);
    assert Noise(e) || Of(e, i);
    OfIsKnown(e, i, |s.peers|);
    forall j | 0 <= j < |t.peers| ensures Agrees(Belief(t, j), t.mail, t.peers[j]) {
      assert Belief(t, j) == Belief(s, j) && Agrees(Belief(s, j), s.mail, s.peers[j]);
      if j == i {
        DeliverAgrees(Belief(s, i), s.mail, s.peers[i]);
      } else {
        MailAgrees(Belief(s, j), s.mail, e, s.peers[j]);
      }
    }
  }

  // ------------------------------------------------------------- handling an event

  lemma HandledAgrees(n: Net, mail: seq<TorEvent>, p: Peer)
    requires Agrees(n, mail, p) && mail != []
    ensures Of(mail[0], p.id) ==> Proper(n, mail[0]) && Agrees(Step(n, mail[0]), mail[1..], p)
    ensures !Of(mail[0], p.id) ==> Agrees(n, mail[1..], p)
  {
    hide Leads, Mine, Proper, View;
    MineHead(mail, p.id);
    if Of(mail[0], p.id) {
      LeadsHead(n, Pending(mail, p), View(p));
      assert Pending(mail, p)[1..] == Pending(mail[1..], p);
      assert Step(n, mail[0]).id == n.id;
    } else {
      assert Pending(mail, p) == Pending(mail[1..], p);
    }
  }

  /** The torrent's next event is proper, so it changes each counter by as much as it changes
      what the torrent believes: no clamp is reached. */
  lemma HandledCounts(s: State, p: nat, bits: set<nat>, have: bool, k: nat)
    requires Tidy(s.told, s.gone) && p < |s.told| && !s.gone[p] && Live(s.gone) <= 65535
    requires if have then bits !! s.told[p] else bits <= s.told[p]
    requires Avail(s.available, k) == Holders(s.told, k)
    ensures (if k in bits then Note16(Avail(s.available, k), have) else Avail(s.available, k)) == Holders(s.told[p := Learn(s.told[p], bits, have)], k)
    ensures k in bits ==> if have then Avail(s.available, k) < 65535 else Avail(s.available, k) > 0
  {
    hide Holders, Live, Tidy;
    HoldersUpdate(s.told, p, Learn(s.told[p], bits, have), k);
    HoldersLive(s.told, s.gone, p, k);
    if k in s.told[p] { HolderCounts(s.told, p, k); }
  }

  lemma BitmapKeeps(s: State, t: State, p: nat, bits: set<nat>, have: bool)
    requires Inv(s) && Live(s.gone) <= 65535 && p < |s.told| && Proper(Belief(s, p), TorPeerBitmap(p, bits, have))
    requires t.told == s.told[p := Learn(s.told[p], bits, have)] && t.gone == s.gone
    requires forall k: nat :: Avail(t.available, k) == if k in bits then Note16(Avail(s.available, k), have) else Avail(s.available, k)
    ensures Counted(t.available, t.told) && Tidy(t.told, t.gone)
  {
    hide Agrees, Holders, Live, Known, Note16;
    forall k: nat ensures Avail(t.available, k) == Holders(t.told, k) { HandledCounts(s, p, bits, have, k); }
  }

  lemma HandleMailBeliefs(g: Shape, s: State)
    requires Inv(s) && s.mail != []
    ensures var t := Handled(g, s);
            && t.peers == s.peers && t.mail == s.mail[1..] && |t.told| == |s.told| && |t.gone| == |s.gone|
            && (forall j :: 0 <= j < |s.peers| ==> Belief(t, j) == if Of(s.mail[0], j) then Step(Belief(s, j), s.mail[0]) else Belief(s, j))
  {
    hide Agrees, Counted, NoteBitmap, NoteAvailable, Landed, Learn;
    assert Known(s.mail[0], |s.peers|);
  }

  lemma HandleMailCounts(g: Shape, s: State)
    requires Inv(s) && s.mail != [] && Live(s.gone) <= 65535
    ensures Counted(Handled(g, s).available, Handled(g, s).told) && Tidy(Handled(g, s).told, Handled(g, s).gone)
  {
    hide Agrees, Holders, Live, NoteBitmap, NoteAvailable, Landed, Note16, Avail;
    var t := Handled(g, s);
    assert Known(s.mail[0], |s.peers|);
    match s.mail[0]
    case TorPeerBitmap(p, bits, have) =>
      assert Agrees(Belief(s, p), s.mail, s.peers[p]);
      SameId(Belief(s, p), s.mail, s.peers[p]);
      HandledAgrees(Belief(s, p), s.mail, s.peers[p]);
      forall k: nat { NoteBitmapAt(s.available, bits, have, k); }
      BitmapKeeps(s, t, p, bits, have);
    case TorPeerHave(p, i, have) =>
      assert Agrees(Belief(s, p), s.mail, s.peers[p]);
      SameId(Belief(s, p), s.mail, s.peers[p]);
      HandledAgrees(Belief(s, p), s.mail, s.peers[p]);
      forall k: nat { NoteAvailableAt(s.available, i, have, k); }
      BitmapKeeps(s, t, p, {i}, have);
    case TorPeerGoaway(p) =>
      assert Agrees(Belief(s, p), s.mail, s.peers[p]);
      SameId(Belief(s, p), s.mail, s.peers[p]);
      HandledAgrees(Belief(s, p), s.mail, s.peers[p]);
    case _ =>
  }

  lemma SameId(n: Net, mail: seq<TorEvent>, p: Peer)
    requires Agrees(n, mail, p)
    ensures p.id == n.id
  {
  }

  lemma HandleMailKeeps(g: Shape, s: State)
    requires g.pieceSize > 0 && g.Cpp() > 0 && Inv(s) && s.mail != [] && Live(s.gone) <= 65535
    ensures Inv(Next(g, s, HandleMail))
  {
    hide Agrees, Counted, Tidy, Known, Step, Handled, Proper;
    HandleMailBeliefs(g, s);
    HandleMailCounts(g, s);
    var t := Handled(g, s);
    forall j | 0 <= j < |t.peers| ensures Agrees(Belief(t, j), t.mail, t.peers[j]) {
      assert Agrees(Belief(s, j), s.mail, s.peers[j]);
      SameId(Belief(s, j), s.mail, s.peers[j]);
      HandledAgrees(Belief(s, j), s.mail, s.peers[j]);
    }
    assert forall e :: e in t.mail ==> e in s.mail;
  }

  // --------------------------------------------------------------------- new peers

  lemma {:induction false} NoMail(mail: seq<TorEvent>, n: nat)
    requires forall e :: e in mail ==> Known(e, n)
    ensures Mine(mail, n) == []
  {
    if mail != [] {
      NoMail(mail[..|mail| - 1], n);
      assert Known(mail[|mail| - 1], n);
    }
  }

  lemma AddPeerKeeps(g: Shape, s: State, canFast: bool)
    requires g.pieceSize > 0 && g.Cpp() > 0 && Inv(s)
    ensures Inv(Next(g, s, AddPeer(canFast)))
  {
    hide Agrees, Holders;
    var t := Next(g, s, AddPeer(canFast));
    var n := |s.peers|;
    NewAgrees(s.mail, t.peers[n], n);
    forall j | 0 <= j < |t.peers| ensures Agrees(Belief(t, j), t.mail, t.peers[j]) {
      if j < n { assert Belief(t, j) == Belief(s, j) && Agrees(Belief(s, j), s.mail, s.peers[j]); }
    }
    forall k: nat ensures Avail(t.available, k) == Holders(t.told, k) { HoldersSnoc(s.told, k); }
  }

  lemma HoldersSnoc(told: seq<set<nat>>, k: nat)
    ensures Holders(told + [{}], k) == Holders(told, k)
  {
    assert (told + [{}])[..|told|] == told;
  }

  lemma NewAgrees(mail: seq<TorEvent>, p: Peer, n: nat)
    requires (forall e :: e in mail ==> Known(e, n)) && p.id == n && p.out == [] && p.bitmap == None && !p.phase.Dead?
    ensures Agrees(Net(n, {}, false), mail, p)
  {
    NoMail(mail, n);
    assert Pending(mail, p) == [];
  }

  // --------------------------------------------------------------------- whole runs

  lemma StepKeeps(g: Shape, s: State, a: Action)
    requires g.pieceSize > 0 && g.Cpp() > 0 && Inv(s) && Enabled(g, s, a) && Live(s.gone) <= 65535
    ensures Inv(Next(g, s, a))
  {
    hide Inv, Live, NoteList, NoteRange, Shape.Chunks, Shape.Cpp, RangeOk, AddDataAnswer, CanMove, Moved, Handled;
    var t := Next(g, s, a);
    match a
    case PeerMove(p, mv) => PeerMoveKeeps(g, s, p, mv);
    case Deliver(p) => DeliverKeeps(g, s, p);
    case HandleMail => HandleMailKeeps(g, s);
    case Request(p, chunks) => InboxKeeps(s, t);
    case Tell(p, e) => InboxKeeps(s, t);
    case MetadataDone => InboxKeeps(s, t);
    case AddPeer(f) => AddPeerKeeps(g, s, f);
    case StartWebseed(i, o, l) => InboxKeeps(s, t);
    case WriterWrote(w, n) => NoiseKeeps(s, t, TorData(s.writers[w].index, s.writers[w].offset, n));
    case WriterClose(w) =>
      if s.writers[w].count > 0 {
        NoiseKeeps(s, t, TorDrop(s.writers[w].index, s.writers[w].offset, s.writers[w].count));
      } else {
        InboxKeeps(s, t);
      }
  }

  /** Every step was possible, with at most 65535 peers at a time. */
  ghost predicate Run(g: Shape, run: seq<Action>)
    requires g.pieceSize > 0 && g.Cpp() > 0
  {
    run == [] ||
    (var s := After(g, run[..|run| - 1]);
     Run(g, run[..|run| - 1]) && Enabled(g, s, run[|run| - 1]) && Live(s.gone) <= 65535)
  }

  lemma {:induction false} RunKeeps(g: Shape, run: seq<Action>)
    requires g.pieceSize > 0 && g.Cpp() > 0 && Run(g, run)
    ensures Inv(After(g, run))
    decreases |run|
  {
    hide Enabled, Next, Live;
    if run != [] {
      RunKeeps(g, run[..|run| - 1]);
      StepKeeps(g, After(g, run[..|run| - 1]), run[|run| - 1]);
    }
  }

  /** The ledger: each counter is the number of peers believed to have the piece; what is
      believed of a peer, with its events still on their way, is its own bitmap; and nothing is
      believed of a peer that has gone. */
  lemma AvailabilityLedger(g: Shape, run: seq<Action>, i: nat, k: nat)
    requires g.pieceSize > 0 && g.Cpp() > 0 && Run(g, run) && i < |After(g, run).peers|
    ensures var s := After(g, run);
            && |s.told| == |s.gone| == |s.peers|
            && Avail(s.available, k) == Holders(s.told, k)
            && Leads(Belief(s, i), Pending(s.mail, s.peers[i]), View(s.peers[i]))
            && (s.gone[i] ==> s.told[i] == {})
  {
    RunKeeps(g, run);
    var s := After(g, run);
    hide After, Run, Leads, Holders;
    assert Agrees(Belief(s, i), s.mail, s.peers[i]);
  }

  /** A peer that has shut down and whose events have all been handled counts nowhere. */
  lemma ShutdownIsNet(g: Shape, run: seq<Action>, i: nat)
    requires g.pieceSize > 0 && g.Cpp() > 0 && Run(g, run) && i < |After(g, run).peers|
    requires var s := After(g, run); s.peers[i].phase.Dead? && Pending(s.mail, s.peers[i]) == []
    ensures var s := After(g, run); i < |s.told| && i < |s.gone| && s.told[i] == {} && s.gone[i]
  {
    AvailabilityLedger(g, run, i, 0);
  }

  /** Neither clamp of noteAvailable is ever reached. */
  lemma NeverClamped(g: Shape, run: seq<Action>, k: nat)
    requires g.pieceSize > 0 && g.Cpp() > 0 && Run(g, run) && After(g, run).mail != [] && Live(After(g, run).gone) <= 65535
    ensures var s := After(g, run);
            match s.mail[0]
            case TorPeerBitmap(p, bits, have) => k in bits ==> if have then Avail(s.available, k) < 65535 else Avail(s.available, k) > 0
            case TorPeerHave(p, i, have) => if have then Avail(s.available, i) < 65535 else Avail(s.available, i) > 0
            case _ => true
  {
    RunKeeps(g, run);
    var s := After(g, run);
    hide After, Run, Agrees, Holders, Live, Avail;
    assert Known(s.mail[0], |s.peers|);
    match s.mail[0]
    case TorPeerBitmap(p, bits, have) =>
      assert Agrees(Belief(s, p), s.mail, s.peers[p]);
      SameId(Belief(s, p), s.mail, s.peers[p]);
      HandledAgrees(Belief(s, p), s.mail, s.peers[p]);
      HandledCounts(s, p, bits, have, k);
    case TorPeerHave(p, i, have) =>
      assert Agrees(Belief(s, p), s.mail, s.peers[p]);
      SameId(Belief(s, p), s.mail, s.peers[p]);
      HandledAgrees(Belief(s, p), s.mail, s.peers[p]);
      HandledCounts(s, p, {i}, have, i);
    case _ =>
  }
}
