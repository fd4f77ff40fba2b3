/** The piece store as a system of atomic steps.

A piece is incomplete, busy while its hash is computed, or complete.  The store has one lock,
which Finalise gives up while it hashes and a forced del gives up while it waits for a busy
piece.  A step is what happens between taking and giving up the lock, so a run of the system
is any interleaving of the operations. */
module PieceStore {
  import opened Arith
  import opened Geometry
  import opened Bitmap
  import opened Options

  datatype Status = Incomplete | Busy | Complete

  /** `have` is the set of chunks that have been stored. */
  datatype Piece = Piece(data: Option<seq<bv8>>, have: set<nat>, status: Status, peers: seq<nat>)

  datatype Store = Store(pieces: seq<Piece>, count: int, deleted: bool)

  const NOTHING: Piece := Piece(None, {}, Incomplete, [])

  /** The peer number that stands for a webseed. */
  const NO_PEER: nat := 0xFFFF_FFFF

  // ------------------------------------------------------------------------ AddData

  datatype AddError = StoreDeleted | OddOffset | BeyondEnd | NoMemory

  datatype AddResult = AddResult(count: nat, complete: bool, err: Option<AddError>)

  /** How many of n bytes offered at `begin` are taken: everything up to the end of the piece if
      they reach it, and otherwise the whole chunks. */
  function Accepted(pl: nat, begin: nat, n: nat): nat
    requires begin <= pl
  {
    if begin + n >= pl then pl - begin else n / CHUNK * CHUNK
  }

  /** The chunks from `begin` on that n bytes touch. */
  function Span(begin: nat, n: nat): set<nat>
  {
    Below(begin / CHUNK + Touched(n)) - Below(begin / CHUNK)
  }

  lemma SpanMember(begin: nat, n: nat, c: nat)
    ensures c in Span(begin, n) <==> begin / CHUNK <= c < begin / CHUNK + Touched(n)
  {
    BelowMember(begin / CHUNK, c);
    BelowMember(begin / CHUNK + Touched(n), c);
  }

  /** The piece's bytes afterwards: those of chunks not yet stored come from the data offered. */
  function Written(was: seq<bv8>, have: set<nat>, begin: nat, n: nat, data: seq<bv8>): (r: seq<bv8>)
    requires n <= |data|
    ensures |r| == |was|
  {
    seq(|was|, x requires 0 <= x < |was| =>
      if begin <= x < begin + n && x / CHUNK !in have then data[x - begin] else was[x])
  }

  function Zeros(n: nat): (r: seq<bv8>)
    ensures |r| == n
  {
    seq(n, i => 0)
  }

  function Bytes(p: Piece, pl: nat): seq<bv8> { if p.data.Some? then p.data.value else Zeros(pl) }

  /** Models addPeer. */
  function AddPeer(peers: seq<nat>, peer: nat): seq<nat>
  {
    if peer == 0 || peer in peers then peers else peers + [peer]
  }

  /** The piece after AddData has been let through. */
  function Filled(p: Piece, pl: nat, begin: nat, data: seq<bv8>, peer: nat): Piece
    requires begin <= pl
  {
    var n := Accepted(pl, begin, |data|);
    var gain := Span(begin, n) - p.have;
    Piece(Some(Written(Bytes(p, pl), p.have, begin, n, data)), p.have + gain, p.status,
          if gain != {} && peer != NO_PEER then AddPeer(p.peers, peer) else p.peers)
  }

  /** Why AddData stores nothing, if it does not. */
  function Refused(st: Store, p: Piece, pl: nat, begin: nat, memory: bool): Option<AddError>
  {
    if st.deleted then Some(StoreDeleted)
    else if begin % CHUNK != 0 then Some(OddOffset)
    else if begin >= pl then Some(BeyondEnd)
    else if p.data.None? && !memory then Some(NoMemory)
    else None
  }

  /** Models AddData; `memory` says whether an allocation succeeds. */
  function Add(g: Shape, st: Store, index: nat, begin: nat, data: seq<bv8>, peer: nat, memory: bool): (Store, AddResult)
    requires g.pieceSize > 0 && index < |st.pieces|
  {
    var p, pl := st.pieces[index], g.PieceLength(index);
    var err := Refused(st, p, pl, begin, memory);
    if !p.status.Incomplete? then (st, AddResult(0, false, None))
    else if err.Some? then (st, AddResult(0, false, err))
    else
      var q := Filled(p, pl, begin, data, peer);
      (Store(st.pieces[index := q], if p.data.None? then st.count + 1 else st.count, st.deleted),
       AddResult(Accepted(pl, begin, |data|), q.have == Below(g.PieceChunks(index)), None))
  }

  // ----------------------------------------------------------------- Finalise and del

  /** Whether Finalise goes on to hash the piece. */
  predicate Ripe(g: Shape, st: Store, index: nat)
    requires g.pieceSize > 0 && index < |st.pieces|
  {
    st.pieces[index].status.Incomplete? && !st.deleted && |st.pieces[index].have| == g.PieceChunks(index)
  }

  function WithStatus(st: Store, index: nat, status: Status): Store
    requires index < |st.pieces|
  {
    st.(pieces := st.pieces[index := st.pieces[index].(status := status)])
  }

  /** The second half of del, which frees the piece without looking at it again. */
  function Freed(st: Store, index: nat): Store
    requires index < |st.pieces|
  {
    st.(pieces := st.pieces[index := NOTHING], count := st.count - 1)
  }

  /** What Finalise does once the hash is known. */
  function Finalised(st: Store, index: nat, ok: bool): Store
    requires index < |st.pieces|
  {
    var s1 := st.(pieces := st.pieces[index := st.pieces[index].(peers := [])]);
    if ok then WithStatus(s1, index, Complete)
    else
      var s2 := WithStatus(s1, index, Incomplete);
      if s2.pieces[index].data.None? then s2 else Freed(s2, index)
  }

  /** del without force, as Expire calls it. */
  function Evicted(st: Store, index: nat): Store
    requires index < |st.pieces|
  {
    if st.pieces[index].data.None? || st.pieces[index].status.Busy? then st else Freed(st, index)
  }

  /** Del from piece i on: it frees pieces up to the first busy one, where it has to wait. */
  function Cleared(st: Store, i: nat): (Store, Option<nat>)
    decreases |st.pieces| - i
  {
    if i >= |st.pieces| then (st.(deleted := true), None)
    else if st.pieces[i].data.None? then Cleared(st, i + 1)
    else if st.pieces[i].status.Busy? then (st, Some(i))
    else Cleared(Freed(st, i), i + 1)
  }

  /** The piece a byte of the torrent is in. */
  function PieceOf(g: Shape, offset: nat): nat
    requires g.pieceSize > 0
  {
    Euclid(offset, g.pieceSize);
    offset / g.pieceSize
  }

  /** Models ReadAt: the bytes copied out, at most n of them; None is io.EOF. */
  function Read(g: Shape, st: Store, offset: nat, n: nat): Option<seq<bv8>>
    requires g.pieceSize > 0
  {
    if offset >= g.length || PieceOf(g, offset) >= |st.pieces| then None
    else
      var p, begin := st.pieces[PieceOf(g, offset)], offset % g.pieceSize;
      if !p.status.Complete? || p.data.None? || |p.data.value| <= begin then Some([])
      else if begin + n <= |p.data.value| then Some(p.data.value[begin..begin + n])
      else Some(p.data.value[begin..])
  }

  // ------------------------------------------------------------------------- system

  /** A Finalise that is hashing, and the bytes it was given. */
  datatype Job = Job(index: nat, data: seq<bv8>)

  /** `waiting` are the calls of Del that wait for a busy piece. */
  datatype System = System(store: Store, jobs: seq<Job>, waiting: seq<nat>)

  datatype Action =
    | AddData(index: nat, begin: nat, data: seq<bv8>, peer: nat, memory: bool)
    | Start(index: nat)
    | Finish(job: nat)
    | Evict(index: nat)
    | Delete
    | Resume(w: nat)

  function Remove<T>(s: seq<T>, k: nat): seq<T>
    requires k < |s|
  {
    s[..k] + s[k + 1..]
  }

  /** A waiting Del goes on when its piece is no longer busy. */
  predicate Enabled(s: System, a: Action)
  {
    match a
    case AddData(i, _, _, _, _) => i < |s.store.pieces|
    case Start(i) => i < |s.store.pieces|
    case Finish(k) => k < |s.jobs|
    case Evict(i) => i < |s.store.pieces|
    case Delete => true
    case Resume(w) => w < |s.waiting| && s.waiting[w] < |s.store.pieces| && !s.store.pieces[s.waiting[w]].status.Busy?
  }

  function Waiters(ws: seq<nat>, stuck: Option<nat>): seq<nat> { if stuck.Some? then ws + [stuck.value] else ws }

  function Next(g: Shape, sha: seq<bv8> -> int, want: nat -> int, s: System, a: Action): System
    requires g.pieceSize > 0 && Enabled(s, a)
  {
    match a
    case AddData(i, begin, data, peer, memory) => s.(store := Add(g, s.store, i, begin, data, peer, memory).0)
    case Start(i) =>
      if Ripe(g, s.store, i)
      then s.(store := WithStatus(s.store, i, Busy), jobs := s.jobs + [Job(i, Bytes(s.store.pieces[i], 0))])
      else s
    case Finish(k) =>
      var j := s.jobs[k];
      if j.index < |s.store.pieces|
      then s.(store := Finalised(s.store, j.index, sha(j.data) == want(j.index)), jobs := Remove(s.jobs, k))
      else s
    case Evict(i) => s.(store := Evicted(s.store, i))
    case Delete =>
      var (st, stuck) := Cleared(s.store, 0);
      s.(store := st, waiting := Waiters(s.waiting, stuck))
    case Resume(w) =>
      var i := s.waiting[w];
      var (st, stuck) := Cleared(Freed(s.store, i), i + 1);
      s.(store := st, waiting := Waiters(Remove(s.waiting, w), stuck))
  }

  // ---------------------------------------------------------------------- invariant

  /** A piece of length pl: only the chunks of the piece are recorded, a busy or complete piece
      has all of them, and a complete one has the hash it should. */
  ghost predicate PieceOk(sha: seq<bv8> -> int, want: int, pl: nat, p: Piece)
  {
    && (forall c :: c in p.have ==> c < Touched(pl))
    && (p.data.None? ==> p.have == {} && p.status.Incomplete?)
    && (p.data.Some? ==> |p.data.value| == pl)
    && (!p.status.Incomplete? ==> forall c: nat :: c < Touched(pl) ==> c in p.have)
    && (p.status.Complete? ==> sha(p.data.value) == want)
  }

  ghost predicate PiecesOk(g: Shape, sha: seq<bv8> -> int, want: nat -> int, ps: seq<Piece>)
    requires g.pieceSize > 0
  {
    forall i :: 0 <= i < |ps| ==> PieceOk(sha, want(i), g.PieceLength(i), ps[i])
  }

  ghost predicate JobAt(ps: seq<Piece>, j: Job)
  {
    j.index < |ps| && ps[j.index].status.Busy? && ps[j.index].data == Some(j.data)
  }

  ghost predicate Working(jobs: seq<Job>, i: nat) { exists k :: 0 <= k < |jobs| && jobs[k].index == i }

  /** Exactly the busy pieces are being hashed, each once, over the bytes they still have. */
  ghost predicate JobsOk(ps: seq<Piece>, jobs: seq<Job>)
  {
    && (forall k :: 0 <= k < |jobs| ==> JobAt(ps, jobs[k]))
    && (forall k, l :: 0 <= k < l < |jobs| ==> jobs[k].index != jobs[l].index)
    && (forall i :: 0 <= i < |ps| && ps[i].status.Busy? ==> Working(jobs, i))
  }

  ghost predicate Inv(g: Shape, sha: seq<bv8> -> int, want: nat -> int, s: System)
    requires g.pieceSize > 0
  {
    && |s.store.pieces| == g.Pieces()
    && PiecesOk(g, sha, want, s.store.pieces)
    && JobsOk(s.store.pieces, s.jobs)
  }

  /** A change to pieces that leaves the busy ones alone. */
  ghost predicate SameBusy(ps: seq<Piece>, qs: seq<Piece>)
  {
    && |qs| == |ps|
    && (forall i :: 0 <= i < |ps| && ps[i].status.Busy? ==> qs[i].status.Busy? && qs[i].data == ps[i].data)
    && (forall i :: 0 <= i < |ps| && qs[i].status.Busy? ==> ps[i].status.Busy?)
  }

  lemma SameBusyJobs(ps: seq<Piece>, qs: seq<Piece>, jobs: seq<Job>)
    requires JobsOk(ps, jobs) && SameBusy(ps, qs)
    ensures JobsOk(qs, jobs)
  {
  }

  // ------------------------------------------------------------------ AddData's piece

  lemma AcceptedBound(pl: nat, begin: nat, n: nat)
    requires begin < pl
    ensures Accepted(pl, begin, n) <= n && begin + Accepted(pl, begin, n) <= pl
    ensures begin % CHUNK == 0 ==> begin / CHUNK + Touched(Accepted(pl, begin, n)) <= Touched(pl)
  {
  }

  lemma FilledOk(sha: seq<bv8> -> int, want: int, pl: nat, p: Piece, begin: nat, data: seq<bv8>, peer: nat)
    requires PieceOk(sha, want, pl, p) && p.status.Incomplete? && begin % CHUNK == 0 && begin < pl
    ensures PieceOk(sha, want, pl, Filled(p, pl, begin, data, peer))
  {
    var n := Accepted(pl, begin, |data|);
    AcceptedBound(pl, begin, |data|);
    hide Accepted, Touched, AddPeer, Written, Span;
    forall c | c in Span(begin, n) ensures c < Touched(pl) { SpanMember(begin, n, c); }
  }

  /** A chunk that was stored stays as it was; one that was missing is stored if its bytes were
      offered, and then holds them. */
  lemma FilledBytes(sha: seq<bv8> -> int, want: int, pl: nat, p: Piece, begin: nat, data: seq<bv8>, peer: nat, x: nat)
    requires PieceOk(sha, want, pl, p) && begin % CHUNK == 0 && begin < pl && x < pl
    ensures var n, q := Accepted(pl, begin, |data|), Filled(p, pl, begin, data, peer);
            && |q.data.value| == pl
            && (x / CHUNK in q.have <==> x / CHUNK in p.have || begin <= x < begin + n)
            && q.data.value[x] == if begin <= x < begin + n && x / CHUNK !in p.have then data[x - begin] else Bytes(p, pl)[x]
  {
    var n := Accepted(pl, begin, |data|);
    AcceptedBound(pl, begin, |data|);
    SpanMember(begin, n, x / CHUNK);
    InSpan(pl, begin, n, x);
    hide Accepted, Touched, AddPeer, Span;
  }

  lemma InSpan(pl: nat, begin: nat, n: nat, x: nat)
    requires begin % CHUNK == 0 && begin + n <= pl && x < pl && (n % CHUNK == 0 || begin + n == pl)
    ensures begin / CHUNK <= x / CHUNK < begin / CHUNK + Touched(n) <==> begin <= x < begin + n
  {
  }

  // ----------------------------------------------------------------- steps on pieces

  lemma PieceUpdate(g: Shape, sha: seq<bv8> -> int, want: nat -> int, ps: seq<Piece>, i: nat, q: Piece)
    requires g.pieceSize > 0 && PiecesOk(g, sha, want, ps) && i < |ps| && PieceOk(sha, want(i), g.PieceLength(i), q)
    ensures PiecesOk(g, sha, want, ps[i := q])
  {
    hide PieceOk, Shape.PieceLength;
  }

  lemma NothingOk(sha: seq<bv8> -> int, want: int, pl: nat)
    ensures PieceOk(sha, want, pl, NOTHING)
  {
  }

  lemma AddKeeps(g: Shape, sha: seq<bv8> -> int, want: nat -> int, st: Store, index: nat, begin: nat, data: seq<bv8>, peer: nat, memory: bool)
    requires g.pieceSize > 0 && index < |st.pieces| && PiecesOk(g, sha, want, st.pieces)
    ensures var t := Add(g, st, index, begin, data, peer, memory).0;
            PiecesOk(g, sha, want, t.pieces) && SameBusy(st.pieces, t.pieces)
  {
    var p, pl := st.pieces[index], g.PieceLength(index);
    assert PieceOk(sha, want(index), pl, p);
    if p.status.Incomplete? && Refused(st, p, pl, begin, memory).None? {
      FilledOk(sha, want(index), pl, p, begin, data, peer);
      PieceUpdate(g, sha, want, st.pieces, index, Filled(p, pl, begin, data, peer));
    }
    hide PieceOk, Shape.PieceLength, Shape.PieceChunks, Accepted, Written;
  }

  lemma FreedKeeps(g: Shape, sha: seq<bv8> -> int, want: nat -> int, st: Store, index: nat)
    requires g.pieceSize > 0 && index < |st.pieces| && PiecesOk(g, sha, want, st.pieces) && !st.pieces[index].status.Busy?
    ensures PiecesOk(g, sha, want, Freed(st, index).pieces) && SameBusy(st.pieces, Freed(st, index).pieces)
  {
    hide PieceOk, Shape.PieceLength;
    NothingOk(sha, want(index), g.PieceLength(index));
    PieceUpdate(g, sha, want, st.pieces, index, NOTHING);
  }

  lemma {:induction false} ClearedKeeps(g: Shape, sha: seq<bv8> -> int, want: nat -> int, st: Store, i: nat)
    requires g.pieceSize > 0 && PiecesOk(g, sha, want, st.pieces)
    ensures var t := Cleared(st, i).0; PiecesOk(g, sha, want, t.pieces) && SameBusy(st.pieces, t.pieces)
    decreases |st.pieces| - i
  {
    hide PiecesOk;
    if i < |st.pieces| {
      if st.pieces[i].data.None? {
        ClearedKeeps(g, sha, want, st, i + 1);
      } else if !st.pieces[i].status.Busy? {
        FreedKeeps(g, sha, want, st, i);
        ClearedKeeps(g, sha, want, Freed(st, i), i + 1);
      }
    }
  }

  /** A piece of the torrent is not empty. */
  lemma PieceNotEmpty(g: Shape, i: nat)
    requires g.Valid() && i < g.Pieces()
    ensures g.PieceLength(i) > 0 && g.PieceChunks(i) > 0
  {
    hide PieceLengthOf;
    FewPieces(g);
    CeilDiv(g.length, g.pieceSize);
    Euclid(g.length, g.pieceSize);
    NotEmpty(g.pieceSize, g.length / g.pieceSize, g.length % g.pieceSize, i);
  }

  lemma NotEmpty(m: nat, q: nat, r: nat, i: nat)
    requires 0 < m < U32 && q < U32 && r < m && i < if r == 0 then q else q + 1
    ensures PieceLengthOf(m, q, r, i) > 0
  {
  }

  lemma RipeKeeps(g: Shape, sha: seq<bv8> -> int, want: nat -> int, st: Store, i: nat)
    requires g.Valid() && |st.pieces| == g.Pieces() && PiecesOk(g, sha, want, st.pieces) && i < |st.pieces| && Ripe(g, st, i)
    ensures PiecesOk(g, sha, want, WithStatus(st, i, Busy).pieces) && st.pieces[i].data.Some?
  {
    var p := st.pieces[i];
    assert PieceOk(sha, want(i), g.PieceLength(i), p);
    PieceNotEmpty(g, i);
    AllHere(p.have, g.PieceChunks(i));
    assert PieceOk(sha, want(i), g.PieceLength(i), p.(status := Busy)) by { hide Shape.PieceLength, Touched; }
    PieceUpdate(g, sha, want, st.pieces, i, p.(status := Busy));
  }

  lemma AllHere(have: set<nat>, n: nat)
    requires |have| == n && forall c :: c in have ==> c < n
    ensures forall c: nat :: c < n ==> c in have
  {
    forall c | c in have ensures c in Below(n) { BelowMember(n, c); }
    BelowSize(n);
    SubsetEqual(have, Below(n));
    forall c: nat | c < n ensures c in have { BelowMember(n, c); }
  }

  lemma StartJobs(ps: seq<Piece>, jobs: seq<Job>, i: nat)
    requires JobsOk(ps, jobs) && i < |ps| && ps[i].status.Incomplete? && ps[i].data.Some?
    ensures JobsOk(ps[i := ps[i].(status := Busy)], jobs + [Job(i, ps[i].data.value)])
  {
    var qs, js := ps[i := ps[i].(status := Busy)], jobs + [Job(i, ps[i].data.value)];
    forall k | 0 <= k < |js| ensures JobAt(qs, js[k]) {
      if k < |jobs| { assert JobAt(ps, jobs[k]); }
    }
    forall k, l | 0 <= k < l < |js| ensures js[k].index != js[l].index {
      assert JobAt(ps, jobs[k]);
    }
    forall x | 0 <= x < |qs| && qs[x].status.Busy? ensures Working(js, x) {
      if x == i {
        assert js[|jobs|].index == i;
      } else {
        assert Working(jobs, x);
        var k :| 0 <= k < |jobs| && jobs[k].index == x;
        assert js[k].index == x;
      }
    }
  }

  lemma FinalisedKeeps(g: Shape, sha: seq<bv8> -> int, want: nat -> int, st: Store, i: nat, ok: bool)
    requires g.pieceSize > 0 && PiecesOk(g, sha, want, st.pieces) && i < |st.pieces|
    requires st.pieces[i].status.Busy? && (ok ==> sha(Bytes(st.pieces[i], 0)) == want(i))
    ensures PiecesOk(g, sha, want, Finalised(st, i, ok).pieces)
  {
    var p := st.pieces[i];
    assert PieceOk(sha, want(i), g.PieceLength(i), p);
    hide Shape.PieceLength, Touched;
    NothingOk(sha, want(i), g.PieceLength(i));
    PieceUpdate(g, sha, want, st.pieces, i, NOTHING);
    if ok { PieceUpdate(g, sha, want, st.pieces, i, p.(peers := [], status := Complete)); }
    hide PieceOk;
  }

  lemma FinalisedOthers(st: Store, i: nat, ok: bool)
    requires i < |st.pieces| && st.pieces[i].data.Some?
    ensures Finalised(st, i, ok).pieces == st.pieces[i := Finalised(st, i, ok).pieces[i]] && !Finalised(st, i, ok).pieces[i].status.Busy?
  {
  }

  lemma FinishJobs(ps: seq<Piece>, jobs: seq<Job>, k: nat, q: Piece)
    requires JobsOk(ps, jobs) && k < |jobs| && !q.status.Busy?
    ensures jobs[k].index < |ps| && JobsOk(ps[jobs[k].index := q], Remove(jobs, k))
  {
    assert JobAt(ps, jobs[k]);
    var i := jobs[k].index;
    var qs, js := ps[i := q], Remove(jobs, k);
    forall a | 0 <= a < |js| ensures JobAt(qs, js[a]) {
      var b := RemovedAt(jobs, k, a);
      assert JobAt(ps, jobs[b]);
    }
    forall a, b | 0 <= a < b < |js| ensures js[a].index != js[b].index {
      var c := RemovedAt(jobs, k, a);
      var d := RemovedAt(jobs, k, b);
    }
    forall x | 0 <= x < |qs| && qs[x].status.Busy? ensures Working(js, x) { StillWorking(jobs, k, x); }
  }

  /** Where an entry was before one was removed. */
  lemma RemovedAt(jobs: seq<Job>, k: nat, a: nat) returns (b: nat)
    requires k < |jobs| && a < |Remove(jobs, k)|
    ensures b < |jobs| && b != k && jobs[b] == Remove(jobs, k)[a] && b == if a < k then a else a + 1
  {
    b := if a < k then a else a + 1;
  }

  lemma StillWorking(jobs: seq<Job>, k: nat, x: nat)
    requires Working(jobs, x) && k < |jobs| && jobs[k].index != x
    ensures Working(Remove(jobs, k), x)
  {
    var b :| 0 <= b < |jobs| && jobs[b].index == x;
    assert Remove(jobs, k)[if b < k then b else b - 1] == jobs[b];
  }

  // --------------------------------------------------------------------- whole runs

  lemma StepKeeps(g: Shape, sha: seq<bv8> -> int, want: nat -> int, s: System, a: Action)
    requires g.Valid() && Inv(g, sha, want, s) && Enabled(s, a)
    ensures Inv(g, sha, want, Next(g, sha, want, s, a))
  {
    hide PiecesOk, JobsOk, SameBusy, Shape.Pieces, Shape.PieceLength, Add, Cleared;
    var t := Next(g, sha, want, s, a);
    match a
    case AddData(i, begin, data, peer, memory) =>
      AddKeeps(g, sha, want, s.store, i, begin, data, peer, memory);
      SameBusyKeeps(s, t);
    case Start(i) =>
      if Ripe(g, s.store, i) {
        RipeKeeps(g, sha, want, s.store, i);
        StartJobs(s.store.pieces, s.jobs, i);
      }
    case Finish(k) =>
      var j := s.jobs[k];
      JobIsBusy(s.store.pieces, s.jobs, k);
      FinalisedKeeps(g, sha, want, s.store, j.index, sha(j.data) == want(j.index));
      FinalisedOthers(s.store, j.index, sha(j.data) == want(j.index));
      FinishJobs(s.store.pieces, s.jobs, k, t.store.pieces[j.index]);
    case Evict(i) =>
      if s.store.pieces[i].data.Some? && !s.store.pieces[i].status.Busy? {
        FreedKeeps(g, sha, want, s.store, i);
        SameBusyKeeps(s, t);
      }
    case Delete =>
      ClearedKeeps(g, sha, want, s.store, 0);
      SameBusyKeeps(s, t);
    case Resume(w) =>
      var i := s.waiting[w];
      FreedKeeps(g, sha, want, s.store, i);
      ClearedKeeps(g, sha, want, Freed(s.store, i), i + 1);
      SameBusyTwice(s.store.pieces, Freed(s.store, i).pieces, t.store.pieces);
      SameBusyKeeps(s, t);
  }

  lemma SameBusyKeeps(s: System, t: System)
    requires JobsOk(s.store.pieces, s.jobs) && SameBusy(s.store.pieces, t.store.pieces) && t.jobs == s.jobs
    ensures JobsOk(t.store.pieces, t.jobs) && |t.store.pieces| == |s.store.pieces|
  {
    SameBusyJobs(s.store.pieces, t.store.pieces, s.jobs);
  }

  lemma SameBusyTwice(ps: seq<Piece>, qs: seq<Piece>, rs: seq<Piece>)
    requires SameBusy(ps, qs) && SameBusy(qs, rs)
    ensures SameBusy(ps, rs)
  {
  }

  lemma JobIsBusy(ps: seq<Piece>, jobs: seq<Job>, k: nat)
    requires JobsOk(ps, jobs) && k < |jobs|
    ensures jobs[k].index < |ps| && ps[jobs[k].index].status.Busy? && ps[jobs[k].index].data == Some(jobs[k].data)
  {
    assert JobAt(ps, jobs[k]);
  }
}
