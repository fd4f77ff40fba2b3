/** What every run of the piece store keeps. */
module PieceRuns {
  import opened Arith
  import opened Geometry
  import opened Bitmap
  import opened Options
  import opened PieceStore
  import Swarm

  function Initial(g: Shape): System
    requires g.pieceSize > 0
  {
    System(Store(seq(g.Pieces(), i => NOTHING), 0, false), [], [])
  }

  /** The system after a list of steps, of which those that are not possible do nothing. */
  ghost function After(g: Shape, sha: seq<bv8> -> int, want: nat -> int, run: seq<Action>): System
    requires g.pieceSize > 0
  {
    if run == [] then Initial(g)
    else
      var s := After(g, sha, want, run[..|run| - 1]);
      if Enabled(s, run[|run| - 1]) then Next(g, sha, want, s, run[|run| - 1]) else s
  }

  lemma {:induction false} RunKeeps(g: Shape, sha: seq<bv8> -> int, want: nat -> int, run: seq<Action>)
    requires g.Valid()
    ensures Inv(g, sha, want, After(g, sha, want, run))
    decreases |run|
  {
    hide Next, Enabled, Shape.Pieces, Shape.PieceLength, Touched;
    if run == [] {
      var ps := Initial(g).store.pieces;
      forall i | 0 <= i < |ps| ensures PieceOk(sha, want(i), g.PieceLength(i), ps[i]) {
        NothingOk(sha, want(i), g.PieceLength(i));
      }
    } else {
      hide Inv;
      RunKeeps(g, sha, want, run[..|run| - 1]);
      var s := After(g, sha, want, run[..|run| - 1]);
      if Enabled(s, run[|run| - 1]) { StepKeeps(g, sha, want, s, run[|run| - 1]); }
    }
  }

  /** In every run, a complete piece has its full length and the hash it should have. */
  lemma CompleteIsVerified(g: Shape, sha: seq<bv8> -> int, want: nat -> int, run: seq<Action>, i: nat)
    requires g.Valid() && i < |After(g, sha, want, run).store.pieces| && After(g, sha, want, run).store.pieces[i].status.Complete?
    ensures var d := After(g, sha, want, run).store.pieces[i].data;
            d.Some? && |d.value| == g.PieceLength(i) && sha(d.value) == want(i)
  {
    RunKeeps(g, sha, want, run);
    var s := After(g, sha, want, run);
    hide After, Shape.PieceLength, Touched, JobsOk;
    assert PieceOk(sha, want(i), g.PieceLength(i), s.store.pieces[i]);
  }

  /** r is found in d at position b. */
  ghost predicate Excerpt(d: seq<bv8>, b: nat, r: seq<bv8>) { b + |r| <= |d| && r == d[b..b + |r|] }

  lemma ReadExcerpt(g: Shape, st: Store, offset: nat, n: nat)
    requires g.pieceSize > 0
    ensures var r := Read(g, st, offset, n);
            var i := PieceOf(g, offset);
            r.Some? && r.value != [] ==>
              && i < |st.pieces| && st.pieces[i].status.Complete? && st.pieces[i].data.Some?
              && Excerpt(st.pieces[i].data.value, offset % g.pieceSize, r.value)
  {
    Euclid(offset, g.pieceSize);
  }

  /** In every run, what ReadAt returns was taken, at the right place, from bytes that hash to
      what the torrent promises for that piece. */
  lemma ReadsAreVerified(g: Shape, sha: seq<bv8> -> int, want: nat -> int, run: seq<Action>, offset: nat, n: nat)
    requires g.Valid()
    ensures var r := Read(g, After(g, sha, want, run).store, offset, n);
            r.Some? && r.value != [] ==>
              exists d: seq<bv8> ::
                && sha(d) == want(PieceOf(g, offset)) && |d| == g.PieceLength(PieceOf(g, offset))
                && Excerpt(d, offset % g.pieceSize, r.value)
  {
    var st := After(g, sha, want, run).store;
    ReadExcerpt(g, st, offset, n);
    var i, r := PieceOf(g, offset), Read(g, st, offset, n);
    if r.Some? && r.value != [] {
      CompleteIsVerified(g, sha, want, run, i);
      hide Read, After, Excerpt, Shape.PieceLength;
      var d := st.pieces[i].data.value;
      assert sha(d) == want(i) && |d| == g.PieceLength(i) && Excerpt(d, offset % g.pieceSize, r.value);
    }
  }

  /** In every run, a piece being hashed is left alone by every step but the end of its own
      Finalise. */
  lemma BusyUntouched(g: Shape, sha: seq<bv8> -> int, want: nat -> int, run: seq<Action>, a: Action, i: nat)
    requires g.Valid() && Enabled(After(g, sha, want, run), a)
    requires var s := After(g, sha, want, run); i < |s.store.pieces| && s.store.pieces[i].status.Busy?
    ensures var s := After(g, sha, want, run);
            var t := Next(g, sha, want, s, a);
            || (i < |t.store.pieces| && t.store.pieces[i].status.Busy? && t.store.pieces[i].data == s.store.pieces[i].data)
            || (a.Finish? && s.jobs[a.job].index == i && s.store.pieces[i].data == Some(s.jobs[a.job].data))
  {
    RunKeeps(g, sha, want, run);
    StepLeavesBusy(g, sha, want, After(g, sha, want, run), a, i);
  }

  lemma StepLeavesBusy(g: Shape, sha: seq<bv8> -> int, want: nat -> int, s: System, a: Action, i: nat)
    requires g.Valid() && Inv(g, sha, want, s) && Enabled(s, a) && i < |s.store.pieces| && s.store.pieces[i].status.Busy?
    ensures var t := Next(g, sha, want, s, a);
            || (i < |t.store.pieces| && t.store.pieces[i].status.Busy? && t.store.pieces[i].data == s.store.pieces[i].data)
            || (a.Finish? && s.jobs[a.job].index == i && s.store.pieces[i].data == Some(s.jobs[a.job].data))
  {
    hide PiecesOk, JobsOk, Shape.Pieces, Shape.PieceLength, Add, Cleared;
    match a
    case AddData(k, begin, data, peer, memory) => AddKeeps(g, sha, want, s.store, k, begin, data, peer, memory);
    case Start(k) =>
    case Finish(k) => JobIsBusy(s.store.pieces, s.jobs, k);
    case Evict(k) =>
    case Delete => ClearedKeeps(g, sha, want, s.store, 0);
    case Resume(w) =>
      FreedKeeps(g, sha, want, s.store, s.waiting[w]);
      ClearedKeeps(g, sha, want, Freed(s.store, s.waiting[w]), s.waiting[w] + 1);
  }

  /** In every run, the piece Finalise comes back to is still busy and still holds the bytes it
      hashed, so that setState does not panic and the hash is that of the piece. */
  lemma FinishFindsBusy(g: Shape, sha: seq<bv8> -> int, want: nat -> int, run: seq<Action>, k: nat)
    requires g.Valid() && k < |After(g, sha, want, run).jobs|
    ensures var s := After(g, sha, want, run);
            var j := s.jobs[k];
            j.index < |s.store.pieces| && s.store.pieces[j.index].status.Busy? && s.store.pieces[j.index].data == Some(j.data)
  {
    RunKeeps(g, sha, want, run);
    hide After;
    JobIsBusy(After(g, sha, want, run).store.pieces, After(g, sha, want, run).jobs, k);
  }

  // --------------------------------------------------------------------- accounting

  /** How many pieces have memory. */
  ghost function Allocated(ps: seq<Piece>): nat
  {
    if ps == [] then 0 else Allocated(ps[..|ps| - 1]) + One(ps[|ps| - 1].data.Some?)
  }

  ghost predicate Counted(st: Store) { st.count == Allocated(st.pieces) }

  /** How far the count is off. */
  ghost function Drift(st: Store): int { st.count - Allocated(st.pieces) }

  lemma {:induction false} AllocatedUpdate(ps: seq<Piece>, i: nat, q: Piece)
    requires i < |ps|
    ensures Allocated(ps[i := q]) + One(ps[i].data.Some?) == Allocated(ps) + One(q.data.Some?)
    decreases |ps|
  {
    var n := |ps| - 1;
    if i == n {
      assert ps[i := q][..n] == ps[..n];
    } else {
      AllocatedUpdate(ps[..n], i, q);
      assert ps[i := q][..n] == ps[..n][i := q];
    }
  }

  lemma {:induction false} NothingAllocated(n: nat)
    ensures Allocated(seq(n, i => NOTHING)) == 0
  {
    if n > 0 {
      NothingAllocated(n - 1);
      assert seq(n, i => NOTHING)[..n - 1] == seq(n - 1, i => NOTHING);
    }
  }

  /** Freeing a piece that has no memory puts the count off by one. */
  lemma FreedDrift(st: Store, i: nat)
    requires i < |st.pieces|
    ensures Drift(Freed(st, i)) == Drift(st) - One(st.pieces[i].data.None?)
  {
    AllocatedUpdate(st.pieces, i, NOTHING);
  }

  /** Freeing a piece keeps the count right if and only if the piece still had memory. */
  lemma FreedCounted(st: Store, i: nat)
    requires i < |st.pieces| && Counted(st)
    ensures Counted(Freed(st, i)) <==> st.pieces[i].data.Some?
  {
    FreedDrift(st, i);
  }

  lemma {:induction false} ClearedDrift(st: Store, i: nat)
    ensures Drift(Cleared(st, i).0) == Drift(st)
    decreases |st.pieces| - i
  {
    if i < |st.pieces| {
      if st.pieces[i].data.None? {
        ClearedDrift(st, i + 1);
      } else if !st.pieces[i].status.Busy? {
        FreedDrift(st, i);
        ClearedDrift(Freed(st, i), i + 1);
      }
    }
  }

  lemma FinalisedDrift(st: Store, i: nat, ok: bool)
    requires i < |st.pieces| && st.pieces[i].data.Some?
    ensures Drift(Finalised(st, i, ok)) == Drift(st)
  {
    FinalisedOthers(st, i, ok);
    AllocatedUpdate(st.pieces, i, Finalised(st, i, ok).pieces[i]);
  }

  lemma AddDrift(g: Shape, st: Store, index: nat, begin: nat, data: seq<bv8>, peer: nat, memory: bool)
    requires g.pieceSize > 0 && index < |st.pieces|
    ensures Drift(Add(g, st, index, begin, data, peer, memory).0) == Drift(st)
  {
    hide Shape.PieceLength, Shape.PieceChunks, Accepted, Written, Touched, Allocated;
    var p, pl := st.pieces[index], g.PieceLength(index);
    if p.status.Incomplete? && Refused(st, p, pl, begin, memory).None? {
      AllocatedUpdate(st.pieces, index, Filled(p, pl, begin, data, peer));
    }
  }

  /** A Del that resumes on a piece which was freed while it waited. */
  predicate Misfire(s: System, a: Action)
    requires Enabled(s, a)
  {
    a.Resume? && s.store.pieces[s.waiting[a.w]].data.None?
  }

  /** Every step keeps the count as it was, except such a Del, which puts it off by one more. */
  lemma StepDrift(g: Shape, sha: seq<bv8> -> int, want: nat -> int, s: System, a: Action)
    requires g.Valid() && Inv(g, sha, want, s) && Enabled(s, a)
    ensures Drift(Next(g, sha, want, s, a).store) == Drift(s.store) - One(Misfire(s, a))
  {
    hide PiecesOk, JobsOk, Shape.Pieces, Shape.PieceLength, Add, Cleared, Allocated, Finalised;
    match a
    case AddData(k, begin, data, peer, memory) => AddDrift(g, s.store, k, begin, data, peer, memory);
    case Start(k) => AllocatedUpdate(s.store.pieces, k, s.store.pieces[k].(status := Busy));
    case Finish(k) =>
      var j := s.jobs[k];
      JobIsBusy(s.store.pieces, s.jobs, k);
      FinalisedDrift(s.store, j.index, sha(j.data) == want(j.index));
    case Evict(k) => FreedDrift(s.store, k);
    case Delete => ClearedDrift(s.store, 0);
    case Resume(w) =>
      FreedDrift(s.store, s.waiting[w]);
      ClearedDrift(Freed(s.store, s.waiting[w]), s.waiting[w] + 1);
  }

  /** How often that has happened in a run. */
  ghost function Misfires(g: Shape, sha: seq<bv8> -> int, want: nat -> int, run: seq<Action>): nat
    requires g.pieceSize > 0
  {
    if run == [] then 0
    else
      var s, a := After(g, sha, want, run[..|run| - 1]), run[|run| - 1];
      Misfires(g, sha, want, run[..|run| - 1]) + One(Enabled(s, a) && Misfire(s, a))
  }

  /** In every run, the count is the number of pieces with memory, less one for each time a Del
      resumed on a piece that was freed while it waited. */
  lemma {:induction false} CountIsExact(g: Shape, sha: seq<bv8> -> int, want: nat -> int, run: seq<Action>)
    requires g.Valid()
    ensures var st := After(g, sha, want, run).store; st.count == Allocated(st.pieces) - Misfires(g, sha, want, run)
    decreases |run|
  {
    hide Next, Enabled, Inv, Shape.Pieces, Misfire;
    if run == [] {
      NothingAllocated(g.Pieces());
    } else {
      RunKeeps(g, sha, want, run[..|run| - 1]);
      CountIsExact(g, sha, want, run[..|run| - 1]);
      var s := After(g, sha, want, run[..|run| - 1]);
      if Enabled(s, run[|run| - 1]) { StepDrift(g, sha, want, s, run[|run| - 1]); }
    }
  }

  /** So the count is right after a run, and its panic not reached, if no Del misfired; and if
      one did, the count is wrong ever after. */
  lemma CountIsAllocated(g: Shape, sha: seq<bv8> -> int, want: nat -> int, run: seq<Action>)
    requires g.Valid()
    ensures Counted(After(g, sha, want, run).store) <==> Misfires(g, sha, want, run) == 0
    ensures Misfires(g, sha, want, run) == 0 ==> After(g, sha, want, run).store.count >= 0
  {
    CountIsExact(g, sha, want, run);
  }

  // ------------------------------------------------------ the tests of AddData and Finalise

  /** A piece of the store: AddData reports it complete exactly when Finalise's count lets it
      through. */
  lemma TestsAgree(sha: seq<bv8> -> int, want: int, pl: nat, p: Piece)
    requires PieceOk(sha, want, pl, p)
    ensures p.have == Below(Touched(pl)) <==> |p.have| == Touched(pl)
  {
    hide Touched;
    BelowSize(Touched(pl));
    if |p.have| == Touched(pl) {
      AllHere(p.have, Touched(pl));
      forall c ensures c in p.have <==> c in Below(Touched(pl)) { if c >= 0 { BelowMember(Touched(pl), c); } }
    }
  }

  /** What AddData answers is what the peers and the writers rely on. */
  lemma AddAnswers(g: Shape, st: Store, index: nat, begin: nat, data: seq<bv8>, peer: nat, memory: bool)
    requires g.pieceSize > 0 && index < |st.pieces|
    ensures Swarm.AddDataAnswer(g, index, begin, |data|, Add(g, st, index, begin, data, peer, memory).1.count)
  {
    hide Shape.PieceLength, Shape.PieceChunks, Written, Touched, Filled;
    if begin < g.PieceLength(index) { AcceptedBound(g.PieceLength(index), begin, |data|); }
  }

  // ------------------------------------------------------------ a Del that waited

  const ONE_PIECE: Shape := Shape(CHUNK, CHUNK)

  /** Five steps on a torrent of one piece: it is filled, hashed, and deleted twice. */
  const DOUBLE_FREE: seq<Action> := [AddData(0, 0, Zeros(CHUNK), 1, true), Start(0), Delete, Finish(0), Resume(0)]

  lemma AfterSnoc(g: Shape, sha: seq<bv8> -> int, want: nat -> int, run: seq<Action>, a: Action)
    requires g.pieceSize > 0 && Enabled(After(g, sha, want, run), a)
    ensures After(g, sha, want, run + [a]) == Next(g, sha, want, After(g, sha, want, run), a)
  {
    assert (run + [a])[..|run|] == run;
  }

  const WHOLE: Piece := Piece(Some(Zeros(CHUNK)), {0}, Incomplete, [1])

  /** The piece is filled, and its hash is begun. */
  lemma UntilHashed(sha: seq<bv8> -> int, want: nat -> int)
    ensures After(ONE_PIECE, sha, want, DOUBLE_FREE[..2]) ==
            System(Store([WHOLE.(status := Busy)], 1, false), [Job(0, Zeros(CHUNK))], [])
  {
    var g, r := ONE_PIECE, DOUBLE_FREE;
    assert r[..0] == [] && r[..0] + [r[0]] == r[..1] && r[..1] + [r[1]] == r[..2];
    assert Initial(g).store.pieces == [NOTHING];
    FilledWhole();
    hide Filled, Zeros, After;
    Begins(sha, want);
    AfterSnoc(g, sha, want, r[..0], r[0]);
    assert After(g, sha, want, r[..1]) == System(Store([WHOLE], 1, false), [], []);
    AfterSnoc(g, sha, want, r[..1], r[1]);
  }

  lemma Begins(sha: seq<bv8> -> int, want: nat -> int)
    ensures After(ONE_PIECE, sha, want, []) == System(Store([NOTHING], 0, false), [], [])
  {
    assert Initial(ONE_PIECE).store.pieces == [NOTHING];
  }

  /** If the hash does not match, a Del that waited for it frees the piece again: the count goes
      below zero, where the store panics. */
  lemma WaitingDelMiscounts(sha: seq<bv8> -> int, want: nat -> int)
    requires sha(Zeros(CHUNK)) != want(0)
    ensures After(ONE_PIECE, sha, want, DOUBLE_FREE).store.count == -1
  {
    var g, r, busy := ONE_PIECE, DOUBLE_FREE, WHOLE.(status := Busy);
    assert r[..2] + [r[2]] == r[..3] && r[..3] + [r[3]] == r[..4] && r[..4] + [r[4]] == r;
    UntilHashed(sha, want);
    hide Zeros, After;
    AfterSnoc(g, sha, want, r[..2], r[2]);
    assert Cleared(Store([busy], 1, false), 0) == (Store([busy], 1, false), Some(0));
    assert After(g, sha, want, r[..3]) == System(Store([busy], 1, false), [Job(0, Zeros(CHUNK))], [0]);
    AfterSnoc(g, sha, want, r[..3], r[3]);
    assert Finalised(Store([busy], 1, false), 0, false) == Store([NOTHING], 0, false);
    assert After(g, sha, want, r[..4]) == System(Store([NOTHING], 0, false), [], [0]);
    AfterSnoc(g, sha, want, r[..4], r[4]);
  }

  lemma FilledWhole()
    ensures Filled(NOTHING, CHUNK, 0, Zeros(CHUNK), 1) == Piece(Some(Zeros(CHUNK)), {0}, Incomplete, [1])
  {
    var q := Filled(NOTHING, CHUNK, 0, Zeros(CHUNK), 1);
    assert Accepted(CHUNK, 0, CHUNK) == CHUNK;
    assert q.data.value == Zeros(CHUNK);
    assert Touched(CHUNK) == 1 && Below(1) == {0};
    assert Span(0, CHUNK) == {0};
    assert q.have == {0};
  }
}
