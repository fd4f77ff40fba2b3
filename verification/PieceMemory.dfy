/** The piece store as an object: the code of each atomic step, proved to be that step.

Bitmaps are the byte-level ones.  What happens between two steps, while the lock is not held,
is the subject of PieceStore. */
module PieceMemory {
  import opened Arith
  import opened Geometry
  import opened Bitmap
  import opened Options
  import opened PieceStore

  datatype Record = Record(data: Option<seq<bv8>>, bitmap: seq<bv8>, status: Status, peers: seq<nat>)

  ghost function Abs(r: Record): Piece { Piece(r.data, Members(r.bitmap), r.status, r.peers) }

  ghost function AbsAll(rs: seq<Record>): seq<Piece> { seq(|rs|, i requires 0 <= i < |rs| => Abs(rs[i])) }

  lemma AbsUpdate(rs: seq<Record>, i: nat, r: Record)
    requires i < |rs|
    ensures AbsAll(rs[i := r]) == AbsAll(rs)[i := Abs(r)]
  {
  }

  /** Chunks are recorded only if the piece has them, and memory is as long as the piece. */
  ghost predicate Sized(pl: nat, p: Piece)
  {
    && (forall c :: c in p.have ==> c < Touched(pl))
    && (p.data.None? ==> p.have == {})
    && (p.data.Some? ==> |p.data.value| == pl)
  }

  // ---------------------------------------------------------------- lemmas for AddData

  lemma AcceptedExit(pl: nat, begin: nat, len: nat, n: nat)
    requires begin % CHUNK == 0 && begin < pl && begin + n <= pl && n <= len && (n % CHUNK == 0 || begin + n == pl)
    requires n == len || begin + n == pl || (len < n + CHUNK && len < pl - begin)
    ensures n == Accepted(pl, begin, len)
  {
  }

  lemma SpanStep(pl: nat, begin: nat, n: nat, l: nat)
    requires begin % CHUNK == 0 && n % CHUNK == 0 && 0 < l <= CHUNK
    ensures Span(begin, n + l) == Span(begin, n) + {(begin + n) / CHUNK}
    ensures (begin + n) / CHUNK !in Span(begin, n)
  {
    var c := (begin + n) / CHUNK;
    assert Touched(n + l) == Touched(n) + 1 && begin / CHUNK + Touched(n) == c;
    forall k: nat ensures k in Span(begin, n + l) <==> k in Span(begin, n) + {c} {
      SpanMember(begin, n + l, k);
      SpanMember(begin, n, k);
    }
    SpanMember(begin, n, c);
  }

  lemma SpanNone(begin: nat)
    ensures Span(begin, 0) == {}
  {
    assert Touched(0) == 0;
  }

  /** Copying one more chunk, unless it is there already, extends what has been written. */
  lemma WrittenStep(was: seq<bv8>, have: set<nat>, begin: nat, n: nat, l: nat, data: seq<bv8>)
    requires begin % CHUNK == 0 && n % CHUNK == 0 && 0 < l <= CHUNK && n + l <= |data| && begin + n + l <= |was|
    ensures var d, o := Written(was, have, begin, n, data), begin + n;
            Written(was, have, begin, n + l, data) ==
              if o / CHUNK in have then d else d[..o] + data[n..n + l] + d[o + l..]
  {
    var d, o := Written(was, have, begin, n, data), begin + n;
    var e := Written(was, have, begin, n + l, data);
    forall x | o <= x < o + l ensures x / CHUNK == o / CHUNK { SameChunk(o, x); }
    if o / CHUNK in have {
      assert e == d;
    } else {
      assert e == d[..o] + data[n..n + l] + d[o + l..];
    }
  }

  lemma SameChunk(o: nat, x: nat)
    requires o % CHUNK == 0 && o <= x < o + CHUNK
    ensures x / CHUNK == o / CHUNK
  {
  }

  lemma WrittenNone(was: seq<bv8>, have: set<nat>, begin: nat, data: seq<bv8>)
    ensures Written(was, have, begin, 0, data) == was
  {
  }

  /** Models addPeer. */
  method AddPeerTo(peers: seq<nat>, peer: nat) returns (r: seq<nat>)
    ensures r == AddPeer(peers, peer)
  {
    if peer == 0 {
      return peers;
    }
    var i := 0;
    while i < |peers|
      invariant 0 <= i <= |peers| && peer !in peers[..i]
    {
      if peers[i] == peer {
        return peers;
      }
      i := i + 1;
    }
    r := peers + [peer];
  }

  /** What the copying loop of AddData has done after n bytes. */
  ghost predicate Copied(was: seq<bv8>, have: set<nat>, begin: nat, n: nat, data: seq<bv8>, d: seq<bv8>, now: set<nat>, added: bool)
  {
    && n <= |data| && d == Written(was, have, begin, n, data)
    && now == have + Span(begin, n) && added == (Span(begin, n) - have != {})
  }

  lemma CopyStep(was: seq<bv8>, have: set<nat>, begin: nat, n: nat, l: nat, data: seq<bv8>, d: seq<bv8>, now: set<nat>, added: bool)
    requires Copied(was, have, begin, n, data, d, now, added)
    requires begin % CHUNK == 0 && n % CHUNK == 0 && 0 < l <= CHUNK && n + l <= |data| && begin + n + l <= |was|
    ensures var o := begin + n;
            |d| == |was|
            && (o / CHUNK in now ==> Copied(was, have, begin, n + l, data, d, now, added))
            && (o / CHUNK !in now ==> Copied(was, have, begin, n + l, data, d[..o] + data[n..n + l] + d[o + l..], now + {o / CHUNK}, true))
  {
    hide Written, Span;
    SpanStep(|was|, begin, n, l);
    WrittenStep(was, have, begin, n, l, data);
    var c := (begin + n) / CHUNK;
    assert c in now <==> c in have;
    if c in now {
      assert Span(begin, n + l) - have == Span(begin, n) - have;
    } else {
      assert c in Span(begin, n + l) - have;
    }
  }

  lemma CopyStart(was: seq<bv8>, have: set<nat>, begin: nat, data: seq<bv8>)
    ensures Copied(was, have, begin, 0, data, was, have, false)
  {
    SpanNone(begin);
    WrittenNone(was, have, begin, data);
  }

  /** Models the copying loop of AddData on one piece's memory and bitmap. */
  method Copy(was: seq<bv8>, bits: seq<bv8>, pl: nat, begin: nat, data: seq<bv8>)
    returns (d: seq<bv8>, b: seq<bv8>, n: nat, added: bool)
    requires |was| == pl && begin % CHUNK == 0 && begin < pl
    ensures n == Accepted(pl, begin, |data|)
    ensures Copied(was, Members(bits), begin, n, data, d, Members(b), added)
  {
    hide Copied, Members, Accepted, WithBit, Get;
    d, b, n, added := was, bits, 0, false;
    ghost var have := Members(bits);
    CopyStart(was, have, begin, data);
    var offset := begin;
    while n < |data|
      invariant Copied(was, have, begin, n, data, d, Members(b), added)
      invariant offset == begin + n <= pl && n <= |data| && n % CHUNK == 0
    {
      var c := offset / CHUNK;
      var l := if pl - offset > CHUNK then CHUNK else pl - offset;
      if l <= 0 || |data| < n + l {
        break;
      }
      CopyStep(was, have, begin, n, l, data, d, Members(b), added);
      MembersGet(b, c);
      if !Get(b, c) {
        d := d[..offset] + data[n..n + l] + d[offset + l..];
        SetAdds(b, c);
        b := WithBit(b, c);
        added := true;
      }
      offset := offset + l;
      n := n + l;
      if l % CHUNK != 0 {
        break;
      }
    }
    AcceptedExit(pl, begin, |data|, n);
  }

  lemma FilledIsCopied(r: Record, pl: nat, begin: nat, data: seq<bv8>, peer: nat, d: seq<bv8>, b: seq<bv8>, added: bool, peers: seq<nat>)
    requires begin <= pl && Sized(pl, Abs(r)) && Accepted(pl, begin, |data|) <= |data|
    requires Copied(Bytes(Abs(r), pl), Members(r.bitmap), begin, Accepted(pl, begin, |data|), data, d, Members(b), added)
    requires peers == if added && peer != NO_PEER then AddPeer(r.peers, peer) else r.peers
    ensures Abs(Record(Some(d), b, r.status, peers)) == Filled(Abs(r), pl, begin, data, peer)
  {
    hide Written, Span, Accepted, AddPeer, Members;
    var n := Accepted(pl, begin, |data|);
    var gain := Span(begin, n) - Members(r.bitmap);
    assert Members(r.bitmap) + Span(begin, n) == Members(r.bitmap) + gain;
  }

  lemma FilledSized(pl: nat, p: Piece, begin: nat, data: seq<bv8>, peer: nat)
    requires Sized(pl, p) && begin % CHUNK == 0 && begin < pl
    ensures Sized(pl, Filled(p, pl, begin, data, peer))
  {
    var n := Accepted(pl, begin, |data|);
    AcceptedBound(pl, begin, |data|);
    hide Accepted, Touched, AddPeer, Written, Span;
    forall c | c in Span(begin, n) ensures c < Touched(pl) { SpanMember(begin, n, c); }
  }

  // -------------------------------------------------------------------------- Hole

  /** The first maximal run of missing chunks at or after a chunk, in a piece of n chunks. */
  ghost predicate FirstHole(have: set<nat>, n: nat, from: nat, first: nat, count: nat)
  {
    && from <= first && 0 < count && first + count <= n
    && (forall c :: from <= c < first ==> c in have)
    && (forall c :: first <= c < first + count ==> c !in have)
    && (first + count < n ==> first + count in have)
  }

  /** There is at most one such run. */
  lemma FirstHoleUnique(have: set<nat>, n: nat, from: nat, f1: nat, c1: nat, f2: nat, c2: nat)
    requires FirstHole(have, n, from, f1, c1) && FirstHole(have, n, from, f2, c2)
    ensures f1 == f2 && c1 == c2
  {
    assert f1 == f2 by {
      assert f1 !in have && f2 !in have;
    }
  }

  /** Models the two searches of Hole; `chunks` stands for "to the end of the piece". */
  method FindHole(b: seq<bv8>, chunks: nat, from: nat) returns (first: int, count: nat)
    requires forall c :: c in Members(b) ==> c < chunks
    ensures first < 0 <==> forall c: nat :: from <= c < chunks ==> c in Members(b)
    ensures first >= 0 ==> 0 < count && (count < chunks ==> first + count < chunks)
    ensures first >= 0 ==> first < chunks && FirstHole(Members(b), chunks, from, first, if count == chunks then chunks - first else count)
  {
    first, count := -1, 0;
    var i := from;
    while i < chunks
      invariant from <= i && first == -1
      invariant forall c: nat :: from <= c < i && c < chunks ==> c in Members(b)
    {
      MembersGet(b, i);
      if !Get(b, i) {
        first := i;
        break;
      }
      i := i + 1;
    }
    if first < 0 {
      return;
    }
    count := 1;
    while count < chunks
      invariant 1 <= count <= chunks
      invariant forall c: nat :: first <= c < first + count ==> c !in Members(b)
    {
      MembersGet(b, first + count);
      if Get(b, first + count) {
        break;
      }
      count := count + 1;
    }
  }

  // ------------------------------------------------------------------------- object

  const NOT_FOUND: nat := 0xFFFF_FFFF

  class Pieces {
    const g: Shape
    var pieces: seq<Record>
    var count: int
    var deleted: bool

    ghost function View(): Store
      reads this
    {
      Store(AbsAll(pieces), count, deleted)
    }

    ghost predicate Valid()
      reads this
    {
      && g.Valid() && |pieces| == g.Pieces()
      && forall i :: 0 <= i < |pieces| ==> Sized(g.PieceLength(i), Abs(pieces[i]))
    }

    /** Models MetadataComplete. */
    constructor (shape: Shape)
      requires shape.Valid()
      ensures Valid() && g == shape && View() == Store(seq(shape.Pieces(), i => NOTHING), 0, false)
    {
      g := shape;
      pieces := seq(shape.Pieces(), i => Record(None, [], Incomplete, []));
      count, deleted := 0, false;
      new;
      forall i | 0 <= i < |pieces| ensures Abs(pieces[i]) == NOTHING { EmptyMembers(); }
      assert AbsAll(pieces) == seq(shape.Pieces(), i => NOTHING);
    }

    /** Replaces one piece. */
    method Put(index: nat, r: Record)
      requires Valid() && index < |pieces| && Sized(g.PieceLength(index), Abs(r))
      modifies this`pieces
      ensures Valid() && View() == old(View()).(pieces := old(View()).pieces[index := Abs(r)]) && pieces == old(pieces)[index := r]
    {
      AbsUpdate(pieces, index, r);
      pieces := pieces[index := r];
    }

    /** Models setState; its panic is the precondition. */
    method SetState(index: nat, was: Status, status: Status)
      requires Valid() && index < |pieces| && pieces[index].status == was
      modifies this`pieces
      ensures Valid() && View() == WithStatus(old(View()), index, status) && pieces == old(pieces)[index := old(pieces)[index].(status := status)]
    {
      Put(index, pieces[index].(status := status));
    }

    /** Models AddData. */
    method AddData(index: nat, begin: nat, data: seq<bv8>, peer: nat, memory: bool) returns (n: nat, complete: bool, err: Option<AddError>)
      requires Valid() && index < |pieces|
      modifies this
      ensures Valid() && (View(), AddResult(n, complete, err)) == Add(g, old(View()), index, begin, data, peer, memory)
    {
      hide Shape.PieceLength, Shape.Pieces, Accepted, Written, Span, Filled, Touched, AddPeer, Copied;
      n, complete, err := 0, false, None;
      var r := pieces[index];
      assert View().pieces[index] == Abs(r);
      if !r.status.Incomplete? {
        return;
      }
      var pl := g.PieceLength(index);
      if deleted {
        err := Some(StoreDeleted);
        return;
      }
      if begin % CHUNK != 0 {
        err := Some(OddOffset);
        return;
      }
      if begin >= pl {
        err := Some(BeyondEnd);
        return;
      }
      var was := if r.data.Some? then r.data.value else Zeros(pl);
      if r.data.None? {
        if !memory {
          err := Some(NoMemory);
          return;
        }
        count := count + 1;
      }
      var d, b, added;
      d, b, n, added := Copy(was, r.bitmap, pl, begin, data);
      var peers := r.peers;
      if added && peer != NO_PEER {
        peers := AddPeerTo(peers, peer);
      }
      var q := Record(Some(d), b, r.status, peers);
      AcceptedBound(pl, begin, |data|);
      FilledIsCopied(r, pl, begin, data, peer, d, b, added, peers);
      FilledSized(pl, Abs(r), begin, data, peer);
      Put(index, q);
      complete := All(b, g.PieceChunks(index));
      AllIsFull(g, index, q);
    }

    /** Models Finalise up to where it gives up the lock: the bytes to hash, if any. */
    method FinaliseStart(index: nat) returns (job: Option<seq<bv8>>, err: Option<AddError>)
      requires Valid() && index < |pieces|
      modifies this`pieces
      ensures Valid()
      ensures job.Some? <==> Ripe(g, old(View()), index)
      ensures job.Some? ==> View() == WithStatus(old(View()), index, Busy) && old(View()).pieces[index].data == job
      ensures job.None? ==> View() == old(View())
      ensures err.Some? <==> old(View()).pieces[index].status.Incomplete? && deleted
    {
      hide Shape.PieceLength, Shape.Pieces, Touched;
      job, err := None, None;
      var r := pieces[index];
      assert View().pieces[index] == Abs(r);
      if !r.status.Incomplete? {
        return;
      }
      if deleted {
        err := Some(StoreDeleted);
        return;
      }
      var n := Count(r.bitmap);
      if n != g.PieceChunks(index) {
        return;
      }
      PieceNotEmpty(g, index);
      assert Sized(g.PieceLength(index), Abs(r));
      job := r.data;
      SetState(index, Incomplete, Busy);
    }

    /** Models Finalise after it has taken the lock again. */
    method FinaliseEnd(index: nat, ok: bool) returns (done: bool, peers: seq<nat>)
      requires Valid() && index < |pieces| && pieces[index].status.Busy?
      modifies this
      ensures Valid() && View() == Finalised(old(View()), index, ok)
      ensures done == ok && peers == old(pieces[index].peers)
    {
      hide Shape.PieceLength, Shape.Pieces, Touched;
      assert View().pieces[index] == Abs(pieces[index]);
      peers := pieces[index].peers;
      Put(index, pieces[index].(peers := []));
      if !ok {
        SetState(index, Busy, Incomplete);
        if pieces[index].data.Some? {
          Free(index);
        }
        return false, peers;
      }
      SetState(index, Busy, Complete);
      done := true;
    }

    /** Models the second half of del. */
    method Free(index: nat)
      requires Valid() && index < |pieces| && !pieces[index].status.Busy?
      modifies this
      ensures Valid() && deleted == old(deleted) && View() == Freed(old(View()), index)
    {
      hide Shape.PieceLength, Shape.Pieces, Touched;
      EmptyMembers();
      if pieces[index].status.Complete? {
        SetState(index, Complete, Incomplete);
      }
      Put(index, Record(None, [], pieces[index].status, []));
      count := count - 1;
    }

    /** Models del without force. */
    method Evict(index: nat) returns (done: bool, complete: bool)
      requires Valid() && index < |pieces|
      modifies this
      ensures Valid() && View() == Evicted(old(View()), index)
      ensures |pieces| == |old(pieces)|
      ensures done <==> old(pieces[index].data).Some? && !old(pieces[index].status).Busy?
      ensures complete <==> done && old(pieces[index].status).Complete?
    {
      hide Shape.PieceLength, Shape.Pieces, Touched;
      assert View().pieces[index] == Abs(pieces[index]);
      if pieces[index].data.None? || pieces[index].status.Busy? {
        return false, false;
      }
      done, complete := true, pieces[index].status.Complete?;
      Free(index);
      assert View().pieces[index] == Abs(pieces[index]);
    }

    /** Models Del from piece `from` on, up to where it has to wait for a busy piece. */
    method Clear(from: nat) returns (stuck: Option<nat>)
      requires Valid()
      modifies this
      ensures Valid() && (View(), stuck) == Cleared(old(View()), from)
    {
      hide Shape.PieceLength, Shape.Pieces, Touched, Freed;
      var i := from;
      while i < |pieces|
        invariant Valid() && Cleared(View(), i) == Cleared(old(View()), from)
        decreases |pieces| - i
      {
        assert View().pieces[i] == Abs(pieces[i]);
        if pieces[i].data.Some? {
          if pieces[i].status.Busy? {
            return Some(i);
          }
          Free(i);
        }
        i := i + 1;
      }
      deleted := true;
      stuck := None;
    }

    /** Models ReadAt; None is io.EOF. */
    method ReadAt(n: nat, offset: nat) returns (r: Option<seq<bv8>>)
      requires Valid()
      ensures r == Read(g, View(), offset, n)
    {
      hide Shape.PieceLength, Shape.Pieces, Touched, Sized, Members, PieceOf;
      if offset >= g.length {
        return None;
      }
      Euclid(offset, g.pieceSize);
      var index, begin: nat := PieceOf(g, offset), offset % g.pieceSize;
      OffsetInPieces(g, offset);
      var p := pieces[index];
      assert View().pieces[index] == Abs(p);
      if !p.status.Complete? || p.data.None? || |p.data.value| <= begin {
        return Some([]);
      }
      var v := p.data.value;
      assert v[begin..|v|] == v[begin..];
      r := Some(v[begin..if begin + n <= |v| then begin + n else |v|]);
    }

    /** Models Hole. */
    method Hole(index: nat, offset: nat) returns (o: nat, l: nat)
      requires Valid() && index < |pieces|
      ensures o == NOT_FOUND && l == NOT_FOUND <==>
              !pieces[index].status.Incomplete? ||
              forall c: nat :: offset / CHUNK <= c < g.PieceChunks(index) ==> c in Members(pieces[index].bitmap)
      ensures o != NOT_FOUND || l != NOT_FOUND ==>
              && o % CHUNK == 0 && l > 0 && o + l <= g.PieceLength(index)
              && (l % CHUNK == 0 || o + l == g.PieceLength(index))
              && FirstHole(Members(pieces[index].bitmap), g.PieceChunks(index), offset / CHUNK, o / CHUNK, Touched(l))
    {
      hide Shape.PieceLength, Shape.Pieces, Touched, Members;
      var p := pieces[index];
      assert Sized(g.PieceLength(index), Abs(p));
      if !p.status.Incomplete? {
        return NOT_FOUND, NOT_FOUND;
      }
      var chunks := g.PieceChunks(index);
      var first, count := FindHole(p.bitmap, chunks, offset / CHUNK);
      if first < 0 {
        return NOT_FOUND, NOT_FOUND;
      }
      o := first * CHUNK;
      HoleLength(g.PieceLength(index), first, count);
      if count == chunks {
        l := g.PieceLength(index) - first * CHUNK;
      } else {
        l := count * CHUNK;
      }
    }
  }

  lemma AllIsFull(g: Shape, index: nat, q: Record)
    requires g.pieceSize > 0 && Sized(g.PieceLength(index), Abs(q))
    ensures ExactlyFirst(q.bitmap, g.PieceChunks(index)) <==> Abs(q).have == Below(g.PieceChunks(index))
  {
    var n := g.PieceChunks(index);
    hide Shape.PieceLength, Touched;
    forall c | c in Members(q.bitmap) ensures c in Below(n) { BelowMember(n, c); }
    AllAgreesWithCount(q.bitmap, n);
  }

  lemma OffsetInPieces(g: Shape, offset: nat)
    requires g.pieceSize > 0 && offset < g.length
    ensures PieceOf(g, offset) < g.Pieces()
  {
    Euclid(offset, g.pieceSize);
    Euclid(g.length, g.pieceSize);
    CeilDiv(g.length, g.pieceSize);
    BelowNext(offset / g.pieceSize, g.length / g.pieceSize, g.pieceSize, offset);
    assert offset / g.pieceSize <= g.length / g.pieceSize;
  }

  lemma HoleLength(pl: nat, first: nat, count: nat)
    requires first < Touched(pl) && 0 < count && (count < Touched(pl) ==> first + count < Touched(pl))
    ensures first * CHUNK < pl && first * CHUNK / CHUNK == first && first * CHUNK % CHUNK == 0
    ensures Touched(pl - first * CHUNK) == Touched(pl) - first && Touched(count * CHUNK) == count && count * CHUNK % CHUNK == 0
    ensures first + count < Touched(pl) ==> first * CHUNK + count * CHUNK <= pl
  {
  }
}
