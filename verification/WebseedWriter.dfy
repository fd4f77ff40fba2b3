/** The writer through which a webseed delivers a range of one piece.

It hands data to the store in whole chunks and keeps the rest in a buffer.  What the store
accepts is up to the store: it is a parameter of every call here. */
module WebseedWriter {
  import opened Options

  datatype Event = TorData(index: nat, offset: nat, length: nat) | TorDrop(index: nat, offset: nat, length: nat)

  /** Consecutive non-empty ranges from a to b. */
  ghost predicate Tiles(events: seq<Event>, index: nat, a: nat, b: nat)
    decreases |events|
  {
    if events == [] then a == b
    else
      var e := events[|events| - 1];
      e.index == index && e.length > 0 && e.offset + e.length == b && Tiles(events[..|events| - 1], index, a, e.offset)
  }

  function Covers(e: Event, x: nat): nat { if e.offset <= x < e.offset + e.length then 1 else 0 }

  ghost function TimesCovered(events: seq<Event>, x: nat): nat
  {
    if events == [] then 0 else TimesCovered(events[..|events| - 1], x) + Covers(events[|events| - 1], x)
  }

  /** Tiles cover every offset of the range exactly once, and no other. */
  lemma {:induction false} TilesCoverOnce(events: seq<Event>, index: nat, a: nat, b: nat, x: nat)
    requires Tiles(events, index, a, b)
    ensures a <= b && TimesCovered(events, x) == if a <= x < b then 1 else 0
    decreases |events|
  {
    if events != [] {
      TilesCoverOnce(events[..|events| - 1], index, a, events[|events| - 1].offset, x);
    }
  }

  lemma TilesSnoc(events: seq<Event>, index: nat, a: nat, b: nat, e: Event)
    requires Tiles(events, index, a, b) && e.index == index && e.offset == b && e.length > 0
    ensures Tiles(events + [e], index, a, b + e.length)
  {
    assert (events + [e])[..|events|] == events;
  }

  /** Data passed to AddData, and where. */
  datatype Offer = Offer(offset: nat, data: seq<bv8>)

  /** The data offered are the stream's bytes for that offset. */
  ghost predicate Fits(o: Offer, start: nat, stream: seq<bv8>)
  {
    && start <= o.offset && o.offset - start + |o.data| <= |stream|
    && o.data == stream[o.offset - start..o.offset - start + |o.data|]
  }

  lemma FitsMore(o: Offer, start: nat, stream: seq<bv8>, more: seq<bv8>)
    requires Fits(o, start, stream)
    ensures Fits(o, start, stream + more)
  {
    assert (stream + more)[o.offset - start..o.offset - start + |o.data|] == stream[o.offset - start..o.offset - start + |o.data|];
  }

  ghost predicate AllFit(offers: seq<Offer>, start: nat, stream: seq<bv8>)
  {
    forall i :: 0 <= i < |offers| ==> Fits(offers[i], start, stream)
  }

  lemma AllFitMore(offers: seq<Offer>, start: nat, stream: seq<bv8>, more: seq<bv8>)
    requires AllFit(offers, start, stream)
    ensures AllFit(offers, start, stream + more)
  {
    forall i | 0 <= i < |offers| ensures Fits(offers[i], start, stream + more) { FitsMore(offers[i], start, stream, more); }
  }

  datatype WriteError = Closed | ShortWrite | StoreError | EndOfFile | ReadError

  function Min(a: nat, b: nat): nat { if a <= b then a else b }

  /** One round of ReadFrom: how much the source gives, the error that comes with it, how much
      the store accepts, and whether it reports an error. */
  datatype Turn = Turn(size: nat, er: Option<WriteError>, accept: nat, refuse: bool)

  const WINDOW: nat := 32768

  /** The bounds of the slice a round of ReadFrom reads into are in order if and only if no more
      than the window is buffered. */
  lemma SliceInRange(buffered: nat, count: nat)
    requires buffered <= count
    ensures buffered <= Min(WINDOW, count) <==> buffered <= WINDOW
  {
  }

  /** A Write of which the store takes nothing, as it does while the piece is hashed, is all
      buffered, however long it is. */
  method Overfill(index: nat, offset: nat, p: seq<bv8>) returns (w: Writer)
    ensures fresh(w) && w.Valid() && w.open && w.buf == p
  {
    hide Tiles, AllFit;
    w := new Writer(index, offset, |p|);
    var n, err := w.Write(p, 0, false);
    assert [] + p[..n] == p;
  }

  /** So the bound is not idle: a writer of which the next ReadFrom panics. */
  method OverfullPanics(index: nat, offset: nat, p: seq<bv8>, src: seq<bv8>, turns: seq<Turn>) returns (panicked: bool)
    requires |p| > WINDOW && turns != []
    ensures panicked
  {
    hide Tiles, AllFit;
    var w := Overfill(index, offset, p);
    var n, err;
    n, err, panicked := w.ReadFrom(src, turns);
  }

  class Writer {
    const index: nat
    var offset: nat
    var count: nat
    var buf: seq<bv8>
    var open: bool
    var events: seq<Event>
    ghost const start: nat
    ghost const total: nat
    ghost var stream: seq<bv8>
    ghost var offers: seq<Offer>

    /** While open: the events so far tile the range up to `offset`, the buffer is what of the
        stream has not been accepted, and there is room left for it. */
    ghost predicate Valid()
      reads this
    {
      && Tiles(events, index, start, if open then offset else start + total)
      && AllFit(offers, start, stream)
      && (open ==> offset + count == start + total && start <= offset <= start + |stream|
                   && buf == stream[offset - start..] && |buf| <= count)
    }

    /** Models NewWriter. */
    constructor (index: nat, offset: nat, length: nat)
      ensures Valid() && open && this.index == index && start == offset && total == length && stream == [] && events == []
      ensures this.offset == offset && count == length && buf == []
    {
      this.index, this.offset, count, buf, open, events := index, offset, length, [], true, [];
      start, total, stream, offers := offset, length, [], [];
    }

    /** Models write: `accept` is what AddData would take. */
    method Feed(data: seq<bv8>, accept: nat) returns (n: nat)
      requires Tiles(events, index, start, offset) && AllFit(offers, start, stream)
      requires |data| <= count && start <= offset <= start + |stream| && data == stream[offset - start..]
      modifies this`offset, this`count, this`events, this`offers
      ensures n == Min(accept, |data|) && offset == old(offset) + n && count == old(count) - n
      ensures Tiles(events, index, start, offset) && AllFit(offers, start, stream)
      ensures offers == old(offers) + [Offer(old(offset), data)]
      ensures events == if n > 0 then old(events) + [TorData(index, old(offset), n)] else old(events)
    {
      ghost var o := Offer(offset, data);
      assert stream[offset - start..offset - start + |data|] == stream[offset - start..];
      assert Fits(o, start, stream);
      offers := offers + [o];
      n := Min(accept, |data|);
      if n > 0 {
        TilesSnoc(events, index, start, offset, TorData(index, offset, n));
        events := events + [TorData(index, offset, n)];
        count := count - n;
        offset := offset + n;
      }
    }

    /** What Write and ReadFrom do with new data: offer it after what is buffered, and buffer
        what is not accepted. */
    method Take(more: seq<bv8>, accept: nat)
      requires Valid() && open && |buf| + |more| <= count
      modifies this
      ensures Valid() && open && stream == old(stream) + more
      ensures Took(old(offset), old(count), old(buf), old(events), more, accept)
      ensures offers == old(offers) + [Offer(old(offset), old(buf) + more)]
    {
      hide Tiles, Fits;
      var data := buf + more;
      AllFitMore(offers, start, stream, more);
      stream := stream + more;
      assert data == stream[offset - start..];
      var n := Feed(data, accept);
      buf := data[n..];
      assert buf == stream[offset - start..];
    }

    /** Models Write; `accept` is what AddData would take. */
    method Write(p: seq<bv8>, accept: nat, refuse: bool) returns (n: nat, err: Option<WriteError>)
      requires Valid()
      modifies this
      ensures Valid() && open == old(open)
      ensures !open ==> n == 0 && err == Some(Closed) && Untouched(old(offset), old(count), old(buf), old(events), old(stream))
      ensures open ==> n == Min(|p|, old(count) - old(|buf|)) && stream == old(stream) + p[..n]
      ensures open ==> Took(old(offset), old(count), old(buf), old(events), p[..n], accept)
      ensures open ==> (err.None? <==> n == |p| && !refuse)
    {
      if !open {
        return 0, Some(Closed);
      }
      var max := count - |buf|;
      var q := if |p| > max then p[..max] else p;
      assert p[..|q|] == q;
      Take(q, accept);
      n, err := |q|, if refuse then Some(StoreError) else if |q| < |p| then Some(ShortWrite) else None;
    }

    /** The whole state after data has been taken in: the store has accepted so much of what was
        buffered and new, and the rest is buffered. */
    ghost predicate Took(offset0: nat, count0: nat, buf0: seq<bv8>, events0: seq<Event>, more: seq<bv8>, accept: nat)
      reads this
    {
      var data := buf0 + more;
      var m := Min(accept, |data|);
      && buf == data[m..] && offset == offset0 + m && count + m == count0
      && events == if m > 0 then events0 + [TorData(index, offset0, m)] else events0
    }

    ghost predicate Untouched(offset0: nat, count0: nat, buf0: seq<bv8>, events0: seq<Event>, stream0: seq<bv8>)
      reads this
    {
      offset == offset0 && count == count0 && buf == buf0 && events == events0 && stream == stream0
    }

    /** Models ReadFrom: the source holds `src`, of which the first n bytes are read.  Slicing the
        buffer from its length up to the window panics if the buffer is longer than that. */
    method ReadFrom(src: seq<bv8>, turns: seq<Turn>) returns (n: nat, err: Option<WriteError>, panicked: bool)
      requires Valid()
      modifies this
      ensures Valid() && open == old(open)
      ensures !open ==> n == 0 && err == Some(Closed)
      ensures !open || panicked ==> Untouched(old(offset), old(count), old(buf), old(events), old(stream))
      ensures panicked <==> open && turns != [] && old(|buf|) > WINDOW
      ensures open && !panicked ==> n <= |src| && stream == old(stream) + src[..n]
      ensures open && !panicked && turns != [] ==> |buf| <= WINDOW
    {
      hide Tiles, AllFit;
      panicked := false;
      if !open {
        return 0, Some(Closed), false;
      }
      n, err := 0, None;
      var k := 0;
      assert stream == old(stream) + src[..0];
      while k < |turns|
        invariant 0 <= k <= |turns| && Valid() && open && n <= |src| && !panicked
        invariant stream == old(stream) + src[..n]
        invariant if k == 0 then Untouched(old(offset), old(count), old(buf), old(events), old(stream)) && n == 0
                  else |buf| <= WINDOW && old(|buf|) <= WINDOW
      {
        var turn := turns[k];
        var max := Min(WINDOW, count);
        SliceInRange(|buf|, count);
        if |buf| > max {
          panicked := true;
          return;
        }
        var got := Min(Min(turn.size, max - |buf|), |src| - n);
        if got == 0 {
          err := turn.er;
          break;
        }
        assert old(stream) + src[..n] + src[n..n + got] == old(stream) + src[..n + got];
        Take(src[n..n + got], turn.accept);
        n := n + got;
        k := k + 1;
        if turn.er.Some? {
          if turn.er != Some(EndOfFile) {
            err := turn.er;
          }
          break;
        }
        if turn.refuse {
          err := Some(StoreError);
          break;
        }
      }
    }

    /** Models Close: afterwards the events tile the whole range. */
    method Close() returns (err: Option<WriteError>)
      requires Valid()
      modifies this
      ensures Valid() && !open && stream == old(stream)
      ensures old(open) ==> err == None && count == 0 && Tiles(events, index, start, start + total)
      ensures old(open) ==> events == if old(count) > 0 then old(events) + [TorDrop(index, old(offset), old(count))] else old(events)
      ensures !old(open) ==> err == Some(Closed) && events == old(events)
    {
      if !open {
        return Some(Closed);
      }
      if count > 0 {
        TilesSnoc(events, index, start, offset, TorDrop(index, offset, count));
        events := events + [TorDrop(index, offset, count)];
        count := 0;
      }
      open := false;
      err := None;
    }
  }
}
