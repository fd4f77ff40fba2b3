/** The torrent's counters as it updates them in place: the code of its handlers, proved to be
    the steps of Swarm. */
module TorrentCounters {
  import opened Geometry
  import opened Bitmap
  import opened Swarm

  /** Members not below n. */
  ghost function From(s: set<nat>, n: nat): set<nat> { set i | i in s && i >= n }

  lemma FromNext(s: set<nat>, n: nat)
    ensures n in s ==> n in From(s, n) && From(s, n) - {n} == From(s, n + 1) && Least(From(s, n)) == n
    ensures n !in s ==> From(s, n) == From(s, n + 1)
  {
    if n in s {
      assert n in From(s, n);
      assert From(s, n) - {n} == From(s, n + 1);
    } else {
      assert From(s, n) == From(s, n + 1);
    }
  }

  lemma FromStep(a: seq<nat>, s: set<nat>, n: nat, have: bool)
    ensures NoteBitmap(a, From(s, n), have) ==
            NoteBitmap(if n in s then NoteAvailable(a, n, have) else a, From(s, n + 1), have)
  {
    FromNext(s, n);
    hide NoteAvailable, From;
  }

  lemma {:induction false} NoteRangeStep(a: seq<nat>, first: nat, n: nat, have: bool)
    requires first + n < |a|
    ensures var b := NoteRange(a, first, n, have);
            NoteRange(a, first, n + 1, have) == b[first + n := Note8(b[first + n], have)]
  {
    hide Note8;
    var b := NoteRange(a, first, n, have);
    var l, r := NoteRange(a, first, n + 1, have), b[first + n := Note8(b[first + n], have)];
    forall c | 0 <= c < |a| ensures l[c] == r[c] {}
  }

  lemma NoteNone(a: seq<nat>, first: nat, have: bool)
    requires first <= |a|
    ensures NoteRange(a, first, 0, have) == a
  {
  }

  class Counters {
    const inFlight: array<nat>
    var available: seq<nat>

    constructor (chunks: nat)
      ensures inFlight.Length == chunks && fresh(inFlight) && available == []
      ensures inFlight[..] == seq(chunks, i => 0)
    {
      inFlight := new nat[chunks](i => 0);
      available := [];
    }

    /** Models noteInFlight. */
    method NoteInFlight(i: nat, have: bool)
      requires i < inFlight.Length
      modifies inFlight
      ensures inFlight[..] == old(inFlight[..])[i := Note8(old(inFlight[i]), have)]
    {
      if have {
        if inFlight[i] >= 255 {
          return;
        }
        inFlight[i] := inFlight[i] + 1;
      } else {
        if inFlight[i] <= 0 {
          return;
        }
        inFlight[i] := inFlight[i] - 1;
      }
    }

    /** Notes n chunks from `first` on. */
    method NoteChunks(first: nat, n: nat, have: bool)
      requires first + n <= inFlight.Length
      modifies inFlight
      ensures inFlight[..] == NoteRange(old(inFlight[..]), first, n, have)
    {
      hide NoteRange, Note8;
      NoteNone(inFlight[..], first, have);
      var i := 0;
      while i < n
        invariant 0 <= i <= n && inFlight[..] == NoteRange(old(inFlight[..]), first, i, have)
      {
        NoteRangeStep(old(inFlight[..]), first, i, have);
        NoteInFlight(first + i, have);
        i := i + 1;
      }
    }

    /** Models the TorData and TorDrop handlers' part on counters, and the chunks for which
        TorData then sends a PeerCancel. */
    method Land(g: Shape, index: nat, begin: nat, length: nat) returns (cancels: seq<nat>)
      requires index * g.Cpp() + begin / CHUNK + length / CHUNK <= inFlight.Length
      modifies inFlight
      ensures inFlight[..] == Landed(g, old(inFlight[..]), index, begin, length)
      ensures forall c :: c in cancels <==> 0 <= c < inFlight.Length && Covers(g, index, begin, length, c) && inFlight[c] > 0
    {
      cancels := [];
      if begin % CHUNK != 0 {
        return;
      }
      if begin + length > g.pieceSize {
        return;
      }
      var first, n := index * g.Cpp() + begin / CHUNK, length / CHUNK;
      assert forall c: nat :: Covers(g, index, begin, length, c) <==> first <= c < first + n;
      hide Shape.Cpp, Note8, Covers;
      NoteChunks(first, n, false);
      cancels := Wanted(first, n);
    }

    /** The chunks of a range for which requests are left. */
    method Wanted(first: nat, n: nat) returns (chunks: seq<nat>)
      requires first + n <= inFlight.Length
      ensures forall c :: c in chunks <==> first <= c < first + n && inFlight[c] > 0
    {
      chunks := [];
      var i := 0;
      while i < n
        invariant 0 <= i <= n
        invariant forall c :: c in chunks <==> first <= c < first + i && inFlight[c] > 0
      {
        if inFlight[first + i] > 0 {
          chunks := chunks + [first + i];
        }
        i := i + 1;
      }
    }

    /** Models request, once the peer has taken the event. */
    method Ask(chunks: seq<nat>)
      requires forall k :: 0 <= k < |chunks| ==> chunks[k] < inFlight.Length
      modifies inFlight
      ensures inFlight[..] == NoteList(old(inFlight[..]), chunks)
    {
      var k := 0;
      while k < |chunks|
        invariant 0 <= k <= |chunks| && inFlight[..] == NoteList(old(inFlight[..]), chunks[..k])
      {
        assert chunks[..k + 1][..k] == chunks[..k];
        NoteInFlight(chunks[k], true);
        k := k + 1;
      }
      assert chunks[..|chunks|] == chunks;
    }

    /** Models the marking loop of maybeWebseed. */
    method MarkWebseed(g: Shape, index: nat, offset: nat, length: nat)
      requires offset % CHUNK == 0 && index * g.Cpp() + offset / CHUNK + Touched(length) <= inFlight.Length
      modifies inFlight
      ensures inFlight[..] == NoteRange(old(inFlight[..]), index * g.Cpp() + offset / CHUNK, Touched(length), true)
    {
      hide NoteRange, Note8, Shape.Cpp;
      var cpp := g.Cpp();
      ghost var first := index * cpp + offset / CHUNK;
      NoteNone(inFlight[..], first, true);
      assert Touched(0) == 0;
      var i := 0;
      while i < length
        invariant i % CHUNK == 0 && Touched(i) <= Touched(length)
        invariant inFlight[..] == NoteRange(old(inFlight[..]), first, Touched(i), true)
      {
        NextChunk(offset, i, length);
        NoteRangeStep(old(inFlight[..]), first, Touched(i), true);
        NoteInFlight(index * cpp + (offset + i) / CHUNK, true);
        i := i + CHUNK;
      }
      LastChunk(i, length);
    }

    /** Models noteAvailable. */
    method NoteOne(i: nat, have: bool)
      modifies this`available
      ensures available == NoteAvailable(old(available), i, have)
    {
      if |available| <= i {
        available := available + seq(i - |available| + 1, k => 0);
      }
      if have {
        if available[i] >= 65535 {
          return;
        }
        available := available[i := available[i] + 1];
      } else {
        if available[i] <= 0 {
          return;
        }
        available := available[i := available[i] - 1];
      }
    }

    /** Models the TorPeerBitmap handler, over the bitmap's bytes. */
    method NoteAll(b: seq<bv8>, have: bool)
      modifies this`available
      ensures available == NoteBitmap(old(available), Members(b), have)
    {
      hide NoteBitmap, NoteAvailable, Members, Get, From;
      ghost var s := Members(b);
      FromAll(b);
      var i := 0;
      while i < 8 * |b|
        invariant NoteBitmap(available, From(s, i), have) == NoteBitmap(old(available), s, have)
        invariant i <= 8 * |b|
      {
        FromStep(available, s, i, have);
        MembersGet(b, i);
        if Get(b, i) {
          NoteOne(i, have);
        }
        i := i + 1;
      }
      NoneLeft(available, have);
    }
  }

  lemma FromAll(b: seq<bv8>)
    ensures From(Members(b), 0) == Members(b) && From(Members(b), 8 * |b|) == {}
  {
  }

  lemma NoneLeft(a: seq<nat>, have: bool)
    ensures NoteBitmap(a, {}, have) == a
  {
  }

  lemma NextChunk(offset: nat, i: nat, length: nat)
    requires offset % CHUNK == 0 && i % CHUNK == 0 && i < length
    ensures (offset + i) / CHUNK == offset / CHUNK + Touched(i) && Touched(i + CHUNK) == Touched(i) + 1 <= Touched(length)
  {
  }

  lemma LastChunk(i: nat, length: nat)
    requires i >= length && Touched(i) <= Touched(length)
    ensures Touched(i) == Touched(length)
  {
  }
}
