/** A peer as it updates itself in place: the code of its handlers, proved to be the moves of
    Swarm.  The request lists and bitmaps are the concrete ones. */
module PeerMachine {
  import opened Geometry
  import opened Bitmap
  import opened Options
  import opened Swarm
  import R = Requests

  ghost function Bits(b: Option<seq<bv8>>): Option<set<nat>> { if b.Some? then Some(Members(b.value)) else None }

  lemma {:induction false} NumbersBag(s: seq<R.Request>)
    requires R.NoDup(s)
    ensures multiset(R.Numbers(s)) == multiset(R.Indices(s))
    decreases |s|
  {
    if s != [] {
      var n := |s| - 1;
      var t := s[..n];
      NumbersBag(t);
      assert R.Numbers(s) == R.Numbers(t) + [s[n].index];
      assert s == t + [s[n]];
      forall k | k in R.Indices(t) ensures k != s[n].index {}
      R.AppendSpec(t, s[n]);
    }
  }

  /** A request dropped after another: the moves of expireRequests. */
  ghost function ExpireAll(g: Shape, p: Peer, cs: seq<nat>): Peer
    requires g.pieceSize > 0 && g.Cpp() > 0
  {
    if cs == [] then p else Moved(g, ExpireAll(g, p, cs[..|cs| - 1]), Expire(cs[|cs| - 1]))
  }

  class Machine {
    const g: Shape
    const id: nat
    const requests: R.Requests
    const canFast: bool
    var phase: Phase
    var info: bool
    var isSeed: bool
    var bitmap: Option<seq<bv8>>
    var inbox: seq<PeerEvent>
    var out: seq<TorEvent>

    ghost function View(): Peer
      reads this, requests
    {
      Peer(id, phase, info, canFast, isSeed, Bits(bitmap), R.Indices(requests.queue), R.Indices(requests.requested), inbox, out)
    }

    ghost predicate Valid()
      reads this, requests, requests.bitmap
    {
      g.pieceSize > 0 && g.Cpp() > 0 && requests.Valid()
    }

    constructor (g: Shape, id: nat, info: bool, canFast: bool)
      requires g.pieceSize > 0 && g.Cpp() > 0
      ensures Valid() && fresh(requests) && fresh(requests.bitmap) && this.g == g
      ensures View() == Peer(id, Running, info, canFast, false, None, {}, {}, [], [])
    {
      this.g, this.id, this.info, this.canFast := g, id, info, canFast;
      requests := new R.Requests();
      phase, isSeed, bitmap, inbox, out := Running, false, None, [], [];
    }

    /** Models Get on a bitmap that may be nil. */
    predicate Has(i: nat)
      reads this
    {
      bitmap.Some? && Get(bitmap.value, i)
    }

    /** Models drop. */
    method DropChunk(c: nat)
      requires Valid()
      modifies this`out
      ensures Valid() && View() == Drop(g, old(View()), c)
    {
      var (i, b) := g.FromChunk(c);
      out := out + [TorDrop(i, b, CHUNK)];
    }

    /** Drops a list of chunks, in order. */
    method DropList(cs: seq<nat>)
      requires Valid()
      modifies this`out
      ensures Valid() && View() == DropAll(g, old(View()), cs)
    {
      hide Drop;
      var k := 0;
      while k < |cs|
        invariant 0 <= k <= |cs| && Valid() && View() == DropAll(g, old(View()), cs[..k])
      {
        assert cs[..k + 1][..k] == cs[..k];
        DropChunk(cs[k]);
        k := k + 1;
      }
      assert cs[..|cs|] == cs;
    }

    /** One chunk of a PeerRequest. */
    method AcceptChunk(c: nat, now: int)
      requires Valid()
      modifies this`out, requests, requests.bitmap
      ensures Valid() && View() == Accept(g, old(View()), c)
    {
      hide Drop, Shape.FromChunk;
      var done := false;
      var (i, b) := g.FromChunk(c);
      if bitmap.Some? { MembersGet(bitmap.value, i); }
      if Has(i) {
        ghost var q := requests.queue;
        done := requests.Enqueue(c, now);
        R.AppendIndices(q, R.Request(c, now, None, None));
      }
      if !done {
        DropChunk(c);
      }
    }

    /** Models the PeerRequest handler. */
    method AcceptList(cs: seq<nat>, now: int)
      requires Valid()
      modifies this`out, requests, requests.bitmap
      ensures Valid() && View() == AcceptAll(g, old(View()), cs)
    {
      hide Accept;
      var k := 0;
      while k < |cs|
        invariant 0 <= k <= |cs| && Valid() && View() == AcceptAll(g, old(View()), cs[..k])
      {
        assert cs[..k + 1][..k] == cs[..k];
        AcceptChunk(cs[k], now);
        k := k + 1;
      }
      assert cs[..|cs|] == cs;
    }

    /** Models cancel. */
    method Cancel(c: nat, now: int)
      requires Valid()
      modifies this`out, requests, requests.bitmap
      ensures Valid() && View() == CancelChunk(g, old(View()), c)
    {
      hide Drop;
      ghost var was := View();
      var found, send := requests.Cancel(c, now);
      assert View() == was;
      if found {
        return;
      }
      var q, r, tm := requests.DelAny(c, false);
      assert was.sent - {c} == was.sent && (c !in was.queue ==> was.queue - {c} == was.queue);
      assert View() == was.(queue := was.queue - {c});
      if q || r {
        DropChunk(c);
      }
    }

    /** Models the PeerCancelPiece handler. */
    method CancelAll(index: nat, now: int)
      requires Valid()
      modifies this`out, requests, requests.bitmap
      ensures Valid() && View() == CancelPiece(g, old(View()), index, g.Cpp())
    {
      hide CancelChunk, Shape.Cpp;
      var cpp := g.Cpp();
      var i := 0;
      while i < cpp
        invariant 0 <= i <= cpp && Valid() && View() == CancelPiece(g, old(View()), index, i)
      {
        Cancel((index * cpp + i) % U32, now);
        i := i + 1;
      }
    }

    /** Models the Choke handler. */
    method ChokeMessage() returns (order: seq<nat>)
      requires Valid()
      modifies this`out, requests, requests.bitmap
      ensures Valid() && Lists(order, Choked(old(View()))) && View() == HandleMessage(g, old(View()), Choke(order))
    {
      hide DropAll, Shape.ToChunk, Shape.Pieces, Drop, Lists;
      ghost var was := View();
      ListsBoth(requests.queue, requests.requested);
      order := requests.Clear(!canFast);
      assert [] + R.Numbers(old(requests.queue)) == R.Numbers(old(requests.queue));
      NoIndices();
      assert View() == was.(queue := {}, sent := if canFast then was.sent else {});
      DropList(order);
    }

    /** Models the RejectRequest handler. */
    method RejectMessage(index: nat, begin: nat)
      requires Valid()
      modifies this, requests, requests.bitmap
      ensures Valid() && View() == HandleMessage(g, old(View()), RejectRequest(index, begin))
    {
      hide Drop, Shape.ToChunk;
      if !canFast {
        phase := Closing;
        return;
      }
      if !info {
        phase := Closing;
        return;
      }
      ghost var was := View();
      var c := g.ToChunk(index, begin);
      var q, r, tm := requests.DelAny(c, true);
      assert was.queue - {} == was.queue && (c !in was.sent ==> was.sent - {c} == was.sent);
      assert View() == was.(sent := was.sent - {c});
      if r {
        DropChunk(c);
      }
    }

    /** Models the Piece handler; `accepted` is what AddData took of the data. */
    method PieceMessage(index: nat, begin: nat, length: nat, accepted: nat)
      requires Valid()
      modifies this, requests, requests.bitmap
      ensures Valid() && View() == HandleMessage(g, old(View()), Piece(index, begin, length, accepted))
    {
      hide Drop, Shape.ToChunk, Shape.Pieces;
      if !info {
        phase := Closing;
        return;
      }
      if index >= g.Pieces() {
        phase := Closing;
        return;
      }
      ghost var was := View();
      var c := g.ToChunk(index, begin);
      var q, r, tm := requests.DelAny(c, false);
      assert c !in was.sent ==> was.sent - {c} == was.sent;
      assert c !in was.queue ==> was.queue - {c} == was.queue;
      assert View() == Del(was, c);
      if r || q {
        if accepted == length {
          out := out + [TorData(index, begin, length)];
        } else {
          DropChunk(c);
        }
      }
    }

    /** Models the Have handler. */
    method HaveMessage(index: nat)
      requires Valid()
      modifies this
      ensures Valid() && View() == HandleMessage(g, old(View()), Have(index))
    {
      hide Shape.Pieces;
      if info && index >= g.Pieces() {
        phase := Closing;
        return;
      }
      var b := if bitmap.Some? then bitmap.value else [];
      EmptyMembers();
      MembersGet(b, index);
      if !Get(b, index) {
        SetAdds(b, index);
        bitmap := Some(WithBit(b, index));
        out := out + [TorPeerHave(id, index, true)];
      }
    }

    /** Takes back the bitmap the torrent was told about, if any. */
    method Forget()
      requires Valid()
      modifies this`out, this`bitmap
      ensures Valid() && View() == ForgetBitmap(old(View()))
    {
      if bitmap.Some? {
        out := out + [TorPeerBitmap(id, MembersOf(bitmap.value), false)];
        bitmap := None;
      }
    }

    /** Models the Bitfield handler. */
    method BitfieldMessage(bits: seq<bv8>)
      requires Valid()
      modifies this
      ensures Valid() && View() == HandleMessage(g, old(View()), Bitfield(Members(bits)))
    {
      hide Shape.Pieces, Members;
      var n := Len(bits);
      LenFits(bits, n, g.Pieces());
      if info && n > g.Pieces() {
        phase := Closing;
        return;
      }
      Forget();
      bitmap := Some(bits);
      out := out + [TorPeerBitmap(id, MembersOf(bits), true)];
    }

    /** The bitmap of a seed. */
    method Everything() returns (b: seq<bv8>)
      requires Valid()
      ensures Members(b) == Below(g.Pieces())
    {
      var m := new Bitmap();
      m.SetMultiple(g.Pieces());
      b := m.b;
    }

    /** Models the HaveAll handler. */
    method HaveAllMessage()
      requires Valid()
      modifies this
      ensures Valid() && View() == HandleMessage(g, old(View()), HaveAll)
    {
      hide Shape.Pieces, Members;
      if !canFast {
        phase := Closing;
        return;
      }
      Forget();
      isSeed := true;
      if info {
        var b := Everything();
        bitmap := Some(b);
        out := out + [TorPeerBitmap(id, MembersOf(b), true)];
      }
    }

    /** Models the HaveNone handler. */
    method HaveNoneMessage()
      requires Valid()
      modifies this
      ensures Valid() && View() == HandleMessage(g, old(View()), HaveNone)
    {
      if !canFast {
        phase := Closing;
        return;
      }
      Forget();
      isSeed := false;
    }

    /** Models the ExtendedDontHave handler. */
    method DontHaveMessage(index: nat)
      requires Valid()
      modifies this
      ensures Valid() && View() == HandleMessage(g, old(View()), DontHave(index))
    {
      hide Shape.Pieces;
      if isSeed && !info {
        phase := Closing;
        return;
      }
      isSeed := false;
      if info && index >= g.Pieces() {
        phase := Closing;
        return;
      }
      if bitmap.Some? { MembersGet(bitmap.value, index); }
      if Has(index) {
        ResetRemoves(bitmap.value, index);
        bitmap := Some(WithoutBit(bitmap.value, index));
        out := out + [TorPeerHave(id, index, false)];
      }
    }

    /** Models the PeerMetadataComplete handler. */
    method MetadataComplete()
      requires Valid()
      modifies this
      ensures Valid() && View() == HandleEvent(g, old(View()), PeerMetadataComplete)
    {
      hide Shape.Pieces, Members;
      if info {
        phase := Closing;
        return;
      }
      info := true;
      if isSeed {
        if bitmap.Some? {
          phase := Closing;
          return;
        }
        var b := Everything();
        bitmap := Some(b);
        out := out + [TorPeerBitmap(id, MembersOf(b), true)];
      } else {
        var b := if bitmap.Some? then bitmap.value else [];
        EmptyMembers();
        var n := Len(b);
        LenFits(b, n, g.Pieces());
        if n > g.Pieces() {
          phase := Closing;
        }
      }
    }

    /** Models one round of maybeRequest; `writable` says whether the request may be sent to this
        peer now and the write succeeds. */
    method SendNext(writable: bool, now: int) returns (c: nat, sent: bool)
      requires Valid() && requests.queue != []
      modifies this`out, requests, requests.bitmap
      ensures Valid() && c in old(View()).queue && View() == SendRequest(g, old(View()), c, sent)
      ensures sent <==> writable && g.FromChunk(c).0 in Pieces(old(View()))
    {
      hide Drop, Shape.FromChunk;
      ghost var was := View();
      R.TailIndices(requests.queue);
      var q := requests.Dequeue();
      c := q.index;
      assert View() == was.(queue := was.queue - {c});
      var (i, b) := g.FromChunk(c);
      if bitmap.Some? { MembersGet(bitmap.value, i); }
      if !writable || !Has(i) {
        DropChunk(c);
        return c, false;
      }
      R.AppendIndices(requests.requested, q.(ctime := None, rtime := Some(now)));
      requests.EnqueueRequest(q, now);
      sent := true;
    }

    /** Models expireRequests: exactly the requests cancelled before t1 are dropped, each once, as
        if by so many moves. */
    method ExpireRequests(t0: int, t1: int, now: int) returns (drops: seq<nat>)
      requires Valid()
      modifies this`out, requests, requests.bitmap
      ensures Valid() && View() == ExpireAll(g, old(View()), drops)
      ensures forall r :: r in old(requests.requested) ==> (r.index in drops <==> R.Lapsed(r, t1))
      ensures forall c :: c in drops ==> c in old(View()).sent
      ensures forall i, j :: 0 <= i < j < |drops| ==> drops[i] != drops[j]
    {
      hide DropAll, Drop, R.Lapsed;
      ghost var was := View();
      var dropped, cancels;
      ghost var kept, gone;
      ghost var sent := requests.requested;
      dropped, drops, cancels, kept, gone := requests.Expire(t0, t1, now);
      SplitIndices(sent, kept, gone);
      R.SameIndices(kept, requests.requested);
      NumbersSet(gone);
      GoneExactly(sent, kept, gone, t1);
      assert View() == was.(sent := was.sent - set c | c in drops);
      DropList(drops);
      ExpireIsDrop(g, was, drops);
    }

    /** Models the deferred function of Run, up to the delivery of the events. */
    method ShutDown() returns (order: seq<nat>)
      requires Valid()
      modifies this, requests, requests.bitmap
      ensures Valid() && Lists(order, old(View()).queue + old(View()).sent)
      ensures View() == Shutdown(g, old(View()), order)
    {
      hide DropAll;
      ghost var was := View();
      ListsBoth(requests.queue, requests.requested);
      order := requests.Clear(true);
      NoIndices();
      assert was.sent + was.queue == was.queue + was.sent;
      var b := bitmap;
      phase := Dead;
      bitmap := None;
      assert View() == was.(phase := Dead, queue := {}, sent := {}, bitmap := None);
      DropList(order);
      EmptyMembers();
      out := out + [TorPeerBitmap(id, MembersOf(if b.Some? then b.value else []), false)];
      out := out + [TorPeerGoaway(id)];
    }
  }

  /** The set in a TorPeerBitmap event is that of the bitmap copied into it. */
  function MembersOf(b: seq<bv8>): (s: set<nat>)
    ensures s == Members(b)
  {
    set i: nat | i < 8 * |b| && Get(b, i)
  }

  lemma NoIndices()
    ensures R.Indices([]) == {}
  {
  }

  lemma LenFits(b: seq<bv8>, n: nat, m: nat)
    requires (forall i :: i in Members(b) ==> i < n) && (n > 0 ==> n - 1 in Members(b))
    ensures n <= m <==> Members(b) <= Below(m)
  {
    hide Members;
    if n <= m {
      forall i | i in Members(b) ensures i in Below(m) { BelowMember(m, i); }
    } else {
      BelowMember(m, n - 1);
    }
  }

  lemma ListsBoth(queue: seq<R.Request>, sent: seq<R.Request>)
    requires R.NoDup(queue) && R.NoDup(sent) && R.Indices(queue) !! R.Indices(sent)
    ensures Lists(R.Numbers(queue), R.Indices(queue))
    ensures Lists(R.Numbers(sent) + R.Numbers(queue), R.Indices(queue) + R.Indices(sent))
  {
    NumbersBag(queue);
    NumbersBag(sent);
    hide R.Numbers, R.Indices;
    var a, b := R.Indices(queue), R.Indices(sent);
    assert multiset(a + b) == multiset(a) + multiset(b);
  }

  lemma NumbersSet(s: seq<R.Request>)
    ensures (set c | c in R.Numbers(s)) == R.Indices(s)
  {
    var t := set c | c in R.Numbers(s);
    forall c | c in R.Indices(s) ensures c in t {
      var i :| 0 <= i < |s| && s[i].index == c;
      assert R.Numbers(s)[i] == c;
    }
    forall c | c in t ensures c in R.Indices(s) {
      var i :| 0 <= i < |s| && R.Numbers(s)[i] == c;
      assert s[i].index == c;
    }
  }

  /** Of a list without duplicates, what is not kept is gone. */
  lemma SplitIndices(s: seq<R.Request>, kept: seq<R.Request>, gone: seq<R.Request>)
    requires R.NoDup(s) && multiset(kept) + multiset(gone) == multiset(s)
    ensures R.Indices(kept) == R.Indices(s) - R.Indices(gone) && R.Indices(gone) <= R.Indices(s)
  {
    forall i | 0 <= i < |gone| ensures gone[i] in s { assert gone[i] in multiset(gone); assert gone[i] in multiset(s); }
    forall i | 0 <= i < |kept| ensures kept[i] in s { assert kept[i] in multiset(kept); assert kept[i] in multiset(s); }
    forall c | c in R.Indices(kept) ensures c in R.Indices(s) && c !in R.Indices(gone) {
      var i :| 0 <= i < |kept| && kept[i].index == c;
      forall j | 0 <= j < |gone| ensures gone[j].index != c { OnceOnly(s, kept, gone, i, j); }
    }
    forall c | c in R.Indices(s) ensures c in R.Indices(kept) || c in R.Indices(gone) {
      var i :| 0 <= i < |s| && s[i].index == c;
      assert s[i] in multiset(s);
      assert s[i] in multiset(kept) + multiset(gone);
      if s[i] in gone {
        var j :| 0 <= j < |gone| && gone[j] == s[i];
        assert gone[j].index in R.Indices(gone);
      } else {
        var j :| 0 <= j < |kept| && kept[j] == s[i];
        assert kept[j].index in R.Indices(kept);
      }
    }
  }

  /** What has gone is exactly what had lapsed, each once. */
  lemma GoneExactly(s: seq<R.Request>, kept: seq<R.Request>, gone: seq<R.Request>, t1: int)
    requires R.NoDup(s) && multiset(kept) + multiset(gone) == multiset(s)
    requires (forall r :: r in kept ==> !R.Lapsed(r, t1)) && (forall r :: r in gone ==> R.Lapsed(r, t1))
    ensures forall r :: r in s ==> (r.index in R.Numbers(gone) <==> R.Lapsed(r, t1))
    ensures forall i, j :: 0 <= i < j < |gone| ==> gone[i].index != gone[j].index
  {
    hide R.Lapsed;
    forall r | r in s ensures r.index in R.Numbers(gone) <==> R.Lapsed(r, t1) { GoneIffLapsed(s, kept, gone, t1, r); }
    forall i, j | 0 <= i < j < |gone| ensures gone[i].index != gone[j].index { GoneOnce(s, kept, gone, i, j); }
  }

  lemma GoneIffLapsed(s: seq<R.Request>, kept: seq<R.Request>, gone: seq<R.Request>, t1: int, r: R.Request)
    requires R.NoDup(s) && multiset(kept) + multiset(gone) == multiset(s) && r in s
    requires (forall r :: r in kept ==> !R.Lapsed(r, t1)) && (forall r :: r in gone ==> R.Lapsed(r, t1))
    ensures r.index in R.Numbers(gone) <==> R.Lapsed(r, t1)
  {
    hide R.Lapsed;
    assert r in multiset(s);
    assert r in multiset(kept) + multiset(gone);
    if r in gone {
      var j :| 0 <= j < |gone| && gone[j] == r;
      assert R.Numbers(gone)[j] == r.index;
    } else {
      var i :| 0 <= i < |kept| && kept[i] == r;
      forall j | 0 <= j < |gone| ensures R.Numbers(gone)[j] != r.index { OnceOnly(s, kept, gone, i, j); }
    }
  }

  lemma GoneOnce(s: seq<R.Request>, kept: seq<R.Request>, gone: seq<R.Request>, i: nat, j: nat)
    requires R.NoDup(s) && multiset(kept) + multiset(gone) == multiset(s) && i < j < |gone|
    ensures gone[i].index != gone[j].index
  {
    var front, rest := gone[..j], gone[j..];
    assert gone == front + rest;
    assert multiset(kept + front) + multiset(rest) == multiset(s);
    assert (kept + front)[|kept| + i] == gone[i] && rest[0] == gone[j];
    OnceOnly(s, kept + front, rest, |kept| + i, 0);
  }

  lemma OnceOnly(s: seq<R.Request>, kept: seq<R.Request>, gone: seq<R.Request>, i: nat, j: nat)
    requires R.NoDup(s) && multiset(kept) + multiset(gone) == multiset(s) && i < |kept| && j < |gone|
    ensures kept[i].index != gone[j].index
  {
    assert kept[i] in multiset(kept) && gone[j] in multiset(gone);
    if kept[i] == gone[j] {
      assert multiset(s)[kept[i]] >= 2;
      Twice(s, kept[i]);
    } else {
      assert kept[i] in multiset(s) && gone[j] in multiset(s);
      var k :| 0 <= k < |s| && s[k] == kept[i];
      var l :| 0 <= l < |s| && s[l] == gone[j];
    }
  }

  lemma {:induction false} Twice(s: seq<R.Request>, r: R.Request)
    requires R.NoDup(s)
    ensures multiset(s)[r] <= 1
    decreases |s|
  {
    if s != [] {
      var n := |s| - 1;
      assert s == s[..n] + [s[n]];
      Twice(s[..n], r);
      if s[n] == r { assert r !in s[..n]; }
    }
  }

  /** Expiring requests one after the other is removing them all and dropping each. */
  lemma {:induction false} ExpireIsDrop(g: Shape, p: Peer, cs: seq<nat>)
    requires g.pieceSize > 0 && g.Cpp() > 0
    ensures ExpireAll(g, p, cs) == DropAll(g, p.(sent := p.sent - set c | c in cs), cs)
    decreases |cs|
  {
    hide Shape.FromChunk, Shape.ToChunk, Shape.Pieces, HandleMessage, HandleEvent;
    if cs == [] {
      assert p.sent - (set c | c in cs) == p.sent;
    } else {
      var n := |cs| - 1;
      var t := cs[..n];
      ExpireIsDrop(g, p, t);
      var q := p.(sent := p.sent - set c | c in t);
      var r := p.(sent := p.sent - set c | c in cs);
      assert cs == t + [cs[n]];
      assert q.sent - {cs[n]} == r.sent;
      DropAllSent(g, q, t, r.sent);
    }
  }

  /** Dropping does not look at the sent requests. */
  lemma {:induction false} DropAllSent(g: Shape, p: Peer, cs: seq<nat>, sent: set<nat>)
    requires g.pieceSize > 0 && g.Cpp() > 0
    ensures DropAll(g, p, cs).(sent := sent) == DropAll(g, p.(sent := sent), cs)
    ensures DropAll(g, p, cs).sent == p.sent
    decreases |cs|
  {
    hide Shape.FromChunk;
    if cs != [] { DropAllSent(g, p, cs[..|cs| - 1], sent); }
  }
}
