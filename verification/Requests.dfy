/** A peer's queue of outgoing requests, with a bitmap for fast membership tests. */
module Requests {
  import opened Bitmap
  import opened Options

  /** rtime and ctime are the times of sending and of cancelling; None is Go's zero time. */
  datatype Request = Request(index: nat, qtime: int, rtime: Option<int>, ctime: Option<int>)

  ghost predicate NoDup(s: seq<Request>)
  {
    forall i, j :: 0 <= i < j < |s| ==> s[i].index != s[j].index
  }

  ghost function Indices(s: seq<Request>): set<nat> { set i | 0 <= i < |s| :: s[i].index }

  /** Deletion by moving the last element into the gap. */
  function SwapDelete(s: seq<Request>, i: nat): seq<Request>
    requires i < |s|
  {
    s[i := s[|s| - 1]][..|s| - 1]
  }

  lemma SwapDeleteSpec(s: seq<Request>, i: nat)
    requires i < |s| && NoDup(s)
    ensures NoDup(SwapDelete(s, i))
    ensures Indices(SwapDelete(s, i)) == Indices(s) - {s[i].index}
  {
    var t, l := SwapDelete(s, i), |s| - 1;
    forall x | x in Indices(s) - {s[i].index} ensures x in Indices(t) {
      var j :| 0 <= j < |s| && s[j].index == x;
      assert t[if j == l then i else j].index == x;
    }
  }

  lemma SwapDeleteBag(s: seq<Request>, i: nat)
    requires i < |s|
    ensures multiset(s[i..]) == multiset(SwapDelete(s, i)[i..]) + multiset{s[i]}
    ensures SwapDelete(s, i)[..i] == s[..i]
  {
    var l := |s| - 1;
    if i == l {
      assert s[i..] == [s[i]] && SwapDelete(s, i)[i..] == [];
    } else {
      var mid := s[i + 1..l];
      assert SwapDelete(s, i)[i..] == [s[l]] + mid;
      assert s[i..] == [s[i]] + (mid + [s[l]]);
    }
  }

  lemma AppendSpec(s: seq<Request>, r: Request)
    requires NoDup(s) && r.index !in Indices(s)
    ensures NoDup(s + [r]) && Indices(s + [r]) == Indices(s) + {r.index}
  {
    var t := s + [r];
    assert forall i :: 0 <= i < |s| ==> t[i] == s[i] && s[i].index in Indices(s);
    assert t[|s|] == r;
    forall x | x in Indices(s) + {r.index} ensures x in Indices(t) {
      if x != r.index {
        var j :| 0 <= j < |s| && s[j].index == x;
        assert t[j].index == x;
      }
    }
  }

  /** The loop that Cancel and del search with. */
  method Position(s: seq<Request>, index: nat) returns (i: nat)
    ensures i <= |s| && (i < |s| ==> s[i].index == index)
    ensures i == |s| <==> index !in Indices(s)
  {
    i := 0;
    while i < |s| && s[i].index != index
      invariant i <= |s| && forall j :: 0 <= j < i ==> s[j].index != index
    {
      i := i + 1;
    }
  }

  /** Expire drops the requests cancelled before t1 ... */
  predicate Lapsed(r: Request, t1: int) { r.ctime.Some? && r.ctime.value < t1 }

  /** ... and cancels the others that were sent before t0. */
  predicate Overdue(r: Request, t0: int) { r.ctime.None? && r.rtime.Some? && r.rtime.value < t0 }

  function Aged(r: Request, t0: int, now: int): Request
  {
    if Overdue(r, t0) then r.(ctime := Some(now)) else r
  }

  /** What is left of the sent list once its first requests `kept` have been looked at. */
  function AgedAll(s: seq<Request>, t0: int, now: int): (r: seq<Request>)
    ensures |r| == |s| && forall i :: 0 <= i < |s| ==> r[i] == Aged(s[i], t0, now)
  {
    seq(|s|, i requires 0 <= i < |s| => Aged(s[i], t0, now))
  }

  function Numbers(s: seq<Request>): (r: seq<nat>)
    ensures |r| == |s| && forall i :: 0 <= i < |s| ==> r[i] == s[i].index
  {
    seq(|s|, i requires 0 <= i < |s| => s[i].index)
  }

  function OverdueOf(s: seq<Request>, t0: int): seq<nat>
  {
    if s == [] then []
    else OverdueOf(s[..|s| - 1], t0) + if Overdue(s[|s| - 1], t0) then [s[|s| - 1].index] else []
  }

  lemma OverdueSnoc(s: seq<Request>, r: Request, t0: int)
    ensures OverdueOf(s + [r], t0) == OverdueOf(s, t0) + if Overdue(r, t0) then [r.index] else []
  {
    assert (s + [r])[..|s|] == s;
  }

  /** The sent list after Cancel has found its request at position i. */
  ghost predicate CancelledAt(s: seq<Request>, t: seq<Request>, i: nat, send: bool, now: int)
    requires i < |s|
  {
    && (send <==> s[i].ctime.None?)
    && t == if send then s[i := s[i].(ctime := Some(now))] else s
  }

  class Requests {
    var queue: seq<Request>
    var requested: seq<Request>
    const bitmap: Bitmap

    /** Queue and sent list are duplicate-free and disjoint, and the bitmap is their union. */
    ghost predicate Valid()
      reads this, bitmap
    {
      && NoDup(queue) && NoDup(requested)
      && Indices(queue) !! Indices(requested)
      && Members(bitmap.b) == Indices(queue) + Indices(requested)
      && (forall r :: r in requested ==> r.rtime.Some?)
    }

    constructor ()
      ensures Valid() && fresh(bitmap) && queue == [] && requested == []
    {
      queue, requested := [], [];
      bitmap := new Bitmap();
    }

    /** Models Cancel: (found, cancel to be sent). */
    method Cancel(index: nat, now: int) returns (found: bool, send: bool)
      requires Valid()
      modifies this
      ensures Valid() && queue == old(queue) && Indices(requested) == old(Indices(requested)) && |requested| == old(|requested|)
      ensures found <==> index in Indices(requested)
      ensures !found ==> !send && requested == old(requested)
      ensures found ==> exists i :: 0 <= i < |requested| && old(requested)[i].index == index && CancelledAt(old(requested), requested, i, send, now)
    {
      found, send := false, false;
      MembersGet(bitmap.b, index);
      if !Get(bitmap.b, index) {
        return;
      }
      var i := Position(requested, index);
      if i < |requested| {
        assert requested[i] in requested;
        found, send := true, requested[i].ctime.None?;
        if send {
          requested := requested[i := requested[i].(ctime := Some(now))];
          SameIndices(old(requested), requested);
        }
      }
    }

    /** Models del, with its panic as an assertion. */
    method DelAny(index: nat, reqonly: bool) returns (q: bool, r: bool, rtime: Option<int>)
      requires Valid()
      modifies this, bitmap
      ensures Valid()
      ensures r <==> index in old(Indices(requested))
      ensures q <==> !reqonly && index in old(Indices(queue))
      ensures Indices(requested) == old(Indices(requested)) - {index}
      ensures Indices(queue) == old(Indices(queue)) - if reqonly then {} else {index}
      ensures !r ==> requested == old(requested)
      ensures !q ==> queue == old(queue)
      ensures r ==> exists i :: 0 <= i < |old(requested)| && old(requested)[i].index == index && requested == SwapDelete(old(requested), i)
                                && rtime == old(requested)[i].rtime
    {
      q, r, rtime := false, false, None;
      MembersGet(bitmap.b, index);
      if !Get(bitmap.b, index) {
        return;
      }
      var i := Position(requested, index);
      if i < |requested| {
        SwapDeleteSpec(requested, i);
        rtime := requested[i].rtime;
        requested := SwapDelete(requested, i);
        bitmap.Reset(index);
        r := true;
        return;
      }
      if !reqonly {
        i := Position(queue, index);
        assert i < |queue|;  // otherwise "Requests is broken!"
        SwapDeleteSpec(queue, i);
        queue := SwapDelete(queue, i);
        bitmap.Reset(index);
        q := true;
      }
    }

    /** Models Enqueue. */
    method Enqueue(index: nat, now: int) returns (added: bool)
      requires Valid()
      modifies this, bitmap
      ensures Valid() && requested == old(requested)
      ensures added <==> index !in old(Indices(queue) + Indices(requested))
      ensures queue == if added then old(queue) + [Request(index, now, None, None)] else old(queue)
    {
      MembersGet(bitmap.b, index);
      if Get(bitmap.b, index) {
        return false;
      }
      AppendSpec(queue, Request(index, now, None, None));
      queue := queue + [Request(index, now, None, None)];
      bitmap.Set(index);
      added := true;
    }

    /** Models Dequeue. */
    method Dequeue() returns (r: Request)
      requires Valid() && queue != []
      modifies this, bitmap
      ensures Valid() && requested == old(requested)
      ensures r == old(queue)[0] && queue == old(queue)[1..]
      ensures r.index !in Members(bitmap.b)
    {
      r := queue[0];
      bitmap.Reset(r.index);
      TailIndices(queue);
      queue := queue[1..];
    }

    /** Models EnqueueRequest; its panic is excluded by the precondition. */
    method EnqueueRequest(r: Request, now: int)
      requires Valid() && r.index !in Indices(queue) + Indices(requested)
      modifies this, bitmap
      ensures Valid() && queue == old(queue)
      ensures requested == old(requested) + [r.(ctime := None, rtime := Some(now))]
    {
      MembersGet(bitmap.b, r.index);
      assert !Get(bitmap.b, r.index);  // "Incorrect use of Requests.EnqueueRequest"
      var s := r.(ctime := None, rtime := Some(now));
      AppendSpec(requested, s);
      bitmap.Set(s.index);
      requested := requested + [s];
    }

    /** Models Clear; the result lists the calls to f in order. */
    method Clear(both: bool) returns (calls: seq<nat>)
      requires Valid()
      modifies this, bitmap
      ensures Valid() && queue == []
      ensures requested == if both then [] else old(requested)
      ensures calls == (if both then old(Numbers(requested)) else []) + old(Numbers(queue))
    {
      var oldr, oldq := requested, queue;
      queue, requested := [], [];
      bitmap.b := [];
      calls := [];
      if !both {
        requested := oldr;
        var i := 0;
        assert oldr[..0] == [];
        while i < |oldr|
          modifies bitmap
          invariant i <= |oldr| && Members(bitmap.b) == Indices(oldr[..i]) && NoDup(oldr)
        {
          assert oldr[..i + 1] == oldr[..i] + [oldr[i]];
          AppendIndices(oldr[..i], oldr[i]);
          bitmap.Set(oldr[i].index);
          i := i + 1;
        }
        assert oldr[..i] == oldr;
      } else {
        calls := Numbers(oldr);
      }
      calls := calls + Numbers(oldq);
    }

    /** Models Expire.  Each sent request is looked at once, although deletion moves the last
        request into the gap: `kept` and `gone` share out the old list. */
    method Expire(t0: int, t1: int, now: int)
      returns (dropped: bool, drops: seq<nat>, cancels: seq<nat>, ghost kept: seq<Request>, ghost gone: seq<Request>)
      requires Valid()
      modifies this, bitmap
      ensures Valid() && queue == old(queue)
      ensures multiset(kept) + multiset(gone) == multiset(old(requested))
      ensures forall r :: r in kept ==> !Lapsed(r, t1)
      ensures forall r :: r in gone ==> Lapsed(r, t1)
      ensures requested == AgedAll(kept, t0, now)
      ensures drops == Numbers(gone) && cancels == OverdueOf(kept, t0)
      ensures dropped <==> drops != []
    {
      hide NoDup, Indices, AgedAll, Lapsed, Members, SwapDelete, Aged;
      kept, gone := [], [];
      drops, cancels := [], [];
      var i := 0;
      assert requested[0..] == requested;
      while i < |requested|
        invariant i == |kept| && Valid() && queue == old(queue)
        invariant Progress(requested, kept, gone, old(requested), t0, t1, now)
        invariant drops == Numbers(gone) && cancels == OverdueOf(kept, t0)
        decreases |requested| - i
      {
        var r := requested[i];
        if Lapsed(r, t1) {
          ProgressDrop(requested, kept, gone, old(requested), t0, t1, now);
          DropAt(i);
          assert Numbers(gone + [r]) == Numbers(gone) + [r.index];
          drops, gone := drops + [r.index], gone + [r];
        } else {
          ProgressKeep(requested, kept, gone, old(requested), t0, t1, now);
          var c := AgeAt(i, t0, now);
          OverdueSnoc(kept, r, t0);
          cancels, kept, i := cancels + c, kept + [r], i + 1;
        }
      }
      dropped := drops != [];
    }

    /** DelRequested as Expire uses it: the request it deletes is the one at hand. */
    method DropAt(i: nat)
      requires Valid() && i < |requested|
      modifies this, bitmap
      ensures Valid() && queue == old(queue) && requested == SwapDelete(old(requested), i)
    {
      var q, found, tm := DelAny(requested[i].index, true);
      assert found;  // otherwise "Couldn't delete request"
      ghost var k :| 0 <= k < |old(requested)| && old(requested)[k].index == old(requested)[i].index && requested == SwapDelete(old(requested), k);
      assert k == i;
    }

    /** Cancels the request at hand if it is overdue, and reports it. */
    method AgeAt(i: nat, t0: int, now: int) returns (cancelled: seq<nat>)
      requires Valid() && i < |requested|
      modifies this
      ensures Valid() && queue == old(queue) && requested == old(requested)[i := Aged(old(requested)[i], t0, now)]
      ensures cancelled == if Overdue(old(requested)[i], t0) then [old(requested)[i].index] else []
    {
      cancelled := [];
      assert requested[i] in requested;
      if Overdue(requested[i], t0) {
        requested := requested[i := requested[i].(ctime := Some(now))];
        SameIndices(old(requested), requested);
        cancelled := [requested[i].index];
      }
    }
  }

  /** How far Expire has come: the first requests of `cur` are the aged `kept`, and what it has
      not looked at makes up the rest of the old list. */
  ghost predicate Progress(cur: seq<Request>, kept: seq<Request>, gone: seq<Request>, orig: seq<Request>, t0: int, t1: int, now: int)
  {
    && |kept| <= |cur|
    && multiset(kept) + multiset(gone) + multiset(cur[|kept|..]) == multiset(orig)
    && (forall r :: r in kept ==> !Lapsed(r, t1))
    && (forall r :: r in gone ==> Lapsed(r, t1))
    && cur[..|kept|] == AgedAll(kept, t0, now)
  }

  lemma ProgressDrop(cur: seq<Request>, kept: seq<Request>, gone: seq<Request>, orig: seq<Request>, t0: int, t1: int, now: int)
    requires Progress(cur, kept, gone, orig, t0, t1, now) && |kept| < |cur| && Lapsed(cur[|kept|], t1)
    ensures Progress(SwapDelete(cur, |kept|), kept, gone + [cur[|kept|]], orig, t0, t1, now)
  {
    var i := |kept|;
    SwapDeleteBag(cur, i);
    assert multiset(gone + [cur[i]]) == multiset(gone) + multiset{cur[i]};
  }

  lemma ProgressKeep(cur: seq<Request>, kept: seq<Request>, gone: seq<Request>, orig: seq<Request>, t0: int, t1: int, now: int)
    requires Progress(cur, kept, gone, orig, t0, t1, now) && |kept| < |cur| && !Lapsed(cur[|kept|], t1)
    ensures Progress(cur[|kept| := Aged(cur[|kept|], t0, now)], kept + [cur[|kept|]], gone, orig, t0, t1, now)
  {
    var i := |kept|;
    var r := cur[i];
    var cur' := cur[i := Aged(r, t0, now)];
    assert cur[i..] == [r] + cur[i + 1..] && cur'[i + 1..] == cur[i + 1..];
    assert multiset(kept + [r]) == multiset(kept) + multiset{r};
    assert cur'[..i + 1] == cur[..i] + [Aged(r, t0, now)];
  }

  lemma SameIndices(s: seq<Request>, t: seq<Request>)
    requires |s| == |t| && forall i :: 0 <= i < |s| ==> s[i].index == t[i].index
    ensures Indices(s) == Indices(t) && (NoDup(s) ==> NoDup(t))
  {
  }

  lemma TailIndices(s: seq<Request>)
    requires s != [] && NoDup(s)
    ensures NoDup(s[1..]) && Indices(s[1..]) == Indices(s) - {s[0].index}
  {
    var t := s[1..];
    assert forall i :: 0 <= i < |t| ==> t[i] == s[i + 1];
    forall x | x in Indices(s) - {s[0].index} ensures x in Indices(t) {
      var j :| 0 <= j < |s| && s[j].index == x;
      assert t[j - 1].index == x;
    }
  }

  lemma AppendIndices(s: seq<Request>, r: Request)
    ensures Indices(s + [r]) == Indices(s) + {r.index}
  {
    var t := s + [r];
    assert t[|s|] == r;
    forall x | x in Indices(s) + {r.index} ensures x in Indices(t) {
      if x != r.index {
        var j :| 0 <= j < |s| && s[j].index == x;
        assert t[j].index == x;
      }
    }
  }
}
