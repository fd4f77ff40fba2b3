/** Eviction over all torrents: how much each one may keep. */
module FairShare {
  import opened Arith
  import opened Options
  import opened PieceStore
  import opened PieceRuns
  import opened Eviction

  function LowMark(mark: nat): nat { mark * 7 / 8 }

  ghost function Sum(s: seq<nat>): nat { if s == [] then 0 else Sum(s[..|s| - 1]) + s[|s| - 1] }

  /** The bytes held by torrents within the share, and the number of torrents above it. */
  ghost function Small(s: seq<nat>, fair: nat): nat
  {
    if s == [] then 0 else Small(s[..|s| - 1], fair) + if s[|s| - 1] <= fair then s[|s| - 1] else 0
  }

  ghost function Big(s: seq<nat>, fair: nat): nat
  {
    if s == [] then 0 else Big(s[..|s| - 1], fair) + if s[|s| - 1] <= fair then 0 else 1
  }

  /** Small torrents fit in the shares of those that are not big. */
  lemma {:induction false} SmallFits(s: seq<nat>, fair: nat)
    ensures Small(s, fair) + Big(s, fair) * fair <= |s| * fair && Big(s, fair) <= |s|
    decreases |s|
  {
    if s != [] {
      SmallFits(s[..|s| - 1], fair);
      Distribute(Big(s[..|s| - 1], fair), 1, fair);
      Distribute(|s| - 1, 1, fair);
    }
  }

  lemma {:induction false} NoneBig(s: seq<nat>, fair: nat)
    requires Big(s, fair) == 0
    ensures Sum(s) == Small(s, fair)
    decreases |s|
  {
    if s != [] { NoneBig(s[..|s| - 1], fair); }
  }

  /** An equal share of the low mark. */
  ghost function First(s: seq<nat>, low: nat): nat
    requires |s| > 0
  {
    Euclid(low, |s|);
    low / |s|
  }

  /** If more than the low mark is in use, there are torrents, and some are above their share. */
  lemma SomeAreBig(s: seq<nat>, low: nat)
    requires Sum(s) > low
    ensures |s| > 0 && Big(s, First(s, low)) > 0
  {
    if |s| > 0 {
      hide First;
      var fair := First(s, low);
      FirstFits(s, low);
      SmallFits(s, fair);
      if Big(s, fair) == 0 { NoneBig(s, fair); }
    }
  }

  lemma MulCommutes(a: int, b: int)
    ensures a * b == b * a
  {
  }

  /** Sharing what the small torrents leave gives the big ones no less than the first share. */
  lemma SecondIsFairer(s: seq<nat>, low: nat)
    requires |s| > 0 && Big(s, First(s, low)) > 0
    ensures var fair := First(s, low);
            Small(s, fair) <= low && (low - Small(s, fair)) / Big(s, fair) >= fair
  {
    hide First, Small, Big;
    var fair := First(s, low);
    var small, big := Small(s, fair), Big(s, fair);
    FirstFits(s, low);
    SmallFits(s, fair);
    MulCommutes(big, fair);
    QuotientBound(low - small, big, fair);
  }

  lemma FirstFits(s: seq<nat>, low: nat)
    requires |s| > 0
    ensures |s| * First(s, low) <= low
  {
    Euclid(low, |s|);
    MulCommutes(|s|, First(s, low));
  }

  /** An equal share, for the big torrents, of what the small ones leave. */
  ghost function Second(s: seq<nat>, low: nat): nat
    requires |s| > 0 && Big(s, First(s, low)) > 0
  {
    SecondIsFairer(s, low);
    (low - Small(s, First(s, low))) / Big(s, First(s, low))
  }

  /** What each torrent may hold after the pass. */
  ghost predicate Trimmed(s: seq<nat>, after: seq<nat>, share: nat)
  {
    |after| == |s| && forall i :: 0 <= i < |s| ==> if s[i] <= share then after[i] == s[i] else after[i] <= share
  }

  lemma {:induction false} TrimmedSum(s: seq<nat>, after: seq<nat>, fair: nat, share: nat)
    requires Trimmed(s, after, share) && fair <= share
    ensures Sum(after) <= Small(s, fair) + Big(s, fair) * share
    decreases |s|
  {
    if s != [] {
      var n := |s| - 1;
      TrimmedSum(s[..n], after[..n], fair, share);
      Distribute(Big(s[..n], fair), 1, share);
    }
  }

  /** Once every torrent is trimmed to the second share, no more than the low mark is in use. */
  lemma TrimmedMeetsLowMark(s: seq<nat>, after: seq<nat>, low: nat)
    requires |s| > 0 && Big(s, First(s, low)) > 0 && Trimmed(s, after, Second(s, low))
    ensures Sum(after) <= low
  {
    var fair := First(s, low);
    SecondIsFairer(s, low);
    var left, big := low - Small(s, fair), Big(s, fair);
    Euclid(left, big);
    TrimmedSum(s, after, fair, Second(s, low));
    MulCommutes(big, left / big);
  }

  /** Models tor.Expire up to where it starts the evictions: +1 and 0 when memory is not short,
      and otherwise -1 and the share above which a torrent is trimmed. */
  method Plan(mark: nat, space: nat, s: seq<nat>) returns (r: int, share: Option<int>)
    requires mark > 0 && space <= Sum(s)
    ensures space < (LowMark(mark) + mark) / 2 ==> r == 1 && share == None
    ensures (LowMark(mark) + mark) / 2 <= space < mark ==> r == 0 && share == None
    ensures space >= mark ==> r == -1 && |s| > 0 && Big(s, First(s, LowMark(mark))) > 0 && share == Some(Second(s, LowMark(mark)))
    ensures space >= mark ==> |s| > 0 && share.Some? && share.value >= First(s, LowMark(mark))
  {
    var low, high := LowMark(mark), mark;
    var mid := (low + high) / 2;
    if space < mid {
      return 1, None;
    } else if space < high {
      return 0, None;
    }
    SomeAreBig(s, low);
    var fair := low / |s|;
    assert fair == First(s, low);
    SecondIsFairer(s, low);
    var bigCount, smallSpace := 0, 0;
    var i := 0;
    while i < |s|
      invariant 0 <= i <= |s|
      invariant bigCount == Big(s[..i], fair) && smallSpace == Small(s[..i], fair)
    {
      assert s[..i + 1][..i] == s[..i];
      if s[i] <= fair {
        smallSpace := smallSpace + s[i];
      } else {
        bigCount := bigCount + 1;
      }
      i := i + 1;
    }
    assert s[..|s|] == s;
    r, share := -1, Some((low - smallSpace) / bigCount);
  }

  // ------------------------------------------------------------------ the whole pass

  /** A torrent as the pass finds it: its store, and what Expire sorts its pieces by. */
  datatype Torrent = Torrent(store: Store, size: nat, ages: seq<nat>, available: seq<nat>, order: seq<nat>)

  /** A torrent at rest: the count is right and nothing is being hashed. */
  ghost predicate Still(t: Torrent)
  {
    && Counted(t.store) && NoBusy(t.store) && |t.ages| == |t.store.pieces|
    && Ordered(t.ages, t.available, t.order) && Within(t.order, |t.store.pieces|)
  }

  /** Models Bytes, for a count that is not negative. */
  ghost function BytesOf(t: Torrent): nat { if t.store.count < 0 then 0 else t.store.count * t.size }

  ghost function Held(ts: seq<Torrent>): seq<nat> { seq(|ts|, i requires 0 <= i < |ts| => BytesOf(ts[i])) }

  /** A torrent above the share is swept down to it. */
  ghost function Passed(t: Torrent, share: nat): Torrent
    requires Still(t)
  {
    if BytesOf(t) > share then t.(store := Swept(t.store, t.order, BytesOf(t) - share, t.size).0) else t
  }

  lemma PassedTrims(t: Torrent, share: nat)
    requires Still(t)
    ensures BytesOf(t) <= share ==> Passed(t, share) == t
    ensures BytesOf(t) > share ==> BytesOf(Passed(t, share)) <= share
  {
    hide Swept, Ordered, Within, NoBusy;
    if BytesOf(t) > share {
      ExpireReachesTarget(t.store, t.ages, t.available, t.order, share, t.size);
    }
  }

  ghost function PassedAll(ts: seq<Torrent>, share: nat): seq<Torrent>
    requires forall i :: 0 <= i < |ts| ==> Still(ts[i])
  {
    seq(|ts|, i requires 0 <= i < |ts| => Passed(ts[i], share))
  }

  /** On stores at rest, once the high mark is reached, the pass brings the total to the low
      mark or below and touches no torrent within its first share. */
  lemma PassMeetsLowMark(mark: nat, space: nat, ts: seq<Torrent>)
    requires forall i :: 0 <= i < |ts| ==> Still(ts[i])
    requires 0 < mark <= space <= Sum(Held(ts))
    ensures |ts| > 0 && Big(Held(ts), First(Held(ts), LowMark(mark))) > 0
    ensures var low, s := LowMark(mark), Held(ts);
            && Sum(Held(PassedAll(ts, Second(s, low)))) <= low
            && (forall i :: 0 <= i < |ts| && BytesOf(ts[i]) <= First(s, low) ==> Passed(ts[i], Second(s, low)) == ts[i])
  {
    hide Still, Passed, BytesOf, Sum, Small, Big, First, Second;
    var low, s := LowMark(mark), Held(ts);
    SomeAreBig(s, low);
    assert Second(s, low) >= First(s, low) by { SecondAbove(s, low); }
    var share := Second(s, low);
    forall i | 0 <= i < |ts|
      ensures BytesOf(ts[i]) <= share ==> Passed(ts[i], share) == ts[i]
      ensures BytesOf(ts[i]) > share ==> BytesOf(Passed(ts[i], share)) <= share
    {
      PassedTrims(ts[i], share);
    }
    var after := Held(PassedAll(ts, share));
    assert Trimmed(s, after, share);
    TrimmedMeetsLowMark(s, after, low);
  }

  lemma SecondAbove(s: seq<nat>, low: nat)
    requires |s| > 0 && Big(s, First(s, low)) > 0
    ensures Second(s, low) >= First(s, low)
  {
    SecondIsFairer(s, low);
  }
}
