/** The pieces requested of a torrent, and the readers that request them.

The torrent keeps, per piece, the priorities it was asked for and a channel that is closed
when the piece is complete.  Readers ask and release by events. */
module Requested {
  import opened Arith
  import opened Options

  const IDLE: int := -128

  /** `prio` may hold a priority several times; `done` is the number of a channel. */
  datatype Entry = Entry(prio: seq<int>, done: Option<nat>)

  /** Channels are numbered in the order of their creation. */
  datatype Table = Table(pieces: map<nat, Entry>, made: nat, closed: set<nat>)

  // ------------------------------------------------------------------- operations

  function Found(t: Table, i: nat): Entry { if i in t.pieces then t.pieces[i] else Entry([], None) }

  /** What Add makes of a piece's entry. */
  function Added(e: Entry, prio: int, want: bool, chan: nat): Entry
  {
    Entry(if prio > IDLE then e.prio + [prio] else e.prio, if want && e.done.None? then Some(chan) else e.done)
  }

  function Asked(t: Table, i: nat, prio: int, want: bool): Table
  {
    Table(t.pieces[i := Added(Found(t, i), prio, want, t.made)],
          if want && Found(t, i).done.None? then t.made + 1 else t.made, t.closed)
  }

  function Chan(e: Entry): set<nat> { if e.done.Some? then {e.done.value} else {} }

  /** Models del. */
  function Forget(t: Table, i: nat): Table
  {
    if i in t.pieces then Table(t.pieces - {i}, t.made, t.closed + Chan(t.pieces[i])) else t
  }

  function Without(s: seq<int>, p: int): seq<int>
  {
    if s == [] then [] else if s[0] == p then s[1..] else [s[0]] + Without(s[1..], p)
  }

  /** Models Del. */
  function Withdrawn(t: Table, i: nat, prio: int): Table
  {
    if i !in t.pieces || prio !in t.pieces[i].prio then t
    else
      var rest := Without(t.pieces[i].prio, prio);
      var u := t.(pieces := t.pieces[i := t.pieces[i].(prio := rest)]);
      if rest == [] then Forget(u, i) else u
  }

  /** Models DelIdlePiece. */
  function Prune(t: Table, i: nat): Table
  {
    if i in t.pieces && t.pieces[i].prio == [] then Forget(t, i) else t
  }

  /** Models Done. */
  function Finish(t: Table, i: nat): Table
  {
    if i !in t.pieces then t
    else Prune(Table(t.pieces[i := t.pieces[i].(done := None)], t.made, t.closed + Chan(t.pieces[i])), i)
  }

  // ---------------------------------------------------------------------- priorities

  ghost function Prios(t: Table, i: nat): multiset<int> { multiset(Found(t, i).prio) }

  lemma {:induction false} WithoutMultiset(s: seq<int>, p: int)
    requires p in s
    ensures multiset(Without(s, p)) == multiset(s) - multiset{p}
  {
    assert s == [s[0]] + s[1..];
    if s[0] != p { WithoutMultiset(s[1..], p); }
  }

  lemma AddPrios(t: Table, i: nat, prio: int, want: bool, k: nat)
    requires prio > IDLE
    ensures Prios(Asked(t, i, prio, want), k) == Prios(t, k) + if k == i then multiset{prio} else multiset{}
  {
  }

  lemma IdlePrios(t: Table, i: nat, want: bool, k: nat)
    ensures Prios(Asked(t, i, IDLE, want), k) == Prios(t, k)
  {
  }

  lemma DelPrios(t: Table, i: nat, prio: int, k: nat)
    ensures Prios(Withdrawn(t, i, prio), k) == Prios(t, k) - if k == i then multiset{prio} else multiset{}
  {
    if k != i {
      OtherFound(t, i, prio, k);
    } else if i in t.pieces && prio in t.pieces[i].prio {
      WithoutMultiset(t.pieces[i].prio, prio);
      var rest := Without(t.pieces[i].prio, prio);
      hide Without;
      assert Found(Withdrawn(t, i, prio), i).prio == rest;
    } else {
      assert Withdrawn(t, i, prio) == t && prio !in multiset(Found(t, i).prio);
    }
  }

  lemma OtherFound(t: Table, i: nat, prio: int, k: nat)
    requires k != i
    ensures Found(Withdrawn(t, i, prio), k) == Found(t, k)
  {
    hide Without;
  }

  lemma PrunePrios(t: Table, i: nat, k: nat)
    ensures Prios(Prune(t, i), k) == Prios(t, k) && Prios(Finish(t, i), k) == Prios(t, k)
  {
  }

  // ------------------------------------------------------------------------ channels

  ghost predicate Stored(t: Table, c: nat, i: nat) { i in t.pieces && t.pieces[i].done == Some(c) }

  /** Every channel ever made is either stored, with one piece, and open, or closed. */
  ghost predicate ChansOk(t: Table)
  {
    && (forall c :: c in t.closed ==> c < t.made)
    && (forall i: nat, c: nat :: Stored(t, c, i) ==> c < t.made && c !in t.closed)
    && (forall i: nat, j: nat, c: nat :: Stored(t, c, i) && Stored(t, c, j) ==> i == j)
    && (forall c: nat :: c < t.made && c !in t.closed ==> exists i: nat :: Stored(t, c, i))
  }

  lemma AddChans(t: Table, i: nat, prio: int, want: bool)
    requires ChansOk(t)
    ensures ChansOk(Asked(t, i, prio, want))
  {
    var u := Asked(t, i, prio, want);
    if i in t.pieces && t.pieces[i].done.Some? { assert Stored(t, t.pieces[i].done.value, i); }
    forall k: nat, c: nat ensures Stored(u, c, k) <==> Stored(t, c, k) || (k == i && c == t.made < u.made) {
      AddStored(t, i, prio, want, k, c);
    }
    assert forall k: nat :: !Stored(t, t.made, k);
    hide Stored, Asked;
    assert u.closed == t.closed && t.made <= u.made <= t.made + 1 by { AddMade(t, i, prio, want); }
    forall c: nat | c < u.made && c !in u.closed ensures exists k: nat :: Stored(u, c, k) {
      if c < t.made {
        var k: nat :| Stored(t, c, k);
        assert Stored(u, c, k);
      } else {
        assert Stored(u, c, i);
      }
    }
  }

  lemma AddMade(t: Table, i: nat, prio: int, want: bool)
    ensures Asked(t, i, prio, want).closed == t.closed && t.made <= Asked(t, i, prio, want).made <= t.made + 1
  {
  }

  lemma AddStored(t: Table, i: nat, prio: int, want: bool, k: nat, c: nat)
    requires i in t.pieces && t.pieces[i].done.Some? ==> t.pieces[i].done.value < t.made
    ensures var u := Asked(t, i, prio, want);
            Stored(u, c, k) <==> Stored(t, c, k) || (k == i && c == t.made < u.made)
  {
  }

  /** A piece loses its channel, which is closed, or its whole entry. */
  lemma CloseChans(t: Table, u: Table, i: nat)
    requires ChansOk(t) && i in t.pieces && u.made == t.made && u.closed == t.closed + Chan(t.pieces[i])
    requires forall k :: k in u.pieces ==> k in t.pieces && (k != i ==> u.pieces[k].done == t.pieces[k].done)
    requires forall k :: k in t.pieces && k != i ==> k in u.pieces
    requires i in u.pieces ==> u.pieces[i].done == None
    ensures ChansOk(u)
  {
    if t.pieces[i].done.Some? { assert Stored(t, t.pieces[i].done.value, i); }
    forall k: nat, c: nat | Stored(u, c, k) ensures c < u.made && c !in u.closed {
      assert Stored(t, c, k);
    }
    forall k: nat, j: nat, c: nat | Stored(u, c, k) && Stored(u, c, j) ensures k == j { assert Stored(t, c, k) && Stored(t, c, j); }
    forall c: nat | c < u.made && c !in u.closed ensures exists k: nat :: Stored(u, c, k) {
      var k: nat :| Stored(t, c, k);
      assert Stored(u, c, k);
    }
    forall c | c in u.closed ensures c < u.made {
      if c !in t.closed { assert Stored(t, c, i); }
    }
  }

  lemma ForgetChans(t: Table, i: nat)
    requires ChansOk(t)
    ensures ChansOk(Forget(t, i))
  {
    if i in t.pieces { CloseChans(t, Forget(t, i), i); }
  }

  lemma DelChans(t: Table, i: nat, prio: int)
    requires ChansOk(t)
    ensures ChansOk(Withdrawn(t, i, prio))
  {
    if i in t.pieces && prio in t.pieces[i].prio {
      var rest := Without(t.pieces[i].prio, prio);
      var u := t.(pieces := t.pieces[i := t.pieces[i].(prio := rest)]);
      if rest == [] {
        CloseChans(t, Forget(u, i), i);
      } else {
        SameChans(t, u);
      }
    }
  }

  lemma SameChans(t: Table, u: Table)
    requires ChansOk(t) && u.made == t.made && u.closed == t.closed && u.pieces.Keys == t.pieces.Keys
    requires forall k :: k in t.pieces ==> u.pieces[k].done == t.pieces[k].done
    ensures ChansOk(u)
  {
    forall k: nat, c: nat ensures Stored(u, c, k) <==> Stored(t, c, k) {}
    forall c: nat | c < u.made && c !in u.closed ensures exists k: nat :: Stored(u, c, k) {
      var k: nat :| Stored(t, c, k);
      assert Stored(u, c, k);
    }
  }

  lemma FinishChans(t: Table, i: nat)
    requires ChansOk(t)
    ensures ChansOk(Prune(t, i)) && ChansOk(Finish(t, i))
  {
    ForgetChans(t, i);
    if i in t.pieces { CloseChans(t, Finish(t, i), i); }
  }

  /** After Done, the channel a reader was waiting on is closed. */
  lemma FinishCloses(t: Table, i: nat, c: nat)
    requires Stored(t, c, i)
    ensures c in Finish(t, i).closed
  {
  }

  // ------------------------------------------------------------------------- system

  /** A reader: the requests it holds, and those of its last position it has yet to release. */
  datatype Reader = Reader(held: seq<(nat, int)>, last: seq<(nat, int)>)

  /** A TorRequest event on its way to the torrent. */
  datatype Req = Req(index: nat, prio: int, request: bool, want: bool)

  datatype System = System(table: Table, queue: seq<Req>, readers: seq<Reader>)

  datatype Action =
    | Open
    | Turn(r: nat)
    | Ask(r: nat, index: nat, prio: int, want: bool)
    | Release(r: nat)
    | Handle(complete: bool)
    | Idle(index: nat)
    | Complete(index: nat)
    | PruneOne(index: nat)

  predicate Enabled(s: System, a: Action)
  {
    match a
    case Open => true
    case Turn(r) => r < |s.readers| && s.readers[r].last == []
    case Ask(r, _, prio, _) => r < |s.readers| && prio > IDLE
    case Release(r) => r < |s.readers| && s.readers[r].last != []
    case Handle(_) => s.queue != []
    case _ => true
  }

  /** A reader turns its list over, asks for the new one, then releases the old one; the torrent
      handles one event at a time, and may request, complete or prune a piece of its own accord. */
  function Next(s: System, a: Action): System
    requires Enabled(s, a)
  {
    match a
    case Open => s.(readers := s.readers + [Reader([], [])])
    case Turn(r) => s.(readers := s.readers[r := Reader([], s.readers[r].held)])
    case Ask(r, i, p, want) =>
      var d := s.readers[r];
      s.(readers := s.readers[r := d.(held := d.held + [(i, p)])], queue := s.queue + [Req(i, p, true, want)])
    case Release(r) =>
      var d := s.readers[r];
      s.(readers := s.readers[r := d.(last := d.last[1..])], queue := s.queue + [Req(d.last[0].0, d.last[0].1, false, false)])
    case Handle(complete) =>
      var q := s.queue[0];
      s.(queue := s.queue[1..],
         table := if q.request then Asked(s.table, q.index, q.prio, q.want && !complete) else Withdrawn(s.table, q.index, q.prio))
    case Idle(i) => s.(table := Asked(s.table, i, IDLE, false))
    case Complete(i) => s.(table := Finish(s.table, i))
    case PruneOne(i) => s.(table := Prune(s.table, i))
  }

  /** How often readers hold a request. */
  ghost function Holds(rs: seq<Reader>, x: (nat, int)): nat
  {
    if rs == [] then 0 else Holds(rs[..|rs| - 1], x) + multiset(rs[|rs| - 1].held)[x] + multiset(rs[|rs| - 1].last)[x]
  }

  /** What handling an event does to the number of entries for x. */
  ghost function Delta(q: Req, x: (nat, int)): int
  {
    if (q.index, q.prio) != x then 0 else if q.request then 1 else -1
  }

  /** The number of entries for x after the first k events of the queue. */
  ghost function Balance(n: int, queue: seq<Req>, x: (nat, int)): int
  {
    if queue == [] then n else Balance(n, queue[..|queue| - 1], x) + Delta(queue[|queue| - 1], x)
  }

  ghost predicate NeverShort(n: int, queue: seq<Req>, x: (nat, int))
  {
    n >= 0 && (queue != [] ==> NeverShort(n, queue[..|queue| - 1], x) && Balance(n, queue, x) >= 0)
  }

  lemma BalanceSnoc(n: int, queue: seq<Req>, q: Req, x: (nat, int))
    ensures Balance(n, queue + [q], x) == Balance(n, queue, x) + Delta(q, x)
    ensures NeverShort(n, queue + [q], x) <==> NeverShort(n, queue, x) && Balance(n, queue, x) + Delta(q, x) >= 0
  {
    assert (queue + [q])[..|queue|] == queue;
  }

  lemma {:induction false} BalanceHead(n: int, queue: seq<Req>, x: (nat, int))
    requires queue != []
    ensures Balance(n, queue, x) == Balance(n + Delta(queue[0], x), queue[1..], x)
    ensures NeverShort(n, queue, x) ==> NeverShort(n + Delta(queue[0], x), queue[1..], x)
    decreases |queue|
  {
    var k := |queue| - 1;
    if k == 0 {
      assert queue[..0] == [];
    } else {
      BalanceHead(n, queue[..k], x);
      assert queue[..k][1..] == queue[1..][..k - 1];
    }
  }

  lemma {:induction false} HoldsUpdate(rs: seq<Reader>, r: nat, d: Reader, x: (nat, int))
    requires r < |rs|
    ensures Holds(rs[r := d], x) + multiset(rs[r].held)[x] + multiset(rs[r].last)[x] == Holds(rs, x) + multiset(d.held)[x] + multiset(d.last)[x]
    decreases |rs|
  {
    var n := |rs| - 1;
    if r == n {
      assert rs[r := d][..n] == rs[..n];
    } else {
      HoldsUpdate(rs[..n], r, d, x);
      assert rs[r := d][..n] == rs[..n][r := d];
    }
  }

  ghost function Entries(s: System, x: (nat, int)): nat { Prios(s.table, x.0)[x.1] }

  /** The ledger for one request. */
  ghost predicate Even(s: System, x: (nat, int))
  {
    NeverShort(Entries(s, x), s.queue, x) && Balance(Entries(s, x), s.queue, x) == Holds(s.readers, x)
  }

  ghost predicate PriosOk(queue: seq<Req>) { forall q :: q in queue ==> q.prio > IDLE }

  ghost predicate HeldOk(rs: seq<Reader>)
  {
    forall r :: 0 <= r < |rs| ==> (forall x :: x in rs[r].held ==> x.1 > IDLE) && (forall x :: x in rs[r].last ==> x.1 > IDLE)
  }

  ghost predicate Inv(s: System)
  {
    && ChansOk(s.table) && PriosOk(s.queue) && HeldOk(s.readers)
    && (forall x: (nat, int) :: Even(s, x))
  }

  // ------------------------------------------------------------------- what steps keep

  lemma AskEven(s: System, r: nat, i: nat, p: int, want: bool, x: (nat, int))
    requires Even(s, x) && Enabled(s, Ask(r, i, p, want))
    ensures Even(Next(s, Ask(r, i, p, want)), x)
  {
    hide Holds, NeverShort, Balance, Entries;
    var d := s.readers[r];
    HoldsUpdate(s.readers, r, d.(held := d.held + [(i, p)]), x);
    BalanceSnoc(Entries(s, x), s.queue, Req(i, p, true, want), x);
    assert multiset(d.held + [(i, p)])[x] == multiset(d.held)[x] + One((i, p) == x);
    SameEntries(s, Next(s, Ask(r, i, p, want)), x);
  }

  lemma ReleaseEven(s: System, r: nat, x: (nat, int))
    requires Even(s, x) && Enabled(s, Release(r))
    ensures Even(Next(s, Release(r)), x)
  {
    hide Holds, NeverShort, Balance, Entries;
    var d := s.readers[r];
    HoldsUpdate(s.readers, r, d.(last := d.last[1..]), x);
    BalanceSnoc(Entries(s, x), s.queue, Req(d.last[0].0, d.last[0].1, false, false), x);
    assert d.last == [d.last[0]] + d.last[1..];
    assert multiset(d.last)[x] == One(d.last[0] == x) + multiset(d.last[1..])[x];
    SameEntries(s, Next(s, Release(r)), x);
  }

  lemma SameEntries(s: System, t: System, x: (nat, int))
    requires s.table == t.table
    ensures Entries(s, x) == Entries(t, x)
  {
  }

  lemma ReaderEven(s: System, a: Action, x: (nat, int))
    requires Even(s, x) && Enabled(s, a) && (a.Turn? || a.Ask? || a.Release?)
    ensures Even(Next(s, a), x)
  {
    hide Holds, NeverShort, Balance, Prios;
    match a
    case Turn(r) => HoldsUpdate(s.readers, r, Reader([], s.readers[r].held), x);
    case Ask(r, i, p, want) => AskEven(s, r, i, p, want, x);
    case Release(r) => ReleaseEven(s, r, x);
  }

  lemma HandleEntries(s: System, complete: bool, x: (nat, int))
    requires s.queue != [] && s.queue[0].prio > IDLE && Entries(s, x) + Delta(s.queue[0], x) >= 0
    ensures Entries(Next(s, Handle(complete)), x) == Entries(s, x) + Delta(s.queue[0], x)
  {
    hide Prios, Asked, Withdrawn;
    var q := s.queue[0];
    AddPrios(s.table, q.index, q.prio, q.want && !complete, x.0);
    DelPrios(s.table, q.index, q.prio, x.0);
  }

  /** A release finds its entry, and an event changes the entries by what it says. */
  lemma HandleEven(s: System, complete: bool, x: (nat, int))
    requires Even(s, x) && s.queue != [] && s.queue[0].prio > IDLE
    ensures Entries(Next(s, Handle(complete)), x) == Entries(s, x) + Delta(s.queue[0], x)
    ensures Even(Next(s, Handle(complete)), x)
  {
    hide Holds, NeverShort, Balance, Entries, Asked, Withdrawn, Delta;
    BalanceHead(Entries(s, x), s.queue, x);
    NotShort(Entries(s, x) + Delta(s.queue[0], x), s.queue[1..], x);
    HandleEntries(s, complete, x);
  }

  lemma NotShort(n: int, queue: seq<Req>, x: (nat, int))
    requires NeverShort(n, queue, x)
    ensures n >= 0
  {
  }

  lemma StepKeeps(s: System, a: Action)
    requires Inv(s) && Enabled(s, a)
    ensures Inv(Next(s, a))
  {
    var t := Next(s, a);
    hide Even, ChansOk, Asked, Withdrawn, Finish, Prune;
    match a
    case Open =>
      forall x: (nat, int) ensures Even(t, x) { OpenEven(s, x); }
    case Handle(complete) =>
      var q := s.queue[0];
      assert q in s.queue;
      AddChans(s.table, q.index, q.prio, q.want && !complete);
      DelChans(s.table, q.index, q.prio);
      assert forall f :: f in t.queue ==> f in s.queue;
      forall x: (nat, int) ensures Even(t, x) { HandleEven(s, complete, x); }
    case Idle(i) =>
      AddChans(s.table, i, IDLE, false);
      forall x: (nat, int) ensures Even(t, x) { TableEven(s, t, x); }
    case Complete(i) =>
      FinishChans(s.table, i);
      forall x: (nat, int) ensures Even(t, x) { TableEven(s, t, x); }
    case PruneOne(i) =>
      FinishChans(s.table, i);
      forall x: (nat, int) ensures Even(t, x) { TableEven(s, t, x); }
    case _ =>
      ReaderOk(s, a);
      forall x: (nat, int) ensures Even(t, x) { ReaderEven(s, a, x); }
  }

  lemma OpenEven(s: System, x: (nat, int))
    requires Even(s, x)
    ensures Even(Next(s, Open), x)
  {
    hide NeverShort, Balance, Prios;
    var rs := s.readers + [Reader([], [])];
    assert rs[..|s.readers|] == s.readers;
  }

  lemma TableEven(s: System, t: System, x: (nat, int))
    requires Even(s, x)
    requires exists i :: 0 <= i && (t == Next(s, Idle(i)) || t == Next(s, Complete(i)) || t == Next(s, PruneOne(i)))
    ensures Even(t, x)
  {
    hide Holds, NeverShort, Balance, Prios, Asked, Finish, Prune;
    var i :| 0 <= i && (t == Next(s, Idle(i)) || t == Next(s, Complete(i)) || t == Next(s, PruneOne(i)));
    IdlePrios(s.table, i, false, x.0);
    PrunePrios(s.table, i, x.0);
  }

  lemma ReaderOk(s: System, a: Action)
    requires PriosOk(s.queue) && HeldOk(s.readers) && Enabled(s, a) && (a.Turn? || a.Ask? || a.Release?)
    ensures PriosOk(Next(s, a).queue) && HeldOk(Next(s, a).readers) && Next(s, a).table == s.table
  {
    if a.Release? { assert s.readers[a.r].last[0] in s.readers[a.r].last; }
  }

  // --------------------------------------------------------------------- whole runs

  const INITIAL: System := System(Table(map[], 0, {}), [], [])

  ghost function After(run: seq<Action>): System
  {
    if run == [] then INITIAL
    else
      var s := After(run[..|run| - 1]);
      if Enabled(s, run[|run| - 1]) then Next(s, run[|run| - 1]) else s
  }

  lemma {:induction false} RunKeeps(run: seq<Action>)
    ensures Inv(After(run))
    decreases |run|
  {
    if run != [] {
      hide Inv, Next, Enabled;
      RunKeeps(run[..|run| - 1]);
      var s := After(run[..|run| - 1]);
      if Enabled(s, run[|run| - 1]) { StepKeeps(s, run[|run| - 1]); }
    } else {
      assert forall x: (nat, int) :: Even(INITIAL, x);
    }
  }

  /** In every run: the entries for a piece and priority, with the events on their way, are what
      the readers hold; and a release about to be handled finds an entry to remove. */
  lemma RequestLedger(run: seq<Action>, i: nat, p: int)
    ensures var s := After(run);
            && Balance(Prios(s.table, i)[p], s.queue, (i, p)) == Holds(s.readers, (i, p))
            && (s.queue != [] && !s.queue[0].request && s.queue[0].index == i && s.queue[0].prio == p ==> p in Prios(s.table, i))
  {
    RunKeeps(run);
    var s, x := After(run), (i, p);
    hide After;
    assert Even(s, x);
    if s.queue != [] {
      BalanceHead(Entries(s, x), s.queue, x);
      NotShort2(Entries(s, x), s.queue, x);
    }
  }

  lemma NotShort2(n: int, queue: seq<Req>, x: (nat, int))
    requires NeverShort(n, queue, x) && queue != []
    ensures n + Delta(queue[0], x) >= 0
  {
    BalanceHead(n, queue, x);
    NotShort(n + Delta(queue[0], x), queue[1..], x);
  }

  /** In every run, a channel handed out is stored with exactly one piece and open, or closed. */
  lemma ChannelLedger(run: seq<Action>, c: nat)
    requires c < After(run).table.made
    ensures var t := After(run).table;
            (c in t.closed) != (exists i: nat :: Stored(t, c, i))
  {
    RunKeeps(run);
    hide After;
  }

  // ------------------------------------------------------------------------- objects

  /** The table as an object.  Closing a closed channel panics, which is the precondition of
      CloseChannel. */
  class RequestedPieces {
    var pieces: map<nat, Entry>
    var made: nat
    var closed: set<nat>

    ghost function View(): Table
      reads this
    {
      Table(pieces, made, closed)
    }

    constructor ()
      ensures View() == INITIAL.table && ChansOk(View())
    {
      pieces, made, closed := map[], 0, {};
    }

    method CloseChannel(c: nat)
      requires c !in closed
      modifies this`closed
      ensures closed == old(closed) + {c}
    {
      closed := closed + {c};
    }

    /** Models Add. */
    method Add(index: nat, prio: int, want: bool) returns (done: Option<nat>, added: bool)
      requires ChansOk(View())
      modifies this
      ensures ChansOk(View()) && View() == Asked(old(View()), index, prio, want)
      ensures done == pieces[index].done && (added <==> index !in old(pieces) || prio > IDLE)
      ensures want ==> done.Some? && done.value !in closed
    {
      AddChans(View(), index, prio, want);
      added := false;
      var r := Entry([], None);
      if index in pieces {
        r := pieces[index];
      } else {
        added := true;
      }
      if prio > IDLE {
        r := r.(prio := r.prio + [prio]);
        added := true;
      }
      if want && r.done.None? {
        r := r.(done := Some(made));
        made := made + 1;
      }
      pieces := pieces[index := r];
      done := r.done;
      if want { assert Stored(View(), done.value, index); }
    }

    /** Models del. */
    method Delete(index: nat)
      requires index in pieces && ChansOk(View())
      modifies this
      ensures ChansOk(View()) && View() == Forget(old(View()), index)
    {
      ForgetChans(View(), index);
      hide ChansOk;
      if pieces[index].done.Some? {
        assert Stored(View(), pieces[index].done.value, index);
        CloseChannel(pieces[index].done.value);
      }
      pieces := pieces - {index};
      assert closed == old(closed) + Chan(old(pieces)[index]);
    }

    /** Models Del: true if nobody requests the piece any more. */
    method Del(index: nat, prio: int) returns (gone: bool)
      requires ChansOk(View())
      modifies this
      ensures ChansOk(View()) && View() == Withdrawn(old(View()), index, prio)
      ensures gone <==> index in old(pieces) && index !in pieces
    {
      if index !in pieces {
        return false;
      }
      var ps := pieces[index].prio;
      var i := 0;
      while i < |ps|
        invariant 0 <= i <= |ps| && prio !in ps[..i]
      {
        if ps[i] == prio {
          WithoutAt(ps, prio, i);
          var rest := ps[..i] + ps[i + 1..];
          pieces := pieces[index := pieces[index].(prio := rest)];
          SameChans(old(View()), View());
          if |rest| == 0 {
            Delete(index);
            return true;
          }
          return false;
        }
        i := i + 1;
      }
      gone := false;
    }

    /** Models DelIdlePiece. */
    method DelIdlePiece(index: nat)
      requires ChansOk(View())
      modifies this
      ensures ChansOk(View()) && View() == Prune(old(View()), index)
    {
      if index in pieces && |pieces[index].prio| == 0 {
        Delete(index);
      }
    }

    /** Models Done. */
    method Done(index: nat)
      requires ChansOk(View())
      modifies this
      ensures ChansOk(View()) && View() == Finish(old(View()), index)
    {
      if index !in pieces {
        return;
      }
      var r := pieces[index];
      if r.done.Some? {
        assert Stored(View(), r.done.value, index);
        CloseChannel(r.done.value);
      }
      pieces := pieces[index := r.(done := None)];
      CloseChans(old(View()), View(), index);
      DelIdlePiece(index);
    }

    /** Models DelIdle, whatever the order of the map. */
    method DelIdle()
      requires ChansOk(View())
      modifies this
      ensures ChansOk(View())
      ensures forall i: nat :: i in pieces <==> i in old(pieces) && old(pieces)[i].prio != []
      ensures forall i: nat :: i in pieces ==> pieces[i] == old(pieces)[i]
    {
      var todo := pieces.Keys;
      while todo != {}
        invariant ChansOk(View()) && todo <= old(pieces).Keys
        invariant forall i: nat :: i in pieces <==> i in old(pieces) && (i in todo || old(pieces)[i].prio != [])
        invariant forall i: nat :: i in pieces ==> pieces[i] == old(pieces)[i]
        decreases todo
      {
        var index :| index in todo;
        DelIdlePiece(index);
        todo := todo - {index};
      }
    }
  }

  lemma {:induction false} WithoutAt(ps: seq<int>, p: int, i: nat)
    requires i < |ps| && ps[i] == p && p !in ps[..i]
    ensures Without(ps, p) == ps[..i] + ps[i + 1..]
  {
    if i > 0 {
      assert ps[..i][0] == ps[0];
      assert ps[1..][..i - 1] == ps[..i][1..];
      WithoutAt(ps[1..], p, i - 1);
      assert [ps[0]] + (ps[1..][..i - 1] + ps[1..][i..]) == ps[..i] + ps[i + 1..];
    }
  }

  /** The chunks whose request the torrent took. */
  function Granted(chunks: seq<(nat, int)>, took: seq<bool>): seq<(nat, int)>
    requires |took| == |chunks|
  {
    if chunks == [] then []
    else Granted(chunks[..|chunks| - 1], took[..|chunks| - 1]) + if took[|chunks| - 1] then [chunks[|chunks| - 1]] else []
  }

  function Events(xs: seq<(nat, int)>, request: bool): (es: seq<Req>)
    ensures |es| == |xs|
  {
    seq(|xs|, k requires 0 <= k < |xs| => Req(xs[k].0, xs[k].1, request, false))
  }

  /** Only the first request of a round asks for a channel; that flag is not part of the ledger. */
  function Plain(es: seq<Req>): (r: seq<Req>)
    ensures |r| == |es|
  {
    seq(|es|, k requires 0 <= k < |es| => es[k].(want := false))
  }

  class PieceReader {
    var requested: seq<(nat, int)>
    var requestedIndex: int
    var out: seq<Req>

    constructor ()
      ensures requested == [] && requestedIndex == -1 && out == []
    {
      requested, requestedIndex, out := [], -1, [];
    }

    /** Sends one event. */
    method Send(x: (nat, int), request: bool, want: bool)
      modifies this`out
      ensures Plain(out) == Plain(old(out)) + [Req(x.0, x.1, request, false)]
    {
      out := out + [Req(x.0, x.1, request, want)];
    }

    /** The first half of request: the new requests. */
    method Ask(chunks: seq<(nat, int)>, took: seq<bool>, failed: bool)
      requires |took| == |chunks| && requested == []
      modifies this`out, this`requested
      ensures var n := if failed && |chunks| > 0 then 1 else |chunks|;
              requested == Granted(chunks[..n], took[..n]) && Plain(out) == Plain(old(out)) + Events(requested, true)
    {
      hide Plain, Events;
      NoEvents(true);
      var i := 0;
      assert Plain(out) + [] == Plain(out);
      while i < |chunks|
        invariant 0 <= i <= |chunks| && (failed ==> i == 0)
        invariant requested == Granted(chunks[..i], took[..i])
        invariant Plain(out) == Plain(old(out)) + Events(requested, true)
      {
        assert chunks[..i + 1][..i] == chunks[..i] && took[..i + 1][..i] == took[..i];
        if took[i] {
          Send(chunks[i], true, i == 0);
          EventsSnoc(requested, chunks[i], true);
          requested := requested + [chunks[i]];
        }
        i := i + 1;
        if i == 1 && failed {
          break;
        }
      }
    }

    /** The second half of request: the releases. */
    method Release(last: seq<(nat, int)>)
      modifies this`out
      ensures Plain(out) == Plain(old(out)) + Events(last, false)
    {
      hide Plain, Events;
      NoEvents(false);
      var k := 0;
      assert Plain(out) + [] == Plain(out);
      while k < |last|
        invariant 0 <= k <= |last|
        invariant Plain(out) == Plain(old(out)) + Events(last[..k], false)
      {
        EventsSnoc(last[..k], last[k], false);
        assert last[..k] + [last[k]] == last[..k + 1];
        Send(last[k], false, false);
        k := k + 1;
      }
      assert last[..|last|] == last;
    }

    /** Models request, for the piece `index` and the chunks wanted there; `took` says which
        requests Torrent.Request accepts and `failed` whether the first one fails. */
    method Request(index: int, chunks: seq<(nat, int)>, took: seq<bool>, failed: bool)
      requires |took| == |chunks|
      modifies this
      ensures old(requestedIndex) >= 0 && old(requestedIndex) == index ==>
                requested == old(requested) && out == old(out) && requestedIndex == old(requestedIndex)
      ensures !(old(requestedIndex) >= 0 && old(requestedIndex) == index) ==>
                var n := if failed && |chunks| > 0 then 1 else |chunks|;
                && requested == Granted(chunks[..n], took[..n])
                && Plain(out) == Plain(old(out)) + Events(requested, true) + Events(old(requested), false)
                && requestedIndex == if |chunks| > 0 then chunks[0].0 else -1
    {
      hide Plain, Events, Granted;
      if requestedIndex >= 0 && requestedIndex == index {
        return;
      }
      var last := requested;
      requested := [];
      Ask(chunks, took, failed);
      Release(last);
      requestedIndex := if |chunks| > 0 then chunks[0].0 else -1;
    }
  }

  lemma NoEvents(request: bool)
    ensures Events([], request) == []
  {
  }

  lemma EventsSnoc(xs: seq<(nat, int)>, x: (nat, int), request: bool)
    ensures Events(xs + [x], request) == Events(xs, request) + [Req(x.0, x.1, request, false)]
  {
  }
}
