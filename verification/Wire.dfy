/** The peer wire protocol.

A message is four bytes of length, one of type, and a body.  The body of some extended messages
is bencoded by a library: here it is whatever bytes the library has made, or is given to parse.  `Encode` is what Write puts on the
wire, `Decode` what Read makes of the bytes it finds. */
module Wire {
  import opened Options

  type Byte = x: int | 0 <= x < 0x100
  type Short = x: int | 0 <= x < 0x1_0000
  type Word = x: int | 0 <= x < 0x1_0000_0000

  const LIMIT: nat := 1024 * 1024

  // The subtypes negotiated for reception of extended messages.
  const EXT_PEX: Byte := 1
  const EXT_METADATA: Byte := 2
  const EXT_DONT_HAVE: Byte := 3
  const EXT_UPLOAD_ONLY: Byte := 4

  datatype Message =
    | KeepAlive | Choke | Unchoke | Interested | NotInterested
    | Have(index: Word)
    | Bitfield(bits: seq<Byte>)
    | Request(index: Word, begin: Word, length: Word)
    | Piece(index: Word, begin: Word, data: seq<Byte>)
    | Cancel(index: Word, begin: Word, length: Word)
    | Port(port: Short)
    | SuggestPiece(index: Word)
    | HaveAll | HaveNone
    | RejectRequest(index: Word, begin: Word, length: Word)
    | AllowedFast(index: Word)
    | Extended0(info: seq<Byte>)
    | ExtendedPex(subtype: Byte, info: seq<Byte>)
    | ExtendedMetadata(subtype: Byte, info: seq<Byte>, data: seq<Byte>)
    | DontHave(subtype: Byte, index: Word)
    | UploadOnly(subtype: Byte, value: bool)
    | ExtendedUnknown(subtype: Byte)
    | Unknown(tpe: Byte)

  // -------------------------------------------------------------------- big-endian

  function Word4(v: Word): (r: seq<Byte>)
    ensures |r| == 4
  {
    var w := v / 0x100;
    var x := w / 0x100;
    [x / 0x100, x % 0x100, w % 0x100, v % 0x100]
  }

  function Short2(v: Short): (r: seq<Byte>)
    ensures |r| == 2
  {
    [v / 0x100, v % 0x100]
  }

  function WordOf(p: int, q: int, r: int, s: int): Word
    requires 0 <= p < 0x100 && 0 <= q < 0x100 && 0 <= r < 0x100 && 0 <= s < 0x100
  {
    p * 0x100_0000 + q * 0x1_0000 + r * 0x100 + s
  }

  function ShortOf(p: int, q: int): Short
    requires 0 <= p < 0x100 && 0 <= q < 0x100
  {
    p * 0x100 + q
  }

  function WordAt(b: seq<Byte>, k: nat): Word
    requires k + 4 <= |b|
  {
    WordOf(b[k], b[k + 1], b[k + 2], b[k + 3])
  }

  function ShortAt(b: seq<Byte>, k: nat): Short
    requires k + 2 <= |b|
  {
    ShortOf(b[k], b[k + 1])
  }

  lemma WordOfParts(v: Word)
    ensures var w := v / 0x100;
            var x := w / 0x100;
            WordOf(x / 0x100, x % 0x100, w % 0x100, v % 0x100) == v
  {
  }

  lemma WordRoundTrip(b: seq<Byte>, k: nat, v: Word)
    requires k + 4 <= |b| && b[k..k + 4] == Word4(v)
    ensures WordAt(b, k) == v
  {
    hide WordOf;
    var s := b[k..k + 4];
    assert s[0] == b[k] && s[1] == b[k + 1] && s[2] == b[k + 2] && s[3] == b[k + 3];
    WordOfParts(v);
  }

  lemma ShortRoundTrip(b: seq<Byte>, k: nat, v: Short)
    requires k + 2 <= |b| && b[k..k + 2] == Short2(v)
    ensures ShortAt(b, k) == v
  {
    assert b[k] == b[k..k + 2][0] && b[k + 1] == b[k..k + 2][1];
  }

  // ---------------------------------------------------------------------- encoding

  function Words(v: Word, w: Word, x: Word): (r: seq<Byte>)
    ensures |r| == 12
  {
    Word4(v) + Word4(w) + Word4(x)
  }

  /** The type and the body of a message Write knows, None for one it panics on. */
  function Body(m: Message): Option<(Byte, seq<Byte>)>
  {
    match m
    case KeepAlive => None
    case Choke => Some((0, []))
    case Unchoke => Some((1, []))
    case Interested => Some((2, []))
    case NotInterested => Some((3, []))
    case Have(i) => Some((4, Word4(i)))
    case Bitfield(bits) => Some((5, bits))
    case Request(i, b, l) => Some((6, Words(i, b, l)))
    case Piece(i, b, data) => Some((7, Word4(i) + Word4(b) + data))
    case Cancel(i, b, l) => Some((8, Words(i, b, l)))
    case Port(p) => Some((9, Short2(p)))
    case SuggestPiece(i) => Some((13, Word4(i)))
    case HaveAll => Some((14, []))
    case HaveNone => Some((15, []))
    case RejectRequest(i, b, l) => Some((16, Words(i, b, l)))
    case AllowedFast(i) => Some((17, Word4(i)))
    case Extended0(info) => Some((20, [0] + (info + [])))
    case ExtendedPex(s, info) => Some((20, [s] + (info + [])))
    case ExtendedMetadata(s, info, data) => if s == 0 then None else Some((20, [s] + (info + data)))
    case DontHave(s, i) => if s == 0 then None else Some((20, [s] + (Word4(i) + [])))
    case _ => None
  }

  /** The messages that Write sends: it panics on the others. */
  predicate Writable(m: Message)
  {
    m.KeepAlive? || (Body(m).Some? && |Body(m).value.1| + 1 < 0x1_0000_0000)
  }

  /** Those within the limit that Read puts on the length. */
  predicate Sendable(m: Message)
  {
    m.KeepAlive? || (Body(m).Some? && |Body(m).value.1| + 1 <= LIMIT)
  }

  function Encode(m: Message): seq<Byte>
    requires Writable(m)
  {
    if m.KeepAlive? then [0, 0, 0, 0]
    else Word4(|Body(m).value.1| + 1) + [Body(m).value.0] + Body(m).value.1
  }

  // ---------------------------------------------------------------------- decoding

  /** What Read returns, and how many bytes it has consumed.  Nil is a nil message without an
      error; Bencoded is what the bencode library is given to parse, as a message of that subtype,
      and what has been consumed once it has read it. */
  datatype Outcome =
    | Got(m: Message, used: nat)
    | Nil(used: nat)
    | ParseError(used: nat)
    | TooLong(used: nat)
    | ShortRead
    | Bencoded(subtype: Byte, payload: seq<Byte>, used: nat)

  /** A body of fixed size n, read as a message if it is there. */
  function Fixed(b: seq<Byte>, length: nat, want: nat, m: Message): Outcome
  {
    if length != want then ParseError(5) else if |b| < 4 + want then ShortRead else Got(m, 4 + want)
  }

  function WordOr(b: seq<Byte>, k: nat): Word { if k + 4 <= |b| then WordAt(b, k) else 0 }

  function ShortOr(b: seq<Byte>, k: nat): Short { if k + 2 <= |b| then ShortAt(b, k) else 0 }

  /** Lengths are unsigned 32-bit numbers, so length - 2 wraps around. */
  function Less2(length: nat): nat { (length - 2) % 0x1_0000_0000 }

  function DecodeExtended(b: seq<Byte>, length: nat): Outcome
    requires 5 <= |b|
  {
    if |b| < 6 then ShortRead
    else if b[5] == 0 || b[5] == EXT_PEX then
      (var end := if |b| < 6 + Less2(length) then |b| else 6 + Less2(length);
       Bencoded(b[5], b[6..end], end))
    else if b[5] == EXT_METADATA then
      (if |b| < 6 + Less2(length) then ShortRead else Bencoded(EXT_METADATA, b[6..6 + Less2(length)], 6 + Less2(length)))
    else if b[5] == EXT_DONT_HAVE then
      (if Less2(length) != 4 then ParseError(6) else if |b| < 10 then ShortRead else Got(DontHave(EXT_DONT_HAVE, WordAt(b, 6)), 10))
    else if b[5] == EXT_UPLOAD_ONLY then
      (if Less2(length) != 1 then ParseError(6)
       else if |b| < 7 then ParseError(6)
       else if b[6] > 1 then ParseError(7)
       else Got(UploadOnly(EXT_UPLOAD_ONLY, b[6] == 1), 7))
    else if |b| < 6 + Less2(length) then ShortRead
    else Got(ExtendedUnknown(b[5]), 6 + Less2(length))
  }

  function DecodeBody(b: seq<Byte>, length: nat): Outcome
    requires 5 <= |b| && length > 0
  {
    var tpe := b[4];
    if tpe == 0 then Fixed(b, length, 1, Choke)
    else if tpe == 1 then Fixed(b, length, 1, Unchoke)
    else if tpe == 2 then Fixed(b, length, 1, Interested)
    else if tpe == 3 then Fixed(b, length, 1, NotInterested)
    else if tpe == 4 then Fixed(b, length, 5, Have(WordOr(b, 5)))
    else if tpe == 5 then (if |b| < 4 + length then ShortRead else Got(Bitfield(b[5..4 + length]), 4 + length))
    else if tpe == 6 then Fixed(b, length, 13, Request(WordOr(b, 5), WordOr(b, 9), WordOr(b, 13)))
    else if tpe == 8 then Fixed(b, length, 13, Cancel(WordOr(b, 5), WordOr(b, 9), WordOr(b, 13)))
    else if tpe == 16 then Fixed(b, length, 13, RejectRequest(WordOr(b, 5), WordOr(b, 9), WordOr(b, 13)))
    else if tpe == 7 then
      (if length < 9 then ParseError(5)
       else if |b| < 4 + length then ShortRead
       else Got(Piece(WordAt(b, 5), WordAt(b, 9), b[13..4 + length]), 4 + length))
    else if tpe == 9 then Fixed(b, length, 3, Port(ShortOr(b, 5)))
    else if tpe == 13 then Fixed(b, length, 5, SuggestPiece(WordOr(b, 5)))
    else if tpe == 17 then Fixed(b, length, 5, AllowedFast(WordOr(b, 5)))
    else if tpe == 14 then (if length != 1 then Nil(5) else Got(HaveAll, 5))
    else if tpe == 15 then (if length != 1 then Nil(5) else Got(HaveNone, 5))
    else if tpe == 20 then DecodeExtended(b, length)
    else if |b| < 4 + length then ShortRead
    else Got(Unknown(tpe), 4 + length)
  }

  function Decode(b: seq<Byte>): Outcome
  {
    if |b| < 4 then ShortRead
    else
      var length := WordAt(b, 0);
      if length == 0 then Got(KeepAlive, 4)
      else if length > LIMIT then TooLong(4)
      else if |b| < 5 then ShortRead
      else DecodeBody(b, length)
  }

  // --------------------------------------------------------------------- round trip

  /** The messages that survive the wire: within the limit, and under our own subtypes. */
  predicate Survives(m: Message)
  {
    && Sendable(m)
    && (m.DontHave? ==> m.subtype == EXT_DONT_HAVE)
    && (m.ExtendedPex? ==> m.subtype == EXT_PEX)
    && (m.ExtendedMetadata? ==> m.subtype == EXT_METADATA)
  }

  /** What reading a message should give: the message itself, or its payload as a message of the
      right kind for the library to parse; and all of its bytes consumed. */
  function Expected(m: Message): Outcome
    requires Writable(m)
  {
    match m
    case Extended0(info) => Bencoded(0, info, |Encode(m)|)
    case ExtendedPex(_, info) => Bencoded(EXT_PEX, info, |Encode(m)|)
    case ExtendedMetadata(_, info, data) => Bencoded(EXT_METADATA, info + data, |Encode(m)|)
    case _ => Got(m, |Encode(m)|)
  }

  /** Where the parts of an encoded message are. */
  lemma Frame(m: Message, rest: seq<Byte>)
    requires Writable(m) && !m.KeepAlive?
    ensures var b, n := Encode(m) + rest, |Body(m).value.1| + 1;
            && |Encode(m)| == 4 + n && |b| >= 4 + n && WordAt(b, 0) == n
            && b[4] == Body(m).value.0 && b[5..4 + n] == Body(m).value.1
  {
    hide Body;
    var b, n := Encode(m) + rest, |Body(m).value.1| + 1;
    assert b[0..4] == Word4(n);
    WordRoundTrip(b, 0, n);
    assert b[5..4 + n] == Body(m).value.1;
  }

  lemma ThreeWords(b: seq<Byte>, v: Word, w: Word, x: Word)
    requires |b| >= 17 && b[5..17] == Words(v, w, x)
    ensures WordOr(b, 5) == v && WordOr(b, 9) == w && WordOr(b, 13) == x
  {
    hide Word4;
    var s := Words(v, w, x);
    SliceOfSlice(b, 5, 17, 0, 4);
    SliceOfSlice(b, 5, 17, 4, 8);
    SliceOfSlice(b, 5, 17, 8, 12);
    var head := Word4(v) + Word4(w);
    assert s == head + Word4(x);
    assert head[0..4] == Word4(v) && head[4..8] == Word4(w);
    assert s[0..4] == head[0..4] && s[4..8] == head[4..8] && s[8..12] == Word4(x);
    WordRoundTrip(b, 5, v);
    WordRoundTrip(b, 9, w);
    WordRoundTrip(b, 13, x);
  }

  lemma OneWord(b: seq<Byte>, v: Word)
    requires |b| >= 9 && b[5..9] == Word4(v)
    ensures WordOr(b, 5) == v
  {
    WordRoundTrip(b, 5, v);
  }

  lemma SliceOfSlice(b: seq<Byte>, a: nat, e: nat, i: nat, j: nat)
    requires a <= e <= |b| && i <= j <= e - a
    ensures b[a..e][i..j] == b[a + i..a + j]
  {
    var t := b[a..e];
    var l, r := t[i..j], b[a + i..a + j];
    assert |l| == |r|;
    forall k | 0 <= k < |l| ensures l[k] == r[k] { assert l[k] == t[i + k]; }
  }

  lemma PieceBody(b: seq<Byte>, i: Word, w: Word, data: seq<Byte>)
    requires |b| >= 13 + |data| && b[5..13 + |data|] == Word4(i) + Word4(w) + data
    ensures WordAt(b, 5) == i && WordAt(b, 9) == w && b[13..13 + |data|] == data
  {
    hide Word4;
    var t, s := b[5..13 + |data|], Word4(i) + Word4(w) + data;
    SliceOfSlice(b, 5, 13 + |data|, 0, 4);
    SliceOfSlice(b, 5, 13 + |data|, 4, 8);
    SliceOfSlice(b, 5, 13 + |data|, 8, 8 + |data|);
    assert s[0..4] == Word4(i);
    assert (Word4(i) + Word4(w))[4..8] == Word4(w);
    assert s[4..8] == (Word4(i) + Word4(w))[4..8];
    assert s[8..8 + |data|] == data;
    WordRoundTrip(b, 5, i);
    WordRoundTrip(b, 9, w);
  }

  lemma DontHaveBody(b: seq<Byte>, s: Byte, i: Word)
    requires |b| >= 10 && b[5..10] == [s] + (Word4(i) + [])
    ensures b[5] == s && WordAt(b, 6) == i
  {
    hide Word4;
    assert b[5] == b[5..10][0];
    assert b[6..10] == b[5..10][1..5];
    WordRoundTrip(b, 6, i);
  }

  /** An encoded message is decoded by its type. */
  lemma Framed(m: Message, rest: seq<Byte>)
    requires Sendable(m) && !m.KeepAlive?
    ensures var b, n := Encode(m) + rest, |Body(m).value.1| + 1;
            && |b| >= 4 + n && |Encode(m)| == 4 + n && Decode(b) == DecodeBody(b, n)
            && b[4] == Body(m).value.0 && b[5..4 + n] == Body(m).value.1
  {
    Frame(m, rest);
    hide DecodeBody, Body, Encode, WordAt;
  }

  lemma ThreeWordTrip(m: Message, rest: seq<Byte>)
    requires Sendable(m) && (m.Request? || m.Cancel? || m.RejectRequest?)
    ensures Decode(Encode(m) + rest) == Got(m, |Encode(m)|)
  {
    Framed(m, rest);
    ThreeWords(Encode(m) + rest, m.index, m.begin, m.length);
    hide Encode, Decode, WordOr, Words, DecodeExtended;
  }

  lemma OneWordTrip(m: Message, rest: seq<Byte>)
    requires Sendable(m) && (m.Have? || m.SuggestPiece? || m.AllowedFast?)
    ensures Decode(Encode(m) + rest) == Got(m, |Encode(m)|)
  {
    Framed(m, rest);
    OneWord(Encode(m) + rest, m.index);
    hide Encode, Decode, WordOr, Word4, DecodeExtended;
  }

  lemma PieceTrip(m: Message, rest: seq<Byte>)
    requires Sendable(m) && m.Piece?
    ensures Decode(Encode(m) + rest) == Got(m, |Encode(m)|)
  {
    Framed(m, rest);
    PieceBody(Encode(m) + rest, m.index, m.begin, m.data);
    hide Encode, Decode, WordAt, Word4, DecodeExtended;
  }

  /** Reading what was written gives the message back and consumes exactly its bytes, whatever
      follows it. */
  lemma RoundTrip(m: Message, rest: seq<Byte>)
    requires Survives(m)
    ensures Decode(Encode(m) + rest) == Expected(m)
  {
    hide Decode, Encode;
    if m.KeepAlive? {
      KeepAliveTrip(rest);
    } else if m.Request? || m.Cancel? || m.RejectRequest? {
      ThreeWordTrip(m, rest);
    } else if m.Have? || m.SuggestPiece? || m.AllowedFast? {
      OneWordTrip(m, rest);
    } else if m.Piece? {
      PieceTrip(m, rest);
    } else if m.Port? {
      PortTrip(m, rest);
    } else if m.DontHave? {
      DontHaveTrip(m, rest);
    } else if m.Extended0? || m.ExtendedPex? || m.ExtendedMetadata? {
      BencodedTrip(m, rest);
    } else {
      PlainTrip(m, rest);
    }
  }

  /** A bencoded message is framed so that the library gets back exactly its own bytes. */
  lemma BencodedTrip(m: Message, rest: seq<Byte>)
    requires Survives(m) && (m.Extended0? || m.ExtendedPex? || m.ExtendedMetadata?)
    ensures Decode(Encode(m) + rest) == Expected(m)
  {
    Framed(m, rest);
    var b, body := Encode(m) + rest, Body(m).value.1;
    hide Encode, Decode, DecodeBody;
    IsExtended(b, |body| + 1);
    BencodedBody(b, body[0], body[1..]);
    assert |body| + 1 <= LIMIT;
    hide DecodeExtended;
    if m.ExtendedMetadata? { assert body[1..] == m.info + m.data; } else { assert body[1..] == m.info; }
  }

  lemma BencodedBody(b: seq<Byte>, s: Byte, payload: seq<Byte>)
    requires |b| >= 6 + |payload| && |payload| + 2 <= LIMIT && b[5..6 + |payload|] == [s] + payload
    ensures b[5] == s
    ensures s == 0 || s == EXT_PEX || s == EXT_METADATA ==> DecodeExtended(b, |payload| + 2) == Bencoded(s, payload, 6 + |payload|)
    ensures s == EXT_DONT_HAVE || s > EXT_METADATA ==> !DecodeExtended(b, |payload| + 2).Bencoded?
  {
    hide WordAt;
    assert b[5] == b[5..6 + |payload|][0];
    SliceOfSlice(b, 5, 6 + |payload|, 1, 1 + |payload|);
    assert ([s] + payload)[1..1 + |payload|] == payload;
    assert Less2(|payload| + 2) == |payload|;
  }

  lemma KeepAliveTrip(rest: seq<Byte>)
    ensures Decode(Encode(KeepAlive) + rest) == Got(KeepAlive, |Encode(KeepAlive)|)
  {
    hide Body, Decode, DecodeBody, WordAt, WordOf;
    var b := Encode(KeepAlive) + rest;
    assert Word4(0) == [0, 0, 0, 0];
    assert b[0..4] == [0, 0, 0, 0];
    WordRoundTrip(b, 0, 0);
    NoLength(b);
  }

  lemma NoLength(b: seq<Byte>)
    requires |b| >= 4 && WordAt(b, 0) == 0
    ensures Decode(b) == Got(KeepAlive, 4)
  {
    hide DecodeBody, WordAt;
  }

  lemma PortTrip(m: Message, rest: seq<Byte>)
    requires Sendable(m) && m.Port?
    ensures Decode(Encode(m) + rest) == Got(m, |Encode(m)|)
  {
    Framed(m, rest);
    ShortRoundTrip(Encode(m) + rest, 5, m.port);
    hide Encode, Decode, WordAt, Short2, ShortAt, DecodeExtended;
  }

  lemma DontHaveTrip(m: Message, rest: seq<Byte>)
    requires Sendable(m) && m.DontHave? && m.subtype == EXT_DONT_HAVE
    ensures Decode(Encode(m) + rest) == Got(m, |Encode(m)|)
  {
    Framed(m, rest);
    DontHaveBody(Encode(m) + rest, m.subtype, m.index);
    IsExtended(Encode(m) + rest, 6);
    IsDontHave(Encode(m) + rest);
    hide Encode, Decode, DecodeBody, DecodeExtended, WordAt, Word4;
  }

  lemma IsDontHave(b: seq<Byte>)
    requires |b| >= 10 && b[5] == EXT_DONT_HAVE
    ensures DecodeExtended(b, 6) == Got(DontHave(EXT_DONT_HAVE, WordAt(b, 6)), 10)
  {
    hide WordAt;
  }

  lemma IsExtended(b: seq<Byte>, length: nat)
    requires 5 <= |b| && length > 0 && b[4] == 20
    ensures DecodeBody(b, length) == DecodeExtended(b, length)
  {
    hide DecodeExtended, WordOr, ShortOr, WordAt, Fixed;
  }

  lemma PlainTrip(m: Message, rest: seq<Byte>)
    requires Sendable(m) && (m.Choke? || m.Unchoke? || m.Interested? || m.NotInterested? || m.HaveAll? || m.HaveNone? || m.Bitfield?)
    ensures Decode(Encode(m) + rest) == Got(m, |Encode(m)|)
  {
    Framed(m, rest);
    hide Encode, Decode, DecodeExtended, WordOr, ShortOr, WordAt;
  }

  /** Among the messages Write sends, exactly those come back as they were: one over the limit
      does not, nor does one sent under a subtype other than ours. */
  lemma RoundTripIff(m: Message, rest: seq<Byte>)
    requires Writable(m)
    ensures Decode(Encode(m) + rest) == Expected(m) <==> Survives(m)
  {
    if Survives(m) {
      RoundTrip(m, rest);
    } else if !Sendable(m) {
      Frame(m, rest);
      hide Encode, WordAt, Body;
    } else if m.DontHave? {
      Framed(m, rest);
      DontHaveBody(Encode(m) + rest, m.subtype, m.index);
      IsExtended(Encode(m) + rest, 6);
      hide Encode, Decode, DecodeBody, WordAt, Word4;
    } else {
      OtherSubtype(m, rest);
    }
  }

  lemma OtherSubtype(m: Message, rest: seq<Byte>)
    requires Sendable(m) && !Survives(m) && (m.ExtendedPex? || m.ExtendedMetadata?)
    ensures Decode(Encode(m) + rest) != Expected(m)
  {
    Framed(m, rest);
    var b, body := Encode(m) + rest, Body(m).value.1;
    hide Encode, Decode, DecodeBody;
    IsExtended(b, |body| + 1);
    BencodedBody(b, body[0], body[1..]);
    hide DecodeExtended;
  }

  // ------------------------------------------------------------------ streams of messages

  function EncodeAll(ms: seq<Message>): seq<Byte>
    requires forall k :: 0 <= k < |ms| ==> Survives(ms[k])
  {
    if ms == [] then []
    else
      assert Survives(ms[0]);
      Encode(ms[0]) + EncodeAll(ms[1..])
  }

  /** Repeated reading up to the end of the bytes: None if a read fails on the way. */
  function DecodeAll(b: seq<Byte>): Option<seq<Outcome>>
    decreases |b|
  {
    if b == [] then Some([])
    else
      var r := Decode(b);
      if !(r.Got? || r.Bencoded?) || r.used == 0 || r.used > |b| then None
      else
        var rest := DecodeAll(b[r.used..]);
        if rest.None? then None else Some([r] + rest.value)
  }

  function ExpectedAll(ms: seq<Message>): (r: seq<Outcome>)
    requires forall k :: 0 <= k < |ms| ==> Survives(ms[k])
    ensures |r| == |ms|
  {
    if ms == [] then []
    else
      assert Survives(ms[0]);
      [Expected(ms[0])] + ExpectedAll(ms[1..])
  }

  /** Repeated Read over everything Write put out returns the messages in order, to the last byte. */
  lemma {:induction false} StreamRoundTrip(ms: seq<Message>)
    requires forall k :: 0 <= k < |ms| ==> Survives(ms[k])
    ensures DecodeAll(EncodeAll(ms)) == Some(ExpectedAll(ms))
    decreases |ms|
  {
    hide Decode, Encode, Survives, Expected;
    if ms != [] {
      var m, rest := ms[0], EncodeAll(ms[1..]);
      SurvivesWritable(m);
      RoundTrip(m, rest);
      StreamRoundTrip(ms[1..]);
      EncodedSome(m);
      ReadOne(m, rest, ExpectedAll(ms[1..]));
    }
  }

  lemma SurvivesWritable(m: Message)
    requires Survives(m)
    ensures Sendable(m) && Writable(m)
  {
  }

  lemma EncodedSome(m: Message)
    requires Sendable(m)
    ensures |Encode(m)| >= 4
  {
    hide Body;
  }

  lemma ReadOne(m: Message, rest: seq<Byte>, os: seq<Outcome>)
    requires Writable(m) && Decode(Encode(m) + rest) == Expected(m) && |Encode(m)| > 0 && DecodeAll(rest) == Some(os)
    ensures DecodeAll(Encode(m) + rest) == Some([Expected(m)] + os)
  {
    hide Decode, Encode, Writable;
    assert (Encode(m) + rest)[|Encode(m)|..] == rest;
  }

  // ------------------------------------------------------------------------- objects

  /** The buffered writer. */
  class Sink {
    var bytes: seq<Byte>

    constructor ()
      ensures bytes == []
    {
      bytes := [];
    }

    method Put(data: seq<Byte>)
      modifies this
      ensures bytes == old(bytes) + data
    {
      bytes := bytes + data;
    }

    /** Models sendMessage. */
    method SendMessage(tpe: Byte, data1: seq<Byte>, data2: seq<Byte>, data3: seq<Byte>)
      requires |data1| + |data2| + |data3| + 1 < 0x1_0000_0000
      modifies this
      ensures bytes == old(bytes) + (Word4(|data1| + |data2| + |data3| + 1) + [tpe] + (data1 + (data2 + data3)))
    {
      hide Word4;
      var buf := Word4(|data1| + |data2| + |data3| + 1) + [tpe];
      Put(buf);
      Put(data1);
      Put(data2);
      Put(data3);
      assert old(bytes) + buf + data1 + data2 + data3 == old(bytes) + (buf + (data1 + (data2 + data3)));
    }

    /** Models sendExtended. */
    method SendExtended(subtype: Byte, data1: seq<Byte>, data2: seq<Byte>)
      requires |data1| + |data2| + 2 < 0x1_0000_0000
      modifies this
      ensures bytes == old(bytes) + (Word4(|data1| + |data2| + 2) + [20] + ([subtype] + (data1 + data2)))
    {
      hide Word4;
      SendMessage(20, [subtype], data1, data2);
    }

    /** Models sendMessage0. */
    method SendMessage0(tpe: Byte)
      modifies this
      ensures bytes == old(bytes) + (Word4(1) + [tpe] + [])
    {
      hide Word4;
      Put(Word4(1) + [tpe]);
    }

    /** Models sendMessageShort. */
    method SendMessageShort(tpe: Byte, v: Short)
      modifies this
      ensures bytes == old(bytes) + (Word4(3) + [tpe] + Short2(v))
    {
      hide Word4, Short2;
      Put(Word4(3) + [tpe] + Short2(v));
    }

    /** Models sendMessage1. */
    method SendMessage1(tpe: Byte, v: Word)
      modifies this
      ensures bytes == old(bytes) + (Word4(5) + [tpe] + Word4(v))
    {
      hide Word4;
      Put(Word4(5) + [tpe] + Word4(v));
    }

    /** Models sendMessage3. */
    method SendMessage3(tpe: Byte, v1: Word, v2: Word, v3: Word)
      modifies this
      ensures bytes == old(bytes) + (Word4(13) + [tpe] + Words(v1, v2, v3))
    {
      hide Word4;
      Put(Word4(13) + [tpe] + Word4(v1) + Word4(v2) + Word4(v3));
      assert Word4(13) + [tpe] + Word4(v1) + Word4(v2) + Word4(v3) == Word4(13) + [tpe] + Words(v1, v2, v3);
    }

    /** Models Write, once the bencode library has done its part. */
    method Write(m: Message)
      requires Writable(m)
      modifies this
      ensures bytes == old(bytes) + Encode(m)
    {
      hide Word4, Short2, Words;
      if m.Extended0? || m.ExtendedPex? || m.ExtendedMetadata? || m.DontHave? {
        WriteExtended(m);
        return;
      }
      if m.Choke? || m.Unchoke? || m.Interested? || m.NotInterested? || m.HaveAll? || m.HaveNone? {
        WriteBare(m);
        return;
      }
      match m
      case KeepAlive => Put([0, 0, 0, 0]);
      case Have(i) => SendMessage1(4, i);
      case Bitfield(bits) =>
        SendMessage(5, bits, [], []);
        assert bits + ([] + []) == bits;
      case Request(i, b, l) => SendMessage3(6, i, b, l);
      case Piece(i, b, data) => WritePiece(i, b, data);
      case Cancel(i, b, l) => SendMessage3(8, i, b, l);
      case Port(p) => SendMessageShort(9, p);
      case SuggestPiece(i) => SendMessage1(13, i);
      case RejectRequest(i, b, l) => SendMessage3(16, i, b, l);
      case AllowedFast(i) => SendMessage1(17, i);
    }

    method WriteBare(m: Message)
      requires m.Choke? || m.Unchoke? || m.Interested? || m.NotInterested? || m.HaveAll? || m.HaveNone?
      modifies this
      ensures bytes == old(bytes) + Encode(m)
    {
      hide Word4;
      match m
      case Choke => SendMessage0(0);
      case Unchoke => SendMessage0(1);
      case Interested => SendMessage0(2);
      case NotInterested => SendMessage0(3);
      case HaveAll => SendMessage0(14);
      case HaveNone => SendMessage0(15);
    }

    method WritePiece(i: Word, b: Word, data: seq<Byte>)
      requires |data| + 9 < 0x1_0000_0000
      modifies this
      ensures bytes == old(bytes) + Encode(Piece(i, b, data))
    {
      hide Word4;
      var buf := Word4(1 + 8 + |data|) + [7] + Word4(i) + Word4(b);
      Put(buf);
      Put(data);
      assert buf + data == Word4(1 + 8 + |data|) + [7] + (Word4(i) + Word4(b) + data);
    }

    method WriteExtended(m: Message)
      requires Writable(m) && (m.Extended0? || m.ExtendedPex? || m.ExtendedMetadata? || m.DontHave?)
      modifies this
      ensures bytes == old(bytes) + Encode(m)
    {
      hide Word4;
      match m
      case Extended0(info) => SendExtended(0, info, []);
      case ExtendedPex(s, info) => SendExtended(s, info, []);
      case ExtendedMetadata(s, info, data) => SendExtended(s, info, data);
      case DontHave(s, i) => SendExtended(s, Word4(i), []);
    }
  }

  /** The buffered reader: the bytes not yet consumed. */
  class Source {
    var data: seq<Byte>

    constructor (bytes: seq<Byte>)
      ensures data == bytes
    {
      data := bytes;
    }

    /** Models io.ReadFull; None is an error for want of bytes. */
    method ReadFull(n: nat) returns (r: Option<seq<Byte>>)
      modifies this
      ensures |old(data)| >= n ==> r == Some(old(data)[..n]) && data == old(data)[n..]
      ensures |old(data)| < n ==> r == None && data == []
    {
      if |data| < n {
        data := [];
        return None;
      }
      r := Some(data[..n]);
      data := data[n..];
    }

    /** Models reading a limited reader to its end. */
    method ReadLimited(n: nat) returns (r: seq<Byte>)
      modifies this
      ensures var k := if |old(data)| < n then |old(data)| else n; r == old(data)[..k] && data == old(data)[k..]
    {
      var k := if |data| < n then |data| else n;
      r := data[..k];
      data := data[k..];
    }

    /** Models readUint32. */
    method ReadWord() returns (r: Option<Word>)
      modifies this
      ensures |old(data)| >= 4 ==> r == Some(WordAt(old(data), 0)) && data == old(data)[4..]
      ensures |old(data)| < 4 ==> r == None
    {
      var b := ReadFull(4);
      r := if b.None? then None else Some(WordAt(b.value, 0));
    }

    /** Models readUint16. */
    method ReadShort() returns (r: Option<Short>)
      modifies this
      ensures |old(data)| >= 2 ==> r == Some(ShortAt(old(data), 0)) && data == old(data)[2..]
      ensures |old(data)| < 2 ==> r == None
    {
      var b := ReadFull(2);
      r := if b.None? then None else Some(ShortAt(b.value, 0));
    }

    /** The rest of a message of three words. */
    method ReadThree() returns (r: Option<(Word, Word, Word)>)
      modifies this
      ensures |old(data)| >= 12 ==> r == Some((WordAt(old(data), 0), WordAt(old(data), 4), WordAt(old(data), 8))) && data == old(data)[12..]
      ensures |old(data)| < 12 ==> r == None
    {
      hide WordOf;
      var x := ReadWord();
      if x.None? {
        return None;
      }
      var y := ReadWord();
      if y.None? {
        return None;
      }
      var z := ReadWord();
      r := if z.None? then None else Some((x.value, y.value, z.value));
    }

    /** The body of a message of one word. */
    method WordBody(ghost b: seq<Byte>, length: nat) returns (ok: bool, v: Word, r: Outcome)
      requires 5 <= |b| && data == b[5..]
      modifies this
      ensures ok <==> length == 5 && |b| >= 9
      ensures ok ==> v == WordOr(b, 5) && data == b[9..]
      ensures !ok ==> r == Fixed(b, length, 5, KeepAlive) && Consumed(b, data, r)
    {
      hide WordOf;
      ok, v, r := false, 0, ParseError(5);
      if length != 5 {
        return;
      }
      var w := ReadWord();
      if w.None? {
        r := ShortRead;
        return;
      }
      ok, v := true, w.value;
    }

    /** The body of a message of three words. */
    method WordsBody(ghost b: seq<Byte>, length: nat) returns (ok: bool, v: (Word, Word, Word), r: Outcome)
      requires 5 <= |b| && data == b[5..]
      modifies this
      ensures ok <==> length == 13 && |b| >= 17
      ensures ok ==> v == (WordOr(b, 5), WordOr(b, 9), WordOr(b, 13)) && data == b[17..]
      ensures !ok ==> r == Fixed(b, length, 13, KeepAlive) && Consumed(b, data, r)
    {
      hide WordOf;
      ok, v, r := false, (0, 0, 0), ParseError(5);
      if length != 13 {
        return;
      }
      var w := ReadThree();
      if w.None? {
        r := ShortRead;
        return;
      }
      ok, v := true, w.value;
    }

    /** The body of a Piece. */
    method PieceBytes(ghost b: seq<Byte>, length: nat) returns (r: Outcome)
      requires 5 <= |b| && data == b[5..] && b[4] == 7 && length > 0
      modifies this
      ensures r == DecodeBody(b, length) && Consumed(b, data, r)
    {
      hide WordOf, WordOr, ShortOr, DecodeExtended, Fixed;
      if length < 9 {
        return ParseError(5);
      }
      var index := ReadWord();
      if index.None? {
        return ShortRead;
      }
      var begin := ReadWord();
      if begin.None? {
        return ShortRead;
      }
      var bytes := ReadFull(length - 9);
      if bytes.None? {
        return ShortRead;
      }
      assert bytes.value == b[13..4 + length];
      r := Got(Piece(index.value, begin.value, bytes.value), 4 + length);
    }

    /** The body of an extended message. */
    method Extended(ghost b: seq<Byte>, length: nat) returns (r: Outcome)
      requires 5 <= |b| && data == b[5..]
      modifies this
      ensures r == DecodeExtended(b, length) && Consumed(b, data, r)
    {
      hide WordOf, Less2;
      var s := ReadFull(1);
      if s.None? {
        return ShortRead;
      }
      var subtype := s.value[0];
      if subtype == 0 || subtype == EXT_PEX {
        var payload := ReadLimited(Less2(length));
        return Bencoded(subtype, payload, 6 + |payload|);
      }
      if subtype == EXT_METADATA {
        var payload := ReadFull(Less2(length));
        return if payload.None? then ShortRead else Bencoded(EXT_METADATA, payload.value, 6 + Less2(length));
      }
      if subtype == EXT_DONT_HAVE {
        if Less2(length) != 4 {
          return ParseError(6);
        }
        var index := ReadWord();
        return if index.None? then ShortRead else Got(DontHave(EXT_DONT_HAVE, index.value), 10);
      }
      if subtype == EXT_UPLOAD_ONLY {
        if Less2(length) != 1 {
          return ParseError(6);
        }
        var v := ReadFull(1);
        if v.None? {
          return ParseError(6);
        }
        return if v.value[0] > 1 then ParseError(7) else Got(UploadOnly(EXT_UPLOAD_ONLY, v.value[0] == 1), 7);
      }
      var rest := ReadFull(Less2(length));
      return if rest.None? then ShortRead else Got(ExtendedUnknown(subtype), 6 + Less2(length));
    }

    /** A message without a body. */
    method BareBody(ghost b: seq<Byte>, tpe: Byte, length: nat) returns (r: Outcome)
      requires 5 <= |b| && data == b[5..] && b[4] == tpe && length > 0
      requires tpe <= 3 || tpe == 14 || tpe == 15
      ensures r == DecodeBody(b, length) && Consumed(b, data, r)
    {
      hide WordAt, WordOr, ShortOr, DecodeExtended;
      if tpe <= 3 {
        return if length != 1 then ParseError(5) else Got(if tpe == 0 then Choke else if tpe == 1 then Unchoke else if tpe == 2 then Interested else NotInterested, 5);
      }
      return if length != 1 then Nil(5) else Got(if tpe == 14 then HaveAll else HaveNone, 5);
    }

    /** A message of one word. */
    method IndexBody(ghost b: seq<Byte>, tpe: Byte, length: nat) returns (r: Outcome)
      requires 5 <= |b| && data == b[5..] && b[4] == tpe && length > 0
      requires tpe == 4 || tpe == 13 || tpe == 17
      modifies this
      ensures r == DecodeBody(b, length) && Consumed(b, data, r)
    {
      hide WordAt, WordOr, ShortOr, DecodeExtended;
      var ok, v;
      ok, v, r := WordBody(b, length);
      if ok {
        r := Got(if tpe == 4 then Have(v) else if tpe == 13 then SuggestPiece(v) else AllowedFast(v), 9);
      }
    }

    /** A message of three words. */
    method RangeBody(ghost b: seq<Byte>, tpe: Byte, length: nat) returns (r: Outcome)
      requires 5 <= |b| && data == b[5..] && b[4] == tpe && length > 0
      requires tpe == 6 || tpe == 8 || tpe == 16
      modifies this
      ensures r == DecodeBody(b, length) && Consumed(b, data, r)
    {
      hide WordAt, WordOr, ShortOr, DecodeExtended;
      var ok, v;
      ok, v, r := WordsBody(b, length);
      if ok {
        r := Got(if tpe == 6 then Request(v.0, v.1, v.2) else if tpe == 8 then Cancel(v.0, v.1, v.2) else RejectRequest(v.0, v.1, v.2), 17);
      }
    }

    /** The body of a Port. */
    method PortBody(ghost b: seq<Byte>, length: nat) returns (r: Outcome)
      requires 5 <= |b| && data == b[5..] && b[4] == 9 && length > 0
      modifies this
      ensures r == DecodeBody(b, length) && Consumed(b, data, r)
    {
      hide WordAt, WordOr, ShortOf, DecodeExtended;
      if length != 3 {
        return ParseError(5);
      }
      var port := ReadShort();
      return if port.None? then ShortRead else Got(Port(port.value), 7);
    }

    /** A bitfield, or a message of unknown type. */
    method RawBody(ghost b: seq<Byte>, tpe: Byte, length: nat) returns (r: Outcome)
      requires 5 <= |b| && data == b[5..] && b[4] == tpe && length > 0
      requires tpe == 5 || 10 <= tpe <= 12 || tpe == 18 || tpe == 19 || tpe > 20
      modifies this
      ensures r == DecodeBody(b, length) && Consumed(b, data, r)
    {
      hide WordAt, WordOr, ShortOr, DecodeExtended, Fixed;
      var rest := ReadFull(length - 1);
      if rest.None? {
        return ShortRead;
      }
      assert rest.value == b[5..4 + length];
      r := Got(if tpe == 5 then Bitfield(rest.value) else Unknown(tpe), 4 + length);
    }

    /** A message whose type is the extension protocol's. */
    method ExtendedBody(ghost b: seq<Byte>, length: nat) returns (r: Outcome)
      requires 5 <= |b| && data == b[5..] && b[4] == 20 && length > 0
      modifies this
      ensures r == DecodeBody(b, length) && Consumed(b, data, r)
    {
      hide Consumed, WordAt, WordOr, ShortOr, DecodeExtended, Fixed;
      r := Extended(b, length);
    }

    /** Read after the length and the type. */
    method ReadBody(ghost b: seq<Byte>, tpe: Byte, length: nat) returns (r: Outcome)
      requires 5 <= |b| && data == b[5..] && b[4] == tpe && length > 0
      modifies this
      ensures r == DecodeBody(b, length) && Consumed(b, data, r)
    {
      hide Consumed, DecodeBody;
      if tpe <= 3 || tpe == 14 || tpe == 15 {
        r := BareBody(b, tpe, length);
      } else if tpe == 4 || tpe == 13 || tpe == 17 {
        r := IndexBody(b, tpe, length);
      } else if tpe == 6 || tpe == 8 || tpe == 16 {
        r := RangeBody(b, tpe, length);
      } else if tpe == 7 {
        r := PieceBytes(b, length);
      } else if tpe == 9 {
        r := PortBody(b, length);
      } else if tpe == 20 {
        r := ExtendedBody(b, length);
      } else {
        r := RawBody(b, tpe, length);
      }
    }

    /** Models Read. */
    method Read() returns (r: Outcome)
      modifies this
      ensures r == Decode(old(data)) && Consumed(old(data), data, r)
    {
      hide WordOf, DecodeBody;
      ghost var b := data;
      var length := ReadWord();
      if length.None? {
        return ShortRead;
      }
      if length.value == 0 {
        return Got(KeepAlive, 4);
      }
      if length.value > LIMIT {
        return TooLong(4);
      }
      var tpe := ReadFull(1);
      if tpe.None? {
        return ShortRead;
      }
      r := ReadBody(b, tpe.value[0], length.value);
    }
  }

  /** Unless it ran out of bytes, a reader is left with those after the ones it consumed. */
  ghost predicate Consumed(b: seq<Byte>, rest: seq<Byte>, r: Outcome)
  {
    !r.ShortRead? ==> r.used <= |b| && rest == b[r.used..]
  }
}
