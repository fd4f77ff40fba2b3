/** Pieces and chunks: the 32-bit arithmetic that maps one to the other. */
module Geometry {
  import opened Arith

  const CHUNK: nat := 16384
  const U32: nat := 0x1_0000_0000

  /** A torrent's shape.  MetadataComplete accepts a piece size that is a multiple of the chunk
      size and a number of chunks that fits in 32 bits. */
  datatype Shape = Shape(pieceSize: nat, length: nat) {

    ghost predicate Valid()
    {
      && 0 < pieceSize < U32 && pieceSize % CHUNK == 0
      && Chunks() < U32
    }

    /** Chunks per piece. */
    function Cpp(): nat { pieceSize / CHUNK }

    function Chunks(): nat { (length + CHUNK - 1) / CHUNK }

    function Pieces(): nat
      requires pieceSize > 0
    {
      (length + pieceSize - 1) / pieceSize
    }

    /** Models PieceLength. */
    function PieceLength(index: nat): nat
      requires pieceSize > 0
    {
      PieceLengthOf(pieceSize, length / pieceSize, length % pieceSize, index)
    }

    /** Models pieceChunks. */
    function PieceChunks(index: nat): nat
      requires pieceSize > 0
    {
      Touched(PieceLength(index))
    }

    /** Models chunkSize. */
    function ChunkSize(chunk: nat): nat
    {
      if chunk < length / CHUNK % U32 then CHUNK else length % CHUNK % U32
    }

    /** Models toChunk, with its wrap-around. */
    function ToChunk(index: nat, begin: nat): nat
      requires Cpp() > 0
    {
      if index > (U32 - 1) / Cpp() then 0 else (index * Cpp() + begin / CHUNK) % U32
    }

    /** Models fromChunk, with its wrap-around. */
    function FromChunk(chunk: nat): (nat, nat)
      requires pieceSize > 0 && Cpp() > 0
    {
      (chunk / Cpp(), chunk * CHUNK % U32 % pieceSize)
    }

    /** The offset of a chunk in its piece, without wrap-around. */
    function TrueBegin(chunk: nat): nat
      requires Cpp() > 0
    {
      chunk % Cpp() * CHUNK
    }
  }

  /** How many chunks that many bytes touch, from a chunk's start on. */
  function Touched(length: nat): nat { (length + CHUNK - 1) / CHUNK }

  function PieceLengthOf(size: nat, full: nat, rest: nat, index: nat): nat
  {
    if index < full % U32 then size else if index == full % U32 then rest % U32 else 0
  }

  // ------------------------------------------------------------- the round trip

  /** When fromChunk computes the offset it should: the guard a caller can evaluate. */
  predicate BeginExact(g: Shape, chunk: nat)
    requires g.Cpp() > 0
  {
    chunk / 0x4_0000 * 0x4_0000 % g.Cpp() == 0
  }

  lemma ShapeCpp(g: Shape)
    requires g.Valid()
    ensures 0 < g.Cpp() < 0x4_0000 && g.pieceSize == g.Cpp() * CHUNK
  {
  }

  lemma WrapIsPiece(chunk: nat)
    ensures chunk * CHUNK / U32 == chunk / 0x4_0000
  {
  }

  /** fromChunk yields the chunk's true offset if and only if the guard holds. */
  lemma FromChunkExact(g: Shape, chunk: nat)
    requires g.Valid() && chunk < U32
    ensures g.FromChunk(chunk).1 == g.TrueBegin(chunk) <==> BeginExact(g, chunk)
  {
    ShapeCpp(g);
    var x, w, m := chunk * CHUNK, U32, g.Cpp() * CHUNK;
    ModMod(x, w, m);
    ScaledMod(chunk, g.Cpp(), CHUNK);
    WrapIsPiece(chunk);
    var k := chunk / 0x4_0000 * 0x4_0000;
    assert x / w * w == k * CHUNK;
    ScaledMod(k, g.Cpp(), CHUNK);
    assert k % g.Cpp() * CHUNK == 0 <==> k % g.Cpp() == 0;
  }

  lemma FromChunkAligned(g: Shape, chunk: nat)
    requires g.Valid()
    ensures g.FromChunk(chunk).1 % CHUNK == 0 && g.FromChunk(chunk).1 < g.pieceSize
  {
    ShapeCpp(g);
    var y, n := chunk % 0x4_0000, g.Cpp();
    ScaledMod(chunk, 0x4_0000, CHUNK);
    assert g.FromChunk(chunk).1 == y * CHUNK % (n * CHUNK);
    hide Shape.FromChunk, Shape.Cpp, Shape.Chunks;
    ScaledMod(y, n, CHUNK);
    Aligned(y, n);
  }

  lemma Aligned(y: nat, n: nat)
    requires n > 0
    ensures y % n * CHUNK % CHUNK == 0 && y % n * CHUNK < n * CHUNK
  {
    Euclid(y, n);
  }

  /** toChunk undoes fromChunk if and only if the guard holds. */
  lemma RoundTrip(g: Shape, chunk: nat)
    requires g.Valid() && chunk < U32
    ensures var (i, b) := g.FromChunk(chunk); g.ToChunk(i, b) == chunk <==> BeginExact(g, chunk)
  {
    ShapeCpp(g);
    var (i, b) := g.FromChunk(chunk);
    FromChunkExact(g, chunk);
    FromChunkAligned(g, chunk);
    var n := g.Cpp();
    Euclid(chunk, n);
    NoOverflow(i, n, chunk);
    var k := b / CHUNK;
    assert b == k * CHUNK && k < n;
    if k == chunk % n {
      assert b == g.TrueBegin(chunk);
    } else {
      assert b != g.TrueBegin(chunk);
      WrapDiffers(i * n, k, chunk % n);
    }
  }

  lemma NoOverflow(i: nat, n: nat, chunk: nat)
    requires n > 0 && i * n <= chunk < U32
    ensures i <= (U32 - 1) / n
  {
    QuotientBound(U32 - 1, n, i);
  }

  lemma WrapDiffers(base: nat, k: nat, r: nat)
    requires base + r < U32 && k < 0x4_0000 && r < 0x4_0000 && k != r
    ensures (base + k) % U32 != base + r
  {
  }

  /** The guard holds for every chunk of a torrent of at most 2^18 chunks, that is 4 GiB ... */
  lemma SmallTorrentExact(g: Shape, chunk: nat)
    requires g.Valid() && chunk < 0x4_0000
    ensures BeginExact(g, chunk)
  {
    ShapeCpp(g);
  }

  /** ... and for every chunk if the number of chunks per piece divides 2^18, in particular if
      the piece size is a power of two. */
  lemma PowerOfTwoExact(g: Shape, chunk: nat)
    requires g.Valid() && 0x4_0000 % g.Cpp() == 0
    ensures BeginExact(g, chunk)
  {
    ShapeCpp(g);
    var n, q := g.Cpp(), chunk / 0x4_0000;
    var k := 0x4_0000 / n;
    assert 0x4_0000 == k * n;
    assert q * 0x4_0000 == q * k * n + 0;
    DivMod(q * 0x4_0000, n, q * k, 0);
  }

  predicate PowerOfTwo(n: nat)
  {
    n == 1 || (n > 1 && n % 2 == 0 && PowerOfTwo(n / 2))
  }

  /** Of two powers of two, the smaller divides the larger. */
  lemma {:induction false} PowersDivide(m: nat, n: nat)
    requires PowerOfTwo(m) && PowerOfTwo(n) && n <= m
    ensures m % n == 0
    decreases n
  {
    if n > 1 {
      PowersDivide(m / 2, n / 2);
      ScaledMod(m / 2, n / 2, 2);
    }
  }

  lemma {:induction false} ChunksArePower(n: nat, k: nat)
    requires PowerOfTwo(n) && PowerOfTwo(k) && k <= n
    ensures PowerOfTwo(n / k)
    decreases k
  {
    if k > 1 {
      ChunksArePower(n / 2, k / 2);
      Halves(n, k);
    }
  }

  lemma Halves(n: nat, k: nat)
    requires n % 2 == 0 && k % 2 == 0 && k > 0
    ensures n / k == n / 2 / (k / 2)
  {
    var a, b := n / 2, k / 2;
    Euclid(a, b);
    DivMod(n, k, a / b, 2 * (a % b));
  }

  /** Every piece size that is a power of two is safe, whatever the length of the torrent. */
  lemma PowerOfTwoPieces(g: Shape, chunk: nat)
    requires g.Valid() && PowerOfTwo(g.pieceSize)
    ensures g.Cpp() > 0 && 0x4_0000 % g.Cpp() == 0 && BeginExact(g, chunk)
  {
    ShapeCpp(g);
    Powers();
    ChunksArePower(g.pieceSize, CHUNK);
    PowersDivide(0x4_0000, g.Cpp());
    PowerOfTwoExact(g, chunk);
  }

  lemma Doubles(n: nat)
    requires PowerOfTwo(n)
    ensures PowerOfTwo(2 * n) && PowerOfTwo(4 * n) && PowerOfTwo(8 * n) && PowerOfTwo(16 * n)
  {
    Twice(n);
    Twice(2 * n);
    Twice(4 * n);
    Twice(8 * n);
  }

  lemma Twice(n: nat)
    requires PowerOfTwo(n)
    ensures PowerOfTwo(2 * n)
  {
    assert 2 * n / 2 == n;
  }

  lemma Powers()
    ensures PowerOfTwo(CHUNK) && PowerOfTwo(0x4_0000)
  {
    assert PowerOfTwo(1);
    hide PowerOfTwo;
    Doubles(1);
    Doubles(0x10);
    Doubles(0x100);
    Doubles(0x1000);
    Doubles(0x1_0000);
  }

  /** With three chunks per piece the guard fails as soon as the product wraps around. */
  lemma ThreeChunkPiecesBreak()
    ensures var g := Shape(3 * CHUNK, 0x5_0000 * CHUNK);
            g.Valid() && 0x4_0000 < g.Chunks() && !BeginExact(g, 0x4_0000) && g.FromChunk(0x4_0000).1 == 0 != g.TrueBegin(0x4_0000)
  {
  }

  /** fromChunk undoes toChunk on every in-range, aligned position whose chunk passes the guard. */
  lemma RoundTripBack(g: Shape, index: nat, begin: nat)
    requires g.Valid() && begin % CHUNK == 0 && begin < g.pieceSize && index * g.Cpp() + begin / CHUNK < U32
    requires g.Cpp() > 0 && BeginExact(g, index * g.Cpp() + begin / CHUNK)
    ensures g.FromChunk(g.ToChunk(index, begin)) == (index, begin)
  {
    ShapeCpp(g);
    var n, k := g.Cpp(), begin / CHUNK;
    var c := index * n + k;
    assert k < n && begin == k * CHUNK;
    NoOverflow(index, n, c);
    assert g.ToChunk(index, begin) == c;
    DivMod(c, n, index, k);
    FromChunkExact(g, c);
  }

  // -------------------------------------------------------------------- sizes

  ghost function SumChunks(g: Shape, n: nat): nat
  {
    if n == 0 then 0 else SumChunks(g, n - 1) + g.ChunkSize(n - 1)
  }

  ghost function SumPieces(g: Shape, n: nat): nat
    requires g.pieceSize > 0
  {
    if n == 0 then 0 else SumPieces(g, n - 1) + g.PieceLength(n - 1)
  }

  lemma {:induction false} SumChunksFull(g: Shape, n: nat)
    requires n <= g.length / CHUNK < U32
    ensures SumChunks(g, n) == n * CHUNK
  {
    if n > 0 { SumChunksFull(g, n - 1); }
  }

  lemma {:induction false} SumPiecesFull(g: Shape, n: nat)
    requires 0 < g.pieceSize < U32 && n <= g.length / g.pieceSize < U32
    ensures SumPieces(g, n) == n * g.pieceSize
  {
    if n > 0 {
      SumPiecesFull(g, n - 1);
      Distribute(n - 1, 1, g.pieceSize);
    }
  }

  /** The chunk sizes add up to the torrent's length. */
  lemma ChunkSizesSum(g: Shape)
    requires g.Valid()
    ensures SumChunks(g, g.Chunks()) == g.length
  {
    SumChunksFull(g, g.length / CHUNK);
  }

  /** The piece lengths add up to the torrent's length. */
  lemma PieceLengthsSum(g: Shape)
    requires g.Valid()
    ensures SumPieces(g, g.Pieces()) == g.length
  {
    FewPieces(g);
    CeilDiv(g.length, g.pieceSize);
    Euclid(g.length, g.pieceSize);
    var q, r := g.length / g.pieceSize, g.length % g.pieceSize;
    SumPiecesFull(g, q);
    LastPiece(g, q, r);
    hide Shape.PieceLength, PieceLengthOf;
  }

  lemma LastPiece(g: Shape, q: nat, r: nat)
    requires g.pieceSize > 0 && q == g.length / g.pieceSize < U32 && r == g.length % g.pieceSize < U32
    ensures g.PieceLength(q) == r && SumPieces(g, q + 1) == SumPieces(g, q) + r
  {
  }

  lemma FewPieces(g: Shape)
    requires g.Valid()
    ensures g.length / g.pieceSize <= g.length / CHUNK < U32
  {
    DivAntitone(g.length, CHUNK, g.pieceSize);
  }
}
