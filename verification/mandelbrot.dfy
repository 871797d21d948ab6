/** The escape-time engine MandelbrotSet: constructor validation, the
    default colour table, the block partition of the flattened raster and
    a sequential model of the per-pixel scan. The executor's threads run the
    blocks one after the other here; since blocks write disjoint pixels the
    order does not change the image. Cancellation (listener.isCancelled())
    is given by two oracles: one polled by the dispatch loop before block i,
    one polled before pixel p. */
module Mandelbrot {
  import opened Wrappers
  import opened Arith
  import opened Colors
  import opened EscapeTime

  /** Integer.MAX_VALUE: the raster size and block bounds are Java ints. */
  const IntMax: int := 0x7fff_ffff

  /** The ExecutorService argument: null, or an executor. */
  datatype Executor = NullExecutor | Pool

  /** The fields of a constructed set; `colors` is public and may be
      replaced entry by entry after construction. */
  datatype MandelbrotSet = MandelbrotSet(
    blocks: int, minX: real, minY: real, xScale: real, yScale: real,
    maxIterations: int, colors: seq<Color>)

  /** What the constructor guarantees, with the colour table of the right
      length. */
  predicate Valid(s: MandelbrotSet) {
    s.blocks > 0 && s.xScale != 0.0 && s.yScale != 0.0 && s.maxIterations > 0
    && |s.colors| == s.maxIterations
  }

  /** The linear ramp Color.color(i / max, 0, 0) for i in [0, max). */
  function LinearRamp(maxIterations: int): (t: seq<Color>)
    requires maxIterations > 0
    ensures |t| == maxIterations
  {
    seq(maxIterations, i requires 0 <= i < maxIterations => Red(i as real / maxIterations as real))
  }

  /** The default colour mapping: the linear ramp with its last entry
      replaced by black. */
  function DefaultColors(maxIterations: int): (t: seq<Color>)
    requires maxIterations > 0
    ensures |t| == maxIterations
    ensures forall i :: 0 <= i < maxIterations - 1 ==> t[i] == Red(i as real / maxIterations as real)
    ensures t[maxIterations - 1] == Black
  {
    LinearRamp(maxIterations)[maxIterations - 1 := Black]
  }

  /** Every default colour is a legal Color.color argument triple, so the
      table is built without an exception: a red channel in [0, 1), no
      green and no blue. */
  lemma DefaultColorsInRange(maxIterations: int)
    requires maxIterations > 0
    ensures forall i :: 0 <= i < maxIterations ==>
      var c := DefaultColors(maxIterations)[i];
      0.0 <= c.red < 1.0 && c.green == 0.0 && c.blue == 0.0
  {
    var t := DefaultColors(maxIterations);
    forall i | 0 <= i < maxIterations
      ensures 0.0 <= t[i].red < 1.0 && t[i].green == 0.0 && t[i].blue == 0.0
    {
      if i < maxIterations - 1 {
        var m := maxIterations as real;
        assert i as real < m;
        assert t[i].red == i as real / m;
      }
    }
  }

  /** The constructor. The checks run in source order and the first one that
      fails names its parameter. */
  function New(executor: Executor, blocks: int, minX: real, minY: real, xScale: real, yScale: real, maxIterations: int)
    : (r: Result<MandelbrotSet>)
    ensures r.Success? <==>
      blocks > 0 && executor.Pool? && xScale != 0.0 && yScale != 0.0 && maxIterations > 0
    ensures blocks <= 0 ==> r == Failure(IllegalArgument("blocks"))
    ensures blocks > 0 && executor == NullExecutor ==> r == Failure(IllegalArgument("executor"))
    ensures blocks > 0 && executor == Pool && xScale == 0.0 ==> r == Failure(IllegalArgument("xScale"))
    ensures blocks > 0 && executor == Pool && xScale != 0.0 && yScale == 0.0
      ==> r == Failure(IllegalArgument("yScale"))
    ensures blocks > 0 && executor == Pool && xScale != 0.0 && yScale != 0.0 && maxIterations <= 0
      ==> r == Failure(IllegalArgument("maxIterations"))
    ensures r.Success? ==> Valid(r.value) && r.value.colors == DefaultColors(maxIterations)
    ensures r.Success? ==> r.value.blocks == blocks && r.value.maxIterations == maxIterations
    ensures r.Success? ==> r.value.minX == minX && r.value.minY == minY
    ensures r.Success? ==> r.value.xScale == xScale && r.value.yScale == yScale
  {
    if blocks <= 0 then Failure(IllegalArgument("blocks"))
    else if executor == NullExecutor then Failure(IllegalArgument("executor"))
    else if xScale == 0.0 then Failure(IllegalArgument("xScale"))
    else if yScale == 0.0 then Failure(IllegalArgument("yScale"))
    else if maxIterations <= 0 then Failure(IllegalArgument("maxIterations"))
    else Success(MandelbrotSet(blocks, minX, minY, xScale, yScale, maxIterations, DefaultColors(maxIterations)))
  }

  /** The index into the colour table used for point (x, y):
      getIterations(x, y) - 1, always a valid index. */
  function ColorIndex(s: MandelbrotSet, x: real, y: real): (k: int)
    requires Valid(s)
    ensures 0 <= k < |s.colors|
  {
    Iterations(x, y, s.maxIterations) - 1
  }

  /** The point of the plane under pixel column px: minX + px * xScale. */
  function PointX(s: MandelbrotSet, px: int): real {
    s.minX + px as real * s.xScale
  }

  /** The point of the plane under pixel row py: minY + py * yScale. */
  function PointY(s: MandelbrotSet, py: int): real {
    s.minY + py as real * s.yScale
  }

  /** The colour of pixel (px, py): a function of the set and the pixel's
      own coordinates only. */
  function PixelColor(s: MandelbrotSet, px: int, py: int): (c: Color)
    requires Valid(s)
    ensures c in s.colors
  {
    s.colors[ColorIndex(s, PointX(s, px), PointY(s, py))]
  }

  /** The colour written for a pixel, colors[getIterations(x, y) - 1], is
      the pixel's colour. */
  lemma CountGivesPixelColor(s: MandelbrotSet, px: int, py: int, c: int)
    requires Valid(s) && c == Iterations(PointX(s, px), PointY(s, py), s.maxIterations)
    ensures 1 <= c <= |s.colors| && s.colors[c - 1] == PixelColor(s, px, py)
  {
  }

  /** A pixel that lands exactly on the origin never escapes and gets the
      last colour of the table, black by default. */
  lemma OriginPixelIsLastColor(s: MandelbrotSet, px: int, py: int)
    requires Valid(s)
    requires PointX(s, px) == 0.0 && PointY(s, py) == 0.0
    ensures PixelColor(s, px, py) == s.colors[s.maxIterations - 1]
    ensures s.colors == DefaultColors(s.maxIterations) ==> PixelColor(s, px, py) == Black
  {
    OriginNeverEscapes(s.maxIterations);
    var x, y := PointX(s, px), PointY(s, py);
    assert Iterations(x, y, s.maxIterations) == s.maxIterations;
    assert ColorIndex(s, x, y) == s.maxIterations - 1;
  }

  // ---------------------------------------------------------------------
  // The block partition

  /** blockSize = (int) ceil(size / (double) blocks). For sizes below 2^53
      the double quotient is never rounded onto an integer it is not, so the
      ceiling is exact; here it is computed on integers. */
  function BlockSize(size: int, blocks: int): (b: int)
    requires size >= 0 && blocks > 0
    ensures b >= 0
    ensures blocks * (b - 1) < size <= blocks * b
  {
    -((-size) / blocks)
  }

  /** Pixel p belongs to block i: blockMin <= p < blockMax with
      blockMin = blockSize * i and blockMax = min(blockMin + blockSize, size). */
  predicate InBlock(p: int, bs: int, i: int, size: int) {
    bs * i <= p < Min(bs * i + bs, size)
  }

  /** Multiplying by a positive width keeps whole rows apart. */
  lemma RowsApart(a: int, b: int, w: int)
    requires a < b && w > 0
    ensures a * w + w <= b * w
  {
    var d := b - a - 1;
    assert b * w == a * w + w + d * w;
    assert d * w >= 0;
  }

  /** The row (block) of an index is determined: q*w <= p < q*w + w fixes q. */
  lemma UniqueQuotient(p: int, w: int, q: int, r: int)
    requires w > 0
    requires q * w <= p < q * w + w && r * w <= p < r * w + w
    ensures q == r
  {
    if q < r {
      RowsApart(q, r, w);
      assert false;
    } else if q > r {
      RowsApart(r, q, w);
      assert false;
    }
  }

  lemma BlockOfPixel(p: int, bs: int, i: int)
    requires bs > 0 && bs * i <= p < bs * i + bs
    ensures p / bs == i
  {
    var q := p / bs;
    assert q * bs <= p < q * bs + bs;
    assert i * bs <= p < i * bs + bs;
    UniqueQuotient(p, bs, q, i);
  }

  /** No pixel belongs to two blocks. */
  lemma BlocksDisjoint(p: int, bs: int, i: int, j: int, size: int)
    requires InBlock(p, bs, i, size) && InBlock(p, bs, j, size)
    ensures i == j
  {
    assert bs > 0;
    BlockOfPixel(p, bs, i);
    BlockOfPixel(p, bs, j);
  }

  /** A pixel of the raster lies in block p / blockSize, one of the
      dispatched block indices. */
  lemma PixelInItsBlock(p: int, size: int, blocks: int)
    requires blocks > 0 && 0 <= p < size
    ensures BlockSize(size, blocks) > 0
    ensures 0 <= p / BlockSize(size, blocks) < blocks
    ensures InBlock(p, BlockSize(size, blocks), p / BlockSize(size, blocks), size)
  {
    var bs := BlockSize(size, blocks);
    var i := p / bs;
    assert i * bs <= p < i * bs + bs;
    assert p < bs * blocks;
    if i > blocks - 1 {
      RowsApart(blocks - 1, i, bs);
      assert false;
    }
  }

  /** Whatever block a pixel is in, it is a pixel of the raster. */
  lemma BlockInsideRaster(p: int, bs: int, i: int, size: int)
    requires bs >= 0 && i >= 0 && InBlock(p, bs, i, size)
    ensures 0 <= p < size
  {
    assert bs * i >= 0;
  }

  /** The blocks 0 .. blocks-1 cover exactly the raster [0, size): a pixel
      is in some block if and only if it is in range. */
  lemma BlocksCover(p: int, size: int, blocks: int)
    requires size >= 0 && blocks > 0
    ensures (exists i :: 0 <= i < blocks && InBlock(p, BlockSize(size, blocks), i, size)) <==> 0 <= p < size
  {
    var bs := BlockSize(size, blocks);
    if 0 <= p < size {
      PixelInItsBlock(p, size, blocks);
    }
    if exists i :: 0 <= i < blocks && InBlock(p, bs, i, size) {
      var i :| 0 <= i < blocks && InBlock(p, bs, i, size);
      BlockInsideRaster(p, bs, i, size);
    }
  }

  // ---------------------------------------------------------------------
  // From linear index to pixel

  /** (p % width, p / width). */
  function PixelOf(p: int, width: int): (xy: (int, int))
    requires width > 0
  {
    (p % width, p / width)
  }

  /** The linear index of pixel (x, y) in row-major order. */
  function IndexOf(x: int, y: int, width: int): int {
    y * width + x
  }

  /** Every index of the raster maps to a pixel inside the image. */
  lemma PixelOfInBounds(p: int, width: int, height: int)
    requires width > 0 && height > 0 && 0 <= p < width * height
    ensures 0 <= PixelOf(p, width).0 < width && 0 <= PixelOf(p, width).1 < height
  {
    var y := p / width;
    assert y * width <= p;
    if y > height - 1 {
      RowsApart(height - 1, y, width);
      assert false;
    }
  }

  /** PixelOf and IndexOf are inverse: the mapping of indices to pixels is
      injective, and onto the image. */
  lemma PixelIndexRoundTrip(p: int, width: int)
    requires width > 0
    ensures IndexOf(PixelOf(p, width).0, PixelOf(p, width).1, width) == p
  {
  }

  lemma IndexPixelRoundTrip(x: int, y: int, width: int)
    requires width > 0 && 0 <= x < width
    ensures PixelOf(IndexOf(x, y, width), width) == (x, y)
  {
    var p := y * width + x;
    var q := p / width;
    assert q * width <= p < q * width + width;
    UniqueQuotient(p, width, q, y);
  }

  lemma PixelOfInjective(p: int, q: int, width: int)
    requires width > 0 && PixelOf(p, width) == PixelOf(q, width)
    ensures p == q
  {
    PixelIndexRoundTrip(p, width);
    PixelIndexRoundTrip(q, width);
  }

  lemma IndexInRaster(x: int, y: int, width: int, height: int)
    requires 0 <= x < width && 0 <= y < height
    ensures 0 <= IndexOf(x, y, width) < width * height
  {
    RowsApart(y, height, width);
    assert height * width == width * height;
  }

  // ---------------------------------------------------------------------
  // The scan

  /** Pixel p is reached by its block: none of the cancellation polls from
      the start of its block up to and including its own saw cancellation. */
  predicate Reached(pixelCancelled: int -> bool, bs: int, p: int)
    requires bs > 0
  {
    forall q :: bs * (p / bs) <= q <= p ==> !pixelCancelled(q)
  }

  /** No pixel poll of the raster [0, size) sees cancellation. */
  predicate PixelsClear(pixelCancelled: int -> bool, size: int) {
    forall q :: 0 <= q < size ==> !pixelCancelled(q)
  }

  /** No dispatch poll sees cancellation. */
  predicate DispatchClear(dispatchCancelled: int -> bool, blocks: int) {
    forall i :: 0 <= i < blocks ==> !dispatchCancelled(i)
  }

  /** The pixel coordinates of a width x height raster. */
  function Grid(width: int, height: int): (g: set<(int, int)>)
    ensures forall k :: k in g <==> 0 <= k.0 < width && 0 <= k.1 < height
  {
    set x, y | 0 <= x < width && 0 <= y < height :: (x, y)
  }

  /** The finished picture: every pixel of the width x height raster with
      its colour. */
  function Raster(s: MandelbrotSet, width: int, height: int): map<(int, int), Color>
    requires Valid(s)
  {
    map k | k in Grid(width, height) :: PixelColor(s, k.0, k.1)
  }

  /** A pixel's colour depends only on its own coordinates, so the finished
      picture is the same whatever number of blocks the raster is split
      into. */
  lemma RasterIgnoresBlocks(s: MandelbrotSet, blocks: int, width: int, height: int)
    requires Valid(s) && blocks > 0
    ensures Raster(s.(blocks := blocks), width, height) == Raster(s, width, height)
  {
    var s' := s.(blocks := blocks);
    var r', r := Raster(s', width, height), Raster(s, width, height);
    assert r'.Keys == r.Keys;
    forall k | k in r.Keys
      ensures r'[k] == r[k]
    {
      PixelColorIgnoresBlocks(s, blocks, k.0, k.1);
    }
  }

  /** The colour of one pixel does not read the block count. */
  lemma PixelColorIgnoresBlocks(s: MandelbrotSet, blocks: int, px: int, py: int)
    requires Valid(s) && blocks > 0
    ensures PixelColor(s.(blocks := blocks), px, py) == PixelColor(s, px, py)
  {
    var s' := s.(blocks := blocks);
    assert PointX(s', px) == PointX(s, px) && PointY(s', py) == PointY(s, py);
    assert ColorIndex(s', PointX(s, px), PointY(s, py)) == ColorIndex(s, PointX(s, px), PointY(s, py));
  }

  /** The pixels written once the blocks have been run up to linear index n:
      those below n that their block reached, each with its colour. */
  function Painted(s: MandelbrotSet, width: int, height: int, pixelCancelled: int -> bool, bs: int, n: int)
    : map<(int, int), Color>
    requires Valid(s) && width > 0 && bs > 0
  {
    map k | k in Grid(width, height) && IndexOf(k.0, k.1, width) < n && Reached(pixelCancelled, bs, IndexOf(k.0, k.1, width))
      :: PixelColor(s, k.0, k.1)
  }

  /** Running pixel n adds it, with its colour, when its block reaches it,
      and nothing otherwise; it was not painted before. */
  lemma PaintedNext(s: MandelbrotSet, width: int, height: int, pixelCancelled: int -> bool, bs: int, n: int)
    requires Valid(s) && width > 0 && height > 0 && bs > 0 && 0 <= n < width * height
    ensures PixelOf(n, width) !in Painted(s, width, height, pixelCancelled, bs, n)
    ensures Reached(pixelCancelled, bs, n) ==>
      Painted(s, width, height, pixelCancelled, bs, n + 1)
      == Painted(s, width, height, pixelCancelled, bs, n)[PixelOf(n, width) := PixelColor(s, n % width, n / width)]
    ensures !Reached(pixelCancelled, bs, n) ==>
      Painted(s, width, height, pixelCancelled, bs, n + 1) == Painted(s, width, height, pixelCancelled, bs, n)
  {
    var before := Painted(s, width, height, pixelCancelled, bs, n);
    var after := Painted(s, width, height, pixelCancelled, bs, n + 1);
    var k := PixelOf(n, width);
    PixelOfInBounds(n, width, height);
    PixelIndexRoundTrip(n, width);
    forall x, y | (x, y) in after && (x, y) != k
      ensures (x, y) in before
    {
      IndexPixelRoundTrip(x, y, width);
    }
    if Reached(pixelCancelled, bs, n) {
      assert after == before[k := PixelColor(s, n % width, n / width)];
    } else {
      assert after == before;
    }
  }

  /** With no pixel poll cancelled, running every index paints the whole
      raster. */
  lemma PaintedAll(s: MandelbrotSet, width: int, height: int, pixelCancelled: int -> bool, bs: int)
    requires Valid(s) && width > 0 && height > 0 && bs > 0
    requires PixelsClear(pixelCancelled, width * height)
    ensures Painted(s, width, height, pixelCancelled, bs, width * height) == Raster(s, width, height)
  {
    var painted := Painted(s, width, height, pixelCancelled, bs, width * height);
    var raster := Raster(s, width, height);
    forall x, y | 0 <= x < width && 0 <= y < height
      ensures (x, y) in painted
    {
      IndexInRaster(x, y, width, height);
      var p := IndexOf(x, y, width);
      assert bs * (p / bs) >= 0;
      assert Reached(pixelCancelled, bs, p);
    }
    assert painted.Keys == raster.Keys;
  }

  /** The image as the scan writes it: pixels 0 .. n-1 in index order,
      each written with its colour when its block reaches it. */
  function Written(s: MandelbrotSet, width: int, pixelCancelled: int -> bool, bs: int, n: int)
    : map<(int, int), Color>
    requires Valid(s) && width > 0 && bs > 0 && n >= 0
    decreases n, 1
  {
    if n == 0 then map[] else WriteIndex(s, width, pixelCancelled, bs, n - 1)
  }

  /** Pixel q written onto the image of the indices before it, if its block
      reaches it. */
  function WriteIndex(s: MandelbrotSet, width: int, pixelCancelled: int -> bool, bs: int, q: int)
    : map<(int, int), Color>
    requires Valid(s) && width > 0 && bs > 0 && q >= 0
    decreases q + 1, 0
  {
    var before := Written(s, width, pixelCancelled, bs, q);
    if Reached(pixelCancelled, bs, q)
    then before[PixelOf(q, width) := PixelColor(s, q % width, q / width)]
    else before
  }

  /** Before the first index nothing is painted. */
  lemma PaintedNone(s: MandelbrotSet, width: int, height: int, pixelCancelled: int -> bool, bs: int)
    requires Valid(s) && width > 0 && bs > 0
    ensures Painted(s, width, height, pixelCancelled, bs, 0) == map[]
  {
    var m := Painted(s, width, height, pixelCancelled, bs, 0);
    forall k | k in Grid(width, height)
      ensures IndexOf(k.0, k.1, width) >= 0
    {
      assert k.1 * width >= 0;
    }
    assert m.Keys == {};
  }

  /** Writing in index order produces exactly the painted image: the pixels
      below n that their block reached, each with its own colour. */
  lemma {:induction false} WrittenIsPainted(s: MandelbrotSet, width: int, height: int, pixelCancelled: int -> bool, bs: int, n: int)
    requires Valid(s) && width > 0 && height > 0 && bs > 0 && 0 <= n <= width * height
    ensures Written(s, width, pixelCancelled, bs, n) == Painted(s, width, height, pixelCancelled, bs, n)
    decreases n
  {
    if n > 0 {
      WrittenIsPainted(s, width, height, pixelCancelled, bs, n - 1);
      PaintedNext(s, width, height, pixelCancelled, bs, n - 1);
      assert Written(s, width, pixelCancelled, bs, n) == WriteIndex(s, width, pixelCancelled, bs, n - 1);
    } else {
      PaintedNone(s, width, height, pixelCancelled, bs);
    }
  }

  /** A reached pixel is written once: it is not in the image written
      before it, so writing it adds one pixel. */
  lemma WrittenFresh(s: MandelbrotSet, width: int, height: int, pixelCancelled: int -> bool, bs: int, n: int)
    requires Valid(s) && width > 0 && height > 0 && bs > 0 && 0 <= n < width * height
    requires Reached(pixelCancelled, bs, n)
    ensures PixelOf(n, width) !in Written(s, width, pixelCancelled, bs, n)
    ensures Written(s, width, pixelCancelled, bs, n + 1)
         == Written(s, width, pixelCancelled, bs, n)[(n % width, n / width) := PixelColor(s, n % width, n / width)]
    ensures |Written(s, width, pixelCancelled, bs, n + 1)| == |Written(s, width, pixelCancelled, bs, n)| + 1
  {
    WrittenIsPainted(s, width, height, pixelCancelled, bs, n);
    PaintedNext(s, width, height, pixelCancelled, bs, n);
  }

  /** Indices none of which their block reaches write nothing. */
  lemma {:induction false} WrittenSkip(s: MandelbrotSet, width: int, pixelCancelled: int -> bool, bs: int, n: int, m: int)
    requires Valid(s) && width > 0 && bs > 0 && 0 <= n <= m
    requires forall q :: n <= q < m ==> !Reached(pixelCancelled, bs, q)
    ensures Written(s, width, pixelCancelled, bs, m) == Written(s, width, pixelCancelled, bs, n)
    decreases m - n
  {
    if n < m {
      WrittenSkip(s, width, pixelCancelled, bs, n, m - 1);
    }
  }

  /** Once the poll before pixel p of block i sees cancellation, the block's
      remaining pixels are not reached. */
  lemma CancelledBlockStops(pixelCancelled: int -> bool, bs: int, i: int, p: int, q: int)
    requires bs > 0 && bs * i <= p <= q < bs * i + bs && pixelCancelled(p)
    ensures !Reached(pixelCancelled, bs, q)
  {
    BlockOfPixel(q, bs, i);
  }

  /** Once block i sees cancellation before pixel p, the image is final
      for the whole block. */
  lemma CancelledBlockWritesNoMore(s: MandelbrotSet, width: int, pixelCancelled: int -> bool, bs: int, i: int,
                                   p: int, blockMax: int)
    requires Valid(s) && width > 0 && bs > 0
    requires 0 <= bs * i <= p < blockMax <= bs * i + bs && pixelCancelled(p)
    ensures Written(s, width, pixelCancelled, bs, blockMax) == Written(s, width, pixelCancelled, bs, p)
  {
    forall q | p <= q < blockMax
      ensures !Reached(pixelCancelled, bs, q)
    {
      CancelledBlockStops(pixelCancelled, bs, i, p, q);
    }
    WrittenSkip(s, width, pixelCancelled, bs, p, blockMax);
  }

  /** A pixel of block i whose block polls so far were all clear is reached. */
  lemma ClearPollsReach(pixelCancelled: int -> bool, bs: int, i: int, blockMin: int, p: int)
    requires bs > 0 && blockMin == bs * i && blockMin <= p < blockMin + bs
    requires forall q :: blockMin <= q <= p ==> !pixelCancelled(q)
    ensures Reached(pixelCancelled, bs, p)
  {
    BlockOfPixel(p, bs, i);
  }

  /** One pass of a block's pixel loop once its poll came back clear:
      pixel p, at (p % width, p / width), gets colors[getIterations(x, y) - 1]
      and is counted. */
  method WritePixel(s: MandelbrotSet, width: int, height: int, pixelCancelled: int -> bool, bs: int,
                    p: int, image: map<(int, int), Color>, increments: int)
    returns (image': map<(int, int), Color>, increments': int)
    requires Valid(s) && width > 0 && height > 0 && bs > 0 && 0 <= p < width * height
    requires Reached(pixelCancelled, bs, p)
    requires image == Written(s, width, pixelCancelled, bs, p) && increments == |image|
    ensures image' == Written(s, width, pixelCancelled, bs, p + 1) && increments' == |image'|
    ensures increments' == increments + 1
  {
    var pX, pY := p % width, p / width;
    var x, y := PointX(s, pX), PointY(s, pY);
    var c := GetIterations(x, y, s.maxIterations);
    CountGivesPixelColor(s, pX, pY, c);
    WrittenFresh(s, width, height, pixelCancelled, bs, p);
    image' := image[(pX, pY) := s.colors[c - 1]];
    increments' := increments + 1;
  }

  /** The runnable of block i: it writes the block's pixels in order,
      polling for cancellation before each and stopping at the first one
      that sees it, and counts every pixel it writes. */
  method ScanBlock(s: MandelbrotSet, width: int, height: int, pixelCancelled: int -> bool, bs: int, i: int,
                   image: map<(int, int), Color>, increments: int)
    returns (image': map<(int, int), Color>, increments': int)
    requires Valid(s) && width > 0 && height > 0 && bs > 0 && i >= 0
    requires image == Written(s, width, pixelCancelled, bs, Min(bs * i, width * height))
    requires increments == |image|
    requires PixelsClear(pixelCancelled, width * height) ==> increments == Min(bs * i, width * height)
    ensures image' == Written(s, width, pixelCancelled, bs, Min(bs * i + bs, width * height))
    ensures increments' == |image'|
    ensures PixelsClear(pixelCancelled, width * height) ==> increments' == Min(bs * i + bs, width * height)
  {
    var size := width * height;
    image', increments' := image, increments;
    var blockMin := bs * i;
    var blockMax := blockMin + bs;
    if blockMax > size {
      blockMax := size;
    }
    assert blockMax == Min(bs * i + bs, size);
    if blockMin < blockMax {
      image', increments' := ScanRange(s, width, height, pixelCancelled, bs, i, blockMin, blockMax, image, increments);
    }
  }

  /** The pixel loop of block i over [blockMin, blockMax), a non-empty part
      of the raster. */
  method ScanRange(s: MandelbrotSet, width: int, height: int, pixelCancelled: int -> bool, bs: int, i: int,
                   blockMin: int, blockMax: int, image: map<(int, int), Color>, increments: int)
    returns (image': map<(int, int), Color>, increments': int)
    requires Valid(s) && width > 0 && height > 0 && bs > 0
    requires 0 <= blockMin == bs * i && blockMin < blockMax <= blockMin + bs && blockMax <= width * height
    requires image == Written(s, width, pixelCancelled, bs, blockMin)
    requires increments == |image|
    requires PixelsClear(pixelCancelled, width * height) ==> increments == blockMin
    ensures image' == Written(s, width, pixelCancelled, bs, blockMax)
    ensures increments' == |image'|
    ensures PixelsClear(pixelCancelled, width * height) ==> increments' == blockMax
  {
    image', increments' := image, increments;
    var p := blockMin;
    while p < blockMax
      invariant blockMin <= p <= blockMax
      invariant forall q :: blockMin <= q < p ==> !pixelCancelled(q)
      invariant image' == Written(s, width, pixelCancelled, bs, p)
      invariant increments' == |image'|
      invariant PixelsClear(pixelCancelled, width * height) ==> increments' == p
    {
      if pixelCancelled(p) {
        CancelledBlockWritesNoMore(s, width, pixelCancelled, bs, i, p, blockMax);
        return;
      }
      ClearPollsReach(pixelCancelled, bs, i, blockMin, p);
      image', increments' := WritePixel(s, width, height, pixelCancelled, bs, p, image', increments');
      p := p + 1;
    }
  }

  /** What the dispatch loop leaves behind after running blocks
      0 .. dispatched-1: the painted image, which is the whole raster once
      every block ran and no pixel poll was cancelled. */
  lemma ScanOutcome(s: MandelbrotSet, width: int, height: int, pixelCancelled: int -> bool, dispatched: int,
                    image: map<(int, int), Color>)
    requires Valid(s) && width > 0 && height > 0 && 0 <= dispatched <= s.blocks
    requires image == Written(s, width, pixelCancelled, BlockSize(width * height, s.blocks),
      Min(BlockSize(width * height, s.blocks) * dispatched, width * height))
    ensures image == Painted(s, width, height, pixelCancelled, BlockSize(width * height, s.blocks),
      Min(BlockSize(width * height, s.blocks) * dispatched, width * height))
    ensures dispatched == s.blocks ==> Min(BlockSize(width * height, s.blocks) * dispatched, width * height) == width * height
    ensures dispatched == s.blocks && PixelsClear(pixelCancelled, width * height) ==> image == Raster(s, width, height)
  {
    var size := width * height;
    var bs := BlockSize(size, s.blocks);
    WrittenIsPainted(s, width, height, pixelCancelled, bs, Min(bs * dispatched, size));
    if dispatched == s.blocks {
      assert bs * s.blocks >= size;
      if PixelsClear(pixelCancelled, size) {
        PaintedAll(s, width, height, pixelCancelled, bs);
      }
    }
  }

  /** generate(writer, width, height, listener), sequentialised: the dispatch
      loop polls for cancellation before each block and stops dispatching
      once it sees it; each block polls before each of its pixels and stops
      at the first cancellation; every pixel written is counted once. */
  method Scan(s: MandelbrotSet, width: int, height: int, dispatchCancelled: int -> bool, pixelCancelled: int -> bool)
    returns (image: map<(int, int), Color>, increments: int, dispatched: int)
    requires Valid(s) && width > 0 && height > 0
    requires width * height <= IntMax && BlockSize(width * height, s.blocks) * s.blocks <= IntMax
    ensures 0 <= dispatched <= s.blocks
    ensures forall i :: 0 <= i < dispatched ==> !dispatchCancelled(i)
    ensures dispatched < s.blocks ==> dispatchCancelled(dispatched)
    ensures image == Painted(s, width, height, pixelCancelled, BlockSize(width * height, s.blocks),
      Min(BlockSize(width * height, s.blocks) * dispatched, width * height))
    ensures increments == |image|
    ensures DispatchClear(dispatchCancelled, s.blocks) && PixelsClear(pixelCancelled, width * height)
      ==> image == Raster(s, width, height) && increments == width * height
  {
    var size := width * height;
    var bs := BlockSize(size, s.blocks);
    assert bs > 0;
    image, increments, dispatched := map[], 0, 0;
    while dispatched < s.blocks
      invariant 0 <= dispatched <= s.blocks
      invariant forall i :: 0 <= i < dispatched ==> !dispatchCancelled(i)
      invariant image == Written(s, width, pixelCancelled, bs, Min(bs * dispatched, size))
      invariant increments == |image|
      invariant PixelsClear(pixelCancelled, size) ==> increments == Min(bs * dispatched, size)
    {
      if dispatchCancelled(dispatched) {
        break;
      }
      image, increments := ScanBlock(s, width, height, pixelCancelled, bs, dispatched, image, increments);
      assert bs * (dispatched + 1) == bs * dispatched + bs;
      dispatched := dispatched + 1;
    }
    ScanOutcome(s, width, height, pixelCancelled, dispatched, image);
  }

  /** generate(width, height, listener): a new image of the requested size,
      filled by the scan. The image constructor refuses a non-positive
      size before anything is scanned. */
  method Generate(s: MandelbrotSet, width: int, height: int, dispatchCancelled: int -> bool, pixelCancelled: int -> bool)
    returns (r: Result<map<(int, int), Color>>, increments: int)
    requires Valid(s)
    requires width > 0 && height > 0 ==>
      width * height <= IntMax && BlockSize(width * height, s.blocks) * s.blocks <= IntMax
    ensures r.Failure? <==> width <= 0 || height <= 0
    ensures r.Failure? ==> r.error == InvalidImageSize && increments == 0
    ensures r.Success? ==> increments == |r.value|
    ensures r.Success? ==> forall k :: k in r.value ==> 0 <= k.0 < width && 0 <= k.1 < height && r.value[k] == PixelColor(s, k.0, k.1)
    ensures r.Success? && DispatchClear(dispatchCancelled, s.blocks) && PixelsClear(pixelCancelled, width * height)
      ==> r.value == Raster(s, width, height) && increments == width * height
  {
    if width <= 0 || height <= 0 {
      return Failure(InvalidImageSize), 0;
    }
    var image, dispatched;
    image, increments, dispatched := Scan(s, width, height, dispatchCancelled, pixelCancelled);
    r := Success(image);
  }
}
